/** The part of `main` (scripts/changelog_to_deb.py, 128-150) that decides which stanzas are written. */
module Stanzas {
  import opened Wrappers
  import opened Text
  import opened ChangelogParser

  datatype Stanza = Stanza(version: string, distribution: string, bullets: seq<Bullet>, date: string)

  predicate IsVersionChar(c: char) {
    IsDigit(c) || 'A' <= c <= 'Z' || 'a' <= c <= 'z' || c == '.' || c == '~' || c == '+' || c == '-'
  }

  // ^\d+\.\d+\.\d+[A-Za-z0-9.~+-]*$ as an automaton; at 1, 3 and 5 inside a number, at 6 behind the third.
  predicate Accepts(s: string, at: nat) {
    if s == "" then at >= 5
    else if IsDigit(s[0]) then Accepts(s[1..], if at == 0 || at == 2 || at == 4 then at + 1 else at)
    else if s[0] == '.' && (at == 1 || at == 3) then Accepts(s[1..], at + 1)
    else at >= 5 && IsVersionChar(s[0]) && Accepts(s[1..], 6)
  }

  predicate IsVersion(s: string) { Accepts(s, 0) }

  lemma {:induction false} VersionChars(s: string, at: nat)
    requires Accepts(s, at)
    ensures forall i :: 0 <= i < |s| ==> IsVersionChar(s[i])
  {
    if s != "" {
      VersionChars(s[1..], if IsDigit(s[0]) then (if at == 0 || at == 2 || at == 4 then at + 1 else at)
                           else if s[0] == '.' && (at == 1 || at == 3) then at + 1 else 6);
      assert forall i :: 1 <= i < |s| ==> s[i] == s[1..][i - 1];
    }
  }

  // ---------- the version pattern, by what is written ----------

  predicate IsNumber(s: string) {
    s != "" && forall i :: 0 <= i < |s| ==> '0' <= s[i] <= '9'
  }

  predicate IsSuffix(s: string) {
    forall i :: 0 <= i < |s| ==>
      '0' <= s[i] <= '9' || 'A' <= s[i] <= 'Z' || 'a' <= s[i] <= 'z' || s[i] in {'.', '~', '+', '-'}
  }

  // Three numbers with dots between them, and what may follow.
  ghost predicate IsWrittenVersion(s: string) {
    exists a, b, c, more :: IsNumber(a) && IsNumber(b) && IsNumber(c) && IsSuffix(more)
                            && s == a + "." + (b + "." + (c + more))
  }

  // Inside a number, at 1, 3 or 5, its digits change nothing.
  lemma {:induction false} AcceptsDigits(d: string, rest: string, at: nat)
    requires (at == 1 || at == 3 || at == 5) && forall i :: 0 <= i < |d| ==> IsDigit(d[i])
    ensures Accepts(d + rest, at) <==> Accepts(rest, at)
  {
    if d == "" {
      assert d + rest == rest;
    } else {
      assert (d + rest)[1..] == d[1..] + rest;
      AcceptsDigits(d[1..], rest, at);
    }
  }

  lemma AcceptsNumber(d: string, rest: string, at: nat)
    requires (at == 0 || at == 2 || at == 4) && IsNumber(d)
    ensures Accepts(d + rest, at) <==> Accepts(rest, at + 1)
  {
    assert (d + rest)[0] == d[0] && (d + rest)[1..] == d[1..] + rest;
    AcceptsDigits(d[1..], rest, at + 1);
  }

  lemma AcceptsDot(rest: string, at: nat)
    requires at == 1 || at == 3
    ensures Accepts("." + rest, at) <==> Accepts(rest, at + 1)
  {
    assert ("." + rest)[1..] == rest;
  }

  lemma {:induction false} AcceptsSuffix(s: string, at: nat)
    requires at == 5 || at == 6
    ensures Accepts(s, at) <==> IsSuffix(s)
  {
    if s != "" {
      AcceptsSuffix(s[1..], if IsDigit(s[0]) then at else 6);
      assert forall i :: 1 <= i < |s| ==> s[i] == s[1..][i - 1];
    }
  }

  // The digits at the front, and what is behind them.
  lemma {:induction false} LeadingDigits(s: string) returns (d: string, rest: string)
    ensures s == d + rest && (rest != "" ==> !IsDigit(rest[0])) && forall i :: 0 <= i < |d| ==> IsDigit(d[i])
  {
    d, rest := "", s;
    if s != "" && IsDigit(s[0]) {
      d, rest := LeadingDigits(s[1..]);
      d := [s[0]] + d;
    }
  }

  // What is accepted begins with a number.
  lemma BeginsWithNumber(s: string, at: nat) returns (d: string, rest: string)
    requires (at == 0 || at == 2 || at == 4) && Accepts(s, at)
    ensures IsNumber(d) && s == d + rest && (rest != "" ==> !IsDigit(rest[0])) && Accepts(rest, at + 1)
  {
    d, rest := LeadingDigits(s);
    assert d != "" || s == rest;
    AcceptsNumber(d, rest, at);
  }

  // Behind the first two numbers comes a dot.
  lemma ThenDot(s: string, at: nat) returns (rest: string)
    requires (at == 1 || at == 3) && Accepts(s, at) && (s != "" ==> !IsDigit(s[0]))
    ensures s == "." + rest && Accepts(rest, at + 1)
  {
    rest := s[1..];
    assert s == [s[0]] + rest;
  }

  lemma WrittenIsVersion(a: string, b: string, c: string, more: string)
    requires IsNumber(a) && IsNumber(b) && IsNumber(c) && IsSuffix(more)
    ensures IsVersion(a + "." + (b + "." + (c + more)))
  {
    AcceptsSuffix(more, 5);
    AcceptsNumber(c, more, 4);
    AcceptsDot(c + more, 3);
    AcceptsNumber(b, "." + (c + more), 2);
    assert b + ("." + (c + more)) == b + "." + (c + more);
    AcceptsDot(b + "." + (c + more), 1);
    AcceptsNumber(a, "." + (b + "." + (c + more)), 0);
    assert a + ("." + (b + "." + (c + more))) == a + "." + (b + "." + (c + more));
  }

  lemma VersionIsWritten(s: string)
    requires IsVersion(s)
    ensures IsWrittenVersion(s)
  {
    var a, s1 := BeginsWithNumber(s, 0);
    var s2 := ThenDot(s1, 1);
    var b, s3 := BeginsWithNumber(s2, 2);
    var s4 := ThenDot(s3, 3);
    var c, more := BeginsWithNumber(s4, 4);
    AcceptsSuffix(more, 5);
    assert s == a + "." + (b + "." + (c + more));
  }

  /** A label is a version exactly if it is written as one. */
  lemma VersionIff(s: string)
    ensures IsVersion(s) <==> IsWrittenVersion(s)
  {
    if IsVersion(s) { VersionIsWritten(s); }
    if IsWrittenVersion(s) {
      var a, b, c, more :| IsNumber(a) && IsNumber(b) && IsNumber(c) && IsSuffix(more)
                           && s == a + "." + (b + "." + (c + more));
      WrittenIsVersion(a, b, c, more);
    }
  }

  predicate IsRelease(s: Section) { IsVersion(s.title) && s.date.Some? }

  predicate IsUnreleased(s: Section) { Lower(s.title) == "unreleased" }

  // ---------- datetime.date.fromisoformat ----------

  function Digit(c: char): int
    requires IsDigit(c)
  {
    (c as int) - ('0' as int)
  }

  function DaysIn(year: int, month: int): int {
    if month == 2 then (if year % 4 == 0 && (year % 100 != 0 || year % 400 == 0) then 29 else 28)
    else if month == 4 || month == 6 || month == 9 || month == 11 then 30 else 31
  }

  // Raises unless there is such a day.
  predicate IsDay(s: string) {
    && IsDate(s)
    && var y := 1000 * Digit(s[0]) + 100 * Digit(s[1]) + 10 * Digit(s[2]) + Digit(s[3]);
       var m := 10 * Digit(s[5]) + Digit(s[6]);
       var d := 10 * Digit(s[8]) + Digit(s[9]);
       1 <= y && 1 <= m <= 12 && 1 <= d <= DaysIn(y, m)
  }

  // A number below ten as its digit.
  function DigitOf(n: nat): (c: char)
    requires n < 10
    ensures IsDigit(c) && Digit(c) == n
  {
    (('0' as int) + n) as char
  }

  function TwoDigits(n: nat): string
    requires n < 100
  {
    [DigitOf(n / 10), DigitOf(n % 10)]
  }

  // A date as it is written, by its numbers.
  function Written(y: nat, m: nat, d: nat): string
    requires y < 10000 && m < 100 && d < 100
  {
    TwoDigits(y / 100) + TwoDigits(y % 100) + "-" + TwoDigits(m) + "-" + TwoDigits(d)
  }

  lemma WrittenDate(y: nat, m: nat, d: nat)
    requires y < 10000 && m < 100 && d < 100
    ensures var s := Written(y, m, d);
            && IsDate(s)
            && 1000 * Digit(s[0]) + 100 * Digit(s[1]) + 10 * Digit(s[2]) + Digit(s[3]) == y
            && 10 * Digit(s[5]) + Digit(s[6]) == m && 10 * Digit(s[8]) + Digit(s[9]) == d
  {
    var s := Written(y, m, d);
    assert s[0] == DigitOf(y / 100 / 10) && s[1] == DigitOf(y / 100 % 10);
    assert s[2] == DigitOf(y % 100 / 10) && s[3] == DigitOf(y % 100 % 10);
    assert s[5] == DigitOf(m / 10) && s[6] == DigitOf(m % 10) && s[8] == DigitOf(d / 10) && s[9] == DigitOf(d % 10);
  }

  /** The days that exist: 31 in January, March, May, July, August, October and December, 30 in April, June,
      September and November, 28 in February, and 29 every fourth year, but for the hundreds that are not
      divisible by 400. There is no year 0. */
  lemma DayIff(y: nat, m: nat, d: nat)
    requires y < 10000 && m < 100 && d < 100
    ensures IsDay(Written(y, m, d)) <==>
              && 1 <= y && 1 <= d
              && ((m in {1, 3, 5, 7, 8, 10, 12} && d <= 31)
                  || (m in {4, 6, 9, 11} && d <= 30)
                  || (m == 2 && d <= 28)
                  || (m == 2 && d == 29 && y % 4 == 0 && (y % 100 == 0 ==> y % 400 == 0)))
  {
    WrittenDate(y, m, d);
  }

  lemma UnreleasedIff(s: Section)
    ensures IsUnreleased(s) <==> SameUpToCase(s.title, "unreleased")
  {
    LowerIff(s.title, "unreleased");
  }

  // ---------- the selection ----------

  predicate Dated(sections: seq<Section>) {
    forall i :: 0 <= i < |sections| ==> sections[i].date.Some?
  }

  function Releases(sections: seq<Section>): (r: seq<Section>)
    ensures Dated(r)
  {
    if sections == [] then []
    else (if IsRelease(sections[0]) then [sections[0]] else []) + Releases(sections[1..])
  }

  lemma {:induction false} ReleasesAreReleases(sections: seq<Section>)
    ensures forall i :: 0 <= i < |Releases(sections)| ==> IsRelease(Releases(sections)[i])
  {
    if sections != [] { ReleasesAreReleases(sections[1..]); }
  }

  function FirstUnreleased(sections: seq<Section>): Option<Section> {
    if sections == [] then None
    else if IsUnreleased(sections[0]) then Some(sections[0]) else FirstUnreleased(sections[1..])
  }

  function UnreleasedBullets(sections: seq<Section>): seq<Bullet> {
    if FirstUnreleased(sections).Some? then FirstUnreleased(sections).value.bullets else []
  }

  predicate Names(releases: seq<Section>, version: string) {
    exists i :: 0 <= i < |releases| && releases[i].title == version
  }

  // A released section's stanza; `noon` renders a day.
  function StanzaOf(s: Section, noon: string -> string): Stanza
    requires s.date.Some?
  {
    Stanza(s.title, "stable", s.bullets, noon(s.date.value))
  }

  datatype Selection = Selected(stanzas: seq<Stanza>, warning: bool) | BadDate | NoSections

  lemma ReleasesStep(sections: seq<Section>, i: nat, found: seq<Section>)
    requires i < |sections|
    ensures found + Releases(sections[i..])
         == (if IsRelease(sections[i]) then found + [sections[i]] else found) + Releases(sections[i + 1..])
  {
    assert sections[i..][0] == sections[i] && sections[i..][1..] == sections[i + 1..];
    var rest := Releases(sections[i + 1..]);
    assert found + ([sections[i]] + rest) == found + [sections[i]] + rest;
  }

  // The first comprehension, 129.
  method FindReleases(sections: seq<Section>) returns (released: seq<Section>)
    ensures released == Releases(sections)
  {
    released := [];
    var i := 0;
    assert sections[0..] == sections;
    while i < |sections|
      invariant i <= |sections|
      invariant released + Releases(sections[i..]) == Releases(sections)
    {
      ReleasesStep(sections, i, released);
      if IsRelease(sections[i]) {
        released := released + [sections[i]];
      }
      i := i + 1;
    }
  }

  // The loop, 146-147; false when a date does not exist.
  method AddReleases(top: seq<Stanza>, released: seq<Section>, noon: string -> string)
    returns (ok: bool, stanzas: seq<Stanza>)
    requires Dated(released)
    ensures ok <==> forall i :: 0 <= i < |released| ==> IsDay(released[i].date.value)
    ensures ok ==> stanzas == top + Stable(released, noon)
  {
    stanzas := top;
    var i := 0;
    while i < |released|
      invariant i <= |released|
      invariant stanzas == top + Stable(released, noon)[..i]
      invariant forall j :: 0 <= j < i ==> IsDay(released[j].date.value)
    {
      if !IsDay(released[i].date.value) { return false, stanzas; }
      stanzas := stanzas + [StanzaOf(released[i], noon)];
      i := i + 1;
    }
    return true, stanzas;
  }

  method SelectStanzas(sections: seq<Section>, version: string, now: string, noon: string -> string)
    returns (r: Selection)
    ensures r.BadDate? <==> !DatesExist(Releases(sections))
    ensures !r.NoSections?
    ensures r.Selected? ==> r.stanzas == Expected(sections, version, now, noon)
    ensures r.Selected? ==> (r.warning <==> Names(Releases(sections), version) && UnreleasedBullets(sections) != [])
  {
    var released := FindReleases(sections);
    var unreleased := FirstUnreleased(sections);
    var stanzas: seq<Stanza> := [];
    var warning := false;
    if Names(released, version) {
      warning := unreleased.Some? && unreleased.value.bullets != [];
    } else {
      var bullets := if unreleased.Some? then unreleased.value.bullets else [];
      stanzas := [Stanza(version, "UNRELEASED", bullets, now)];
    }
    var ok;
    ok, stanzas := AddReleases(stanzas, released, noon);
    if !ok { return BadDate; }
    assert stanzas == Expected(sections, version, now, noon);
    if stanzas == [] { return NoSections; }
    return Selected(stanzas, warning);
  }

  predicate DatesExist(releases: seq<Section>)
    requires Dated(releases)
  {
    forall i :: 0 <= i < |releases| ==> IsDay(releases[i].date.value)
  }

  function Stable(releases: seq<Section>, noon: string -> string): seq<Stanza>
    requires Dated(releases)
  {
    seq(|releases|, i requires 0 <= i < |releases| => StanzaOf(releases[i], noon))
  }

  function Expected(sections: seq<Section>, version: string, now: string, noon: string -> string): seq<Stanza> {
    (if Names(Releases(sections), version) then []
     else [Stanza(version, "UNRELEASED", UnreleasedBullets(sections), now)])
    + Stable(Releases(sections), noon)
  }

  // ---------- what the selection amounts to ----------

  // Where in the file, from section i on, the released sections are.
  function Positions(sections: seq<Section>, i: nat): seq<nat>
    requires i <= |sections|
    decreases |sections| - i
  {
    if i == |sections| then []
    else (if IsRelease(sections[i]) then [i] else []) + Positions(sections, i + 1)
  }

  lemma {:induction false} PositionsAreReleases(sections: seq<Section>, i: nat)
    requires i <= |sections|
    ensures |Positions(sections, i)| == |Releases(sections[i..])|
    ensures forall k :: 0 <= k < |Positions(sections, i)| ==>
              var p := Positions(sections, i)[k];
              i <= p < |sections| && IsRelease(sections[p]) && sections[p] == Releases(sections[i..])[k]
    decreases |sections| - i
  {
    if i < |sections| {
      PositionsAreReleases(sections, i + 1);
      var rest, ps := Positions(sections, i + 1), Positions(sections, i);
      assert sections[i..][0] == sections[i] && sections[i..][1..] == sections[i + 1..];
      var rs := Releases(sections[i + 1..]);
      if IsRelease(sections[i]) {
        assert ps == [i] + rest && Releases(sections[i..]) == [sections[i]] + rs;
        forall k | 0 <= k < |ps|
          ensures i <= ps[k] < |sections| && IsRelease(sections[ps[k]]) && sections[ps[k]] == Releases(sections[i..])[k]
        {
          if k > 0 { assert ps[k] == rest[k - 1] && ([sections[i]] + rs)[k] == rs[k - 1]; }
        }
      } else {
        assert ps == rest && Releases(sections[i..]) == rs;
      }
    }
  }

  lemma {:induction false} PositionsAreAll(sections: seq<Section>, i: nat)
    requires i <= |sections|
    ensures forall k :: 0 <= k < |Positions(sections, i)| ==> i <= Positions(sections, i)[k]
    ensures forall k, l :: 0 <= k < l < |Positions(sections, i)| ==>
              Positions(sections, i)[k] < Positions(sections, i)[l]
    ensures forall j :: i <= j < |sections| && IsRelease(sections[j]) ==> j in Positions(sections, i)
    decreases |sections| - i
  {
    if i < |sections| {
      PositionsAreAll(sections, i + 1);
    }
  }

  predicate IsBuilt(s: Section, version: string) { IsRelease(s) && s.title == version }

  // Some released section is the version being built.
  predicate BuiltIsReleased(sections: seq<Section>, version: string) {
    exists i :: 0 <= i < |sections| && IsBuilt(sections[i], version)
  }

  lemma NamedIff(sections: seq<Section>, version: string)
    ensures Names(Releases(sections), version) <==> BuiltIsReleased(sections, version)
  {
    PositionsAreReleases(sections, 0);
    PositionsAreAll(sections, 0);
    assert sections[0..] == sections;
    var ps, releases := Positions(sections, 0), Releases(sections);
    forall i | 0 <= i < |sections| && IsBuilt(sections[i], version) ensures Names(releases, version) {
      var k :| 0 <= k < |ps| && ps[k] == i;
      assert releases[k] == sections[i];
    }
    forall k | 0 <= k < |releases| && releases[k].title == version ensures BuiltIsReleased(sections, version) {
      assert IsBuilt(sections[ps[k]], version);
    }
  }

  // Stanza number k is that of section number p.
  predicate StanzaFor(stanzas: seq<Stanza>, k: nat, sections: seq<Section>, p: nat, noon: string -> string) {
    && k < |stanzas| && p < |sections| && IsVersion(sections[p].title) && sections[p].date.Some?
    && stanzas[k] == Stanza(sections[p].title, "stable", sections[p].bullets, noon(sections[p].date.value))
  }

  lemma StanzaIsFor(sections: seq<Section>, k: nat, noon: string -> string)
    requires k < |Positions(sections, 0)|
    ensures StanzaFor(Stable(Releases(sections), noon), k, sections, Positions(sections, 0)[k], noon)
  {
    PositionsAreReleases(sections, 0);
    assert sections[0..] == sections;
  }

  /** The stanzas: one for every dated, version-shaped section, in file order, with that section's bullets;
      before them exactly one UNRELEASED stanza, with the bullets of the first "Unreleased" section, if
      and only if no such section names the version being built. */
  lemma SelectionIsComplete(sections: seq<Section>, version: string, now: string, noon: string -> string)
    returns (top: seq<Stanza>)
    ensures top == if BuiltIsReleased(sections, version) then []
                   else [Stanza(version, "UNRELEASED", UnreleasedBullets(sections), now)]
    ensures top <= Expected(sections, version, now, noon)
    ensures var rest, ps := Expected(sections, version, now, noon)[|top|..], Positions(sections, 0);
            |rest| == |ps| && forall k :: 0 <= k < |ps| ==> StanzaFor(rest, k, sections, ps[k], noon)
  {
    NamedIff(sections, version);
    var stable := Stable(Releases(sections), noon);
    top := if Names(Releases(sections), version) then []
           else [Stanza(version, "UNRELEASED", UnreleasedBullets(sections), now)];
    assert Expected(sections, version, now, noon) == top + stable;
    assert (top + stable)[|top|..] == stable;
    PositionsAreReleases(sections, 0);
    assert sections[0..] == sections;
    forall k | 0 <= k < |Positions(sections, 0)|
      ensures StanzaFor(stable, k, sections, Positions(sections, 0)[k], noon)
    {
      StanzaIsFor(sections, k, noon);
    }
  }

  /** And these are all such sections, in the order they have in the file. */
  lemma PositionsAreComplete(sections: seq<Section>)
    ensures forall j, k :: 0 <= j < k < |Positions(sections, 0)| ==>
              Positions(sections, 0)[j] < Positions(sections, 0)[k]
    ensures forall i :: 0 <= i < |sections| ==>
              (IsVersion(sections[i].title) && sections[i].date.Some? <==> i in Positions(sections, 0))
  {
    PositionsAreAll(sections, 0);
    PositionsAreReleases(sections, 0);
  }

  /** The version being built always appears, so there is always something to write. */
  lemma BuiltVersionAppears(sections: seq<Section>, version: string, now: string, noon: string -> string)
    returns (k: nat)
    ensures k < |Expected(sections, version, now, noon)| && Expected(sections, version, now, noon)[k].version == version
  {
    var releases := Releases(sections);
    k := 0;
    if Names(releases, version) {
      k :| 0 <= k < |releases| && releases[k].title == version;
    }
  }

  /** "Unreleased" in any letter case; the first such section counts. */
  lemma {:induction false} UnreleasedIsFirst(sections: seq<Section>, i: nat)
    requires i < |sections| && SameUpToCase(sections[i].title, "unreleased")
    requires forall j :: 0 <= j < i ==> !SameUpToCase(sections[j].title, "unreleased")
    ensures FirstUnreleased(sections) == Some(sections[i])
  {
    UnreleasedIff(sections[0]);
    if i > 0 {
      UnreleasedIsFirst(sections[1..], i - 1);
    }
  }
}
