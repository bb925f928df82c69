/** What the text of a debian/changelog determines, whoever reads it: when no other changelog has it. */
module DebianText {
  import opened Sequences
  import opened Text
  import opened ChangelogParser
  import opened Stanzas
  import opened DebianChangelog
  import opened DebianReader

  // The same text, with a shorter name and longer versions.

  function ShortName(c: Setup): Setup { c.(package := c.package[..OpenAt(c.package)]) }

  function LongVersion(c: Setup, s: Stanza): Stanza
    requires HasOpen(c.package)
  {
    s.(version := c.package[OpenAt(c.package) + 2..] + OPEN + s.version)
  }

  function LongVersions(c: Setup, stanzas: seq<Stanza>): seq<Stanza>
    requires HasOpen(c.package)
  {
    if stanzas == [] then [] else [LongVersion(c, stanzas[0])] + LongVersions(c, stanzas[1..])
  }

  lemma {:induction false} SameBullets(c: Setup, d: Setup, bullets: seq<Bullet>)
    requires c.plain == d.plain
    ensures BulletLines(c, bullets) == BulletLines(d, bullets)
  {
    if bullets != [] { SameBullets(c, d, bullets[1..]); }
  }

  lemma {:induction false} OpenIsOpen(s: string)
    requires HasOpen(s)
    ensures s == s[..OpenAt(s)] + OPEN + s[OpenAt(s) + 2..] && !HasOpen(s[..OpenAt(s)])
  {
    if !(OPEN <= s) {
      OpenIsOpen(s[1..]);
      var i := OpenAt(s[1..]);
      assert s[..i + 1] == [s[0]] + s[1..][..i] && s[1..][i + 2..] == s[i + 3..];
      assert s[..i + 1][1..] == s[1..][..i];
      assert !(OPEN <= s[..i + 1]);
    }
  }

  lemma SameHeader(c: Setup, s: Stanza)
    requires HasOpen(c.package)
    ensures Header(ShortName(c), LongVersion(c, s)) == Header(c, s)
  {
    OpenIsOpen(c.package);
    var a, b := c.package[..OpenAt(c.package)], c.package[OpenAt(c.package) + 2..];
    Assoc(a + OPEN, b, OPEN);
    Assoc(a + OPEN, b + OPEN, s.version);
  }

  lemma SameStanza(c: Setup, s: Stanza)
    requires HasOpen(c.package)
    ensures StanzaLines(ShortName(c), LongVersion(c, s)) == StanzaLines(c, s)
  {
    SameHeader(c, s);
    SameBullets(c, ShortName(c), s.bullets);
  }

  lemma {:induction false} SameText(c: Setup, stanzas: seq<Stanza>)
    requires HasOpen(c.package)
    ensures FileLines(ShortName(c), LongVersions(c, stanzas)) == FileLines(c, stanzas)
            && |LongVersions(c, stanzas)| == |stanzas|
  {
    if stanzas != [] {
      SameText(c, stanzas[1..]);
      SameStanza(c, stanzas[0]);
      var more := LongVersions(c, stanzas);
      assert more[0] == LongVersion(c, stanzas[0]) && more[1..] == LongVersions(c, stanzas[1..]);
    }
  }

  lemma {:induction false} LongIsOneLine(c: Setup, stanzas: seq<Stanza>)
    requires OneLineSetup(c) && OneLineStanzas(stanzas) && HasOpen(c.package)
    ensures OneLineSetup(ShortName(c)) && OneLineStanzas(LongVersions(c, stanzas))
  {
    if stanzas != [] {
      LongIsOneLine(c, stanzas[1..]);
      assert OneLineStanza(stanzas[0]);
      assert OneLineStanza(LongVersion(c, stanzas[0]));
    }
  }

  // ---------- what the text determines, for any reader ----------

  // Every changelog with this text says the same.
  ghost predicate TextDetermines(c: Setup, a: seq<Stanza>) {
    forall d, b :: OneLineSetup(d) && OneLineStanzas(b) && Unlines(FileLines(d, b)) == Unlines(FileLines(c, a)) ==>
        EntriesOf(d, b) == EntriesOf(c, a)
  }

  // All versions begin alike, up to and with the first " (" of the first of them.
  predicate ShareOpen(a: seq<Stanza>) {
    a != [] && HasOpen(a[0].version) && forall i :: 0 <= i < |a| ==> UpToOpen(a[0].version) <= a[i].version
  }

  function UpToOpen(s: string): string
    requires HasOpen(s)
  {
    s[..OpenAt(s) + 2]
  }

  // What is common to two versions, with a " (" in it, goes up to the first one at least.
  lemma SharedUpToOpen(q: string, v: string, w: string)
    requires q + OPEN <= v && q + OPEN <= w
    ensures HasOpen(v) && UpToOpen(v) <= w
  {
    var rest := v[|q| + 2..];
    assert v == q + OPEN + rest;
    FirstOpen(q, rest);
    assert v[..|q| + 2] == w[..|q| + 2];
    assert UpToOpen(v) == v[..|q| + 2][..OpenAt(v) + 2];
  }

  lemma {:induction false} EntriesAt(c: Setup, stanzas: seq<Stanza>)
    ensures |EntriesOf(c, stanzas)| == |stanzas|
    ensures forall i :: 0 <= i < |stanzas| ==> EntriesOf(c, stanzas)[i] == EntryOf(c, stanzas[i])
  {
    if stanzas != [] {
      EntriesAt(c, stanzas[1..]);
      assert forall i :: 1 <= i < |stanzas| ==> stanzas[i] == stanzas[1..][i - 1];
    }
  }

  lemma {:induction false} LongVersionsAt(c: Setup, stanzas: seq<Stanza>)
    requires HasOpen(c.package)
    ensures |LongVersions(c, stanzas)| == |stanzas|
    ensures forall i :: 0 <= i < |stanzas| ==> LongVersions(c, stanzas)[i] == LongVersion(c, stanzas[i])
  {
    if stanzas != [] {
      LongVersionsAt(c, stanzas[1..]);
      assert forall i :: 1 <= i < |stanzas| ==> stanzas[i] == stanzas[1..][i - 1];
    }
  }

  // With " (" in the name, another changelog has the same text and says something else.
  lemma NameIsAmbiguous(c: Setup, a: seq<Stanza>)
    requires OneLineSetup(c) && OneLineStanzas(a) && a != [] && HasOpen(c.package)
    ensures FileLines(ShortName(c), LongVersions(c, a)) == FileLines(c, a)
    ensures OneLineSetup(ShortName(c)) && OneLineStanzas(LongVersions(c, a))
    ensures EntriesOf(ShortName(c), LongVersions(c, a)) != EntriesOf(c, a)
  {
    SameText(c, a);
    LongIsOneLine(c, a);
    LongVersionsAt(c, a);
    EntriesAt(c, a);
    EntriesAt(ShortName(c), LongVersions(c, a));
    assert |LongVersion(c, a[0]).version| > |a[0].version|;
  }

  // The reverse: what all versions begin with, moved into the name.

  function LongName(c: Setup, q: string): Setup { c.(package := c.package + OPEN + q) }

  function ShortVersion(s: Stanza, n: nat): Stanza
    requires n <= |s.version|
  {
    s.(version := s.version[n..])
  }

  function ShortVersions(a: seq<Stanza>, n: nat): seq<Stanza>
    requires forall i :: 0 <= i < |a| ==> n <= |a[i].version|
  {
    seq(|a|, i requires 0 <= i < |a| => ShortVersion(a[i], n))
  }

  // Moving it back.
  lemma LongNameShortens(c: Setup, q: string)
    requires !HasOpen(c.package)
    ensures HasOpen(LongName(c, q).package) && OpenAt(LongName(c, q).package) == |c.package|
    ensures ShortName(LongName(c, q)) == c && LongName(c, q).package[|c.package| + 2..] == q
  {
    FirstOpen(c.package, q);
  }

  lemma LongAgain(c: Setup, q: string, a: seq<Stanza>)
    requires !HasOpen(c.package) && HasOpen(LongName(c, q).package)
    requires forall i :: 0 <= i < |a| ==> q + OPEN <= a[i].version
    ensures LongVersions(LongName(c, q), ShortVersions(a, |q| + 2)) == a
  {
    var d, b := LongName(c, q), ShortVersions(a, |q| + 2);
    LongNameShortens(c, q);
    LongVersionsAt(d, b);
    forall i | 0 <= i < |a| ensures LongVersion(d, b[i]) == a[i] {
      assert a[i].version == a[i].version[..|q| + 2] + a[i].version[|q| + 2..];
      assert a[i].version[..|q| + 2] == q + OPEN;
    }
  }

  lemma ShortAreOneLine(a: seq<Stanza>, n: nat)
    requires OneLineStanzas(a) && forall i :: 0 <= i < |a| ==> n <= |a[i].version|
    ensures OneLineStanzas(ShortVersions(a, n))
  {
    forall i | 0 <= i < |a| ensures OneLineStanza(ShortVersions(a, n)[i]) {
      assert OneLineStanza(a[i]);
    }
  }

  // The name that goes with the shorter versions.
  lemma LongNameIsOneLine(c: Setup, q: string, v: string)
    requires OneLineSetup(c) && OneLine(v) && q <= v
    ensures OneLineSetup(LongName(c, q))
  {
  }

  // What is shared, without the " (" it ends in.
  lemma OpenPart(v: string) returns (q: string)
    requires HasOpen(v)
    ensures q + OPEN == UpToOpen(v) && q <= v
  {
    OpenIsOpen(v);
    q := v[..OpenAt(v)];
  }

  lemma VersionsAreAmbiguous(c: Setup, a: seq<Stanza>) returns (d: Setup, b: seq<Stanza>)
    requires OneLineSetup(c) && OneLineStanzas(a) && !HasOpen(c.package) && ShareOpen(a)
    ensures OneLineSetup(d) && OneLineStanzas(b)
    ensures FileLines(d, b) == FileLines(c, a) && EntriesOf(d, b) != EntriesOf(c, a)
  {
    var q := OpenPart(a[0].version);
    assert forall i :: 0 <= i < |a| ==> q + OPEN <= a[i].version;
    d, b := LongName(c, q), ShortVersions(a, |q| + 2);
    assert OneLineStanza(a[0]);
    LongNameIsOneLine(c, q, a[0].version);
    LongNameShortens(c, q);
    LongAgain(c, q, a);
    ShortAreOneLine(a, |q| + 2);
    NameIsAmbiguous(d, b);
  }

  // Versions that all begin with something and " (" share what goes up to their first.
  lemma BeginAlike(a: seq<Stanza>, q: string)
    requires a != [] && forall i :: 0 <= i < |a| ==> q + OPEN <= a[i].version
    ensures ShareOpen(a)
  {
    SharedUpToOpen(q, a[0].version, a[0].version);
    forall i | 0 <= i < |a| ensures UpToOpen(a[0].version) <= a[i].version {
      SharedUpToOpen(q, a[0].version, a[i].version);
    }
  }

  // Versions that stand for a longer name and shorter versions.
  lemma SameLongVersion(d: Setup, b: seq<Stanza>, c: Setup, a: seq<Stanza>, i: nat)
    requires HasOpen(d.package) && i < |a| && EntriesOf(ShortName(d), LongVersions(d, b)) == EntriesOf(c, a)
    ensures i < |b| && LongVersion(d, b[i]).version == a[i].version
  {
    var long := LongVersions(d, b);
    EntriesAt(c, a);
    EntriesAt(ShortName(d), long);
    LongVersionsAt(d, b);
    assert EntryOf(c, a[i]) == EntriesOf(c, a)[i] == EntryOf(ShortName(d), long[i]);
    assert long[i] == LongVersion(d, b[i]);
  }

  // They all begin alike.
  lemma LongVersionBegins(d: Setup, s: Stanza)
    requires HasOpen(d.package)
    ensures d.package[OpenAt(d.package) + 2..] + OPEN <= LongVersion(d, s).version
  {
    Begins(d.package[OpenAt(d.package) + 2..] + OPEN, s.version);
  }

  lemma Begins(a: string, b: string)
    ensures a <= a + b
  {
  }

  // Without either, whatever has the text says the same.
  lemma OthersSayTheSame(c: Setup, a: seq<Stanza>, d: Setup, b: seq<Stanza>)
    requires OneLineSetup(c) && OneLineStanzas(a) && a != [] && !HasOpen(c.package)
    requires OneLineSetup(d) && OneLineStanzas(b) && Unlines(FileLines(d, b)) == Unlines(FileLines(c, a))
    ensures EntriesOf(d, b) == EntriesOf(c, a) || ShareOpen(a)
  {
    WrittenReadsBackIff(c, a);
    WrittenReadsBackIff(d, b);
    if HasOpen(d.package) && b != [] {
      NameIsAmbiguous(d, b);
      OpenIsOpen(d.package);
      WrittenReadsBackIff(ShortName(d), LongVersions(d, b));
      forall i | 0 <= i < |a| ensures d.package[OpenAt(d.package) + 2..] + OPEN <= a[i].version {
        SameLongVersion(d, b, c, a, i);
        LongVersionBegins(d, b[i]);
      }
      BeginAlike(a, d.package[OpenAt(d.package) + 2..]);
    }
  }

  /** What a changelog says -- whatever the line breaks are -- is determined by its text alone if and only
      if the package's name contains no " (" and the versions do not all begin alike up to one: otherwise
      the same text stands for another name and other versions. No reader can do better. */
  lemma TextDeterminesIff(c: Setup, a: seq<Stanza>)
    requires OneLineSetup(c) && OneLineStanzas(a)
    ensures TextDetermines(c, a) <==> a == [] || (!HasOpen(c.package) && !ShareOpen(a))
  {
    if a == [] {
      forall d, b | OneLineSetup(d) && OneLineStanzas(b) && Unlines(FileLines(d, b)) == Unlines(FileLines(c, a))
        ensures EntriesOf(d, b) == EntriesOf(c, a)
      {
        if b != [] { TextIsSomething(d, b); }
      }
    } else if HasOpen(c.package) {
      NameIsAmbiguous(c, a);
    } else if ShareOpen(a) {
      var d, b := VersionsAreAmbiguous(c, a);
    } else {
      forall d, b | OneLineSetup(d) && OneLineStanzas(b) && Unlines(FileLines(d, b)) == Unlines(FileLines(c, a))
        ensures EntriesOf(d, b) == EntriesOf(c, a)
      {
        OthersSayTheSame(c, a, d, b);
      }
    }
  }

  lemma TextIsSomething(c: Setup, a: seq<Stanza>)
    requires a != []
    ensures Unlines(FileLines(c, a)) != ""
  {
    assert FileLines(c, a) != [];
  }

  // ---------- what it determines for a reader who knows the package ----------

  // What is read of the version, after n characters of the inside of a header, tells it from others.
  lemma TailsTell(name: string, v: string, w: string, n: nat)
    requires n <= |name| && (name + v)[n..] == (name + w)[n..]
    ensures v == w
  {
    assert (name + v)[n..] == name[n..] + v && (name + w)[n..] == name[n..] + w;
    assert (name[n..] + v)[|name| - n..] == v && (name[n..] + w)[|name| - n..] == w;
  }

  lemma SameVersion(c: Setup, s: Stanza, d: Setup, t: Stanza, r: Reading, q: Reading)
    requires c.package == d.package && ')' !in s.distribution && ')' !in t.distribution
    requires ReadHeader(Header(c, s), r) == ReadHeader(Header(d, t), q)
    ensures s.version == t.version && s.distribution == t.distribution && r.bullets == q.bullets
            && r.trailer == q.trailer
  {
    ReadVersion(c, s, r);
    ReadVersion(d, t, q);
    if HasOpen(c.package) {
      TailsTell(c.package + OPEN, s.version, t.version, OpenAt(c.package) + 2);
    }
  }

  lemma {:induction false} SameEntries(c: Setup, a: seq<Stanza>, d: Setup, b: seq<Stanza>)
    requires c.package == d.package && OneLineStanzas(a) && OneLineStanzas(b) && EntriesRead(c, a) == EntriesRead(d, b)
    ensures EntriesOf(c, a) == EntriesOf(d, b)
  {
    if a != [] && b != [] {
      var e, f := EntryOf(c, a[0]), EntryOf(d, b[0]);
      assert EntriesRead(c, a)[1..] == EntriesRead(c, a[1..]) && EntriesRead(d, b)[1..] == EntriesRead(d, b[1..]);
      SameEntries(c, a[1..], d, b[1..]);
      assert OneLineStanza(a[0]) && OneLineStanza(b[0]);
      assert EntriesRead(c, a)[0] == EntriesRead(d, b)[0];
      SameVersion(c, a[0], d, b[0], Reading(EntriesRead(c, a[1..]), e.bullets, [], e.trailer, AtHeader),
                  Reading(EntriesRead(d, b[1..]), f.bullets, [], f.trailer, AtHeader));
    }
  }

  /** To a reader who knows the package the text says everything, whatever its name is. */
  lemma PackageAndTextDetermine(c: Setup, a: seq<Stanza>, d: Setup, b: seq<Stanza>)
    requires OneLineSetup(c) && OneLineStanzas(a) && OneLineSetup(d) && OneLineStanzas(b)
    requires c.package == d.package && Unlines(FileLines(c, a)) == Unlines(FileLines(d, b))
    ensures EntriesOf(c, a) == EntriesOf(d, b)
  {
    FileOneLine(c, a);
    SplitUnlines(FileLines(c, a));
    ReadFile(c, a);
    FileOneLine(d, b);
    SplitUnlines(FileLines(d, b));
    ReadFile(d, b);
    SameEntries(c, a, d, b);
  }
}
