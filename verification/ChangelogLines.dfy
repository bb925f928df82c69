/** The kinds of lines scripts/changelog_to_deb.py tells apart (lines 28-35 and 71-84), each said by what is
    written in it, and what the parser makes of a section written out. */
module ChangelogLines {
  import opened Wrappers
  import opened Text
  import opened ChangelogParser

  // ---------- headings ----------

  // Four digits, two, two.
  lemma DateIff(s: string)
    ensures IsDate(s) <==>
            |s| == 10 && forall i :: 0 <= i < 10 ==> if i == 4 || i == 7 then s[i] == '-' else '0' <= s[i] <= '9'
  {
  }

  function DateText(date: Option<string>): string {
    if date.Some? then " - " + date.value else ""
  }

  function Label(h: Heading): string { h.title + "]" + DateText(h.date) }

  // What opens the line, the label, the date, white space, what closes it, and white space to the end.
  ghost predicate Written(open_: string, close: string, line: string, h: Heading) {
    exists sp, more :: AllSpace(sp) && AllSpace(more) && line == open_ + (Label(h) + (sp + (close + more)))
  }

  // Nothing that begins with white space and a tag begins with a date.
  lemma NotDated(sp: string, tail: string)
    requires AllSpace(sp) && (tail == "" || tail[0] == '<') && |sp + tail| >= 3
    ensures (sp + tail)[..3] != " - "
  {
    var s := sp + tail;
    assert s[1] != '-' || s[0] != ' ' by {
      if |sp| >= 2 {
        assert IsSpace(s[1]);
      }
    }
  }

  lemma TailMatches(date: Option<string>, sp: string, close: string, more: string)
    requires (date.Some? ==> IsDate(date.value)) && AllSpace(sp) && AllSpace(more)
    requires if close == "" then more == "" else close[0] == '<'
    ensures MatchTail(DateText(date) + (sp + (close + more)), close) == Some(date)
  {
    var tail := close + more;
    var s := DateText(date) + (sp + tail);
    TrimLeftOf(sp, tail);
    assert tail[|close|..] == more;
    if date.Some? {
      assert s[..3] == " - " && s[3..13] == date.value && s[13..] == sp + tail;
    } else {
      assert s == sp + tail;
      if |s| >= 3 { NotDated(sp, tail); }
    }
  }

  lemma LabelMatches(open_: string, close: string, h: Heading, sp: string, more: string)
    requires Headed(h) && AllSpace(sp) && AllSpace(more) && if close == "" then more == "" else close[0] == '<'
    ensures MatchHeading(open_ + (Label(h) + (sp + (close + more))), open_, close) == Some(h)
  {
    var tail := DateText(h.date) + (sp + (close + more));
    var rest := Label(h) + (sp + (close + more));
    assert rest == h.title + "]" + tail;
    assert (open_ + rest)[|open_|..] == rest;
    IndexOfFirst(h.title, ']', tail);
    assert rest[..|h.title|] == h.title && rest[|h.title| + 1..] == tail;
    TailMatches(h.date, sp, close, more);
  }

  // White space and a closing tag, with white space behind.
  lemma AfterSplits(after: string, close: string) returns (sp: string, more: string)
    requires close <= TrimLeft(after) && AllSpace(TrimLeft(after)[|close|..])
    ensures AllSpace(sp) && AllSpace(more) && after == sp + (close + more)
  {
    sp := TrimLeftSplits(after);
    more := TrimLeft(after)[|close|..];
    assert TrimLeft(after) == close + more;
  }

  // What the tail of a match consists of.
  lemma TailSplits(s: string, close: string) returns (sp: string, more: string)
    requires MatchTail(s, close).Some?
    ensures AllSpace(sp) && AllSpace(more) && s == DateText(MatchTail(s, close).value) + (sp + (close + more))
  {
    if |s| >= 13 && s[..3] == " - " && IsDate(s[3..13]) {
      sp, more := AfterSplits(s[13..], close);
      assert s == s[..3] + s[3..13] + s[13..];
    } else {
      sp, more := AfterSplits(s, close);
      assert "" + s == s;
    }
  }

  // And the whole.
  lemma MatchSplits(line: string, open_: string, close: string)
    requires MatchHeading(line, open_, close).Some?
    ensures Written(open_, close, line, MatchHeading(line, open_, close).value)
  {
    var rest := line[|open_|..];
    var j := IndexOf(rest, ']');
    var h := Heading(rest[..j], MatchTail(rest[j + 1..], close).value);
    var sp, more := TailSplits(rest[j + 1..], close);
    assert rest == Label(h) + (sp + (close + more)) by { LabelSplits(h, rest[j + 1..], sp + (close + more)); }
    assert line == open_ + rest;
  }

  lemma LabelSplits(h: Heading, s: string, end: string)
    requires s == DateText(h.date) + end
    ensures h.title + "]" + s == Label(h) + end
  {
  }

  lemma WrittenMatches(line: string, open_: string, close: string, h: Heading)
    requires (close == "" || close[0] == '<') && Headed(h) && Written(open_, close, line, h)
    ensures MatchHeading(line, open_, close) == Some(h)
  {
    var sp, more :| AllSpace(sp) && AllSpace(more) && line == open_ + (Label(h) + (sp + (close + more)));
    if close == "" {
      assert sp + (close + more) == (sp + more) + (close + "");
      LabelMatches(open_, close, h, sp + more, "");
    } else {
      LabelMatches(open_, close, h, sp, more);
    }
  }

  lemma MatchIff(line: string, open_: string, close: string, h: Heading)
    requires close == "" || close[0] == '<'
    ensures MatchHeading(line, open_, close) == Some(h) <==> Headed(h) && Written(open_, close, line, h)
  {
    if MatchHeading(line, open_, close) == Some(h) {
      MatchedIsHeaded(line, open_, close);
      MatchSplits(line, open_, close);
    } else if Headed(h) && Written(open_, close, line, h) {
      WrittenMatches(line, open_, close, h);
    }
  }

  // A line opens in one way only.
  lemma OpensOnce(line: string, h: Heading)
    requires Written("<summary><strong>[", "</strong></summary>", line, h)
    ensures MatchHeading(line, "## [", "").None?
  {
    assert line[0] == '<';
  }

  /** A line is a heading exactly if it is written as one, plainly or between the tags of a collapsed
      section, and then it gives the label and the date that are written in it. */
  lemma HeadingIff(line: string, h: Heading)
    ensures HeadingOf(line) == Some(h) <==>
              && Headed(h)
              && (Written("## [", "", line, h) || Written("<summary><strong>[", "</strong></summary>", line, h))
  {
    MatchIff(line, "## [", "", h);
    MatchIff(line, "<summary><strong>[", "</strong></summary>", h);
    if MatchHeading(line, "## [", "").Some? {
      var g := MatchHeading(line, "## [", "").value;
      MatchIff(line, "## [", "", g);
      if Written("<summary><strong>[", "</strong></summary>", line, h) { OpensOnce(line, h); }
    }
  }

  // ---------- the other lines ----------

  /** A category line is "### ", the category, and white space to the end; the category ends where the
      white space begins, but is never empty. */
  lemma CategoryIff(line: string, c: string)
    ensures CategoryOf(line) == Some(c) <==>
              && c != "" && (|c| == 1 || !IsSpace(c[|c| - 1]))
              && exists sp :: AllSpace(sp) && line == "### " + c + sp
  {
    if CategoryOf(line) == Some(c) {
      var sp := CategorySplits(line);
    }
    if c != "" && (|c| == 1 || !IsSpace(c[|c| - 1])) && exists sp :: AllSpace(sp) && line == "### " + c + sp {
      var sp :| AllSpace(sp) && line == "### " + c + sp;
      CategoryMatches(c, sp);
    }
  }

  lemma CategorySplits(line: string) returns (sp: string)
    requires CategoryOf(line).Some?
    ensures var c := CategoryOf(line).value;
            c != "" && (|c| == 1 || !IsSpace(c[|c| - 1])) && AllSpace(sp) && line == "### " + c + sp
  {
    var rest := line[4..];
    assert line == "### " + rest;
    sp := TrimRightSplits(rest);
    if TrimRight(rest) == "" {
      assert sp == rest == line[4..5] + rest[1..];
      sp := rest[1..];
    }
  }

  lemma CategoryMatches(c: string, sp: string)
    requires c != "" && (|c| == 1 || !IsSpace(c[|c| - 1])) && AllSpace(sp)
    ensures CategoryOf("### " + c + sp) == Some(c)
  {
    var line := "### " + c + sp;
    assert line[4..] == c + sp;
    if IsSpace(c[|c| - 1]) {
      TrimRightOf("", c + sp);
      assert "" + (c + sp) == c + sp && (c + sp)[..1] == c && line[4..5] == (c + sp)[..1];
    } else {
      TrimRightOf(c, sp);
    }
  }

  /** Whether a category is the one that is left out. */
  lemma SkippedIff(sp: string, c: string, more: string)
    requires AllSpace(sp) && AllSpace(more) && Trimmed(c)
    ensures IsSkipped(Some(sp + c + more)) <==> SameUpToCase(c, "commit references")
    ensures !IsSkipped(None)
  {
    StripOf(sp, c, more);
    LowerIff(c, "commit references");
  }

  /** A bullet line, and its text. */
  lemma BulletLine(sp: string, t: string, more: string)
    requires AllSpace(sp) && AllSpace(more) && Trimmed(t)
    ensures var line := "- " + (sp + t + more); IsBullet(line) && BulletText(line) == t
  {
    assert ("- " + (sp + t + more))[2..] == sp + t + more;
    StripOf(sp, t, more);
  }

  lemma BulletIff(line: string)
    ensures IsBullet(line) <==> |line| >= 2 && line[0] == '-' && line[1] == ' '
  {
  }

  predicate AreDashes(s: string) { forall i :: 0 <= i < |s| ==> s[i] == '-' || s[i] == ' ' }

  lemma {:induction false} TrimDashesOf(dashes: string, t: string)
    requires AreDashes(dashes) && (t != "" ==> t[0] != '-' && t[0] != ' ')
    ensures TrimDashes(dashes + t) == t
  {
    if dashes == "" {
      assert dashes + t == t;
    } else {
      assert (dashes + t)[1..] == dashes[1..] + t;
      TrimDashesOf(dashes[1..], t);
    }
  }

  // The blanks in front of the first dash go with the white space.
  lemma {:induction false} TrimLeftDashes(dashes: string, t: string) returns (k: nat)
    requires AreDashes(dashes) && t != "" && !IsSpace(t[0])
    ensures k <= |dashes| && TrimLeft(dashes + t) == dashes[k..] + t && AreDashes(dashes[k..])
    ensures k < |dashes| ==> !IsSpace(dashes[k])
  {
    k := 0;
    if dashes == "" {
      assert dashes + t == t;
    } else if dashes[0] == ' ' {
      assert (dashes + t)[1..] == dashes[1..] + t;
      k := TrimLeftDashes(dashes[1..], t);
      assert dashes[1..][k..] == dashes[k + 1..];
      k := k + 1;
    }
  }

  /** A continuation line, or a nested bullet: white space, dashes and blanks, and the text. */
  lemma ContinuationLine(sp: string, dashes: string, t: string, more: string)
    requires AllSpace(sp) && AllSpace(more) && AreDashes(dashes) && t != "" && Trimmed(t) && t[0] != '-'
    ensures ContinuationText(sp + (dashes + t + more)) == t
  {
    var k := TrimLeftDashes(dashes, t + more);
    var gone, shown := dashes[..k], dashes[k..] + t;
    assert AllSpace(gone) by { LeftOut(dashes, t + more, k); }
    assert sp + (dashes + t + more) == (sp + gone) + shown + more by {
      assert dashes == gone + dashes[k..];
    }
    StripOf(sp + gone, shown, more);
    TrimDashesOf(dashes[k..], t);
  }

  // What is left out in front is white space.
  lemma LeftOut(a: string, b: string, k: nat)
    requires k <= |a| && TrimLeft(a + b) == a[k..] + b
    ensures AllSpace(a[..k])
  {
    var sp := TrimLeftSplits(a + b);
    assert |sp| == k;
    forall i | 0 <= i < k ensures IsSpace(a[i]) {
      assert a[i] == (a + b)[i] == sp[i];
    }
  }

  lemma {:induction false} TrimRightKeeps(p: string, s: string)
    requires p <= s && p != "" && !IsSpace(p[|p| - 1])
    ensures p <= TrimRight(s)
    decreases |s|
  {
    if IsSpace(s[|s| - 1]) {
      TrimRightKeeps(p, s[..|s| - 1]);
    }
  }

  /** The tags around a collapsed section. */
  lemma DetailsIff(sp: string, t: string)
    requires AllSpace(sp) && (t != "" ==> !IsSpace(t[0]))
    ensures IsDetails(sp + t) <==> "<details" <= t || "</details" <= t
  {
    TrimLeftOf(sp, t);
    TrimRightPrefix(t);
    if "<details" <= t { TrimRightKeeps("<details", t); }
    if "</details" <= t { TrimRightKeeps("</details", t); }
  }

  // ---------- a section written out ----------

  predicate IsText(t: string) { t != "" && Trimmed(t) && t[0] != '-' && t[0] != '<' }

  lemma PlainLine(line: string)
    requires line != "" && line[0] != '#' && line[0] != '<'
    ensures HeadingOf(line).None? && CategoryOf(line).None?
  {
  }

  lemma CategoryStep(st: State, c: string)
    requires st.sections != [] && IsText(c)
    ensures Step(st, "### " + c) == st.(category := Some(c))
  {
    var line := "### " + c;
    assert line == "### " + c + "";
    CategoryIff(line, c);
    NotPlain(line);
    DetailsIff("", line);
    assert "" + line == line;
  }

  lemma NotPlain(line: string)
    requires |line| > 2 && line[0] == '#' && line[2] == '#'
    ensures HeadingOf(line).None?
  {
  }

  // s, with the bullets of its last section as given.
  function WithBullets(st: State, bullets: seq<Bullet>): State
    requires st.sections != []
  {
    var n := |st.sections| - 1;
    st.(sections := st.sections[..n] + [st.sections[n].(bullets := bullets)])
  }

  lemma BulletStep(st: State, t: string)
    requires st.sections != [] && !IsSkipped(st.category) && Trimmed(t)
    ensures Step(st, "- " + t)
         == WithBullets(st, st.sections[|st.sections| - 1].bullets + [Bullet(st.category, t)])
  {
    var line := "- " + t;
    assert IsBullet(line) && BulletText(line) == t by {
      BulletLine("", t, "");
      assert "" + t + "" == t;
    }
    PlainLine(line);
    assert !IsDetails(line) by {
      DetailsIff("", line);
      assert "" + line == line && line[0] == '-';
    }
  }

  lemma ContinuationStep(st: State, t: string)
    requires st.sections != [] && !IsSkipped(st.category) && IsText(t) && st.sections[|st.sections| - 1].bullets != []
    ensures Step(st, "  " + t) == WithBullets(st, Extend(st.sections[|st.sections| - 1].bullets, t))
  {
    var line := "  " + t;
    assert AllSpace("  ");
    ContinuationLine("  ", "", t, "");
    assert "" + t + "" == t;
    StripOf("  ", t, "");
    assert "  " + t + "" == line;
    PlainLine(line);
    DetailsIff("  ", t);
  }

  // Under a category that is left out neither does anything.
  lemma SkippedStep(st: State, line: string)
    requires st.sections != [] && IsSkipped(st.category) && line != "" && line[0] != '#' && line[0] != '<'
    ensures Step(st, line) == st
  {
    PlainLine(line);
  }

  lemma RunTwo(st: State, a: string, b: string)
    ensures Run(st, [a, b]) == Step(Step(st, a), b)
  {
    assert [a, b][1..] == [b] && [b][1..] == [];
    assert Run(Step(st, a), [b]) == Run(Step(Step(st, a), b), []);
  }

  lemma RunFour(st: State, a: string, b: string, c: string, d: string)
    ensures Run(st, [a, b, c, d]) == Run(Step(Step(st, a), b), [c, d])
  {
    assert [a, b, c, d][1..] == [b, c, d] && [b, c, d][1..] == [c, d];
  }

  lemma OneSection(s: Section, category: Option<string>, bullets: seq<Bullet>)
    ensures WithBullets(State([s], category), bullets) == State([s.(bullets := bullets)], category)
  {
    assert [s][..0] == [];
  }

  // The last two of the lines below.
  lemma BodyWrittenOut(s: Section, category: Option<string>, t: string, u: string)
    requires s.bullets == [] && Trimmed(t) && IsText(u)
    ensures Run(State([s], category), ["- " + t, "  " + u]).sections
         == [s.(bullets := if IsSkipped(category) then [] else [Bullet(category, t + " " + u)])]
  {
    var st := State([s], category);
    RunTwo(st, "- " + t, "  " + u);
    if IsSkipped(category) {
      SkippedStep(st, "- " + t);
      SkippedStep(st, "  " + u);
    } else {
      var b := Bullet(category, t);
      BulletStep(st, t);
      OneSection(s, category, s.bullets + [b]);
      assert s.bullets + [b] == [b];
      var s1 := s.(bullets := [b]);
      ContinuationStep(State([s1], category), u);
      OneSection(s1, category, Extend([b], u));
      assert Extend([b], u) == [Bullet(category, t + " " + u)];
    }
  }

  /** A heading, a category, a bullet and a continuation line, for all labels, dates, categories and texts:
      one section with the one bullet under that category, its text continued behind a blank; under
      "Commit References" a section without bullets. */
  lemma SectionWrittenOut(h: Heading, c: string, t: string, u: string)
    requires Headed(h) && IsText(c) && Trimmed(t) && IsText(u)
    ensures Parse(["## [" + Label(h), "### " + c, "- " + t, "  " + u])
         == [Section(h.title, h.date,
                     if SameUpToCase(c, "commit references") then [] else [Bullet(Some(c), t + " " + u)])]
  {
    var heading := "## [" + Label(h);
    HeadingWrittenOut(h);
    var s := Section(h.title, h.date, []);
    assert Step(START, heading) == State([s], None);
    CategoryStep(State([s], None), c);
    SkippedIff("", c, "");
    assert "" + c + "" == c;
    RunFour(START, heading, "### " + c, "- " + t, "  " + u);
    BodyWrittenOut(s, Some(c), t, u);
  }

  lemma NothingBehind(open_: string, h: Heading)
    ensures open_ + Label(h) == open_ + (Label(h) + ("" + ("" + "")))
  {
  }

  lemma HeadingWrittenOut(h: Heading)
    requires Headed(h)
    ensures HeadingOf("## [" + Label(h)) == Some(h)
  {
    NothingBehind("## [", h);
    LabelMatches("## [", "", h, "", "");
  }
}
