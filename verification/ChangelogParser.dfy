/** `parse_changelog` (scripts/changelog_to_deb.py): from the lines of CHANGELOG.md to its sections. */
module ChangelogParser {
  import opened Wrappers
  import opened Sequences
  import opened Text

  datatype Bullet = Bullet(category: Option<string>, text: string)
  datatype Section = Section(title: string, date: Option<string>, bullets: seq<Bullet>)
  datatype Heading = Heading(title: string, date: Option<string>)

  // ---------- the kinds of lines ----------

  predicate IsDigit(c: char) { '0' <= c <= '9' }

  // \d{4}-\d{2}-\d{2}
  predicate IsDate(s: string) {
    && |s| == 10 && s[4] == '-' && s[7] == '-'
    && IsDigit(s[0]) && IsDigit(s[1]) && IsDigit(s[2]) && IsDigit(s[3])
    && IsDigit(s[5]) && IsDigit(s[6]) && IsDigit(s[8]) && IsDigit(s[9])
  }

  // (?: - (\d{4}-\d{2}-\d{2}))?\s*CLOSE\s*$
  function MatchTail(s: string, close: string): Option<Option<string>> {
    var dated := |s| >= 13 && s[..3] == " - " && IsDate(s[3..13]);
    var rest := TrimLeft(if dated then s[13..] else s);
    if close <= rest && AllSpace(rest[|close|..]) then Some(if dated then Some(s[3..13]) else None) else None
  }

  // ^OPEN([^\]]+)\](?: - (date))?\s*CLOSE\s*$
  function MatchHeading(line: string, open_: string, close: string): Option<Heading> {
    if !(open_ <= line) then None
    else
      var rest := line[|open_|..];
      var j := IndexOf(rest, ']');
      if j == 0 || j == |rest| then None
      else match MatchTail(rest[j + 1..], close)
           case None => None
           case Some(date) => Some(Heading(rest[..j], date))
  }

  const PLAIN_OPEN := "## ["
  const SUMMARY_OPEN := "<summary><strong>["
  const SUMMARY_CLOSE := "</strong></summary>"

  // HEADING_RE or SUMMARY_HEADING_RE
  function HeadingOf(line: string): Option<Heading> {
    var h := MatchHeading(line, PLAIN_OPEN, "");
    if h.Some? then h else MatchHeading(line, SUMMARY_OPEN, SUMMARY_CLOSE)
  }

  predicate IsDetails(line: string) {
    "<details" <= Strip(line) || "</details" <= Strip(line)
  }

  // ^### (.+?)\s*$
  function CategoryOf(line: string): Option<string> {
    if "### " <= line && |line| > 4
    then Some(if TrimRight(line[4..]) == "" then line[4..5] else TrimRight(line[4..]))
    else None
  }

  predicate IsSkipped(category: Option<string>) {
    category.Some? && Lower(Strip(category.value)) == "commit references"
  }

  predicate IsBullet(line: string) { "- " <= line }

  function BulletText(line: string): string
    requires IsBullet(line)
  {
    Strip(line[2..])
  }

  function ContinuationText(line: string): string { TrimDashes(Strip(line)) }

  // ---------- the parser ----------

  datatype State = State(sections: seq<Section>, category: Option<string>)

  const START := State([], None)

  // Append to the last bullet of the last section.
  function Extend(bullets: seq<Bullet>, more: string): seq<Bullet>
    requires bullets != []
  {
    var last := bullets[|bullets| - 1];
    bullets[..|bullets| - 1] + [last.(text := last.text + " " + more)]
  }

  function InBullets(bullets: seq<Bullet>, category: Option<string>, line: string): seq<Bullet> {
    if IsBullet(line) then bullets + [Bullet(category, BulletText(line))]
    else if Strip(line) != "" && bullets != [] then Extend(bullets, ContinuationText(line))
    else bullets
  }

  function Step(st: State, line: string): State {
    match HeadingOf(line)
    case Some(h) => State(st.sections + [Section(h.title, h.date, [])], None)
    case None =>
      if st.sections == [] || IsDetails(line) then st
      else if CategoryOf(line).Some? then st.(category := CategoryOf(line))
      else if IsSkipped(st.category) then st
      else
        var last := st.sections[|st.sections| - 1];
        st.(sections := st.sections[..|st.sections| - 1]
                        + [last.(bullets := InBullets(last.bullets, st.category, line))])
  }

  function Run(st: State, lines: seq<string>): State
    decreases |lines|
  {
    if lines == [] then st else Run(Step(st, lines[0]), lines[1..])
  }

  function Parse(lines: seq<string>): seq<Section> { Run(START, lines).sections }

  method ParseChangelog(lines: seq<string>) returns (sections: seq<Section>)
    ensures sections == Parse(lines)
  {
    sections := [];
    var category: Option<string> := None;
    var i := 0;
    while i < |lines|
      invariant i <= |lines|
      invariant Run(State(sections, category), lines[i..]) == Run(START, lines)
    {
      var line := lines[i];
      assert lines[i..][1..] == lines[i + 1..];
      i := i + 1;
      var m := HeadingOf(line);
      if m.Some? {
        sections := sections + [Section(m.value.title, m.value.date, [])];
        category := None;
        continue;
      }
      if sections == [] { continue; }
      if IsDetails(line) { continue; }
      var c := CategoryOf(line);
      if c.Some? {
        category := c;
        continue;
      }
      if IsSkipped(category) { continue; }
      var last := sections[|sections| - 1];
      var bullets := last.bullets;
      if IsBullet(line) {
        bullets := bullets + [Bullet(category, BulletText(line))];
      } else if Strip(line) != "" && bullets != [] {
        bullets := Extend(bullets, ContinuationText(line));
      }
      sections := sections[..|sections| - 1] + [last.(bullets := bullets)];
    }
  }

  // ---------- the parser is compositional ----------

  lemma {:induction false} RunConcat(st: State, a: seq<string>, b: seq<string>)
    ensures Run(st, a + b) == Run(Run(st, a), b)
    decreases |a|
  {
    if a == [] {
      assert a + b == b;
    } else {
      assert (a + b)[1..] == a[1..] + b;
      RunConcat(Step(st, a[0]), a[1..], b);
    }
  }

  // st, with more sections before.
  function Behind(pre: seq<Section>, st: State): State { State(pre + st.sections, st.category) }

  // Earlier sections are never looked at again.
  lemma StepBehind(pre: seq<Section>, st: State, line: string)
    requires st.sections != []
    ensures Step(Behind(pre, st), line) == Behind(pre, Step(st, line)) && Step(st, line).sections != []
  {
    var all, n := pre + st.sections, |st.sections| - 1;
    assert all[..|all| - 1] == pre + st.sections[..n] && all[|all| - 1] == st.sections[n];
    if HeadingOf(line).Some? {
      var h := HeadingOf(line).value;
      Assoc(pre, st.sections, [Section(h.title, h.date, [])]);
    }
  }

  lemma {:induction false} RunBehind(pre: seq<Section>, st: State, lines: seq<string>)
    requires st.sections != []
    ensures Run(Behind(pre, st), lines) == Behind(pre, Run(st, lines))
    decreases |lines|
  {
    if lines != [] {
      StepBehind(pre, st, lines[0]);
      RunBehind(pre, Step(st, lines[0]), lines[1..]);
    }
  }

  /** Cutting a changelog before a heading, parsing the parts and joining the results is parsing it whole. */
  lemma ParseIsCompositional(a: seq<string>, b: seq<string>)
    requires b != [] ==> HeadingOf(b[0]).Some?
    ensures Parse(a + b) == Parse(a) + Parse(b)
  {
    RunConcat(START, a, b);
    if b != [] {
      var st := Run(START, a);
      var h := HeadingOf(b[0]).value;
      var first := State([Section(h.title, h.date, [])], None);
      assert START.sections + first.sections == first.sections;
      assert Step(START, b[0]) == first;
      RunBehind(st.sections, first, b[1..]);
    } else {
      assert Parse(b) == [];
    }
  }

  // ---------- collapsing released versions changes nothing ----------

  predicate IsBlank(line: string) { AllSpace(line) }

  // A line that opens or closes a collapsed block, or a blank one.
  predicate IsWrapper(line: string) { IsDetails(line) || IsBlank(line) }

  function DateSuffix(date: Option<string>): string {
    if date.Some? then " - " + date.value else ""
  }

  function SummaryLine(h: Heading): string {
    SUMMARY_OPEN + h.title + "]" + DateSuffix(h.date) + SUMMARY_CLOSE
  }

  // What a heading's label and date can be.
  predicate Headed(h: Heading) {
    h.title != "" && ']' !in h.title && (h.date.Some? ==> IsDate(h.date.value))
  }

  lemma MatchedIsHeaded(line: string, open_: string, close: string)
    requires MatchHeading(line, open_, close).Some?
    ensures Headed(MatchHeading(line, open_, close).value)
  {
  }

  lemma TailOf(date: Option<string>, close: string)
    requires (date.Some? ==> IsDate(date.value)) && close != "" && close[0] == '<'
    ensures MatchTail(DateSuffix(date) + close, close) == Some(date)
  {
    var s := DateSuffix(date) + close;
    if date.Some? {
      assert s[..3] == " - " && s[3..13] == date.value && s[13..] == close;
    } else {
      assert s == close && s[0] == '<';
    }
    TrimLeftOf("", close);
    assert "" + close == close;
  }

  // Label and tail, behind the opening.
  lemma InsideMatches(open_: string, close: string, h: Heading)
    requires Headed(h) && close != "" && close[0] == '<'
    ensures MatchHeading(open_ + (h.title + "]" + (DateSuffix(h.date) + close)), open_, close) == Some(h)
  {
    var tail := DateSuffix(h.date) + close;
    var rest := h.title + "]" + tail;
    assert (open_ + rest)[|open_|..] == rest;
    IndexOfFirst(h.title, ']', tail);
    assert rest[..|h.title|] == h.title && rest[|h.title| + 1..] == tail;
    TailOf(h.date, close);
  }

  lemma SummaryMatches(h: Heading)
    requires Headed(h)
    ensures HeadingOf(SummaryLine(h)) == Some(h)
  {
    var line := SUMMARY_OPEN + (h.title + "]" + (DateSuffix(h.date) + SUMMARY_CLOSE));
    assert SummaryLine(h) == line;
    assert line[0] == '<';
    InsideMatches(SUMMARY_OPEN, SUMMARY_CLOSE, h);
  }

  // The heading in its collapsed form, whichever form it has.
  function Collapse(line: string): string {
    if HeadingOf(line).Some? then SummaryLine(HeadingOf(line).value) else line
  }

  lemma CollapseKeepsHeading(line: string)
    requires HeadingOf(line).Some?
    ensures HeadingOf(Collapse(line)) == HeadingOf(line)
  {
    if MatchHeading(line, PLAIN_OPEN, "").Some? {
      MatchedIsHeaded(line, PLAIN_OPEN, "");
    } else {
      MatchedIsHeaded(line, SUMMARY_OPEN, SUMMARY_CLOSE);
    }
    SummaryMatches(HeadingOf(line).value);
  }

  /** b is a with some headings rewritten to their collapsed form, and wrapper and blank lines inserted. */
  predicate Collapses(a: seq<string>, b: seq<string>)
    decreases |b|
  {
    if b == [] then a == []
    else || (a != [] && (b[0] == a[0] || b[0] == Collapse(a[0])) && Collapses(a[1..], b[1..]))
         || (IsWrapper(b[0]) && Collapses(a, b[1..]))
  }

  lemma WrapperIsNoHeading(line: string)
    requires IsWrapper(line)
    ensures HeadingOf(line).None?
  {
    if |line| >= 2 && ((line[0] == '#' && line[1] == '#') || (line[0] == '<' && line[1] == 's')) {
      NoWrapperBegins(line);
    }
    BeginsNoHeading(line);
  }

  lemma NoWrapperBegins(line: string)
    requires |line| >= 2 && ((line[0] == '#' && line[1] == '#') || (line[0] == '<' && line[1] == 's'))
    ensures !IsWrapper(line)
  {
    assert TrimLeft(line) == line;
    TrimRightPrefix(line);
  }

  lemma BeginsNoHeading(line: string)
    requires |line| < 2 || ((line[0] != '#' || line[1] != '#') && (line[0] != '<' || line[1] != 's'))
    ensures HeadingOf(line).None?
  {
  }

  lemma {:induction false} TrimRightPrefix(s: string)
    ensures TrimRight(s) <= s
    decreases |s|
  {
    if s != "" && IsSpace(s[|s| - 1]) {
      TrimRightPrefix(s[..|s| - 1]);
    }
  }

  lemma WrapperChangesNothing(st: State, line: string)
    requires IsWrapper(line)
    ensures Step(st, line) == st
  {
    WrapperIsNoHeading(line);
    if IsBlank(line) && st.sections != [] {
      TrimOfSpace(line);
      assert line != "" ==> IsSpace(line[0]);
      var last := st.sections[|st.sections| - 1];
      assert st.sections[..|st.sections| - 1] + [last] == st.sections;
    }
  }

  lemma {:induction false} CollapsedRun(st: State, a: seq<string>, b: seq<string>)
    requires Collapses(a, b)
    ensures Run(st, a) == Run(st, b)
    decreases |b|
  {
    if b != [] {
      if a != [] && (b[0] == a[0] || b[0] == Collapse(a[0])) && Collapses(a[1..], b[1..]) {
        if HeadingOf(a[0]).Some? { CollapseKeepsHeading(a[0]); }
        CollapsedRun(Step(st, a[0]), a[1..], b[1..]);
      } else {
        WrapperChangesNothing(st, b[0]);
        CollapsedRun(st, a, b[1..]);
      }
    }
  }

  /** Collapsing released versions into details blocks does not change what is parsed. */
  lemma CollapsingIsInvisible(a: seq<string>, b: seq<string>)
    requires Collapses(a, b)
    ensures Parse(a) == Parse(b)
  {
    CollapsedRun(START, a, b);
  }
}
