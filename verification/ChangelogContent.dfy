/** What the bullets of a section consist of, said line by line: an account of the parser's result that
    does not follow its loop. */
module ChangelogContent {
  import opened Sequences
  import opened Text
  import opened Wrappers
  import opened ChangelogParser

  // The category line i is under: the nearest category line above it.
  function CategoryAt(body: seq<string>, i: nat): Option<string>
    requires i <= |body|
  {
    if i == 0 then None
    else if !IsDetails(body[i - 1]) && CategoryOf(body[i - 1]).Some? then CategoryOf(body[i - 1])
    else CategoryAt(body, i - 1)
  }

  // The line carries text of its own.
  predicate IsContent(body: seq<string>, i: nat)
    requires i < |body|
  {
    && !IsDetails(body[i]) && CategoryOf(body[i]).None? && !IsSkipped(CategoryAt(body, i))
    && (IsBullet(body[i]) || Strip(body[i]) != "")
  }

  function TextOf(line: string): string {
    if IsBullet(line) then BulletText(line) else ContinuationText(line)
  }

  /** Line i and those below it: the texts that continue a bullet further up, and the bullets. */
  function From(body: seq<string>, i: nat): (seq<string>, seq<Bullet>)
    requires i <= |body|
    decreases |body| - i
  {
    if i == |body| then ([], [])
    else
      var (lead, bullets) := From(body, i + 1);
      if !IsContent(body, i) then (lead, bullets)
      else if IsBullet(body[i]) then ([], [Bullet(CategoryAt(body, i), BulletText(body[i]) + Spaced(lead))] + bullets)
      else ([ContinuationText(body[i])] + lead, bullets)
  }

  // The texts of line i and those below it, in file order.
  function Texts(body: seq<string>, i: nat): seq<string>
    requires i <= |body|
    decreases |body| - i
  {
    if i == |body| then []
    else (if IsContent(body, i) then [TextOf(body[i])] else []) + Texts(body, i + 1)
  }

  function BulletTexts(bullets: seq<Bullet>): seq<string> {
    seq(|bullets|, i requires 0 <= i < |bullets| => bullets[i].text)
  }

  // Continuing the last of some bullets, if there is one, and adding more.
  function Attach(bullets: seq<Bullet>, more: (seq<string>, seq<Bullet>)): seq<Bullet> {
    if bullets == [] then more.1
    else
      var last := bullets[|bullets| - 1];
      bullets[..|bullets| - 1] + [last.(text := last.text + Spaced(more.0))] + more.1
  }

  predicate NoHeadings(body: seq<string>) {
    forall i :: 0 <= i < |body| ==> HeadingOf(body[i]).None?
  }

  lemma AttachBullet(bs: seq<Bullet>, b: Bullet, lead: seq<string>, rest: seq<Bullet>)
    ensures Attach(bs + [b], (lead, rest)) == Attach(bs, ([], [b.(text := b.text + Spaced(lead))] + rest))
  {
    assert (bs + [b])[..|bs|] == bs;
    if bs != [] {
      var last := bs[|bs| - 1];
      assert last.text + Spaced([]) == last.text && bs[..|bs| - 1] + [last] == bs;
    }
  }

  lemma AttachMore(bs: seq<Bullet>, x: string, lead: seq<string>, rest: seq<Bullet>)
    requires bs != []
    ensures Attach(Extend(bs, x), (lead, rest)) == Attach(bs, ([x] + lead, rest))
  {
    assert ([x] + lead)[1..] == lead;
    var last := bs[|bs| - 1];
    assert last.text + " " + x + Spaced(lead) == last.text + Spaced([x] + lead);
  }

  lemma StepBullets(body: seq<string>, i: nat, h: Section)
    requires i < |body| && NoHeadings(body)
    ensures Step(State([h], CategoryAt(body, i)), body[i])
         == State([h.(bullets := if IsContent(body, i) then InBullets(h.bullets, CategoryAt(body, i), body[i])
                                 else h.bullets)],
                  CategoryAt(body, i + 1))
  {
    assert [h][..0] == [];
  }

  // What the parser does with line i, and what From makes of it, come to the same.
  lemma StepAttaches(body: seq<string>, i: nat, bs: seq<Bullet>)
    requires i < |body|
    ensures Attach(if IsContent(body, i) then InBullets(bs, CategoryAt(body, i), body[i]) else bs, From(body, i + 1))
         == Attach(bs, From(body, i))
  {
    var (lead, bullets) := From(body, i + 1);
    if IsContent(body, i) {
      if IsBullet(body[i]) {
        AttachBullet(bs, Bullet(CategoryAt(body, i), BulletText(body[i])), lead, bullets);
      } else if bs != [] {
        AttachMore(bs, ContinuationText(body[i]), lead, bullets);
      }
    }
  }

  // From line i on, the parser adds exactly what From says.
  lemma {:induction false} RunFrom(body: seq<string>, i: nat, h: Section)
    requires i <= |body| && NoHeadings(body)
    ensures Run(State([h], CategoryAt(body, i)), body[i..]).sections
            == [h.(bullets := Attach(h.bullets, From(body, i)))]
    decreases |body| - i
  {
    if i == |body| {
      AttachNothing(h.bullets);
    } else {
      var bs := if IsContent(body, i) then InBullets(h.bullets, CategoryAt(body, i), body[i]) else h.bullets;
      StepBullets(body, i, h);
      assert body[i..][0] == body[i] && body[i..][1..] == body[i + 1..];
      RunFrom(body, i + 1, h.(bullets := bs));
      StepAttaches(body, i, h.bullets);
    }
  }

  lemma AttachNothing(bs: seq<Bullet>)
    ensures Attach(bs, ([], [])) == bs
  {
    if bs != [] {
      var last := bs[|bs| - 1];
      assert last.text + Spaced([]) == last.text && bs[..|bs| - 1] + [last] == bs;
    }
  }

  // ---------- theorems ----------

  /** A heading and the lines up to the next one make one section: every bullet line opens a bullet under
      the nearest category above it, every other content line continues the nearest bullet above it. */
  lemma SectionIsItsLines(line: string, body: seq<string>)
    requires HeadingOf(line).Some? && NoHeadings(body)
    ensures Parse([line] + body) == [Section(HeadingOf(line).value.title, HeadingOf(line).value.date, From(body, 0).1)]
  {
    var h := HeadingOf(line).value;
    var s := Section(h.title, h.date, []);
    assert ([line] + body)[1..] == body && body[0..] == body;
    assert [] + [s] == [s];
    RunFrom(body, 0, s);
  }

  // One more bullet in front.
  lemma BulletInFront(category: Option<string>, text: string, lead: seq<string>, bullets: seq<Bullet>,
      rest: seq<string>)
    requires Spaced(BulletTexts(bullets)) == Spaced(rest)
    ensures Spaced(BulletTexts([Bullet(category, text + Spaced(lead))] + bullets)) == Spaced([text] + (lead + rest))
  {
    var all := BulletTexts([Bullet(category, text + Spaced(lead))] + bullets);
    assert all[1..] == BulletTexts(bullets);
    assert ([text] + (lead + rest))[1..] == lead + rest;
    SpacedConcat(lead, rest);
  }

  // The texts of line i and those below it: first what continues a bullet further up, then the bullets'.
  lemma {:induction false} BulletsSpaced(body: seq<string>, i: nat) returns (rest: seq<string>)
    requires i <= |body|
    ensures Texts(body, i) == From(body, i).0 + rest
    ensures Spaced(BulletTexts(From(body, i).1)) == Spaced(rest)
    decreases |body| - i
  {
    if i == |body| {
      rest := [];
    } else {
      rest := BulletsSpaced(body, i + 1);
      var (lead, bullets) := From(body, i + 1);
      if IsContent(body, i) {
        if IsBullet(body[i]) {
          BulletInFront(CategoryAt(body, i), BulletText(body[i]), lead, bullets, rest);
          Empty([BulletText(body[i])] + (lead + rest));
          rest := [BulletText(body[i])] + (lead + rest);
        } else {
          Assoc([ContinuationText(body[i])], lead, rest);
        }
      }
    }
  }

  /** Nothing is lost and nothing is made up: a section's bullet texts, joined by spaces, are the texts of
      its content lines in file order, from the first bullet line on. */
  lemma SectionTextsConserved(line: string, body: seq<string>)
    requires HeadingOf(line).Some? && NoHeadings(body)
    ensures |Parse([line] + body)| == 1 && |From(body, 0).0| <= |Texts(body, 0)|
    ensures From(body, 0).0 == Texts(body, 0)[..|From(body, 0).0|]
    ensures Spaced(BulletTexts(Parse([line] + body)[0].bullets)) == Spaced(Texts(body, 0)[|From(body, 0).0|..])
  {
    SectionIsItsLines(line, body);
    var rest := BulletsSpaced(body, 0);
    assert (From(body, 0).0 + rest)[|From(body, 0).0|..] == rest;
  }

  // ---------- the whole file ----------

  // A heading and the lines up to the next one.
  datatype Block = Block(heading: string, body: seq<string>)

  // The lines before the first heading, and the blocks.
  function Cut(lines: seq<string>): (seq<string>, seq<Block>) {
    if lines == [] then ([], [])
    else
      var (pre, blocks) := Cut(lines[1..]);
      if HeadingOf(lines[0]).Some? then ([], [Block(lines[0], pre)] + blocks) else ([lines[0]] + pre, blocks)
  }

  function LinesOf(blocks: seq<Block>): seq<string> {
    if blocks == [] then [] else [blocks[0].heading] + blocks[0].body + LinesOf(blocks[1..])
  }

  predicate IsBlock(b: Block) { HeadingOf(b.heading).Some? && NoHeadings(b.body) }

  function SectionOf(b: Block): Section {
    var h := HeadingOf(b.heading);
    if h.Some? then Section(h.value.title, h.value.date, From(b.body, 0).1) else Section("", None, [])
  }

  function SectionsOf(blocks: seq<Block>): seq<Section> {
    if blocks == [] then [] else [SectionOf(blocks[0])] + SectionsOf(blocks[1..])
  }

  lemma {:induction false} CutIsExact(lines: seq<string>)
    ensures lines == Cut(lines).0 + LinesOf(Cut(lines).1)
  {
    if lines != [] {
      CutIsExact(lines[1..]);
      var (pre, blocks) := Cut(lines[1..]);
      var b := Block(lines[0], pre);
      Assoc([lines[0]], pre, LinesOf(blocks));
      assert ([b] + blocks)[1..] == blocks;
    }
  }

  lemma {:induction false} CutIntoBlocks(lines: seq<string>)
    ensures NoHeadings(Cut(lines).0) && AreBlocks(Cut(lines).1)
  {
    if lines != [] {
      CutIntoBlocks(lines[1..]);
    }
  }

  lemma {:induction false} PreambleSaysNothing(pre: seq<string>)
    requires NoHeadings(pre)
    ensures Run(START, pre) == START
  {
    if pre != [] {
      assert Step(START, pre[0]) == START;
      PreambleSaysNothing(pre[1..]);
    }
  }

  predicate AreBlocks(blocks: seq<Block>) {
    forall i :: 0 <= i < |blocks| ==> IsBlock(blocks[i])
  }

  // The lines of blocks begin with a heading.
  lemma BlocksBegin(blocks: seq<Block>)
    requires AreBlocks(blocks)
    ensures LinesOf(blocks) != [] ==> HeadingOf(LinesOf(blocks)[0]).Some?
  {
    if blocks != [] {
      assert IsBlock(blocks[0]) && LinesOf(blocks)[0] == blocks[0].heading;
    }
  }

  lemma {:induction false} BlocksAreSections(blocks: seq<Block>)
    requires AreBlocks(blocks)
    ensures Parse(LinesOf(blocks)) == SectionsOf(blocks)
  {
    if blocks != [] {
      var b, rest := blocks[0], blocks[1..];
      assert IsBlock(b);
      BlocksAreSections(rest);
      BlocksBegin(rest);
      ParseIsCompositional([b.heading] + b.body, LinesOf(rest));
      OneBlock(b);
    }
  }

  lemma OneBlock(b: Block)
    requires IsBlock(b)
    ensures Parse([b.heading] + b.body) == [SectionOf(b)]
  {
    SectionIsItsLines(b.heading, b.body);
  }

  /** A changelog is parsed into one section per block, in file order; lines before the first heading say
      nothing. */
  lemma FileIsItsSections(lines: seq<string>)
    ensures Parse(lines) == SectionsOf(Cut(lines).1)
  {
    CutIsExact(lines);
    CutIntoBlocks(lines);
    var (pre, blocks) := Cut(lines);
    BlocksBegin(blocks);
    ParseIsCompositional(pre, LinesOf(blocks));
    PreambleSaysNothing(pre);
    BlocksAreSections(blocks);
  }

  // ---------- commit references ----------

  // The last category line of the section that `lines` end in is "Commit References", in some letter case.
  predicate UnderCommitReferences(lines: seq<string>) {
    lines != [] &&
    var last := lines[|lines| - 1];
    if HeadingOf(last).Some? then false
    else if !IsDetails(last) && CategoryOf(last).Some? then IsSkipped(CategoryOf(last)) && HasHeading(lines)
    else UnderCommitReferences(lines[..|lines| - 1])
  }

  predicate HasHeading(lines: seq<string>) {
    exists i :: 0 <= i < |lines| && HeadingOf(lines[i]).Some?
  }

  // The last line of all is the last step.
  lemma RunLast(front: seq<string>, last: string)
    ensures Run(START, front + [last]) == Step(Run(START, front), last)
  {
    RunConcat(START, front, [last]);
    assert [last][1..] == [];
  }

  lemma OneMoreLine(front: seq<string>, last: string)
    ensures HasHeading(front + [last]) <==> HasHeading(front) || HeadingOf(last).Some?
  {
    var lines := front + [last];
    assert lines[|front|] == last;
    forall i | 0 <= i < |front| && HeadingOf(front[i]).Some? ensures HasHeading(lines) {
      assert lines[i] == front[i];
    }
  }

  lemma {:induction false} SectionsAfterHeading(lines: seq<string>)
    ensures HasHeading(lines) <==> Run(START, lines).sections != []
  {
    if lines != [] {
      var front, last := lines[..|lines| - 1], lines[|lines| - 1];
      assert front + [last] == lines;
      SectionsAfterHeading(front);
      RunLast(front, last);
      OneMoreLine(front, last);
    }
  }

  lemma {:induction false} SkippedUnderCommitReferences(lines: seq<string>)
    requires UnderCommitReferences(lines)
    ensures IsSkipped(Run(START, lines).category) && Run(START, lines).sections != []
  {
    var front, last := lines[..|lines| - 1], lines[|lines| - 1];
    assert front + [last] == lines;
    RunLast(front, last);
    SectionsAfterHeading(lines);
    SectionsAfterHeading(front);
    if IsDetails(last) || CategoryOf(last).None? {
      SkippedUnderCommitReferences(front);
    }
  }

  /** Nothing under a "Commit References" subsection counts: any line there but a heading or the next
      category can be taken out. */
  lemma CommitReferencesIgnored(a: seq<string>, line: string, b: seq<string>)
    requires UnderCommitReferences(a) && HeadingOf(line).None? && CategoryOf(line).None?
    ensures Parse(a + [line] + b) == Parse(a + b)
  {
    SkippedUnderCommitReferences(a);
    RunConcat(START, a + [line], b);
    RunConcat(START, a, [line]);
    RunConcat(START, a, b);
    assert Run(Run(START, a), [line]) == Step(Run(START, a), line);
  }
}
