/** `wrap_bullet` (scripts/changelog_to_deb.py): greedy line breaking with a hanging indent. */
module BulletWrapper {
  import opened Wrappers
  import opened Sequences
  import opened Text

  const FIRST := "  *"
  const NEXT := "   "

  // There is a category, and it is not empty.
  predicate HasCategory(category: Option<string>) { category.Some? && category.value != "" }

  // The words of a bullet; `plain` is strip_markdown.
  function WordsOf(category: Option<string>, text: string, plain: string -> string): seq<string> {
    SplitWords(if HasCategory(category) then category.value + ": " + plain(text) else plain(text))
  }

  /** The words of the category with a colon, and those of the text. */
  lemma CategoryThenText(category: Option<string>, text: string, plain: string -> string)
    ensures WordsOf(category, text, plain)
         == if category.None? || category.value == "" then SplitWords(plain(text))
            else SplitWords(category.value + ":") + SplitWords(plain(text))
  {
    if HasCategory(category) {
      assert category.value + ": " + plain(text) == (category.value + ":") + " " + plain(text);
      SplitParts(category.value + ":", " ", plain(text));
    }
  }

  // ---------- splits of a word list into lines ----------

  function Flatten(groups: seq<seq<string>>): seq<string> {
    if groups == [] then [] else groups[0] + Flatten(groups[1..])
  }

  // The length of the line that holds these words; both prefixes have length 3.
  function LineLength(group: seq<string>): nat { |NEXT + Spaced(group)| }

  predicate Fits(group: seq<string>, width: int) { LineLength(group) <= width || |group| == 1 }

  /** A split into consecutive non-empty groups, each of which fits or is a single word. */
  predicate LegalSplit(groups: seq<seq<string>>, words: seq<string>, width: int) {
    && Flatten(groups) == words
    && forall i :: 0 <= i < |groups| ==> groups[i] != [] && Fits(groups[i], width)
  }

  // The lines of a split; no words at all make one bare line.
  function Layout(groups: seq<seq<string>>): (lines: seq<string>)
    ensures |lines| == if groups == [] then 1 else |groups|
  {
    if groups == [] then [FIRST] else [FIRST + Spaced(groups[0])] + Indented(groups[1..])
  }

  function Indented(groups: seq<seq<string>>): (lines: seq<string>)
    ensures |lines| == |groups|
    ensures forall i :: 0 <= i < |groups| ==> lines[i] == NEXT + Spaced(groups[i])
  {
    seq(|groups|, i requires 0 <= i < |groups| => NEXT + Spaced(groups[i]))
  }

  // ---------- the greedy split ----------

  // How many of these words still go on a line that is `len` long.
  function Room(words: seq<string>, len: nat, width: int): (k: nat)
    ensures k <= |words|
    decreases |words|
  {
    if words == [] || len + 1 + |words[0]| > width then 0
    else 1 + Room(words[1..], len + 1 + |words[0]|, width)
  }

  function FirstLine(words: seq<string>, width: int): (k: nat)
    requires words != []
    ensures 1 <= k <= |words|
  {
    1 + Room(words[1..], 4 + |words[0]|, width)
  }

  function Greedy(words: seq<string>, width: int): seq<seq<string>>
    decreases |words|
  {
    if words == [] then []
    else var k := FirstLine(words, width); [words[..k]] + Greedy(words[k..], width)
  }

  // The loop of `wrap_bullet`, from the line it is at.
  function Continue(line: string, words: seq<string>, width: int): seq<string>
    decreases |words|
  {
    if words == [] then [line]
    else if |line| + 1 + |words[0]| > width && line != FIRST && line != NEXT
    then [line] + Continue(NEXT + " " + words[0], words[1..], width)
    else Continue(line + " " + words[0], words[1..], width)
  }

  // The first word of a line and the rest of it.
  lemma FirstLineOf(prefix: string, words: seq<string>, width: int)
    requires words != []
    ensures var j := FirstLine(words, width);
            && words[j..] == words[1..][j - 1..]
            && prefix + " " + words[0] + Spaced(words[1..][..j - 1]) == prefix + Spaced(words[..j])
  {
    var j := FirstLine(words, width);
    assert words[..j] == [words[0]] + words[1..][..j - 1];
    assert prefix + (" " + words[0] + Spaced(words[1..][..j - 1]))
        == prefix + " " + words[0] + Spaced(words[1..][..j - 1]);
  }

  lemma IndentedFirst(words: seq<string>, width: int)
    requires words != []
    ensures var j := FirstLine(words, width);
            Indented(Greedy(words, width)) == [NEXT + Spaced(words[..j])] + Indented(Greedy(words[j..], width))
  {
    var j := FirstLine(words, width);
    assert Greedy(words, width) == [words[..j]] + Greedy(words[j..], width);
  }

  lemma RoomOf(line: string, words: seq<string>, k: nat)
    requires 1 <= k <= |words|
    ensures words[1..][k - 1..] == words[k..]
    ensures line + " " + words[0] + Spaced(words[1..][..k - 1]) == line + Spaced(words[..k])
  {
    assert words[..k] == [words[0]] + words[1..][..k - 1];
    assert line + (" " + words[0] + Spaced(words[1..][..k - 1])) == line + " " + words[0] + Spaced(words[1..][..k - 1]);
  }

  // The line filled up, and the rest split greedily.
  function Filled(line: string, words: seq<string>, width: int): seq<string> {
    var k := Room(words, |line|, width);
    [line + Spaced(words[..k])] + Indented(Greedy(words[k..], width))
  }

  lemma FilledAtEnd(line: string, width: int)
    ensures Filled(line, [], width) == [line]
  {
    assert line + Spaced([]) == line;
  }

  lemma FilledBreaks(line: string, words: seq<string>, width: int)
    requires words != [] && |line| + 1 + |words[0]| > width
    ensures Filled(line, words, width) == [line] + Filled(NEXT + " " + words[0], words[1..], width)
  {
    assert words[..0] == [] && words[0..] == words && line + Spaced([]) == line;
    FirstLineOf(NEXT, words, width);
    IndentedFirst(words, width);
  }

  lemma FilledFits(line: string, words: seq<string>, width: int)
    requires words != [] && |line| + 1 + |words[0]| <= width
    ensures Filled(line, words, width) == Filled(line + " " + words[0], words[1..], width)
  {
    RoomOf(line, words, Room(words, |line|, width));
  }

  // From a line that holds something, the loop fills it and goes on with the rest.
  lemma {:induction false} ContinueIsGreedy(line: string, words: seq<string>, width: int)
    requires |line| > 3
    ensures Continue(line, words, width) == Filled(line, words, width)
    decreases |words|
  {
    if words == [] {
      FilledAtEnd(line, width);
    } else if |line| + 1 + |words[0]| > width {
      FilledBreaks(line, words, width);
      ContinueIsGreedy(NEXT + " " + words[0], words[1..], width);
    } else {
      FilledFits(line, words, width);
      ContinueIsGreedy(line + " " + words[0], words[1..], width);
    }
  }

  lemma LoopIsGreedy(words: seq<string>, width: int)
    requires AreWords(words)
    ensures Continue(FIRST, words, width) == Layout(Greedy(words, width))
  {
    if words != [] {
      var j := FirstLine(words, width);
      ContinueIsGreedy(FIRST + " " + words[0], words[1..], width);
      FirstLineOf(FIRST, words, width);
      assert Greedy(words, width) == [words[..j]] + Greedy(words[j..], width);
      assert Greedy(words, width)[1..] == Greedy(words[j..], width);
    }
  }

  lemma ContinueStep(lines: seq<string>, line: string, words: seq<string>, i: nat, width: int)
    requires i < |words|
    ensures lines + Continue(line, words[i..], width)
         == if |line| + 1 + |words[i]| > width && line != FIRST && line != NEXT
            then lines + [line] + Continue(NEXT + " " + words[i], words[i + 1..], width)
            else lines + Continue(line + " " + words[i], words[i + 1..], width)
  {
    assert words[i..][0] == words[i] && words[i..][1..] == words[i + 1..];
    assert forall rest: seq<string> :: lines + ([line] + rest) == lines + [line] + rest;
  }

  method Wrap(words: seq<string>, width: int) returns (lines: seq<string>)
    requires AreWords(words)
    ensures lines == Layout(Greedy(words, width))
  {
    LoopIsGreedy(words, width);
    lines := [];
    var line := FIRST;
    var i := 0;
    assert words[0..] == words && [] + Continue(FIRST, words, width) == Continue(FIRST, words, width);
    while i < |words|
      invariant i <= |words|
      invariant lines + Continue(line, words[i..], width) == Continue(FIRST, words, width)
    {
      var word := words[i];
      ContinueStep(lines, line, words, i, width);
      if |line| + 1 + |word| > width && line != FIRST && line != NEXT {
        lines := lines + [line];
        line := NEXT;
      }
      line := line + " " + word;
      i := i + 1;
    }
    lines := lines + [line];
  }

  method WrapBullet(category: Option<string>, text: string, width: int, plain: string -> string)
    returns (lines: seq<string>)
    ensures lines == Layout(Greedy(WordsOf(category, text, plain), width))
    ensures AllWords(lines) == (if category.None? || category.value == "" then [] else SplitWords(category.value + ":"))
                               + SplitWords(plain(text))
    ensures forall i :: 0 <= i < |lines| ==>
              && |lines[i]| >= 3 && lines[i][..3] == (if i == 0 then "  *" else "   ")
              && (|lines[i]| <= width || |SplitWords(lines[i][3..])| <= 1)
  {
    var text' := plain(text);
    if category.Some? && category.value != "" {
      text' := category.value + ": " + text';
    }
    lines := Wrap(SplitWords(text'), width);
    CategoryThenText(category, text, plain);
    LinesAreRight(SplitWords(text'), width);
    LinesHoldWords(SplitWords(text'), width);
  }

  // ---------- nothing is lost, the width is kept, every break is forced ----------

  lemma {:induction false} RoomFits(words: seq<string>, len: nat, width: int)
    ensures var k := Room(words, len, width);
            && (k > 0 ==> len + |Spaced(words[..k])| <= width)
            && (k < |words| ==> len + |Spaced(words[..k])| + 1 + |words[k]| > width)
    decreases |words|
  {
    var k := Room(words, len, width);
    if k > 0 {
      RoomFits(words[1..], len + 1 + |words[0]|, width);
      assert words[..k] == [words[0]] + words[1..][..k - 1];
      assert k == 1 ==> words[1..][..k - 1] == [];
    } else {
      assert words[..k] == [];
    }
  }

  lemma FirstLineFits(words: seq<string>, width: int)
    requires words != []
    ensures var k := FirstLine(words, width);
            Fits(words[..k], width) && (k < |words| ==> LineLength(words[..k] + [words[k]]) > width)
  {
    var k := FirstLine(words, width);
    RoomFits(words[1..], 4 + |words[0]|, width);
    assert words[..k] == [words[0]] + words[1..][..k - 1];
    if k < |words| {
      SpacedConcat(words[..k], [words[k]]);
      assert Spaced([words[k]]) == " " + words[k] + Spaced([]);
    }
  }

  // The first word of the next line would not have fitted on this one.
  predicate ForcedBreak(group: seq<string>, next: seq<string>, width: int) {
    next != [] && LineLength(group + [next[0]]) > width
  }

  predicate AllForced(groups: seq<seq<string>>, width: int) {
    forall i, j :: 0 <= i < |groups| && j == i + 1 < |groups| ==> ForcedBreak(groups[i], groups[j], width)
  }

  // A first line in front of a legal split.
  lemma LegalCons(k: nat, rest: seq<seq<string>>, words: seq<string>, width: int)
    requires 0 < k <= |words| && Fits(words[..k], width) && LegalSplit(rest, words[k..], width)
    ensures LegalSplit([words[..k]] + rest, words, width)
  {
    var g := [words[..k]] + rest;
    assert g[1..] == rest && words == words[..k] + words[k..];
    forall i | 0 <= i < |g| ensures g[i] != [] && Fits(g[i], width) {
      assert i > 0 ==> g[i] == rest[i - 1];
    }
  }

  lemma {:induction false} GreedySplits(words: seq<string>, width: int)
    ensures LegalSplit(Greedy(words, width), words, width)
    decreases |words|
  {
    if words != [] {
      var k := FirstLine(words, width);
      FirstLineFits(words, width);
      GreedySplits(words[k..], width);
      LegalCons(k, Greedy(words[k..], width), words, width);
    }
  }

  // The break behind the first line is forced.
  lemma FirstBreak(words: seq<string>, width: int)
    requires |Greedy(words, width)| > 1
    ensures ForcedBreak(Greedy(words, width)[0], Greedy(words, width)[1], width)
  {
    var k := FirstLine(words, width);
    FirstLineFits(words, width);
    assert Greedy(words, width)[1] == Greedy(words[k..], width)[0] == words[k..][..FirstLine(words[k..], width)];
  }

  lemma {:induction false} GreedyBreaks(words: seq<string>, width: int)
    ensures AllForced(Greedy(words, width), width)
    decreases |words|
  {
    if words != [] {
      var g, rest := Greedy(words, width), Greedy(words[FirstLine(words, width)..], width);
      GreedyBreaks(words[FirstLine(words, width)..], width);
      assert g[1..] == rest;
      forall i, j | 0 <= i < |g| && j == i + 1 < |g| ensures ForcedBreak(g[i], g[j], width) {
        if i == 0 {
          FirstBreak(words, width);
        } else {
          assert g[i] == rest[i - 1] && g[j] == rest[j - 1];
        }
      }
    }
  }

  /** The greedy split is legal: all words, in order, in non-empty groups that fit or are one word. And
      every break is forced. */
  lemma GreedyIsLegal(words: seq<string>, width: int)
    ensures LegalSplit(Greedy(words, width), words, width)
    ensures AllForced(Greedy(words, width), width)
  {
    GreedySplits(words, width);
    GreedyBreaks(words, width);
  }

  // ---------- no legal split uses fewer lines ----------

  // A line that would hold more, from its start, holds no less from a later start.
  lemma {:induction false} RoomReaches(words: seq<string>, len: nat, width: int, m: nat)
    requires m <= |words| && (m > 0 ==> len + |Spaced(words[..m])| <= width)
    ensures m <= Room(words, len, width)
    decreases |words|
  {
    if m > 0 {
      assert words[..m] == [words[0]] + words[1..][..m - 1];
      assert m - 1 > 0 ==> len + 1 + |words[0]| + |Spaced(words[1..][..m - 1])| <= width;
      RoomReaches(words[1..], len + 1 + |words[0]|, width, m - 1);
    }
  }

  lemma FirstLineReaches(words: seq<string>, width: int, m: nat)
    requires words != [] && 1 <= m <= |words| && Fits(words[..m], width)
    ensures m <= FirstLine(words, width)
  {
    assert words[..m] == [words[0]] + words[1..][..m - 1];
    if m > 1 {
      RoomReaches(words[1..], 4 + |words[0]|, width, m - 1);
    }
  }

  lemma SuffixFits(group: seq<string>, j: nat, width: int)
    requires j < |group| && Fits(group, width)
    ensures Fits(group[j..], width)
  {
    assert group == group[..j] + group[j..];
    SpacedConcat(group[..j], group[j..]);
  }

  lemma {:induction false} FlattenSplits(groups: seq<seq<string>>)
    requires groups != []
    ensures |groups[0]| <= |Flatten(groups)|
    ensures Flatten(groups)[..|groups[0]|] == groups[0] && Flatten(groups)[|groups[0]|..] == Flatten(groups[1..])
  {
  }

  // A legal split without its first group.
  lemma LegalTail(groups: seq<seq<string>>, words: seq<string>, i: nat, width: int)
    requires i <= |words| && groups != [] && LegalSplit(groups, words[i..], width)
    ensures 1 <= |groups[0]| <= |words| - i
    ensures groups[0] == words[i..i + |groups[0]|] && LegalSplit(groups[1..], words[i + |groups[0]|..], width)
  {
    FlattenSplits(groups);
    var a := |groups[0]|;
    assert words[i..][a..] == words[i + a..] && words[i..][..a] == words[i..i + a];
  }

  // Greedy's next line reaches at least as far as any line that begins no later and fits.
  lemma NextLineReaches(words: seq<string>, i: nat, j: nat, m: nat, width: int)
    requires i <= j < m <= |words| && Fits(words[i..m], width)
    ensures m <= j + FirstLine(words[j..], width) <= |words|
  {
    var k := FirstLine(words[j..], width);
    SuffixFits(words[i..m], j - i, width);
    assert words[i..m][j - i..] == words[j..][..m - j];
    FirstLineReaches(words[j..], width, m - j);
  }

  // How many lines greedy needs from word j on.
  function LinesFrom(words: seq<string>, j: nat, width: int): nat
    requires j <= |words|
    decreases |words| - j
  {
    if j == |words| then 0 else 1 + LinesFrom(words, NextStart(words, j, width), width)
  }

  // Where greedy's next line ends.
  function NextStart(words: seq<string>, j: nat, width: int): (k: nat)
    requires j < |words|
    ensures j < k <= |words|
  {
    j + FirstLine(words[j..], width)
  }

  lemma OneLineLess(words: seq<string>, j: nat, width: int)
    requires j < |words|
    ensures |Greedy(words[j..], width)| == 1 + |Greedy(words[NextStart(words, j, width)..], width)|
  {
    DropDrop(words, j, FirstLine(words[j..], width));
  }

  lemma {:induction false} GreedyLines(words: seq<string>, j: nat, width: int)
    requires j <= |words|
    ensures |Greedy(words[j..], width)| == LinesFrom(words, j, width)
    decreases |words| - j
  {
    if j < |words| {
      var k := NextStart(words, j, width);
      OneLineLess(words, j, width);
      GreedyLines(words, k, width);
      assert LinesFrom(words, j, width) == 1 + LinesFrom(words, k, width);
    } else {
      assert words[j..] == [];
    }
  }

  // Where the next line ends: no later than greedy's, if it begins no later.
  lemma NextLineAhead(groups: seq<seq<string>>, words: seq<string>, i: nat, j: nat, width: int)
    returns (rest: seq<seq<string>>, m: nat)
    requires i <= j < |words| && LegalSplit(groups, words[i..], width)
    ensures |groups| == 1 + |rest| && m <= NextStart(words, j, width) && LegalSplit(rest, words[m..], width)
  {
    assert groups != [];
    LegalTail(groups, words, i, width);
    rest, m := groups[1..], i + |groups[0]|;
    if m > j {
      NextLineReaches(words, i, j, m, width);
    }
  }

  // Greedy stays ahead: starting no earlier, it needs no more lines.
  lemma {:induction false} StaysAhead(groups: seq<seq<string>>, words: seq<string>, i: nat, j: nat, width: int)
    requires i <= j <= |words| && LegalSplit(groups, words[i..], width)
    ensures LinesFrom(words, j, width) <= |groups|
    decreases |groups|
  {
    if j < |words| {
      var rest, m := NextLineAhead(groups, words, i, j, width);
      var k := NextStart(words, j, width);
      StaysAhead(rest, words, m, k, width);
      assert LinesFrom(words, j, width) == 1 + LinesFrom(words, k, width);
    } else {
      assert LinesFrom(words, j, width) == 0;
    }
  }

  /** Greedy wrapping is optimal: no legal split of the words takes fewer lines. */
  lemma GreedyIsOptimal(groups: seq<seq<string>>, words: seq<string>, width: int)
    requires LegalSplit(groups, words, width)
    ensures |Layout(Greedy(words, width))| <= |Layout(groups)|
  {
    assert words[0..] == words;
    StaysAhead(groups, words, 0, 0, width);
    GreedyLines(words, 0, width);
    if groups == [] {
      assert words == [];
    }
  }

  // ---------- the same on the lines as written ----------

  // What a line says, without its prefix.
  function LineWords(line: string): seq<string>
    requires |line| >= 3
  {
    SplitWords(line[3..])
  }

  // Line i of a layout, and the words in it.
  lemma LineIsGroup(g: seq<seq<string>>, i: nat)
    requires i < |g| && AreWords(g[i])
    ensures Layout(g)[i] == (if i == 0 then FIRST else NEXT) + Spaced(g[i])
    ensures LineWords(Layout(g)[i]) == g[i]
  {
    var line := (if i == 0 then FIRST else NEXT) + Spaced(g[i]);
    assert i > 0 ==> Layout(g)[i] == Indented(g[1..])[i - 1];
    assert Layout(g)[i] == line;
    assert line[3..] == Spaced(g[i]);
    SplitSpaced(g[i]);
  }

  // What a line of the file should be, that is to hold these words.
  predicate RightLine(line: string, first: bool, words: seq<string>, width: int) {
    && |line| >= 3 && line[..3] == (if first then "  *" else "   ") && LineWords(line) == words
    && (|line| <= width || |words| <= 1)
  }

  /** The lines as written: the first has the star, the others the indent; without the prefixes they
      hold the words, in order; none is over the width unless it holds a single word; none is bare but
      that of an empty bullet. */
  lemma LinesAreRight(words: seq<string>, width: int)
    requires AreWords(words)
    ensures var lines, g := Layout(Greedy(words, width)), Greedy(words, width);
            && Flatten(g) == words && (words == [] ==> g == [] && |lines| == 1) && (words != [] ==> |lines| == |g|)
            && (forall i :: 0 <= i < |g| ==> g[i] != [])
            && (forall i :: 0 <= i < |lines| ==> RightLine(lines[i], i == 0, if words == [] then [] else g[i], width))
  {
    var lines, g := Layout(Greedy(words, width)), Greedy(words, width);
    GreedyIsLegal(words, width);
    if words != [] {
      GroupsAreWords(g, words);
      forall i | 0 <= i < |lines| ensures RightLine(lines[i], i == 0, g[i], width) {
        LineIsGroup(g, i);
      }
    }
  }

  // The words of all lines, in order, without the first three characters of each.
  function AllWords(lines: seq<string>): seq<string> {
    if lines == [] then []
    else SplitWords(if |lines[0]| < 3 then "" else lines[0][3..]) + AllWords(lines[1..])
  }

  // One line in front.
  lemma LineInFront(prefix: string, words: seq<string>, lines: seq<string>)
    requires |prefix| == 3 && AreWords(words)
    ensures AllWords([prefix + Spaced(words)] + lines) == words + AllWords(lines)
  {
    var line := prefix + Spaced(words);
    assert ([line] + lines)[1..] == lines && line[3..] == Spaced(words);
    SplitSpaced(words);
  }

  lemma {:induction false} IndentedWords(groups: seq<seq<string>>)
    requires forall i :: 0 <= i < |groups| ==> AreWords(groups[i])
    ensures AllWords(Indented(groups)) == Flatten(groups)
  {
    if groups != [] {
      IndentedWords(groups[1..]);
      LineInFront(NEXT, groups[0], Indented(groups[1..]));
      assert Indented(groups) == [NEXT + Spaced(groups[0])] + Indented(groups[1..]);
    }
  }

  lemma BareLine()
    ensures AllWords([FIRST]) == []
  {
    LineInFront(FIRST, [], []);
    assert FIRST + Spaced([]) == FIRST && [FIRST] + [] == [FIRST];
  }

  lemma LayoutWords(g: seq<seq<string>>)
    requires forall i :: 0 <= i < |g| ==> AreWords(g[i])
    ensures AllWords(Layout(g)) == Flatten(g)
  {
    if g == [] {
      BareLine();
    } else {
      IndentedWords(g[1..]);
      LineInFront(FIRST, g[0], Indented(g[1..]));
    }
  }

  lemma LinesHoldWords(words: seq<string>, width: int)
    requires AreWords(words)
    ensures AllWords(Layout(Greedy(words, width))) == words
  {
    GreedyIsLegal(words, width);
    GroupsAreWords(Greedy(words, width), words);
    LayoutWords(Greedy(words, width));
  }

  lemma {:induction false} GroupsAreWords(groups: seq<seq<string>>, words: seq<string>)
    requires AreWords(words) && Flatten(groups) == words
    ensures forall i :: 0 <= i < |groups| ==> AreWords(groups[i])
  {
    if groups != [] {
      FlattenSplits(groups);
      assert forall j :: 0 <= j < |groups[0]| ==> groups[0][j] == words[j];
      assert forall j :: 0 <= j < |Flatten(groups[1..])| ==> Flatten(groups[1..])[j] == words[|groups[0]| + j];
      GroupsAreWords(groups[1..], Flatten(groups[1..]));
      assert forall i :: 1 <= i < |groups| ==> groups[i] == groups[1..][i - 1];
    }
  }
}
