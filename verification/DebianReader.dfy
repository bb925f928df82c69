/** Reading debian/changelog back: a reader for what DebianChangelog writes, and what it recovers. */
module DebianReader {
  import opened Sequences
  import opened Text
  import opened ChangelogParser
  import opened BulletWrapper
  import opened Stanzas
  import opened DebianChangelog

  // ---------- reading ----------

  datatype Entry = Entry(version: string, distribution: string, bullets: seq<seq<string>>, trailer: string)

  // The lines are read from the last to the first; what comes next, seen from below.
  datatype Place = Outside | AboveTrailer | InBody | AtHeader

  // The entries below, and what has been seen of the next.
  datatype Reading = Reading(entries: seq<Entry>, bullets: seq<seq<string>>, pending: seq<string>, trailer: string,
      at: Place)

  const OPEN := " ("
  const URGENCY := "; urgency=low"

  // Where " (" first comes in s; the length of s when it does not.
  function OpenAt(s: string): (i: nat)
    ensures i <= |s| && (i < |s| ==> i + 2 <= |s|)
  {
    if s == "" || OPEN <= s then 0 else 1 + OpenAt(s[1..])
  }

  predicate HasOpen(s: string) { OpenAt(s) < |s| }

  // Everything behind the last closing parenthesis.
  function BehindClose(s: string): (r: string)
    ensures |r| <= |s|
  {
    if s == "" || s[|s| - 1] == ')' then "" else BehindClose(s[..|s| - 1]) + [s[|s| - 1]]
  }

  // The version stands between the first " (" and the last closing parenthesis, the distribution behind it.
  function ReadHeader(line: string, r: Reading): Entry {
    var s := if |line| < |URGENCY| then "" else line[..|line| - |URGENCY|];
    var behind := BehindClose(s);
    var front := s[..|s| - |behind|];
    var inside := if front == "" then "" else front[..|front| - 1];
    var i := OpenAt(inside);
    Entry(if i + 2 <= |inside| then inside[i + 2..] else "", if behind == "" then "" else behind[1..],
          r.bullets, r.trailer)
  }

  function ReadLine(line: string, r: Reading): Reading {
    match r.at
    case Outside => if |line| < 4 then r else r.(trailer := line[4..], at := AboveTrailer)
    case AboveTrailer => r.(at := InBody)
    case InBody =>
      if FIRST <= line then r.(bullets := [SplitWords(line[3..]) + r.pending] + r.bullets, pending := [])
      else if NEXT <= line then r.(pending := SplitWords(line[3..]) + r.pending)
      else r.(at := AtHeader)
    case AtHeader => Reading([ReadHeader(line, r)] + r.entries, [], [], "", Outside)
  }

  function ReadLines(lines: seq<string>, r: Reading): Reading {
    if lines == [] then r else ReadLine(lines[0], ReadLines(lines[1..], r))
  }

  // Nothing of the next entry has been seen yet.
  function Below(entries: seq<Entry>): Reading { Reading(entries, [], [], "", Outside) }

  /** The entries of a changelog, from its text alone. */
  function ReadBack(text: string): seq<Entry> { ReadLines(SplitLines(text), Below([])).entries }

  // ---------- what is read is what was written ----------

  function BulletWords(c: Setup, bullets: seq<Bullet>): seq<seq<string>> {
    if bullets == [] then [] else [Words(c, bullets[0])] + BulletWords(c, bullets[1..])
  }

  // What a stanza says; the fallback bullet stands for an empty list.
  function EntryOf(c: Setup, s: Stanza): Entry {
    Entry(s.version, s.distribution, if s.bullets == [] then [SplitWords(FALLBACK_TEXT)] else BulletWords(c, s.bullets),
          c.maintainer + "  " + s.date)
  }

  function EntriesOf(c: Setup, stanzas: seq<Stanza>): seq<Entry> {
    if stanzas == [] then [] else [EntryOf(c, stanzas[0])] + EntriesOf(c, stanzas[1..])
  }

  predicate OneLineSetup(c: Setup) { OneLine(c.package) && OneLine(c.maintainer) }

  // The script's own distributions, "stable" and "UNRELEASED", have no parenthesis.
  predicate OneLineStanza(s: Stanza) {
    OneLine(s.version) && OneLine(s.distribution) && ')' !in s.distribution && OneLine(s.date)
  }

  predicate OneLineStanzas(stanzas: seq<Stanza>) {
    forall i :: 0 <= i < |stanzas| ==> OneLineStanza(stanzas[i])
  }

  lemma {:induction false} ReadConcat(a: seq<string>, b: seq<string>, r: Reading)
    ensures ReadLines(a + b, r) == ReadLines(a, ReadLines(b, r))
  {
    if a == [] {
      assert a + b == b;
    } else {
      assert (a + b)[1..] == a[1..] + b;
      ReadConcat(a[1..], b, r);
    }
  }

  lemma ReadOne(line: string, r: Reading)
    ensures ReadLines([line], r) == ReadLine(line, r)
  {
    assert [line][1..] == [];
  }

  // ---------- bullets ----------

  predicate AreGroups(groups: seq<seq<string>>) {
    forall i :: 0 <= i < |groups| ==> AreWords(groups[i]) && groups[i] != []
  }

  // A continuation line adds its words in front of those below it.
  lemma ReadNext(words: seq<string>, r: Reading)
    requires AreWords(words) && words != [] && r.at.InBody?
    ensures ReadLine(NEXT + Spaced(words), r) == r.(pending := words + r.pending)
  {
    var line := NEXT + Spaced(words);
    SplitSpaced(words);
    assert line[3..] == Spaced(words) && line[2] == ' ';
  }

  lemma {:induction false} ReadIndented(groups: seq<seq<string>>, r: Reading)
    requires AreGroups(groups) && r.at.InBody?
    ensures ReadLines(Indented(groups), r) == r.(pending := Flatten(groups) + r.pending)
  {
    if groups == [] {
      Empty(r.pending);
    } else {
      ReadIndented(groups[1..], r);
      ReadNext(groups[0], r.(pending := Flatten(groups[1..]) + r.pending));
      IndentedFirst(groups);
      Assoc(groups[0], Flatten(groups[1..]), r.pending);
    }
  }

  lemma IndentedFirst(groups: seq<seq<string>>)
    requires groups != []
    ensures Indented(groups) != [] && Indented(groups)[0] == NEXT + Spaced(groups[0])
            && Indented(groups)[1..] == Indented(groups[1..])
  {
  }

  // A bullet's first line closes the bullet.
  lemma ReadFirst(text: string, r: Reading)
    requires r.at.InBody?
    ensures ReadLine(FIRST + text, r) == r.(bullets := [SplitWords(text) + r.pending] + r.bullets, pending := [])
  {
    assert (FIRST + text)[3..] == text;
  }

  // With nothing below it, it is the bullet.
  lemma ReadOnly(text: string, r: Reading)
    requires r.at.InBody? && r.pending == []
    ensures ReadLines([FIRST + text], r) == r.(bullets := [SplitWords(text)] + r.bullets)
  {
    ReadOne(FIRST + text, r);
    ReadFirst(text, r);
    Empty(SplitWords(text));
  }

  lemma LayoutFirst(g: seq<seq<string>>)
    ensures Layout(g) != [] && Layout(g)[0] == FIRST + Spaced(if g == [] then [] else g[0])
    ensures Layout(g)[1..] == Indented(if g == [] then [] else g[1..])
  {
  }

  lemma ReadGroups(g: seq<seq<string>>, r: Reading)
    requires r.pending == [] && r.at.InBody? && AreGroups(g)
    ensures ReadLines(Layout(g), r) == r.(bullets := [Flatten(g)] + r.bullets)
  {
    LayoutFirst(g);
    if g == [] {
      SplitSpaced([]);
      ReadOnly(Spaced([]), r);
      assert Layout(g) == [FIRST + Spaced([])];
    } else {
      var rest := r.(pending := Flatten(g[1..]));
      ReadIndented(g[1..], r);
      Empty(Flatten(g[1..]));
      SplitSpaced(g[0]);
      ReadFirst(Spaced(g[0]), rest);
    }
  }

  lemma ReadBullet(words: seq<string>, r: Reading)
    requires AreWords(words) && r.pending == [] && r.at.InBody?
    ensures ReadLines(Layout(Greedy(words, WIDTH)), r) == r.(bullets := [words] + r.bullets)
  {
    GreedyIsLegal(words, WIDTH);
    GroupsAreWords(Greedy(words, WIDTH), words);
    ReadGroups(Greedy(words, WIDTH), r);
  }

  lemma {:induction false} ReadBullets(c: Setup, bullets: seq<Bullet>, r: Reading)
    requires r.pending == [] && r.at.InBody?
    ensures ReadLines(BulletLines(c, bullets), r) == r.(bullets := BulletWords(c, bullets) + r.bullets)
  {
    if bullets == [] {
      Empty(r.bullets);
    } else {
      var words, rest := Words(c, bullets[0]), BulletWords(c, bullets[1..]);
      ReadBullets(c, bullets[1..], r);
      ReadConcat(Layout(Greedy(words, WIDTH)), BulletLines(c, bullets[1..]), r);
      ReadBullet(words, r.(bullets := rest + r.bullets));
      Assoc([words], rest, r.bullets);
    }
  }

  lemma ReadBody(c: Setup, s: Stanza, r: Reading)
    requires r.pending == [] && r.bullets == [] && r.at.InBody?
    ensures ReadLines(BodyLines(c, s.bullets), r) == r.(bullets := EntryOf(c, s).bullets)
  {
    if s.bullets == [] {
      ReadOnly(FALLBACK_TEXT, r);
    } else {
      ReadBullets(c, s.bullets, r);
      Empty(BulletWords(c, s.bullets));
    }
  }

  // ---------- headers ----------

  // The first " (" of a header is the one that was written, unless the package's name has one itself.
  lemma {:induction false} FirstOpen(a: string, b: string)
    ensures OpenAt(a + OPEN + b) == OpenAt(a)
  {
    var s := a + OPEN + b;
    if a == "" {
      assert OPEN <= s;
    } else {
      assert s[1..] == a[1..] + OPEN + b;
      assert OPEN <= s <==> OPEN <= a by {
        assert s[0] == a[0] && (if |a| > 1 then s[1] == a[1] else s[1] == ' ');
        assert OPEN <= s <==> s[0] == ' ' && s[1] == '(';
        assert OPEN <= a <==> |a| > 1 && a[0] == ' ' && a[1] == '(';
      }
      FirstOpen(a[1..], b);
    }
  }

  lemma {:induction false} CloseSplits(a: string, b: string)
    requires ')' !in b
    ensures BehindClose(a + ")" + b) == b
  {
    var s := a + ")" + b;
    if b == "" {
      assert s[|s| - 1] == ')';
    } else {
      var n := |b| - 1;
      assert s[..|s| - 1] == a + ")" + b[..n] && s[|s| - 1] == b[n];
      assert b[n] in b && b == b[..n] + [b[n]];
      CloseSplits(a, b[..n]);
    }
  }

  // The parts of a header that a reader can tell apart.
  lemma HeaderParts(c: Setup, s: Stanza)
    requires ')' !in s.distribution
    ensures var line := Header(c, s);
            && |line| >= |URGENCY|
            && var all := line[..|line| - |URGENCY|];
               && BehindClose(all) == " " + s.distribution
               && all[..|all| - |BehindClose(all)|] == c.package + OPEN + s.version + ")"
  {
    var inside, behind := c.package + OPEN + s.version, " " + s.distribution;
    var all := inside + ")" + behind;
    assert Header(c, s) == all + URGENCY;
    assert Header(c, s)[..|all|] == all;
    CloseSplits(inside, behind);
  }

  // The version that is read: the one that was written, or that and the end of the package's name.
  lemma ReadVersion(c: Setup, s: Stanza, r: Reading)
    requires ')' !in s.distribution
    ensures var e, i := ReadHeader(Header(c, s), r), OpenAt(c.package);
            && e == Entry(e.version, s.distribution, r.bullets, r.trailer)
            && e.version == if HasOpen(c.package) then (c.package + OPEN + s.version)[i + 2..] else s.version
  {
    HeaderParts(c, s);
    var inside := c.package + OPEN + s.version;
    assert (inside + ")")[..|inside|] == inside;
    FirstOpen(c.package, s.version);
    assert inside[|c.package| + 2..] == s.version;
    assert (" " + s.distribution)[1..] == s.distribution;
  }

  lemma HeaderReadsBackIff(c: Setup, s: Stanza, r: Reading)
    requires ')' !in s.distribution
    ensures ReadHeader(Header(c, s), r) == Entry(s.version, s.distribution, r.bullets, r.trailer)
            <==> !HasOpen(c.package)
  {
    ReadVersion(c, s, r);
  }

  // ---------- stanzas ----------

  // What is read of a stanza, whatever its header.
  lemma ReadStanza(c: Setup, s: Stanza, entries: seq<Entry>)
    ensures ReadLines(StanzaLines(c, s), Below(entries))
         == Below([ReadHeader(Header(c, s),
                              Reading(entries, EntryOf(c, s).bullets, [], EntryOf(c, s).trailer, AtHeader))] + entries)
  {
    var head, body, tail := [Header(c, s), ""], BodyLines(c, s.bullets), ["", Trailer(c, s)];
    ReadConcat(head + body, tail, Below(entries));
    ReadConcat(head, body, ReadLines(tail, Below(entries)));
    ReadTail(c, s, entries);
    ReadBody(c, s, Reading(entries, [], [], EntryOf(c, s).trailer, InBody));
    ReadHead(c, s, Reading(entries, EntryOf(c, s).bullets, [], EntryOf(c, s).trailer, InBody));
  }

  lemma ReadTail(c: Setup, s: Stanza, entries: seq<Entry>)
    ensures ReadLines(["", Trailer(c, s)], Below(entries)) == Reading(entries, [], [], EntryOf(c, s).trailer, InBody)
  {
    assert ["", Trailer(c, s)] == [""] + [Trailer(c, s)];
    ReadConcat([""], [Trailer(c, s)], Below(entries));
    ReadTrailer(c.maintainer + "  " + s.date, entries);
    assert " -- " + c.maintainer + "  " + s.date == " -- " + (c.maintainer + "  " + s.date);
    ReadOne("", Reading(entries, [], [], EntryOf(c, s).trailer, AboveTrailer));
  }

  lemma ReadTrailer(text: string, entries: seq<Entry>)
    ensures ReadLines([" -- " + text], Below(entries)) == Reading(entries, [], [], text, AboveTrailer)
  {
    ReadOne(" -- " + text, Below(entries));
    assert (" -- " + text)[4..] == text;
  }

  lemma ReadHead(c: Setup, s: Stanza, r: Reading)
    requires r.at.InBody?
    ensures ReadLines([Header(c, s), ""], r) == Below([ReadHeader(Header(c, s), r.(at := AtHeader))] + r.entries)
  {
    assert [Header(c, s), ""] == [Header(c, s)] + [""];
    ReadConcat([Header(c, s)], [""], r);
    ReadOne("", r);
    ReadOne(Header(c, s), r.(at := AtHeader));
  }

  lemma ReadGap(stanzas: seq<Stanza>, entries: seq<Entry>)
    ensures ReadLines(Gap(stanzas), Below(entries)) == Below(entries)
  {
    ReadOne("", Below(entries));
  }

  // What a reader makes of the stanzas of a file.
  function EntriesRead(c: Setup, stanzas: seq<Stanza>): seq<Entry> {
    if stanzas == [] then []
    else
      var e := EntryOf(c, stanzas[0]);
      [ReadHeader(Header(c, stanzas[0]), Reading(EntriesRead(c, stanzas[1..]), e.bullets, [], e.trailer, AtHeader))]
      + EntriesRead(c, stanzas[1..])
  }

  lemma {:induction false} ReadFile(c: Setup, stanzas: seq<Stanza>)
    ensures ReadLines(FileLines(c, stanzas), Below([])) == Below(EntriesRead(c, stanzas))
  {
    if stanzas != [] {
      var rest := EntriesRead(c, stanzas[1..]);
      ReadFile(c, stanzas[1..]);
      ReadConcat(StanzaLines(c, stanzas[0]) + Gap(stanzas), FileLines(c, stanzas[1..]), Below([]));
      ReadConcat(StanzaLines(c, stanzas[0]), Gap(stanzas), Below(rest));
      ReadGap(stanzas, rest);
      ReadStanza(c, stanzas[0], rest);
    }
  }

  lemma {:induction false} EntriesReadIff(c: Setup, stanzas: seq<Stanza>)
    requires OneLineStanzas(stanzas)
    ensures EntriesRead(c, stanzas) == EntriesOf(c, stanzas) <==> stanzas == [] || !HasOpen(c.package)
  {
    if stanzas != [] {
      var e := EntryOf(c, stanzas[0]);
      EntriesReadIff(c, stanzas[1..]);
      HeaderReadsBackIff(c, stanzas[0], Reading(EntriesRead(c, stanzas[1..]), e.bullets, [], e.trailer, AtHeader));
      assert EntriesRead(c, stanzas)[1..] == EntriesRead(c, stanzas[1..]);
      assert EntriesOf(c, stanzas)[1..] == EntriesOf(c, stanzas[1..]);
      assert EntriesOf(c, stanzas)[0] == e;
    }
  }

  // ---------- no line holds a newline ----------

  lemma {:induction false} SpacedOneLine(ws: seq<string>)
    requires AreWords(ws)
    ensures OneLine(Spaced(ws))
  {
    if ws != [] {
      assert OneLine(ws[0]) by {
        assert forall i :: 0 <= i < |ws[0]| ==> !IsSpace(ws[0][i]);
      }
      SpacedOneLine(ws[1..]);
    }
  }

  lemma LayoutOneLine(words: seq<string>)
    requires AreWords(words)
    ensures forall i :: 0 <= i < |Layout(Greedy(words, WIDTH))| ==> OneLine(Layout(Greedy(words, WIDTH))[i])
  {
    var g, lines := Greedy(words, WIDTH), Layout(Greedy(words, WIDTH));
    GreedyIsLegal(words, WIDTH);
    GroupsAreWords(g, words);
    forall i | 0 <= i < |lines| ensures OneLine(lines[i]) {
      if g != [] {
        SpacedOneLine(g[i]);
        assert i > 0 ==> lines[i] == Indented(g[1..])[i - 1] == NEXT + Spaced(g[i]);
      }
    }
  }

  lemma {:induction false} BulletsOneLine(c: Setup, bullets: seq<Bullet>)
    ensures forall i :: 0 <= i < |BulletLines(c, bullets)| ==> OneLine(BulletLines(c, bullets)[i])
  {
    if bullets != [] {
      LayoutOneLine(Words(c, bullets[0]));
      BulletsOneLine(c, bullets[1..]);
    }
  }

  lemma StanzaOneLine(c: Setup, s: Stanza)
    requires OneLineSetup(c) && OneLineStanza(s)
    ensures forall i :: 0 <= i < |StanzaLines(c, s)| ==> OneLine(StanzaLines(c, s)[i])
  {
    BulletsOneLine(c, s.bullets);
    assert OneLine(Header(c, s)) && OneLine(Trailer(c, s)) && OneLine(FALLBACK) && OneLine("");
  }

  lemma {:induction false} FileOneLine(c: Setup, stanzas: seq<Stanza>)
    requires OneLineSetup(c) && OneLineStanzas(stanzas)
    ensures forall i :: 0 <= i < |FileLines(c, stanzas)| ==> OneLine(FileLines(c, stanzas)[i])
  {
    if stanzas != [] {
      StanzaOneLine(c, stanzas[0]);
      FileOneLine(c, stanzas[1..]);
    }
  }

  // ---------- theorems ----------

  /** This reader recovers every stanza of a written changelog from its text -- version, distribution, every
      bullet's words, and the trailer -- if and only if the package's name does not contain " (". */
  lemma WrittenReadsBackIff(c: Setup, stanzas: seq<Stanza>)
    requires OneLineSetup(c) && OneLineStanzas(stanzas)
    ensures ReadBack(Unlines(FileLines(c, stanzas))) == EntriesOf(c, stanzas) <==> stanzas == [] || !HasOpen(c.package)
  {
    FileOneLine(c, stanzas);
    SplitUnlines(FileLines(c, stanzas));
    ReadFile(c, stanzas);
    EntriesReadIff(c, stanzas);
  }
}
