/** Writing debian/changelog (`emit_stanza` and the output loop of `main`, scripts/changelog_to_deb.py):
    stanzas as section 4.4 of the Debian Policy Manual lays them out. */
module DebianChangelog {
  import opened Sequences
  import opened Text
  import opened ChangelogParser
  import opened BulletWrapper
  import opened Stanzas

  const WIDTH := 78
  const FALLBACK_TEXT := " See CHANGELOG.md for release notes."
  const FALLBACK := FIRST + FALLBACK_TEXT

  // What every stanza has in common; `plain` is strip_markdown.
  datatype Setup = Setup(package: string, maintainer: string, plain: string -> string)

  // ---------- the lines of the file ----------

  function Header(c: Setup, s: Stanza): string {
    c.package + " (" + s.version + ") " + s.distribution + "; urgency=low"
  }

  function Trailer(c: Setup, s: Stanza): string {
    " -- " + c.maintainer + "  " + s.date
  }

  function Words(c: Setup, b: Bullet): seq<string> { WordsOf(b.category, b.text, c.plain) }

  function BulletLines(c: Setup, bullets: seq<Bullet>): seq<string> {
    if bullets == [] then []
    else Layout(Greedy(Words(c, bullets[0]), WIDTH)) + BulletLines(c, bullets[1..])
  }

  function BodyLines(c: Setup, bullets: seq<Bullet>): seq<string> {
    if bullets == [] then [FALLBACK] else BulletLines(c, bullets)
  }

  function StanzaLines(c: Setup, s: Stanza): seq<string> {
    [Header(c, s), ""] + BodyLines(c, s.bullets) + ["", Trailer(c, s)]
  }

  function FileLines(c: Setup, stanzas: seq<Stanza>): seq<string> {
    if stanzas == [] then []
    else StanzaLines(c, stanzas[0]) + Gap(stanzas) + FileLines(c, stanzas[1..])
  }

  // The blank line between two stanzas.
  function Gap(stanzas: seq<Stanza>): seq<string> { if |stanzas| > 1 then [""] else [] }

  // ---------- the text, character by character ----------

  function BulletsText(c: Setup, bullets: seq<Bullet>): string {
    if bullets == [] then ""
    else JoinLines(Layout(Greedy(Words(c, bullets[0]), 78))) + "\n" + BulletsText(c, bullets[1..])
  }

  function StanzaText(c: Setup, s: Stanza): string {
    c.package + " (" + s.version + ") " + s.distribution + "; urgency=low\n\n"
    + (if s.bullets == [] then "  *" + " See CHANGELOG.md for release notes." + "\n" else BulletsText(c, s.bullets))
    + "\n -- " + c.maintainer + "  " + s.date + "\n"
  }

  // A blank line between two stanzas, and none at the end.
  function FileText(c: Setup, stanzas: seq<Stanza>): string {
    if stanzas == [] then ""
    else if |stanzas| == 1 then StanzaText(c, stanzas[0])
    else StanzaText(c, stanzas[0]) + "\n" + FileText(c, stanzas[1..])
  }

  lemma {:induction false} BulletsTextIsLines(c: Setup, bullets: seq<Bullet>)
    ensures BulletsText(c, bullets) == Unlines(BulletLines(c, bullets))
  {
    if bullets != [] {
      var lines := Layout(Greedy(Words(c, bullets[0]), WIDTH));
      JoinLinesEnds(lines);
      BulletsTextIsLines(c, bullets[1..]);
      UnlinesConcat(lines, BulletLines(c, bullets[1..]));
    }
  }

  lemma OneLineText(line: string)
    ensures Unlines([line]) == line + "\n"
  {
    assert [line][1..] == [] && line + "\n" + "" == line + "\n";
  }

  lemma BodyTextIsLines(c: Setup, bullets: seq<Bullet>)
    ensures Unlines(BodyLines(c, bullets))
         == if bullets == [] then "  *" + " See CHANGELOG.md for release notes." + "\n" else BulletsText(c, bullets)
  {
    if bullets == [] {
      OneLineText(FALLBACK);
    } else {
      BulletsTextIsLines(c, bullets);
    }
  }

  lemma HeaderText(c: Setup, s: Stanza)
    ensures c.package + " (" + s.version + ") " + s.distribution + "; urgency=low\n\n" == Header(c, s) + "\n\n"
  {
    assert "; urgency=low" + "\n\n" == "; urgency=low\n\n";
    Assoc(c.package + " (" + s.version + ") " + s.distribution, "; urgency=low", "\n\n");
  }

  lemma TrailerText(c: Setup, s: Stanza, before: string)
    ensures before + "\n -- " + c.maintainer + "  " + s.date + "\n" == before + ("\n" + Trailer(c, s) + "\n")
  {
    assert "\n" + " -- " == "\n -- ";
  }

  lemma StanzaTextIsLines(c: Setup, s: Stanza)
    ensures StanzaText(c, s) == Unlines(StanzaLines(c, s))
  {
    var body := Unlines(BodyLines(c, s.bullets));
    StanzaParts(c, s, "");
    BodyTextIsLines(c, s.bullets);
    HeaderText(c, s);
    TrailerText(c, s, Header(c, s) + "\n\n" + body);
    assert "" + (Header(c, s) + "\n\n") == Header(c, s) + "\n\n";
  }

  lemma {:induction false} FileTextIsLines(c: Setup, stanzas: seq<Stanza>)
    ensures FileText(c, stanzas) == Unlines(FileLines(c, stanzas))
  {
    if stanzas != [] {
      FileText1(c, stanzas);
      StanzaTextIsLines(c, stanzas[0]);
      FileTextIsLines(c, stanzas[1..]);
    }
  }

  lemma FileText1(c: Setup, stanzas: seq<Stanza>)
    requires stanzas != []
    ensures Unlines(FileLines(c, stanzas))
         == Unlines(StanzaLines(c, stanzas[0])) + (if |stanzas| > 1 then "\n" else "")
             + Unlines(FileLines(c, stanzas[1..]))
  {
    assert stanzas[0..] == stanzas;
    FileParts(c, stanzas, 0);
  }

  // ---------- writing ----------

  class TextFile {
    var text: string

    constructor ()
      ensures text == ""
    {
      text := "";
    }

    method Write(s: string)
      modifies this
      ensures text == old(text) + s
    {
      text := text + s;
    }

    method EmitBullets(c: Setup, bullets: seq<Bullet>)
      modifies this
      ensures text == old(text) + Unlines(BulletLines(c, bullets))
    {
      ghost var goal := text + BulletsFrom(c, bullets, 0);
      var i := 0;
      assert bullets[0..] == bullets;
      while i < |bullets|
        invariant i <= |bullets| && text + BulletsFrom(c, bullets, i) == goal
      {
        BulletsStep(c, bullets, i, text);
        EmitBullet(c, bullets[i]);
        i := i + 1;
      }
      assert text + "" == text;
    }

    method EmitBullet(c: Setup, b: Bullet)
      modifies this
      ensures text == old(text) + Unlines(Layout(Greedy(Words(c, b), WIDTH)))
    {
      var lines := WrapBullet(b.category, b.text, WIDTH, c.plain);
      JoinLinesEnds(lines);
      Write(JoinLines(lines) + "\n");
    }

    method EmitBody(c: Setup, bullets: seq<Bullet>)
      modifies this
      ensures text == old(text) + Unlines(BodyLines(c, bullets))
    {
      if bullets != [] {
        EmitBullets(c, bullets);
      } else {
        assert [FALLBACK][1..] == [] && FALLBACK + "\n" + "" == FALLBACK + "\n";
        Write(FALLBACK + "\n");
      }
    }

    method EmitStanza(c: Setup, s: Stanza)
      modifies this
      ensures text == old(text) + Unlines(StanzaLines(c, s))
      ensures text == old(text) + StanzaText(c, s)
    {
      ghost var before, body := text, Unlines(BodyLines(c, s.bullets));
      StanzaParts(c, s, before);
      Write(Header(c, s) + "\n\n");
      EmitBody(c, s.bullets);
      Write("\n" + Trailer(c, s) + "\n");
      StanzaTextIsLines(c, s);
    }

    method WriteStanzas(c: Setup, stanzas: seq<Stanza>)
      modifies this
      ensures text == old(text) + Unlines(FileLines(c, stanzas))
      ensures text == old(text) + FileText(c, stanzas)
    {
      ghost var goal := text + StanzasFrom(c, stanzas, 0);
      var i := 0;
      assert stanzas[0..] == stanzas;
      while i < |stanzas|
        invariant i <= |stanzas| && text + StanzasFrom(c, stanzas, i) == goal
      {
        StanzasStep(c, stanzas, i, text);
        if i > 0 { Write("\n"); }
        EmitStanza(c, stanzas[i]);
        i := i + 1;
      }
      assert text + "" == text;
      FileTextIsLines(c, stanzas);
    }
  }

  // What is still to be written, from bullet i and from stanza i on.

  function BulletsFrom(c: Setup, bullets: seq<Bullet>, i: nat): string
    requires i <= |bullets|
  {
    Unlines(BulletLines(c, bullets[i..]))
  }

  function StanzasFrom(c: Setup, stanzas: seq<Stanza>, i: nat): string
    requires i <= |stanzas|
  {
    var rest := Unlines(FileLines(c, stanzas[i..]));
    if 0 < i < |stanzas| then "\n" + rest else rest
  }

  lemma BulletsStep(c: Setup, bullets: seq<Bullet>, i: nat, text: string)
    requires i < |bullets|
    ensures text + BulletsFrom(c, bullets, i)
         == text + Unlines(Layout(Greedy(Words(c, bullets[i]), WIDTH))) + BulletsFrom(c, bullets, i + 1)
  {
    assert bullets[i..][0] == bullets[i] && bullets[i..][1..] == bullets[i + 1..];
    UnlinesConcat(Layout(Greedy(Words(c, bullets[i]), WIDTH)), BulletLines(c, bullets[i + 1..]));
  }

  lemma StanzasStep(c: Setup, stanzas: seq<Stanza>, i: nat, text: string)
    requires i < |stanzas|
    ensures text + StanzasFrom(c, stanzas, i)
         == (if i > 0 then text + "\n" else text) + Unlines(StanzaLines(c, stanzas[i])) + StanzasFrom(c, stanzas, i + 1)
  {
    StanzasGap(c, stanzas, i);
    var head, rest := Unlines(StanzaLines(c, stanzas[i])), StanzasFrom(c, stanzas, i + 1);
    Assoc(text, head, rest);
    Assoc(text, "\n", head + rest);
    Assoc(text + "\n", head, rest);
  }

  lemma StanzasGap(c: Setup, stanzas: seq<Stanza>, i: nat)
    requires i < |stanzas|
    ensures StanzasFrom(c, stanzas, i)
         == (if i > 0 then "\n" + (Unlines(StanzaLines(c, stanzas[i])) + StanzasFrom(c, stanzas, i + 1))
             else Unlines(StanzaLines(c, stanzas[i])) + StanzasFrom(c, stanzas, i + 1))
  {
    FileParts(c, stanzas, i);
    var head, rest := Unlines(StanzaLines(c, stanzas[i])), Unlines(FileLines(c, stanzas[i + 1..]));
    Assoc(head, "\n", rest);
    assert head + "" == head;
  }

  lemma StanzaParts(c: Setup, s: Stanza, before: string)
    ensures before + Unlines(StanzaLines(c, s))
         == before + (Header(c, s) + "\n\n") + Unlines(BodyLines(c, s.bullets)) + ("\n" + Trailer(c, s) + "\n")
  {
    var head, body, tail := [Header(c, s), ""], BodyLines(c, s.bullets), ["", Trailer(c, s)];
    UnlinesConcat(head + body, tail);
    UnlinesConcat(head, body);
    TwoLines(Header(c, s), "");
    TwoLines("", Trailer(c, s));
    var h, b, t := Unlines(head), Unlines(body), Unlines(tail);
    Assoc(before, h, b);
    Assoc(before, h + b, t);
  }

  lemma TwoLines(a: string, b: string)
    ensures Unlines([a, b]) == a + "\n" + (b + "\n")
  {
    var l := [b];
    assert l[1..] == [];
    assert Unlines(l) == b + "\n" + Unlines([]) == b + "\n";
    assert [a, b][1..] == l;
  }

  lemma FileParts(c: Setup, stanzas: seq<Stanza>, i: nat)
    requires i < |stanzas|
    ensures Unlines(FileLines(c, stanzas[i..]))
         == Unlines(StanzaLines(c, stanzas[i])) + (if i + 1 < |stanzas| then "\n" else "")
            + Unlines(FileLines(c, stanzas[i + 1..]))
  {
    var rest := stanzas[i..];
    assert rest[0] == stanzas[i] && rest[1..] == stanzas[i + 1..];
    var gap := Gap(rest);
    UnlinesConcat(StanzaLines(c, rest[0]) + gap, FileLines(c, rest[1..]));
    UnlinesConcat(StanzaLines(c, rest[0]), gap);
    assert Unlines([""]) == "\n";
  }
}
