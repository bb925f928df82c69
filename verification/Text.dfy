/** The string operations of Python that the changelog script uses. */
module Text {
  // str.isspace, which is also what strip, split and the pattern \s go by.
  predicate IsSpace(c: char) {
    var n := c as int;
    || 9 <= n <= 13 || 28 <= n <= 32 || n == 0x85 || n == 0xa0 || n == 0x1680 || 0x2000 <= n <= 0x200a
    || n == 0x2028 || n == 0x2029 || n == 0x202f || n == 0x205f || n == 0x3000
  }

  lemma SpacesAre(c: char)
    ensures IsSpace(c) <==> c in {'\t', '\n', '\U{B}', '\U{C}', '\r', '\U{1C}', '\U{1D}', '\U{1E}', '\U{1F}', ' ',
                                  '\U{85}', '\U{A0}', '\U{1680}', '\U{2000}', '\U{2001}', '\U{2002}', '\U{2003}',
                                  '\U{2004}', '\U{2005}', '\U{2006}', '\U{2007}', '\U{2008}', '\U{2009}',
                                  '\U{200A}', '\U{2028}', '\U{2029}', '\U{202F}', '\U{205F}', '\U{3000}'}
  {
  }

  predicate AllSpace(s: string) {
    forall i :: 0 <= i < |s| ==> IsSpace(s[i])
  }

  function TrimLeft(s: string): string {
    if s != "" && IsSpace(s[0]) then TrimLeft(s[1..]) else s
  }

  function TrimRight(s: string): string {
    if s != "" && IsSpace(s[|s| - 1]) then TrimRight(s[..|s| - 1]) else s
  }

  function Strip(s: string): string { TrimRight(TrimLeft(s)) }

  // lstrip("- ")
  function TrimDashes(s: string): string {
    if s != "" && (s[0] == '-' || s[0] == ' ') then TrimDashes(s[1..]) else s
  }

  function LowerChar(c: char): char {
    if 'A' <= c <= 'Z' then ((c as int) + 32) as char else c
  }

  function Lower(s: string): string { seq(|s|, i requires 0 <= i < |s| => LowerChar(s[i])) }

  // The first position of c in s; the length of s when there is none.
  function IndexOf(s: string, c: char): (i: nat)
    ensures i <= |s| && (i < |s| ==> s[i] == c) && c !in s[..i]
  {
    if s == "" || s[0] == c then 0
    else
      var i := 1 + IndexOf(s[1..], c);
      assert s[..i] == [s[0]] + s[1..][..i - 1];
      i
  }

  lemma {:induction false} IndexOfFirst(a: string, c: char, b: string)
    requires c !in a
    ensures IndexOf(a + [c] + b, c) == |a|
  {
    if a != "" {
      assert (a + [c] + b)[1..] == a[1..] + [c] + b;
      assert a[0] in a;
      IndexOfFirst(a[1..], c, b);
    }
  }

  lemma {:induction false} TrimLeftOf(sp: string, s: string)
    requires AllSpace(sp) && (s == "" || !IsSpace(s[0]))
    ensures TrimLeft(sp + s) == s
  {
    if sp == "" {
      assert sp + s == s;
    } else {
      assert (sp + s)[1..] == sp[1..] + s;
      TrimLeftOf(sp[1..], s);
    }
  }

  lemma {:induction false} TrimOfSpace(s: string)
    requires AllSpace(s)
    ensures TrimLeft(s) == "" && Strip(s) == ""
  {
    TrimLeftOf(s, "");
    assert s + "" == s;
  }

  lemma {:induction false} TrimRightOf(s: string, sp: string)
    requires AllSpace(sp) && (s == "" || !IsSpace(s[|s| - 1]))
    ensures TrimRight(s + sp) == s
    decreases |sp|
  {
    if sp == "" {
      assert s + sp == s;
    } else {
      var n := |sp| - 1;
      assert (s + sp)[..|s + sp| - 1] == s + sp[..n] && (s + sp)[|s + sp| - 1] == sp[n];
      TrimRightOf(s, sp[..n]);
    }
  }

  // Neither end is blank.
  predicate Trimmed(s: string) {
    s != "" ==> !IsSpace(s[0]) && !IsSpace(s[|s| - 1])
  }

  /** str.strip takes off all white space at both ends, and nothing else. */
  lemma StripOf(sp: string, s: string, more: string)
    requires AllSpace(sp) && AllSpace(more) && Trimmed(s)
    ensures Strip(sp + s + more) == s
  {
    if s == "" {
      assert AllSpace(sp + s + more);
      TrimOfSpace(sp + s + more);
    } else {
      assert sp + s + more == sp + (s + more);
      TrimLeftOf(sp, s + more);
      TrimRightOf(s, more);
    }
  }

  // The white space that lstrip takes off.
  lemma {:induction false} TrimLeftSplits(s: string) returns (sp: string)
    ensures AllSpace(sp) && s == sp + TrimLeft(s) && (TrimLeft(s) != "" ==> !IsSpace(TrimLeft(s)[0]))
  {
    sp := "";
    if s != "" && IsSpace(s[0]) {
      sp := TrimLeftSplits(s[1..]);
      sp := [s[0]] + sp;
    }
  }

  lemma {:induction false} TrimRightSplits(s: string) returns (sp: string)
    ensures AllSpace(sp) && s == TrimRight(s) + sp
    ensures TrimRight(s) != "" ==> !IsSpace(TrimRight(s)[|TrimRight(s)| - 1])
    decreases |s|
  {
    sp := "";
    if s != "" && IsSpace(s[|s| - 1]) {
      sp := TrimRightSplits(s[..|s| - 1]);
      sp := sp + [s[|s| - 1]];
    }
  }

  // ---------- letter case ----------

  // a is b, but for capitals in the place of small letters.
  predicate SameUpToCase(a: string, b: string) {
    |a| == |b| && forall i :: 0 <= i < |a| ==> a[i] == b[i] || ('a' <= b[i] <= 'z' && a[i] as int == b[i] as int - 32)
  }

  /** Comparing with a string without capitals after lower-casing is comparing up to case. */
  lemma LowerIff(a: string, b: string)
    requires forall i :: 0 <= i < |b| ==> !('A' <= b[i] <= 'Z')
    ensures Lower(a) == b <==> SameUpToCase(a, b)
  {
    if Lower(a) == b {
      forall i | 0 <= i < |a| ensures a[i] == b[i] || ('a' <= b[i] <= 'z' && a[i] as int == b[i] as int - 32) {
        assert b[i] == LowerChar(a[i]);
      }
    }
    if SameUpToCase(a, b) {
      forall i | 0 <= i < |a| ensures LowerChar(a[i]) == b[i] {
        assert a[i] == b[i] || ('a' <= b[i] <= 'z' && a[i] as int == b[i] as int - 32);
      }
    }
  }

  // ---------- words ----------

  predicate IsWord(w: string) {
    w != "" && forall i :: 0 <= i < |w| ==> !IsSpace(w[i])
  }

  predicate AreWords(ws: seq<string>) {
    forall i :: 0 <= i < |ws| ==> IsWord(ws[i])
  }

  // The length of the run of non-space characters at the front.
  function WordLength(s: string): (n: nat)
    ensures n <= |s| && (forall i :: 0 <= i < n ==> !IsSpace(s[i])) && (n < |s| ==> IsSpace(s[n]))
  {
    if s == "" || IsSpace(s[0]) then 0 else 1 + WordLength(s[1..])
  }

  /** str.split() */
  function SplitWords(s: string): (ws: seq<string>)
    ensures AreWords(ws)
    decreases |s|
  {
    if s == "" then []
    else if IsSpace(s[0]) then SplitWords(s[1..])
    else [s[..WordLength(s)]] + SplitWords(s[WordLength(s)..])
  }

  // Every word with a space in front.
  function Spaced(ws: seq<string>): string {
    if ws == [] then "" else " " + ws[0] + Spaced(ws[1..])
  }

  lemma {:induction false} SpacedConcat(a: seq<string>, b: seq<string>)
    ensures Spaced(a + b) == Spaced(a) + Spaced(b)
  {
    if a == [] {
      assert a + b == b;
    } else {
      assert (a + b)[1..] == a[1..] + b;
      SpacedConcat(a[1..], b);
    }
  }

  lemma {:induction false} RunOfWord(w: string, rest: string)
    requires (forall i :: 0 <= i < |w| ==> !IsSpace(w[i])) && (rest == "" || IsSpace(rest[0]))
    ensures WordLength(w + rest) == |w|
  {
    if w == "" {
      assert w + rest == rest;
    } else {
      assert (w + rest)[1..] == w[1..] + rest;
      RunOfWord(w[1..], rest);
    }
  }

  /** Splitting undoes joining. */
  lemma {:induction false} SplitSpaced(ws: seq<string>)
    requires AreWords(ws)
    ensures SplitWords(Spaced(ws)) == ws
  {
    if ws != [] {
      var rest := Spaced(ws[1..]);
      var s := ws[0] + rest;
      assert Spaced(ws) == " " + s && Spaced(ws)[1..] == s;
      RunOfWord(ws[0], rest);
      assert s[..|ws[0]|] == ws[0] && s[|ws[0]|..] == rest;
      assert !IsSpace(s[0]);
      SplitSpaced(ws[1..]);
    }
  }

  lemma {:induction false} SkipSpaces(sp: string, s: string)
    requires AllSpace(sp)
    ensures SplitWords(sp + s) == SplitWords(s)
  {
    if sp == "" {
      assert sp + s == s;
    } else {
      assert (sp + s)[1..] == sp[1..] + s;
      SkipSpaces(sp[1..], s);
    }
  }

  lemma {:induction false} WordEnds(a: string, rest: string)
    requires rest != "" && IsSpace(rest[0])
    ensures WordLength(a + rest) == WordLength(a)
  {
    if a == "" {
      assert a + rest == rest;
    } else if !IsSpace(a[0]) {
      assert (a + rest)[1..] == a[1..] + rest;
      WordEnds(a[1..], rest);
    }
  }

  /** str.split, by three facts that leave it no choice: white space parts words, ... */
  lemma {:induction false} SplitParts(a: string, sp: string, b: string)
    requires AllSpace(sp) && sp != ""
    ensures SplitWords(a + sp + b) == SplitWords(a) + SplitWords(b)
    decreases |a|
  {
    var s := a + sp + b;
    if a == "" {
      assert s == sp + b;
      SkipSpaces(sp, b);
    } else if IsSpace(a[0]) {
      assert s[1..] == a[1..] + sp + b;
      SplitParts(a[1..], sp, b);
    } else {
      var n := WordLength(a);
      assert s == a + (sp + b);
      WordEnds(a, sp + b);
      assert s[..n] == a[..n] && s[n..] == a[n..] + sp + b;
      SplitParts(a[n..], sp, b);
      assert [a[..n]] + (SplitWords(a[n..]) + SplitWords(b)) == [a[..n]] + SplitWords(a[n..]) + SplitWords(b);
    }
  }

  /** ... what has none is one word, and the empty string none. */
  lemma SplitWord(w: string)
    requires IsWord(w)
    ensures SplitWords(w) == [w] && SplitWords("") == []
  {
    RunOfWord(w, "");
    assert w + "" == w && w[..|w|] == w && w[|w|..] == "";
  }

  // ---------- lines ----------

  predicate OneLine(s: string) { '\n' !in s }

  function Unlines(ls: seq<string>): string {
    if ls == [] then "" else ls[0] + "\n" + Unlines(ls[1..])
  }

  function SplitLines(s: string): seq<string>
    decreases |s|
  {
    if s == "" then []
    else
      var i := IndexOf(s, '\n');
      if i == |s| then [s] else [s[..i]] + SplitLines(s[i + 1..])
  }

  lemma {:induction false} UnlinesConcat(a: seq<string>, b: seq<string>)
    ensures Unlines(a + b) == Unlines(a) + Unlines(b)
  {
    if a == [] {
      assert a + b == b;
    } else {
      assert (a + b)[1..] == a[1..] + b;
      UnlinesConcat(a[1..], b);
    }
  }

  lemma {:induction false} SplitUnlines(ls: seq<string>)
    requires forall i :: 0 <= i < |ls| ==> OneLine(ls[i])
    ensures SplitLines(Unlines(ls)) == ls
  {
    if ls != [] {
      var rest := Unlines(ls[1..]);
      var s := ls[0] + "\n" + rest;
      IndexOfFirst(ls[0], '\n', rest);
      assert s[..|ls[0]|] == ls[0] && s[|ls[0]| + 1..] == rest;
      SplitUnlines(ls[1..]);
    }
  }

  // "\n".join
  function JoinLines(ls: seq<string>): string
    requires ls != []
  {
    if |ls| == 1 then ls[0] else ls[0] + "\n" + JoinLines(ls[1..])
  }

  lemma {:induction false} JoinLinesEnds(ls: seq<string>)
    requires ls != []
    ensures JoinLines(ls) + "\n" == Unlines(ls)
  {
    if |ls| == 1 {
      assert Unlines(ls[1..]) == "";
    } else {
      JoinLinesEnds(ls[1..]);
    }
  }
}
