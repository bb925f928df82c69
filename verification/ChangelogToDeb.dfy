/** `main` of scripts/changelog_to_deb.py as a whole, without its files. */
module ChangelogToDeb {
  import opened Text
  import opened ChangelogParser
  import opened Stanzas
  import opened DebianChangelog
  import opened DebianReader
  import opened DebianText

  datatype Outcome = Written(text: string, warning: bool) | InvalidDate | NothingToWrite

  lemma ReleaseIsOneLine(s: Section, noon: string -> string)
    requires IsRelease(s) && OneLine(noon(s.date.value))
    ensures OneLineStanza(StanzaOf(s, noon))
  {
    VersionChars(s.title, 0);
  }

  // The arguments hold no newline, and neither does a date.
  ghost predicate OneLineArguments(c: Setup, version: string, now: string, noon: string -> string) {
    OneLineSetup(c) && OneLine(version) && OneLine(now) && forall d :: OneLine(noon(d))
  }

  lemma ExpectedAreOneLine(sections: seq<Section>, c: Setup, version: string, now: string, noon: string -> string)
    requires OneLineArguments(c, version, now, noon)
    ensures OneLineStanzas(Expected(sections, version, now, noon))
  {
    var releases, stanzas := Releases(sections), Expected(sections, version, now, noon);
    ReleasesAreReleases(sections);
    var top := if Names(releases, version) then 0 else 1;
    forall i | 0 <= i < |stanzas| ensures OneLineStanza(stanzas[i]) {
      if i >= top {
        assert stanzas[i] == StanzaOf(releases[i - top], noon);
        ReleaseIsOneLine(releases[i - top], noon);
      } else {
        assert stanzas[i].version == version && stanzas[i].distribution == "UNRELEASED" && stanzas[i].date == now;
      }
    }
  }

  method Write(c: Setup, stanzas: seq<Stanza>) returns (text: string)
    ensures text == Unlines(FileLines(c, stanzas))
  {
    var out := new TextFile();
    out.WriteStanzas(c, stanzas);
    text := out.text;
  }

  lemma {:induction false} NoBlankNoOpen(s: string)
    requires ' ' !in s
    ensures !HasOpen(s)
  {
    if s != "" {
      assert s[0] in s;
      NoBlankNoOpen(s[1..]);
    }
  }

  // A released version holds no blank.
  lemma ReleaseHasNoOpen(s: Section)
    requires IsRelease(s)
    ensures !HasOpen(s.title)
  {
    VersionChars(s.title, 0);
    NoBlankNoOpen(s.title);
  }

  lemma OpenIsShared(a: seq<Stanza>, i: nat)
    requires ShareOpen(a) && i < |a|
    ensures HasOpen(a[i].version)
  {
    var n := OpenAt(a[0].version);
    OpenIsOpen(a[0].version);
    var q, rest := a[0].version[..n], a[i].version[n + 2..];
    assert UpToOpen(a[0].version) == q + OPEN && UpToOpen(a[0].version) <= a[i].version;
    assert a[i].version == q + OPEN + rest;
    FirstOpen(q, rest);
  }

  // The stanzas that are written begin alike only if there is one, of a version with " (" in it.
  lemma ExpectedShareOpenIff(sections: seq<Section>, version: string, now: string, noon: string -> string)
    ensures ShareOpen(Expected(sections, version, now, noon)) <==> Releases(sections) == [] && HasOpen(version)
  {
    var releases, stanzas := Releases(sections), Expected(sections, version, now, noon);
    if releases != [] {
      ReleasesAreReleases(sections);
      ReleaseHasNoOpen(releases[0]);
      var top := if Names(releases, version) then 0 else 1;
      assert stanzas[top] == StanzaOf(releases[0], noon);
      if ShareOpen(stanzas) { OpenIsShared(stanzas, top); }
    } else {
      assert |stanzas| == 1 && stanzas[0].version == version;
    }
  }

  /** `main` without its files: from CHANGELOG.md's lines to the text of debian/changelog. It fails exactly
      when a released section has an impossible date; otherwise it writes the expected stanzas, at least
      one. `ReadBack` finds them in the text exactly if the package's name contains no " (", and nothing
      else can have been meant by it exactly if, besides, some version is a released one or the version
      being built contains none either. */
  method Compile(lines: seq<string>, c: Setup, version: string, now: string, noon: string -> string)
    returns (r: Outcome)
    ensures r.InvalidDate? <==> !DatesExist(Releases(Parse(lines)))
    ensures !r.NothingToWrite?
    ensures r.Written? ==> r.text == Unlines(FileLines(c, Expected(Parse(lines), version, now, noon)))
    ensures r.Written? && OneLineArguments(c, version, now, noon) ==>
              (ReadBack(r.text) == EntriesOf(c, Expected(Parse(lines), version, now, noon)) <==> !HasOpen(c.package))
    ensures r.Written? && OneLineArguments(c, version, now, noon) ==>
              (TextDetermines(c, Expected(Parse(lines), version, now, noon))
               <==> !HasOpen(c.package) && (Releases(Parse(lines)) != [] || !HasOpen(version)))
    ensures r.Written? ==>
              (r.warning <==> Names(Releases(Parse(lines)), version) && UnreleasedBullets(Parse(lines)) != [])
  {
    var sections := ParseChangelog(lines);
    var selection := SelectStanzas(sections, version, now, noon);
    match selection
    case BadDate => return InvalidDate;
    case NoSections => return NothingToWrite;
    case Selected(stanzas, warning) =>
      var text := Write(c, stanzas);
      if OneLineArguments(c, version, now, noon) {
        ReadsBack(sections, c, version, now, noon);
        CompiledTextDeterminesIff(sections, c, version, now, noon);
      }
      return Written(text, warning);
  }

  lemma ReadsBack(sections: seq<Section>, c: Setup, version: string, now: string, noon: string -> string)
    requires OneLineArguments(c, version, now, noon)
    ensures var stanzas := Expected(sections, version, now, noon);
            ReadBack(Unlines(FileLines(c, stanzas))) == EntriesOf(c, stanzas) <==> !HasOpen(c.package)
  {
    var k := BuiltVersionAppears(sections, version, now, noon);
    ExpectedAreOneLine(sections, c, version, now, noon);
    WrittenReadsBackIff(c, Expected(sections, version, now, noon));
  }

  /** The text the script writes says what it was made from, to any reader, if and only if the package's
      name contains no " (" and, unless there is a released version, neither does the one being built. */
  lemma CompiledTextDeterminesIff(sections: seq<Section>, c: Setup, version: string, now: string,
      noon: string -> string)
    requires OneLineArguments(c, version, now, noon)
    ensures TextDetermines(c, Expected(sections, version, now, noon))
            <==> !HasOpen(c.package) && (Releases(sections) != [] || !HasOpen(version))
  {
    var k := BuiltVersionAppears(sections, version, now, noon);
    ExpectedAreOneLine(sections, c, version, now, noon);
    TextDeterminesIff(c, Expected(sections, version, now, noon));
    ExpectedShareOpenIff(sections, version, now, noon);
  }
}
