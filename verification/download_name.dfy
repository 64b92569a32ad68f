/** The name offered for downloading the generated icon:
    `icone_${nickname.trim().replace(/\s+/g, '_') || 'gamer'}.png`. */
module DownloadName {
  import opened Text

  const FilePrefix: string := "icone_"
  const FileSuffix: string := ".png"
  /** Used when the nickname is blank (the empty string is falsy). */
  const DefaultSlug: string := "gamer"

  /** The part of the file name taken from the nickname. */
  function Slug(nickname: string): (r: string)
    ensures r != [] && NoSpace(r)
    ensures AllSpace(nickname) ==> r == DefaultSlug
    ensures !AllSpace(nickname) ==> r == CollapseRuns(Trim(nickname))
    ensures NoSpace(nickname) && nickname != [] ==> r == nickname
  {
    var replaced := CollapseRuns(Trim(nickname));
    ReplacedTrimmed(nickname);
    DefaultSlugHasNoSpace();
    if replaced == [] then DefaultSlug else replaced
  }

  lemma ReplacedTrimmed(nickname: string)
    ensures CollapseRuns(Trim(nickname)) == [] <==> AllSpace(nickname)
    ensures NoSpace(nickname) ==> CollapseRuns(Trim(nickname)) == nickname
  {
  }

  lemma DefaultSlugHasNoSpace()
    ensures NoSpace(DefaultSlug)
  {
  }

  /** The download file name: fixed prefix, the slug, fixed extension. */
  function FileName(nickname: string): (r: string)
    ensures |r| > |FilePrefix| + |FileSuffix|
    ensures r[..|FilePrefix|] == FilePrefix && r[|r| - |FileSuffix|..] == FileSuffix
    ensures r[|FilePrefix|..|r| - |FileSuffix|] == Slug(nickname)
  {
    ThreeParts(FilePrefix, Slug(nickname), FileSuffix);
    FilePrefix + Slug(nickname) + FileSuffix
  }

  /** Surrounding whitespace never reaches the file name. */
  lemma SlugIgnoresSurroundingSpace(nickname: string)
    ensures Slug(Trim(nickname)) == Slug(nickname)
  {
    TrimIdempotent(nickname);
  }

  /** Two words separated by one whitespace character are joined by `_`. */
  lemma SlugOfTwoWords(a: string, sep: char, b: string)
    requires a != [] && b != [] && NoSpace(a) && NoSpace(b) && IsSpace(sep)
    ensures Slug(a + [sep] + b) == a + "_" + b
  {
    var n := a + [sep] + b;
    assert n[0] == a[0] && n[|n| - 1] == b[|b| - 1];
    TrimKeepsNonSpaceEnds(n);
    CollapseRunsJoinsWords(a, sep, b);
    assert !AllSpace(n) by {
      assert !IsSpace(n[0]);
    }
  }

  /** "Dark Knight" is saved as "icone_Dark_Knight.png". */
  lemma DarkKnightExample()
    ensures FileName("Dark Knight") == "icone_Dark_Knight.png"
  {
    DarkKnightSlug();
    var slug := Slug("Dark Knight");
    assert FileName("Dark Knight") == FilePrefix + slug + FileSuffix;
    DarkKnightFileName(slug);
  }

  // The helpers below state the facts about string literals that the
  // examples need over variables, which keeps the solver from unfolding the
  // literals in the examples themselves.

  lemma DarkKnightFileName(slug: string)
    requires slug == "Dark_Knight"
    ensures FilePrefix + slug + FileSuffix == "icone_Dark_Knight.png"
  {
  }

  lemma DarkKnightSlug()
    ensures Slug("Dark Knight") == "Dark_Knight"
  {
    DarkKnightWords("Dark", "Knight");
    SlugOfTwoWords("Dark", ' ', "Knight");
  }

  lemma DarkKnightWords(dark: string, knight: string)
    requires dark == "Dark" && knight == "Knight"
    ensures NoSpace(dark) && NoSpace(knight) && IsSpace(' ')
    ensures dark + [' '] + knight == "Dark Knight" && dark + "_" + knight == "Dark_Knight"
  {
  }

  /** A blank nickname is saved as "icone_gamer.png". */
  lemma BlankExample()
    ensures FileName("   ") == "icone_gamer.png"
  {
    BlankSlug("   ");
    var slug := Slug("   ");
    assert FileName("   ") == FilePrefix + slug + FileSuffix;
    GamerFileName(slug);
  }

  lemma BlankSlug(blank: string)
    requires blank == "   "
    ensures AllSpace(blank)
  {
  }

  lemma GamerFileName(slug: string)
    requires slug == DefaultSlug
    ensures FilePrefix + slug + FileSuffix == "icone_gamer.png"
  {
  }
}
