/** The title-art key derived from a show name. */
module FontLoader {
  import opened Strings

  /** `showName.toLowerCase().replace(/\s+/g, "-")`: total, never fails. */
  function ShowAbbreviation(showName: string): string {
    ReplaceSpaceRuns(Lower(showName))
  }

  /** The key holds no whitespace and no upper-case ASCII letter, and is never
      longer than the show name. */
  lemma ShowAbbreviationShape(showName: string)
    ensures NoSpace(ShowAbbreviation(showName))
    ensures IsLowered(ShowAbbreviation(showName))
    ensures |ShowAbbreviation(showName)| <= |showName|
  {
    ReplaceSpaceRunsShape(Lower(showName));
    ReplaceLowerCommute(showName);
    LowerIsLowered(ReplaceSpaceRuns(showName));
  }

  /** Cut at its maximal whitespace runs, a show name yields its words,
      lower-cased, joined by "-": every run becomes exactly one "-" and every
      other character survives in order. */
  lemma ShowAbbreviationOfWords(words: seq<string>, runs: seq<string>)
    requires IsRunDecomposition(words, runs)
    ensures ShowAbbreviation(Weave(words, runs)) == Lower(JoinWith(words, "-"))
  {
    ReplaceLowerCommute(Weave(words, runs));
    ReplaceWovenRuns(words, runs);
  }

  /** Deriving a key from a key changes nothing. */
  lemma ShowAbbreviationIdempotent(showName: string)
    ensures ShowAbbreviation(ShowAbbreviation(showName)) == ShowAbbreviation(showName)
  {
    var k := ShowAbbreviation(showName);
    ShowAbbreviationShape(showName);
    ReplaceLowerCommute(showName);
    LowerIsLowered(ReplaceSpaceRuns(showName));
    assert Lower(k) == k;
    ReplaceKeepsSpaceFree(k);
  }

  lemma ShowAbbreviationExample()
    ensures ShowAbbreviation("The  Music\tMan") == "the-music-man"
  {
    var words := ["The", "Music", "Man"];
    var runs := ["  ", "\t"];
    ExampleCut(words, runs);
    ShowAbbreviationOfWords(words, runs);
    ExampleJoinLower(words);
  }

  lemma ExampleCut(words: seq<string>, runs: seq<string>)
    requires words == ["The", "Music", "Man"] && runs == ["  ", "\t"]
    ensures Weave(words, runs) == "The  Music\tMan"
    ensures IsRunDecomposition(words, runs)
  {
    assert Weave(words[2..], runs[2..]) == "Man";
    assert Weave(words[1..], runs[1..]) == "Music\tMan";
    assert ' ' in SpaceChars && '\t' in SpaceChars;
  }

  lemma ExampleJoinLower(words: seq<string>)
    requires words == ["The", "Music", "Man"]
    ensures Lower(JoinWith(words, "-")) == "the-music-man"
  {
    assert JoinWith(words[1..], "-") == "Music-Man";
    assert JoinWith(words, "-") == "The-Music-Man";
  }
}
