/** Worked examples of the UK text helpers of `src/utils/helpers.py`. */
module HelperExamples {
  import opened Wrappers
  import opened Text
  import opened Helpers

  /** `SW1A1AA` matches at its start, by the shape with two letters, an
      extra outward character and no space. */
  lemma UnspacedPostcodeMatch()
    ensures Find("SW1A1AA", 0) == Some(0) && FirstFit("SW1A1AA", 0, 0) == Some(1)
  {
    var u := "SW1A1AA";
    assert Fits(u, 0, Shapes[1]);
    assert !Fits(u, 0, Shapes[0]);
  }

  /** The spacing step puts the space before the inward code. */
  lemma RespaceUnspaced()
    ensures IsMatchText("SW1A1AA") && Respace("SW1A1AA") == "SW1A 1AA"
  {
    var u := "SW1A1AA";
    assert u[..4] == "SW1A" && IsOutward("SW1A");
    assert u[4..] == "1AA";
  }

  /** A lower-case postcode without its space is found and spaced. */
  lemma ExtractAddsSpace()
    ensures ExtractPostcode("sw1a1aa") == Some("SW1A 1AA")
  {
    var u := UpperUnspaced();
    UnspacedPostcodeMatch();
    RespaceUnspaced();
    assert Width(Shapes[1]) == 7;
    assert u[0..7] == u;
  }

  lemma UpperUnspaced() returns (u: string)
    ensures u == "SW1A1AA" && Upper("sw1a1aa") == u
  {
    u := "SW1A1AA";
    assert Upper("sw1a1aa") == u;
  }

  /** A town missing from the city list passes on its characters alone. */
  lemma ValidateUnlistedTown()
    ensures ValidateUkLocation("Milton Keynes")
  {
    ValidateIgnoresCityList("Milton Keynes");
    assert !IsSpace("Milton Keynes"[0]);
  }

  /** Digits that do not form a postcode are not a location. */
  lemma ValidateRejectsDigits()
    ensures !ValidateUkLocation("12345")
  {
    var s := "12345";
    ValidateIgnoresCityList(s);
    assert !IsNameChar(s[0]);
    assert Upper(s)[0] == '1';
    PostcodeStartsWithLetter(Upper(s));
  }

  /** A business type made only of stop words falls back to "Business". */
  lemma FormatOnlyStopWords()
    ensures FormatBusinessType("the and") == "Business"
  {
    NothingKeptOfTheAnd();
  }

  lemma NothingKeptOfTheAnd()
    ensures |KeepWords(Split("the and"))| == 0
  {
    var words := SplitTheAnd();
    TheAndAreStopWords();
    OnlyStopWordsKeepNothing(words);
  }

  lemma TheAndAreStopWords()
    ensures Lower("the") in StopWords && Lower("and") in StopWords
  {
    assert Lower("the") == "the";
    assert Lower("and") == "and";
  }

  /** Splitting on whitespace gives the two words back. */
  lemma SplitTheAnd() returns (words: seq<string>)
    ensures words == ["the", "and"] && Split("the and") == words
  {
    words := ["the", "and"];
    assert Join(" ", words) == "the and";
    SplitJoin(words);
  }
}
