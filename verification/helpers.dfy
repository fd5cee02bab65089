/** The UK text helpers of `src/utils/helpers.py`: location validation,
    postcode extraction and business-type formatting. Strings are ASCII. */
module Helpers {
  import opened Wrappers
  import opened Text

  // =====================================================================
  // The postcode pattern  [A-Z]{1,2}[0-9][A-Z0-9]? ?[0-9][A-Z]{2}
  // =====================================================================

  /** The character class `[A-Z0-9]`. */
  predicate IsUpperAlnum(c: char) { IsUpperLetter(c) || IsDigit(c) }

  /** One way the pattern can match: one or two leading letters, with or
      without the optional alphanumeric, with or without the optional space. */
  datatype Shape = Shape(twoLetters: bool, alnum: bool, space: bool)

  /** The eight shapes in the order a backtracking matcher tries them: every
      quantifier is greedy (it tries "take" before "skip"), and the earliest
      choice (`{1,2}`) varies slowest. */
  const Shapes: seq<Shape> := [
    Shape(true, true, true), Shape(true, true, false), Shape(true, false, true), Shape(true, false, false),
    Shape(false, true, true), Shape(false, true, false), Shape(false, false, true), Shape(false, false, false)
  ]

  /** Number of characters a match of shape `sh` spans. */
  function Width(sh: Shape): nat {
    Letters(sh) + 1 + (if sh.alnum then 1 else 0) + (if sh.space then 1 else 0) + 3
  }

  function Letters(sh: Shape): nat {
    if sh.twoLetters then 2 else 1
  }

  /** The pattern, in shape `sh`, matches `s[i..i + Width(sh)]`. */
  predicate Fits(s: string, i: nat, sh: Shape) {
    var d := i + Letters(sh);                              // the district digit
    var sp := d + 1 + (if sh.alnum then 1 else 0);         // where the optional space is
    var n := sp + (if sh.space then 1 else 0);             // the inward code
    && n + 3 <= |s|
    && IsUpperLetter(s[i]) && (sh.twoLetters ==> IsUpperLetter(s[i + 1]))
    && IsDigit(s[d])
    && (sh.alnum ==> IsUpperAlnum(s[d + 1]))
    && (sh.space ==> s[sp] == ' ')
    && IsDigit(s[n]) && IsUpperLetter(s[n + 1]) && IsUpperLetter(s[n + 2])
  }

  /** The whole of `s` matches the pattern (`re.match` with `^` and a `$`
      that is at the very end). */
  predicate IsPostcode(s: string) {
    exists t :: 0 <= t < |Shapes| && Width(Shapes[t]) == |s| && Fits(s, 0, Shapes[t])
  }

  /** The index of the first shape, from index `k` of `Shapes` on, that fits
      at position `i`: the match a backtracking matcher commits to there. */
  function FirstFit(s: string, i: nat, k: nat): (r: Option<nat>)
    requires k <= |Shapes|
    ensures r.Some? ==> k <= r.value < |Shapes| && Fits(s, i, Shapes[r.value])
    ensures r.Some? ==> forall u :: k <= u < r.value ==> !Fits(s, i, Shapes[u])
    ensures r.None? <==> forall u :: k <= u < |Shapes| ==> !Fits(s, i, Shapes[u])
    decreases |Shapes| - k
  {
    if k == |Shapes| then None
    else if Fits(s, i, Shapes[k]) then Some(k)
    else FirstFit(s, i, k + 1)
  }

  /** The pattern matches, in some shape, at position `j`. */
  predicate MatchesAt(s: string, j: nat) {
    FirstFit(s, j, 0).Some?
  }

  /** The leftmost position at or after `from` where the pattern matches:
      `re.search`'s scan. */
  function Find(s: string, from: nat): (r: Option<nat>)
    ensures r.Some? ==> from <= r.value < |s| && MatchesAt(s, r.value)
    ensures r.Some? ==> forall j :: from <= j < r.value ==> !MatchesAt(s, j)
    ensures r.None? ==> forall j :: from <= j < |s| ==> !MatchesAt(s, j)
    decreases |s| - from
  {
    if from >= |s| then None
    else if MatchesAt(s, from) then Some(from)
    else Find(s, from + 1)
  }

  /** `re.search(pattern, s).group(0)`, or `None` when nothing matches. */
  function SearchPostcode(s: string): Option<string>
  {
    match Find(s, 0)
    case None => None
    case Some(j) =>
      var t := FirstFit(s, j, 0).value;
      Some(s[j..j + Width(Shapes[t])])
  }

  // ---------------------------------------------------------------------
  // An independent description of a postcode, by its two halves
  // ---------------------------------------------------------------------

  /** The outward code: `[A-Z]{1,2}[0-9][A-Z0-9]?`. */
  predicate IsOutward(o: string) {
    || (|o| == 2 && IsUpperLetter(o[0]) && IsDigit(o[1]))
    || (|o| == 3 && IsUpperLetter(o[0]) && IsUpperLetter(o[1]) && IsDigit(o[2]))
    || (|o| == 3 && IsUpperLetter(o[0]) && IsDigit(o[1]) && IsUpperAlnum(o[2]))
    || (|o| == 4 && IsUpperLetter(o[0]) && IsUpperLetter(o[1]) && IsDigit(o[2]) && IsUpperAlnum(o[3]))
  }

  /** The inward code: `[0-9][A-Z]{2}`. */
  predicate IsInward(w: string) {
    |w| == 3 && IsDigit(w[0]) && IsUpperLetter(w[1]) && IsUpperLetter(w[2])
  }

  /** An outward code, one space, an inward code. */
  predicate IsSpacedPostcode(p: string) {
    |p| >= 6 && p[|p| - 4] == ' ' && IsOutward(p[..|p| - 4]) && IsInward(p[|p| - 3..])
  }

  /** What a match of the pattern looks like: an outward code, an optional
      space, an inward code. */
  predicate IsMatchText(m: string) {
    && |m| >= 5 && IsInward(m[|m| - 3..])
    && (IsOutward(m[..|m| - 3]) || (m[|m| - 4] == ' ' && IsOutward(m[..|m| - 4])))
  }

  /** Every match of a shape is an outward code, an optional space and an
      inward code. */
  lemma FitIsMatchText(s: string, i: nat, t: nat)
    requires t < |Shapes| && Fits(s, i, Shapes[t])
    ensures i + Width(Shapes[t]) <= |s|
    ensures IsMatchText(s[i..i + Width(Shapes[t])])
  {
    var m := s[i..i + Width(Shapes[t])];
    assert forall u :: 0 <= u < |m| ==> m[u] == s[i + u];
  }

  /** The characters of a spaced postcode, one by one. */
  lemma SpacedPostcodeChars(p: string)
    requires IsSpacedPostcode(p)
    ensures 6 <= |p| <= 8
    ensures IsUpperLetter(p[0])
    ensures p[|p| - 4] == ' '
    ensures IsDigit(p[|p| - 3]) && IsUpperLetter(p[|p| - 2]) && IsUpperLetter(p[|p| - 1])
    ensures forall i :: 0 <= i < |p| && i != |p| - 4 ==> IsUpperAlnum(p[i])
    ensures forall i :: 0 <= i < |p| ==> (p[i] == ' ' <==> i == |p| - 4)
  {
    var o := p[..|p| - 4];
    var w := p[|p| - 3..];
    assert forall u :: 0 <= u < |o| ==> o[u] == p[u];
    assert forall u :: 0 <= u < |w| ==> w[u] == p[|p| - 3 + u];
  }

  /** A spaced postcode is matched in full by one of the shapes. */
  lemma SpacedPostcodeIsPostcode(p: string)
    requires IsSpacedPostcode(p)
    ensures IsPostcode(p)
  {
    SpacedPostcodeChars(p);
    var o := p[..|p| - 4];
    assert forall u :: 0 <= u < |o| ==> o[u] == p[u];
    if |o| == 2 {
      assert Width(Shapes[6]) == |p| && Fits(p, 0, Shapes[6]);
    } else if |o| == 3 && IsUpperLetter(o[1]) {
      assert Width(Shapes[2]) == |p| && Fits(p, 0, Shapes[2]);
    } else if |o| == 3 {
      assert Width(Shapes[4]) == |p| && Fits(p, 0, Shapes[4]);
    } else {
      assert Width(Shapes[0]) == |p| && Fits(p, 0, Shapes[0]);
    }
  }

  /** Every shape that fits at the start of a spaced postcode spans all of it:
      the matcher can neither stop early nor run past it. */
  lemma FitsSpacedPostcodeWhole(p: string, t: nat)
    requires IsSpacedPostcode(p) && t < |Shapes| && Fits(p, 0, Shapes[t])
    ensures Width(Shapes[t]) == |p|
  {
    SpacedPostcodeChars(p);
    var sh := Shapes[t];
    var sp := Letters(sh) + 1 + (if sh.alnum then 1 else 0);
    if sh.space {
      assert p[sp] == ' ';
    }
  }

  // =====================================================================
  // validate_uk_location
  // =====================================================================

  /** The major UK locations accepted by name. */
  const MajorUkLocations: seq<string> := [
    "london", "manchester", "birmingham", "liverpool", "leeds",
    "glasgow", "edinburgh", "cardiff", "belfast", "bristol",
    "newcastle", "sheffield", "nottingham", "leicester", "coventry",
    "bradford", "brighton", "southampton", "plymouth", "reading",
    "derby", "wolverhampton", "hull", "portsmouth", "oxford",
    "cambridge", "york", "swansea", "dundee", "aberdeen"
  ]

  /** The character class `[a-zA-Z\s\-\']`. */
  predicate IsNameChar(c: char) { IsLetter(c) || IsSpace(c) || c == '-' || c == '\'' }

  predicate AllNameChars(s: string) {
    forall i :: 0 <= i < |s| ==> IsNameChar(s[i])
  }

  /** `re.match('^<postcode>$', u)`: Python's `$` also matches just before a
      final newline. */
  predicate PostcodeMatch(u: string) {
    IsPostcode(u) || (|u| > 0 && u[|u| - 1] == '\n' && IsPostcode(u[..|u| - 1]))
  }

  /** A postcode starts with a letter: text starting with anything else never
      matches. */
  lemma PostcodeStartsWithLetter(u: string)
    requires |u| > 0 && !IsUpperLetter(u[0])
    ensures !PostcodeMatch(u)
  {
    forall t | 0 <= t < |Shapes| ensures !Fits(u, 0, Shapes[t]) {
    }
    if |u| > 1 {
      var v := u[..|u| - 1];
      assert v[0] == u[0];
      forall t | 0 <= t < |Shapes| ensures !Fits(v, 0, Shapes[t]) {
      }
    }
  }

  /** A text that matches the postcode pattern is not all whitespace. */
  lemma PostcodeMatchNotBlank(s: string)
    ensures PostcodeMatch(Upper(s)) ==> !AllSpace(s)
  {
    var u := Upper(s);
    if PostcodeMatch(u) {
      var d := PostcodeMatchDigit(u);
      assert u[d] == ToUpper(s[d]);
      assert !IsSpace(s[d]);
    }
  }

  /** A text matching the postcode pattern holds the district digit. */
  lemma PostcodeMatchDigit(u: string) returns (d: nat)
    requires PostcodeMatch(u)
    ensures d < |u| && IsDigit(u[d])
  {
    var v := if IsPostcode(u) then u else u[..|u| - 1];
    var t :| 0 <= t < |Shapes| && Width(Shapes[t]) == |v| && Fits(v, 0, Shapes[t]);
    d := Letters(Shapes[t]);
    assert v[d] == u[d];
  }

  function ValidateUkLocation(location: string): (ok: bool)
    ensures AllSpace(location) ==> !ok
    ensures PostcodeMatch(Upper(location)) ==> ok
  {
    StripEmptyIffAllSpace(location);
    PostcodeMatchNotBlank(location);
    if |location| == 0 || |Strip(location)| == 0 then false
    else if PostcodeMatch(Upper(location)) then true
    else if Lower(location) in MajorUkLocations then true
    else |location| >= 3 && AllNameChars(location)
  }

  predicate IsLowerWord(c: string) {
    |c| >= 3 && forall i :: 0 <= i < |c| ==> IsLowerLetter(c[i])
  }

  /** Every listed location is at least three lower-case ASCII letters. */
  lemma MajorUkLocationsAreWords()
    ensures forall k :: 0 <= k < |MajorUkLocations| ==> IsLowerWord(MajorUkLocations[k])
  {
    FirstLocationsAreWords();
    MiddleLocationsAreWords();
    LastLocationsAreWords();
  }

  lemma FirstLocationsAreWords()
    ensures forall k :: 0 <= k < 10 ==> IsLowerWord(MajorUkLocations[k])
  {
  }

  lemma MiddleLocationsAreWords()
    ensures forall k :: 10 <= k < 20 ==> IsLowerWord(MajorUkLocations[k])
  {
  }

  lemma LastLocationsAreWords()
    ensures forall k :: 20 <= k < 30 ==> IsLowerWord(MajorUkLocations[k])
  {
  }

  /** A listed location, in any letter case, passes the character-class check. */
  lemma ListedLocationIsNameChars(location: string, k: nat)
    requires k < |MajorUkLocations| && Lower(location) == MajorUkLocations[k]
    ensures |location| >= 3 && AllNameChars(location) && !AllSpace(location)
  {
    var l := Lower(location);
    MajorUkLocationsAreWords();
    assert IsLowerWord(l);
    forall i | 0 <= i < |location|
      ensures IsNameChar(location[i])
    {
      assert IsLowerLetter(l[i]);
      LowerIsLetter(location[i]);
    }
    assert IsLowerLetter(l[0]);
    LowerIsLetter(location[0]);
    assert !IsSpace(location[0]);
  }

  /** The city list never decides the outcome: a location is valid exactly
      when it is not blank and is a postcode, or is at least three letters,
      whitespace, hyphens and apostrophes. */
  lemma ValidateIgnoresCityList(location: string)
    ensures ValidateUkLocation(location) <==>
      !AllSpace(location) && (PostcodeMatch(Upper(location)) || (|location| >= 3 && AllNameChars(location)))
  {
    if Lower(location) in MajorUkLocations {
      ListedLocationIsValid(location);
    } else {
      UnlistedLocation(location);
    }
  }

  lemma ListedLocationIsValid(location: string)
    requires Lower(location) in MajorUkLocations
    ensures ValidateUkLocation(location)
    ensures !AllSpace(location) && |location| >= 3 && AllNameChars(location)
  {
    var k :| 0 <= k < |MajorUkLocations| && MajorUkLocations[k] == Lower(location);
    ListedLocationIsNameChars(location, k);
    StripEmptyIffAllSpace(location);
  }

  lemma UnlistedLocation(location: string)
    requires Lower(location) !in MajorUkLocations
    ensures ValidateUkLocation(location) <==>
      !AllSpace(location) && (PostcodeMatch(Upper(location)) || (|location| >= 3 && AllNameChars(location)))
  {
    StripEmptyIffAllSpace(location);
  }

  // =====================================================================
  // extract_postcode
  // =====================================================================

  /** Python's `' ' in m`. */
  predicate HasSpace(m: string) {
    exists i :: 0 <= i < |m| && m[i] == ' '
  }

  /** The spacing step: a match without a space gets one before its last
      three characters; a match with a space is kept as it is. */
  function Respace(m: string): (p: string)
    requires IsMatchText(m)
    ensures IsSpacedPostcode(p)
    ensures NonSpace(p) == NonSpace(m)
    ensures HasSpace(m) ==> p == m
  {
    SpacedMatch(m);
    if !HasSpace(m) then
      UnspacedIsOutward(m);
      InsertedSpace(m);
      m[..|m| - 3] + " " + m[|m| - 3..]
    else
      m
  }

  /** A match whose text before the inward code is an outward code has no space. */
  lemma UnspacedMatch(m: string)
    requires IsMatchText(m) && IsOutward(m[..|m| - 3])
    ensures !HasSpace(m)
  {
    var o3 := m[..|m| - 3];
    var w := m[|m| - 3..];
    forall i | 0 <= i < |m|
      ensures m[i] != ' '
    {
      if i < |o3| {
        assert m[i] == o3[i];
      } else {
        assert m[i] == w[i - |o3|];
      }
    }
  }

  /** Putting the space in gives a spaced postcode with the same characters. */
  lemma InsertedSpace(m: string)
    requires IsMatchText(m) && IsOutward(m[..|m| - 3])
    ensures IsSpacedPostcode(m[..|m| - 3] + " " + m[|m| - 3..])
    ensures NonSpace(m[..|m| - 3] + " " + m[|m| - 3..]) == NonSpace(m)
  {
    var o3 := m[..|m| - 3];
    var w := m[|m| - 3..];
    SpaceBetween(o3, w);
    assert m == o3 + w;
    NonSpaceSkipsSpace(o3, w);
  }

  /** An outward and an inward code joined by a space form a spaced postcode. */
  lemma SpaceBetween(o: string, w: string)
    requires IsOutward(o) && IsInward(w)
    ensures IsSpacedPostcode(o + " " + w)
  {
    var p := o + " " + w;
    assert p[..|p| - 4] == o;
    assert p[|p| - 3..] == w;
  }

  /** A match whose text before the inward code is not an outward code
      carries a space before the inward code. */
  lemma SpaceBeforeInward(m: string)
    requires IsMatchText(m) && !IsOutward(m[..|m| - 3])
    ensures HasSpace(m) && IsSpacedPostcode(m)
  {
    assert m[|m| - 4] == ' ';
  }

  /** A match without a space is an outward code followed by an inward code. */
  lemma UnspacedIsOutward(m: string)
    requires IsMatchText(m)
    ensures HasSpace(m) || IsOutward(m[..|m| - 3])
  {
    if !IsOutward(m[..|m| - 3]) {
      SpaceBeforeInward(m);
    }
  }

  /** A match with a space is already a spaced postcode. */
  lemma SpacedMatch(m: string)
    requires IsMatchText(m)
    ensures HasSpace(m) ==> IsSpacedPostcode(m)
  {
    if IsOutward(m[..|m| - 3]) {
      UnspacedMatch(m);
    } else {
      SpaceBeforeInward(m);
    }
  }

  function ExtractPostcode(text: string): (p: Option<string>)
    ensures |text| == 0 ==> p.None?
    ensures p.Some? ==> IsSpacedPostcode(p.value)
    ensures p.Some? <==> |text| > 0 && Find(Upper(text), 0).Some?
  {
    if |text| == 0 then None
    else
      var u := Upper(text);
      match Find(u, 0)
      case None => None
      case Some(j) =>
        var t := FirstFit(u, j, 0).value;
        FitIsMatchText(u, j, t);
        Some(Respace(u[j..j + Width(Shapes[t])]))
  }

  /** The extracted postcode is the leftmost match of the pattern in the
      upper-cased text, with only its spacing changed. */
  lemma ExtractPostcodeIsLeftmostMatch(text: string)
    requires |text| > 0
    ensures ExtractPostcode(text).Some? <==> SearchPostcode(Upper(text)).Some?
    ensures ExtractPostcode(text).Some? ==>
      var m := SearchPostcode(Upper(text)).value;
      IsMatchText(m) && NonSpace(ExtractPostcode(text).value) == NonSpace(m)
      && (HasSpace(m) ==> ExtractPostcode(text).value == m)
  {
    var u := Upper(text);
    if Find(u, 0).Some? {
      var j := Find(u, 0).value;
      FitIsMatchText(u, j, FirstFit(u, j, 0).value);
    }
  }

  /** Extracting from an extracted postcode gives it back unchanged. */
  lemma ExtractPostcodeIdempotent(p: string)
    requires IsSpacedPostcode(p)
    ensures ExtractPostcode(p) == Some(p)
  {
    var t := SpacedPostcodeFoundWhole(p);
    assert p[0..|p|] == p;
    assert HasSpace(p) by {
      assert p[|p| - 4] == ' ';
    }
  }

  /** The search finds a spaced postcode at its start, and the shape it
      commits to there spans the whole text. */
  lemma SpacedPostcodeFoundWhole(p: string) returns (t: nat)
    requires IsSpacedPostcode(p)
    ensures Upper(p) == p && Find(p, 0) == Some(0)
    ensures FirstFit(p, 0, 0) == Some(t) && t < |Shapes| && Width(Shapes[t]) == |p|
  {
    SpacedPostcodeChars(p);
    assert Upper(p) == p;
    SpacedPostcodeIsPostcode(p);
    var t0 :| 0 <= t0 < |Shapes| && Width(Shapes[t0]) == |p| && Fits(p, 0, Shapes[t0]);
    assert FirstFit(p, 0, 0).Some?;
    assert Find(p, 0) == Some(0);
    t := FirstFit(p, 0, 0).value;
    FitsSpacedPostcodeWhole(p, t);
  }

  /** A spaced postcode passes location validation. */
  lemma SpacedPostcodeIsValidLocation(p: string)
    requires IsSpacedPostcode(p)
    ensures ValidateUkLocation(p)
  {
    SpacedPostcodeChars(p);
    assert Upper(p) == p;
    SpacedPostcodeIsPostcode(p);
  }

  // =====================================================================
  // format_business_type
  // =====================================================================

  /** The words dropped from a business type. */
  const StopWords: seq<string> := ["in", "and", "the", "a", "an", "of", "for"]

  /** Python's `str.capitalize()`: first character upper case, the rest lower case. */
  function Capitalize(w: string): (c: string)
    ensures |c| == |w|
  {
    if |w| == 0 then w else [ToUpper(w[0])] + Lower(w[1..])
  }

  function CapitalizeAll(words: seq<string>): (cs: seq<string>)
    ensures |cs| == |words|
    ensures forall k :: 0 <= k < |words| ==> cs[k] == Capitalize(words[k])
  {
    seq(|words|, k requires 0 <= k < |words| => Capitalize(words[k]))
  }

  /** The words whose lower-case form is not a stop word, in order. */
  function KeepWords(words: seq<string>): (kept: seq<string>)
    ensures |kept| <= |words|
    ensures forall k :: 0 <= k < |kept| ==> kept[k] in words && Lower(kept[k]) !in StopWords
    ensures forall k :: 0 <= k < |words| && Lower(words[k]) !in StopWords ==> words[k] in kept
    decreases |words|
  {
    if |words| == 0 then []
    else (if Lower(words[0]) in StopWords then [] else [words[0]]) + KeepWords(words[1..])
  }

  /** Words that are all stop words leave nothing. */
  lemma {:induction false} OnlyStopWordsKeepNothing(words: seq<string>)
    requires forall k :: 0 <= k < |words| ==> Lower(words[k]) in StopWords
    ensures KeepWords(words) == []
    decreases |words|
  {
    if |words| > 0 {
      var rest := words[1..];
      assert forall k :: 0 <= k < |rest| ==> rest[k] == words[k + 1];
      OnlyStopWordsKeepNothing(rest);
      assert Lower(words[0]) in StopWords;
    }
  }

  /** Filtering distributes over concatenation, so kept words stay in their
      original order. */
  lemma {:induction false} KeepWordsAppend(a: seq<string>, b: seq<string>)
    ensures KeepWords(a + b) == KeepWords(a) + KeepWords(b)
    decreases |a|
  {
    if |a| > 0 {
      assert (a + b)[0] == a[0] && (a + b)[1..] == a[1..] + b;
      KeepWordsAppend(a[1..], b);
    } else {
      assert a + b == b;
    }
  }

  /** Capitalising keeps a word's length and its space-freedom. */
  lemma CapitalizeWord(w: string)
    requires |w| > 0 && NoSpace(w)
    ensures |Capitalize(w)| > 0 && NoSpace(Capitalize(w))
  {
    var c := Capitalize(w);
    assert forall i :: 1 <= i < |w| ==> c[i] == ToLower(w[i]);
  }

  lemma LowerOfCapitalize(w: string)
    ensures Lower(Capitalize(w)) == Lower(w)
  {
    if |w| > 0 {
      var c := Capitalize(w);
      var lc := Lower(c);
      var lw := Lower(w);
      forall i | 0 <= i < |w|
        ensures lc[i] == lw[i]
      {
        if i == 0 {
          LowerAfterUpper(w[0]);
        } else {
          assert c[i] == Lower(w[1..])[i - 1] == ToLower(w[i]);
        }
      }
    }
  }

  lemma CapitalizeIdempotent(w: string)
    ensures Capitalize(Capitalize(w)) == Capitalize(w)
  {
    if |w| > 0 {
      var c := Capitalize(w);
      var cc := Capitalize(c);
      forall i | 0 <= i < |w|
        ensures cc[i] == c[i]
      {
        if i > 0 {
          assert c[i] == Lower(w[1..])[i - 1] == ToLower(w[i]);
          assert cc[i] == Lower(c[1..])[i - 1] == ToLower(c[i]);
        }
      }
    }
  }

  /** Capitalised words of a split are still non-empty and space-free. */
  lemma CapitalizedWordsAreWords(words: seq<string>)
    requires forall k :: 0 <= k < |words| ==> |words[k]| > 0 && NoSpace(words[k])
    ensures forall k :: 0 <= k < |words| ==>
      |CapitalizeAll(words)[k]| > 0 && NoSpace(CapitalizeAll(words)[k])
  {
    forall k | 0 <= k < |words|
      ensures |CapitalizeAll(words)[k]| > 0 && NoSpace(CapitalizeAll(words)[k])
    {
      CapitalizeWord(words[k]);
    }
  }

  function FormatBusinessType(businessType: string): (r: string)
    ensures |r| > 0
    ensures |KeepWords(Split(businessType))| == 0 ==> r == "Business"
    ensures |KeepWords(Split(businessType))| > 0 ==>
      Split(r) == CapitalizeAll(KeepWords(Split(businessType)))
    ensures |KeepWords(Split(businessType))| > 0 ==> r == Join(" ", Split(r))
  {
    var kept := KeepWords(Split(businessType));
    if |businessType| == 0 || |kept| == 0 then "Business"
    else
      var words := CapitalizeAll(kept);
      CapitalizedWordsAreWords(kept);
      SplitJoin(words);
      Join(" ", words)
  }

  /** Capitalised kept words pass the stop-word filter again, all of them. */
  lemma {:induction false} KeepCapitalized(kept: seq<string>)
    requires forall k :: 0 <= k < |kept| ==> Lower(kept[k]) !in StopWords
    ensures KeepWords(CapitalizeAll(kept)) == CapitalizeAll(kept)
    decreases |kept|
  {
    if |kept| > 0 {
      LowerOfCapitalize(kept[0]);
      KeepCapitalized(kept[1..]);
      assert CapitalizeAll(kept)[1..] == CapitalizeAll(kept[1..]);
    }
  }

  lemma CapitalizeAllIdempotent(words: seq<string>)
    ensures CapitalizeAll(CapitalizeAll(words)) == CapitalizeAll(words)
  {
    forall k | 0 <= k < |words|
      ensures Capitalize(Capitalize(words[k])) == Capitalize(words[k])
    {
      CapitalizeIdempotent(words[k]);
    }
  }

  /** The default "Business" is one word, not a stop word, already capitalised. */
  lemma BusinessIsWord()
    ensures NoSpace("Business") && |"Business"| > 0
    ensures Lower("Business") !in StopWords
    ensures Capitalize("Business") == "Business"
  {
    var b := "Business";
    assert |Lower(b)| == 8;
    var tail := Lower(b[1..]);
    forall i | 0 <= i < |tail|
      ensures tail[i] == b[1 + i]
    {
    }
    assert Capitalize(b) == [ToUpper(b[0])] + tail;
  }

  /** The default "Business" formats to itself. */
  lemma BusinessIsFixed()
    ensures FormatBusinessType("Business") == "Business"
  {
    var b := "Business";
    BusinessIsWord();
    SplitJoin([b]);
    assert Split(b) == [b];
    assert KeepWords([b]) == [b];
    assert CapitalizeAll([b]) == [b];
  }

  /** Formatting a formatted business type changes nothing. */
  lemma FormatBusinessTypeIdempotent(businessType: string)
    ensures FormatBusinessType(FormatBusinessType(businessType)) == FormatBusinessType(businessType)
  {
    var r := FormatBusinessType(businessType);
    var kept := KeepWords(Split(businessType));
    if |businessType| == 0 || |kept| == 0 {
      BusinessIsFixed();
    } else {
      var words := CapitalizeAll(kept);
      assert Split(r) == words;
      KeepCapitalized(kept);
      CapitalizeAllIdempotent(kept);
      assert KeepWords(Split(r)) == words;
      assert r == Join(" ", words);
    }
  }
}
