/**
 * The companion bot's code reader: a post or a message names a film either as
 * `KOD: 184` / `KODI: 184` somewhere in its text, or by being nothing but the
 * number itself. The search is the regular expression `\bKODI?:\s*(\d+)\b`
 * (first match, case-sensitive), written out position by position.
 */
module CodeParser {
  import opened Wrappers
  import opened JsText

  /** Length of the tag `KOD:` or `KODI:` starting at `i`, or 0 when neither starts there. */
  function TagLength(s: string, i: nat): (t: nat)
    requires i <= |s|
    ensures t == 0 || t == 4 || t == 5
    ensures t != 0 ==> i + t <= |s| && s[i] == 'K'
  {
    if i + 4 <= |s| && s[i] == 'K' && s[i + 1] == 'O' && s[i + 2] == 'D' && s[i + 3] == ':' then 4
    else if i + 5 <= |s| && s[i] == 'K' && s[i + 1] == 'O' && s[i + 2] == 'D' && s[i + 3] == 'I' && s[i + 4] == ':' then 5
    else 0
  }

  /** Where the digits of a match starting at `i` begin: after the tag and the white space that follows it. */
  function CaptureStart(s: string, i: nat): (j: nat)
    requires i <= |s|
    ensures i + TagLength(s, i) <= j <= |s|
    ensures forall m :: i + TagLength(s, i) <= m < j ==> IsSpace(s[m])
    ensures j == |s| || !IsSpace(s[j])
  {
    SkipSpaces(s, i + TagLength(s, i))
  }

  /** Where the digits of a match starting at `i` end: the run of digits after `CaptureStart` is maximal. */
  function CaptureEnd(s: string, i: nat): (e: nat)
    requires i <= |s|
    ensures CaptureStart(s, i) <= e <= |s|
    ensures AllDigits(s[CaptureStart(s, i)..e])
    ensures e == |s| || !IsDigit(s[e])
  {
    var j := CaptureStart(s, i);
    var d := DigitPrefix(s[j..]);
    assert d == s[j..j + |d|];
    j + |d|
  }

  /**
   * The number captured by a match that starts at `i`, if one does. Since a
   * digit is not white space and two digits have no boundary between them,
   * the only candidate run is the maximal one after the maximal white space.
   */
  function KodAt(s: string, i: nat): (r: Option<nat>)
    requires i <= |s|
    ensures r.Some? ==> TagLength(s, i) != 0 && (i == 0 || !IsWordChar(s[i - 1]))
  {
    var t := TagLength(s, i);
    if t == 0 || (i > 0 && IsWordChar(s[i - 1])) then None
    else
      var j := SkipSpaces(s, i + t);
      var d := DigitPrefix(s[j..]);
      if d == [] then None
      else if j + |d| < |s| && IsWordChar(s[j + |d|]) then None
      else Some(DigitsValue(d))
  }

  /**
   * A match starts at `i` exactly when the tag starts there at a word boundary
   * and the captured digit run is non-empty and ends at a word boundary; the
   * match's value is the run's.
   */
  lemma {:induction false} KodAtMatches(s: string, i: nat)
    requires i <= |s|
    ensures KodAt(s, i).Some? <==> && TagLength(s, i) != 0 && (i == 0 || !IsWordChar(s[i - 1]))
                                   && CaptureStart(s, i) < CaptureEnd(s, i)
                                   && (CaptureEnd(s, i) == |s| || !IsWordChar(s[CaptureEnd(s, i)]))
    ensures KodAt(s, i).Some? ==> KodAt(s, i).value == DigitsValue(s[CaptureStart(s, i)..CaptureEnd(s, i)])
  {
    var j := CaptureStart(s, i);
    var d := DigitPrefix(s[j..]);
    assert CaptureEnd(s, i) == j + |d|;
    assert d == s[j..CaptureEnd(s, i)];
  }

  /** No match starts in `[i, k)`. */
  ghost predicate NoKodBetween(s: string, i: nat, k: nat)
    requires i <= k <= |s|
  {
    forall m :: i <= m < k ==> KodAt(s, m).None?
  }

  /** The leftmost match at or after `i`. */
  function FirstKod(s: string, i: nat): (r: Option<nat>)
    requires i <= |s|
    ensures r.None? ==> forall k :: i <= k < |s| ==> KodAt(s, k).None?
    decreases |s| - i
  {
    if i == |s| then None
    else match KodAt(s, i)
      case Some(n) => Some(n)
      case None => FirstKod(s, i + 1)
  }

  /** One step of the search: a match at `i` is returned, otherwise the search goes on at `i + 1`. */
  lemma FirstKodStep(s: string, i: nat)
    requires i < |s|
    ensures FirstKod(s, i) == if KodAt(s, i).Some? then KodAt(s, i) else FirstKod(s, i + 1)
  {
  }

  /**
   * The search returns the leftmost match: when `k` matches and nothing before
   * it does, `FirstKod` returns `k`'s match.
   */
  lemma {:induction false} FirstKodIsLeftmost(s: string, i: nat, k: nat)
    requires i <= k < |s| && KodAt(s, k).Some? && NoKodBetween(s, i, k)
    ensures FirstKod(s, i) == KodAt(s, k)
    decreases k - i
  {
    FirstKodStep(s, i);
    if i < k {
      assert KodAt(s, i).None? && NoKodBetween(s, i + 1, k);
      FirstKodIsLeftmost(s, i + 1, k);
    }
  }

  /** With no match from `i` on, the search finds nothing. */
  lemma {:induction false} NoMatchFindsNothing(s: string, i: nat)
    requires i <= |s| && NoKodBetween(s, i, |s|)
    ensures FirstKod(s, i) == None
    decreases |s| - i
  {
    if i < |s| {
      FirstKodStep(s, i);
      assert KodAt(s, i).None? && NoKodBetween(s, i + 1, |s|);
      NoMatchFindsNothing(s, i + 1);
    }
  }

  /** A string of digits holds no tag, so it has no match. */
  lemma {:induction false} DigitsHaveNoTag(s: string, i: nat)
    requires AllDigits(s) && i <= |s|
    ensures FirstKod(s, i) == None
    decreases |s| - i
  {
    if i < |s| {
      assert IsDigit(s[i]);
      assert TagLength(s, i) == 0;
      DigitsHaveNoTag(s, i + 1);
    }
  }

  /**
   * `parseCode(text)`: `None` for an empty text; otherwise the first tagged
   * number of the trimmed text, else the trimmed text's value when it is all
   * digits, else `None`.
   */
  function ParseCode(text: string): (r: Option<nat>)
    ensures text == [] ==> r == None
    ensures text != [] && FirstKod(Trim(text), 0).Some? ==> r == FirstKod(Trim(text), 0)
    ensures text != [] && FirstKod(Trim(text), 0).None? && Trim(text) != [] && AllDigits(Trim(text))
      ==> r == Some(DigitsValue(Trim(text)))
    ensures r.Some? <==> text != [] && (FirstKod(Trim(text), 0).Some? || (Trim(text) != [] && AllDigits(Trim(text))))
  {
    if text == [] then None
    else
      var t := Trim(text);
      match FirstKod(t, 0)
      case Some(n) => Some(n)
      case None => if t != [] && AllDigits(t) then Some(DigitsValue(t)) else None
  }

  /** A text that trims to a numeral reads as the numeral's value. */
  lemma AllDigitTextReadsAsNumber(text: string)
    requires Trim(text) != [] && AllDigits(Trim(text))
    ensures ParseCode(text) == Some(DigitsValue(Trim(text)))
  {
    DigitsHaveNoTag(Trim(text), 0);
  }

  /** The whole of an all-digit string is its own digit prefix. */
  lemma {:induction false} DigitPrefixOfDigits(s: string)
    requires AllDigits(s)
    ensures DigitPrefix(s) == s
  {
    if s != [] {
      DigitPrefixOfDigits(s[1..]);
    }
  }

  /** Round trip: a bare numeral reads back as its number. */
  lemma NumeralRoundTrip(n: nat)
    ensures ParseCode(NatToString(n)) == Some(n)
  {
    NumeralIsTrimmed(n);
    AllDigitTextReadsAsNumber(NatToString(n));
  }

  /** `KOD: ` followed by digits neither starts nor ends with white space. */
  lemma TaggedIsTrimmed(d: string)
    requires d != [] && AllDigits(d)
    ensures Trim("KOD: " + d) == "KOD: " + d
  {
    var s := "KOD: " + d;
    assert IsDigit(s[|s| - 1]);
    TrimOfTrimmed(s);
  }

  /** `KOD: ` followed by a non-empty run of digits is matched at its first position. */
  lemma TaggedDigitsMatch(d: string)
    requires d != [] && AllDigits(d)
    ensures KodAt("KOD: " + d, 0) == Some(DigitsValue(d))
  {
    var s := "KOD: " + d;
    TaggedTagAndSpace(d);
    assert s[5..] == d;
    DigitPrefixOfDigits(d);
  }

  lemma TaggedTagAndSpace(d: string)
    requires d != [] && AllDigits(d)
    ensures TagLength("KOD: " + d, 0) == 4
    ensures SkipSpaces("KOD: " + d, 4) == 5
  {
    var s := "KOD: " + d;
    assert s[0] == 'K' && s[1] == 'O' && s[2] == 'D' && s[3] == ':';
    assert IsSpace(s[4]);
    assert IsDigit(s[5]);
  }

  /** `KOD: ` followed by a run of digits reads as the run's value. */
  lemma TaggedDigitsParse(d: string)
    requires d != [] && AllDigits(d)
    ensures ParseCode("KOD: " + d) == Some(DigitsValue(d))
  {
    TaggedIsTrimmed(d);
    TaggedDigitsMatch(d);
    TrimmedMatchParses("KOD: " + d, DigitsValue(d));
  }

  lemma TrimmedMatchParses(s: string, v: nat)
    requires s != [] && Trim(s) == s && KodAt(s, 0) == Some(v)
    ensures ParseCode(s) == Some(v)
  {
  }

  /** Round trip: `KOD: ` followed by a numeral reads back as its number. */
  lemma TaggedRoundTrip(n: nat)
    ensures ParseCode("KOD: " + NatToString(n)) == Some(n)
  {
    TaggedDigitsParse(NatToString(n));
  }

  /** The match of `KOD: 12abc` at its start fails on the letter after the digits. */
  lemma GluedLettersSpoilMatch()
    ensures KodAt("KOD: 12abc", 0) == None
  {
    var s := "KOD: 12abc";
    assert TagLength(s, 0) == 4 by { assert s[0] == 'K' && s[1] == 'O' && s[2] == 'D' && s[3] == ':'; }
    assert SkipSpaces(s, 4) == 5 by {
      assert IsSpace(s[4]);
      assert !IsSpace(s[5]);
    }
    assert DigitPrefix(s[5..]) == "12" by {
      assert s[5..] == "12abc";
      assert DigitPrefix("12abc") == ['1'] + DigitPrefix("2abc");
      assert DigitPrefix("2abc") == ['2'] + DigitPrefix("abc");
    }
    assert IsWordChar(s[7]);
  }

  /** A trimmed text with no match that starts with a non-digit reads as nothing. */
  lemma UnmatchedWordIsRejected(s: string)
    requires s != [] && Trim(s) == s && !IsDigit(s[0])
    requires forall k :: 0 <= k < |s| ==> KodAt(s, k).None?
    ensures ParseCode(s) == None
  {
    NoMatchFindsNothing(s, 0);
  }

  /** Every match starts at a `K`: with no `K` from `i` on there is no match from `i` on. */
  lemma NoTagWithoutK(s: string, i: nat)
    requires i <= |s|
    requires forall k :: i <= k < |s| ==> s[k] != 'K'
    ensures forall k :: i <= k < |s| ==> KodAt(s, k).None?
  {
  }

  /** A tagged number glued to letters is not a match, and the text is not all digits either. */
  lemma TagFollowedByLettersIsRejected()
    ensures ParseCode("KOD: 12abc") == None
  {
    var s := "KOD: 12abc";
    assert s[0] == 'K' && s[|s| - 1] == 'c';
    TrimOfTrimmed(s);
    forall k | 1 <= k < |s| ensures s[k] != 'K' {
    }
    NoTagWithoutK(s, 1);
    GluedLettersSpoilMatch();
    UnmatchedWordIsRejected(s);
  }

  /** The tag must start at a word boundary: a letter right before it spoils the match. */
  lemma TagInsideWordIsRejected()
    ensures ParseCode("XKOD:5") == None
  {
    var s := "XKOD:5";
    assert Trim(s) == s by { TrimOfTrimmed(s); }
    forall k | 0 <= k < |s| ensures KodAt(s, k) == None {
      if k == 1 {
        assert IsWordChar(s[0]);
      } else {
        assert s[k] != 'K';
      }
    }
    UnmatchedWordIsRejected(s);
  }

  /** Matching is case-sensitive: a lower-case tag is not recognised. */
  lemma LowerCaseTagIsRejected()
    ensures ParseCode("kod: 5") == None
  {
    var s := "kod: 5";
    assert Trim(s) == s by { TrimOfTrimmed(s); }
    forall k | 0 <= k < |s| ensures KodAt(s, k) == None {
      assert s[k] != 'K';
      assert TagLength(s, k) == 0;
    }
    UnmatchedWordIsRejected(s);
  }
}
