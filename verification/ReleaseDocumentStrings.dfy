/**
 What a string of the release documents denotes, by section 7 of RFC 8259 and the
 surrogate pairs of UTF-16, told without the reader; and what the reader makes of it.
 */
module ReleaseDocumentStrings {
  import opened Wrappers
  import opened ReleaseDocument
  import opened ReleaseDocumentRoundTrip
  import opened ReleaseDocumentGrammar

  // ---- What a string denotes -------------------------------------------------------------

  const LOWER: string := ['0', '1', '2', '3', '4', '5', '6', '7', '8', '9', 'a', 'b', 'c', 'd', 'e', 'f']
  const UPPER: string := ['0', '1', '2', '3', '4', '5', '6', '7', '8', '9', 'A', 'B', 'C', 'D', 'E', 'F']

  /** The digit stands for its place in the row of digits, in either case. */
  predicate DigitMeans(c: char, n: nat) { n < 16 && (c == LOWER[n] || c == UPPER[n]) }

  /** Four digits and the code unit they write. */
  predicate UnitMeans(s: string, i: nat, n: nat) {
    && i + 4 <= |s| && n < 0x10000
    && DigitMeans(s[i], n / 0x1000) && DigitMeans(s[i + 1], n / 0x100 % 16) && DigitMeans(s[i + 2], n / 0x10 % 16) && DigitMeans(s[i + 3], n % 16)
  }

  /** An escaped code unit. */
  predicate EscapedUnit(s: string, i: nat, n: nat) { i + 6 <= |s| && s[i] == '\\' && s[i + 1] == 'u' && UnitMeans(s, i + 2, n) }

  /** The character a letter after the backslash stands for. */
  predicate LetterMeans(letter: char, c: char) {
    || (letter == c && (c == '"' || c == '\\' || c == '/'))
    || (letter == 'b' && c == '\U{0008}') || (letter == 't' && c == '\U{0009}') || (letter == 'n' && c == '\U{000A}')
    || (letter == 'f' && c == '\U{000C}') || (letter == 'r' && c == '\U{000D}')
  }

  /** The two code units of one character beyond the basic plane. */
  predicate PairMeans(high: int, low: int, c: char) {
    0xD800 <= high <= 0xDBFF && 0xDC00 <= low <= 0xDFFF && c as int - 0x10000 == (high - 0xD800) * 0x400 + (low - 0xDC00)
  }

  /** The low half of a pair stands here. */
  ghost predicate LowHalf(s: string, i: nat) { exists low: nat :: EscapedUnit(s, i, low) && 0xDC00 <= low <= 0xDFFF }

  /** Half of a pair stands here, with no other half where it would have to be. */
  ghost predicate LoneHalf(s: string, i: nat) {
    exists half: nat :: EscapedUnit(s, i, half) && 0xD800 <= half <= 0xDFFF && (half <= 0xDBFF ==> !LowHalf(s, i + 6))
  }

  /** Both halves of a pair, one after the other. */
  ghost predicate WholePair(s: string, i: nat, c: char) {
    exists high: nat, low: nat :: EscapedUnit(s, i, high) && EscapedUnit(s, i + 6, low) && PairMeans(high, low, c)
  }

  /** This part of the text is one character: itself, by its letter, by its code unit, by a pair, or half a pair that has no other half. */
  ghost predicate CharMeans(s: string, i: nat, j: nat, c: char) {
    && i < j <= |s|
    && ((j == i + 1 && s[i] == c && c >= ' ' && c != '"' && c != '\\')
        || (j == i + 2 && s[i] == '\\' && LetterMeans(s[i + 1], c))
        || (j == i + 6 && EscapedUnit(s, i, c as int))
        || (j == i + 6 && c == '\U{FFFD}' && LoneHalf(s, i))
        || (j == i + 12 && WholePair(s, i, c)))
  }

  /** The text from here to just past a closing quote is this string. */
  ghost predicate StringMeans(s: string, i: nat, v: string, j: nat)
    decreases |v|
  {
    if v == [] then i < |s| && s[i] == '"' && j == i + 1
    else exists k :: CharMeans(s, i, k, v[0]) && StringMeans(s, k, v[1..], j)
  }

  // ---- Code units ------------------------------------------------------------------------

  lemma DigitIsValue(c: char)
    ensures forall n: nat :: DigitMeans(c, n) <==> HexValue(c) == Some(n)
  {}

  lemma Places(a: nat, b: nat, c: nat, d: nat)
    requires a < 16 && b < 16 && c < 16 && d < 16
    ensures var n := ((a * 16 + b) * 16 + c) * 16 + d;
            n < 0x10000 && n / 0x1000 == a && n / 0x100 % 16 == b && n / 0x10 % 16 == c && n % 16 == d
  {}

  lemma PlacesBack(n: nat)
    requires n < 0x10000
    ensures ((n / 0x1000 * 16 + n / 0x100 % 16) * 16 + n / 0x10 % 16) * 16 + n % 16 == n
    ensures n / 0x1000 < 16
  {}

  lemma Folded(s: string, i: nat, a: nat, b: nat, c: nat, d: nat)
    requires i + 4 <= |s|
    requires HexValue(s[i]) == Some(a) && HexValue(s[i + 1]) == Some(b) && HexValue(s[i + 2]) == Some(c) && HexValue(s[i + 3]) == Some(d)
    ensures HexAt(s, i) == Some(((a * 16 + b) * 16 + c) * 16 + d) && a < 16 && b < 16 && c < 16 && d < 16
  {}

  lemma DigitsAreRead(s: string, i: nat)
    requires i + 4 <= |s|
    ensures forall k: nat, n: nat | i <= k < i + 4 :: DigitMeans(s[k], n) <==> HexValue(s[k]) == Some(n)
  {
    forall k: nat | i <= k < i + 4 { DigitIsValue(s[k]); }
  }

  lemma DigitsOf(s: string, i: nat, n: nat)
    requires UnitMeans(s, i, n)
    ensures HexValue(s[i]) == Some(n / 0x1000) && HexValue(s[i + 1]) == Some(n / 0x100 % 16)
    ensures HexValue(s[i + 2]) == Some(n / 0x10 % 16) && HexValue(s[i + 3]) == Some(n % 16)
  {
    DigitsAreRead(s, i);
    hide HexValue, DigitMeans;
  }

  lemma UnitFits(s: string, i: nat, n: nat)
    requires UnitMeans(s, i, n)
    ensures i + 4 <= |s|
  {}

  lemma WrittenIsRead(s: string, i: nat, n: nat)
    requires UnitMeans(s, i, n)
    ensures HexAt(s, i) == Some(n)
  {
    DigitsOf(s, i, n);
    PlacesBack(n);
    hide HexAt, HexValue, UnitMeans;
    assert i + 4 <= |s| by { UnitFits(s, i, n); }
    Folded(s, i, n / 0x1000, n / 0x100 % 16, n / 0x10 % 16, n % 16);
  }

  lemma ReadIsWritten(s: string, i: nat, n: nat)
    requires HexAt(s, i) == Some(n)
    ensures UnitMeans(s, i, n)
  {
    DigitsAreRead(s, i);
    var a, b, c, d := HexValue(s[i]).value, HexValue(s[i + 1]).value, HexValue(s[i + 2]).value, HexValue(s[i + 3]).value;
    Folded(s, i, a, b, c, d);
    hide HexAt, HexValue, DigitMeans;
    Places(a, b, c, d);
  }

  /** Four digits are read as the code unit they write. */
  lemma UnitIsRead(s: string, i: nat)
    ensures forall n: nat :: UnitMeans(s, i, n) <==> HexAt(s, i) == Some(n)
  {
    hide UnitMeans, HexAt;
    forall n: nat ensures UnitMeans(s, i, n) <==> HexAt(s, i) == Some(n) {
      if UnitMeans(s, i, n) { WrittenIsRead(s, i, n); }
      if HexAt(s, i) == Some(n) { ReadIsWritten(s, i, n); }
    }
  }

  // ---- Characters ------------------------------------------------------------------------

  /** What is escaped here, if it is a code unit, by the digits of it. */
  function UnitAt(s: string, i: nat): Option<nat> {
    if i + 6 <= |s| && s[i] == BACKSLASH && s[i + 1] == 'u' then HexAt(s, i + 2) else None
  }

  lemma EscapedIsRead(s: string, i: nat)
    ensures forall n: nat :: EscapedUnit(s, i, n) <==> UnitAt(s, i) == Some(n)
    ensures LowHalf(s, i) <==> UnitAt(s, i).Some? && LowSurrogate(UnitAt(s, i).value)
  {
    UnitIsRead(s, i + 2);
    hide UnitMeans, HexAt;
    if UnitAt(s, i).Some? { assert EscapedUnit(s, i, UnitAt(s, i).value); }
  }

  /** The reader of an escaped code unit, by the units here and after. */
  lemma UnicodeByUnits(s: string, i: nat)
    requires i + 2 <= |s| && s[i] == BACKSLASH && s[i + 1] == 'u'
    ensures var a, b := UnitAt(s, i), UnitAt(s, i + 6);
            && (a.None? <==> UnicodeAt(s, i).None?)
            && (a.Some? && !HighSurrogate(a.value) && !LowSurrogate(a.value) ==>
                  UnicodeAt(s, i).value.1 == i + 6 && UnicodeAt(s, i).value.0 as int == a.value)
            && (a.Some? && LowSurrogate(a.value) ==> UnicodeAt(s, i) == Some((REPLACEMENT, i + 6)))
            && (a.Some? && HighSurrogate(a.value) && (b.None? || !LowSurrogate(b.value)) ==> UnicodeAt(s, i) == Some((REPLACEMENT, i + 6)))
            && (a.Some? && HighSurrogate(a.value) && b.Some? && LowSurrogate(b.value) ==>
                  UnicodeAt(s, i).value.1 == i + 12 && PairMeans(a.value, b.value, UnicodeAt(s, i).value.0))
  {
    HexIsBounded(s, i + 2);
    HexIsBounded(s, i + 8);
    if HexAt(s, i + 2).Some? { HexFits(s, i + 2); }
    if HexAt(s, i + 8).Some? { HexFits(s, i + 8); }
    hide HexAt;
  }

  lemma HexFits(s: string, i: nat)
    requires HexAt(s, i).Some?
    ensures i + 4 <= |s|
  {}

  /** What is read of an escaped code unit is what it means. */
  lemma UnicodeMeans(s: string, i: nat, j: nat, c: char)
    requires UnicodeAtHere(s, i) && UnicodeAt(s, i) == Some((c, j))
    ensures CharMeans(s, i, j, c)
  {
    UnicodeByUnits(s, i);
    EscapedIsRead(s, i);
    EscapedIsRead(s, i + 6);
    hide UnicodeAt, UnitAt, EscapedUnit, LetterMeans, LowHalf;
    if j == i + 12 { FitsHere(s, i + 6); } else { FitsHere(s, i); }
  }

  predicate UnicodeAtHere(s: string, i: nat) { i + 2 <= |s| && s[i] == BACKSLASH && s[i + 1] == 'u' }

  lemma FitsHere(s: string, i: nat)
    ensures UnitAt(s, i).Some? ==> i + 6 <= |s| && UnicodeAtHere(s, i) && EscapedUnit(s, i, UnitAt(s, i).value)
  {
    EscapedIsRead(s, i);
  }

  lemma MeansUnicode(s: string, i: nat, j: nat, c: char)
    requires UnicodeAtHere(s, i) && CharMeans(s, i, j, c)
    ensures (j == i + 6 && (EscapedUnit(s, i, c as int) || (c == REPLACEMENT && LoneHalf(s, i)))) || (j == i + 12 && WholePair(s, i, c))
  {
    hide EscapedUnit, LoneHalf, WholePair;
  }

  lemma LoneHalfIsRead(s: string, i: nat)
    requires UnicodeAtHere(s, i) && LoneHalf(s, i)
    ensures UnicodeAt(s, i) == Some((REPLACEMENT, i + 6))
  {
    UnicodeByUnits(s, i);
    EscapedIsRead(s, i);
    EscapedIsRead(s, i + 6);
    hide UnicodeAt, UnitAt, EscapedUnit, LowHalf, PairMeans;
  }

  lemma WholePairIsRead(s: string, i: nat, c: char)
    requires UnicodeAtHere(s, i) && WholePair(s, i, c)
    ensures UnicodeAt(s, i) == Some((c, i + 12))
  {
    UnicodeByUnits(s, i);
    EscapedIsRead(s, i);
    EscapedIsRead(s, i + 6);
    hide UnicodeAt, UnitAt, EscapedUnit, LowHalf;
  }

  lemma UnitItselfIsRead(s: string, i: nat, c: char)
    requires UnicodeAtHere(s, i) && EscapedUnit(s, i, c as int)
    ensures UnicodeAt(s, i) == Some((c, i + 6))
  {
    UnicodeByUnits(s, i);
    EscapedIsRead(s, i);
    hide UnicodeAt, UnitAt, EscapedUnit, LowHalf, PairMeans;
  }

  /** What an escaped code unit means is what is read of it. */
  lemma UnicodeIsRead(s: string, i: nat, j: nat, c: char)
    requires UnicodeAtHere(s, i) && CharMeans(s, i, j, c)
    ensures UnicodeAt(s, i) == Some((c, j))
  {
    MeansUnicode(s, i, j, c);
    hide *;
    if j == i + 12 { WholePairIsRead(s, i, c); }
    else if EscapedUnit(s, i, c as int) { UnitItselfIsRead(s, i, c); }
    else { LoneHalfIsRead(s, i); }
  }

  /** One character is read exactly as what it means. */
  lemma CharIsWhatItMeans(s: string, i: nat, j: nat, c: char)
    requires i < |s| && s[i] != QUOTE
    ensures CharAt(s, i) == Some((c, j)) <==> CharMeans(s, i, j, c)
  {
    if UnicodeAtHere(s, i) {
      ReadsUnicode(s, i);
      hide CharMeans, CharAt, UnicodeAt, UnicodeAtHere;
      if CharAt(s, i) == Some((c, j)) { UnicodeMeans(s, i, j, c); }
      if CharMeans(s, i, j, c) { UnicodeIsRead(s, i, j, c); }
    } else {
      hide UnicodeAt, UnitMeans, LowHalf;
    }
  }

  lemma ReadsUnicode(s: string, i: nat)
    requires UnicodeAtHere(s, i)
    ensures CharAt(s, i) == UnicodeAt(s, i)
  {
    hide UnicodeAt;
  }

  // ---- Strings ---------------------------------------------------------------------------

  lemma StringStep(s: string, i: nat, v: string, j: nat) returns (k: nat)
    requires StringMeans(s, i, v, j) && v != []
    ensures CharMeans(s, i, k, v[0]) && StringMeans(s, k, v[1..], j) && i < k <= |s| && s[i] != QUOTE
  {
    k :| CharMeans(s, i, k, v[0]) && StringMeans(s, k, v[1..], j);
  }

  lemma {:induction false} MeantIsRead(s: string, i: nat, v: string, j: nat)
    requires i <= |s| && StringMeans(s, i, v, j)
    ensures ParseChars(s, i) == Some((v, j))
    decreases |v|
  {
    if v != [] {
      var k := StringStep(s, i, v, j);
      CharIsWhatItMeans(s, i, k, v[0]);
      MeantIsRead(s, k, v[1..], j);
      hide CharMeans, StringMeans, CharAt;
      assert v == [v[0]] + v[1..];
    }
  }

  lemma {:induction false} ReadIsMeant(s: string, i: nat, v: string, j: nat)
    requires i <= |s| && ParseChars(s, i) == Some((v, j))
    ensures StringMeans(s, i, v, j)
    decreases |s| - i
  {
    CharsTaken(s, i);
    if s[i] != QUOTE {
      var (c, k) := CharAt(s, i).value;
      hide CharMeans, StringMeans, CharAt, ParseChars;
      CharIsWhatItMeans(s, i, k, c);
      assert v[0] == c && v[1..] == ParseChars(s, k).value.0;
      ReadIsMeant(s, k, v[1..], j);
      Continues(s, i, k, v, j);
    }
  }

  lemma Continues(s: string, i: nat, k: nat, v: string, j: nat)
    requires v != [] && CharMeans(s, i, k, v[0]) && StringMeans(s, k, v[1..], j)
    ensures StringMeans(s, i, v, j)
  {}

  /**
   The reader takes a string for exactly what it denotes: every escape by what RFC 8259 says of it,
   every surrogate pair for its one character, and half a pair for the replacement character.
   */
  lemma StringIsWhatItMeans(s: string, i: nat, v: string, j: nat)
    requires i <= |s|
    ensures ParseChars(s, i) == Some((v, j)) <==> StringMeans(s, i, v, j)
  {
    hide ParseChars, StringMeans;
    if ParseChars(s, i) == Some((v, j)) { ReadIsMeant(s, i, v, j); }
    if StringMeans(s, i, v, j) { MeantIsRead(s, i, v, j); }
  }

  /** So no text denotes two strings, or one string two ways long. */
  lemma MeaningIsOne(s: string, i: nat, v: string, j: nat, w: string, k: nat)
    requires i <= |s| && StringMeans(s, i, v, j) && StringMeans(s, i, w, k)
    ensures v == w && j == k
  {
    MeantIsRead(s, i, v, j);
    MeantIsRead(s, i, w, k);
  }

  /** The printer's spelling of a string denotes that string. */
  lemma SpellingMeansTheString(v: string)
    ensures StringMeans(EncodeString(v), 1, v, |EncodeString(v)|)
  {
    hide StringMeans, ParseChars;
    SpelledIsRead(v);
    ReadIsMeant(EncodeString(v), 1, v, |EncodeString(v)|);
  }

  lemma SpelledIsRead(v: string)
    ensures ParseChars(EncodeString(v), 1) == Some((v, |EncodeString(v)|))
  {
    Whole(EncodeString(v));
    StringReads(EncodeString(v), 0, v);
  }
}
