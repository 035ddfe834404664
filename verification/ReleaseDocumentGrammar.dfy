/**
 The JSON grammar of RFC 8259, as derivations over parts of a text, and what the
 parser makes of it: it accepts a text exactly when the grammar derives it.
 */
module ReleaseDocumentGrammar {
  import opened Wrappers
  import opened ReleaseDocument
  import opened ReleaseDocumentRoundTrip

  // ---- Section 2: structure and white space ----------------------------------------------

  /** space, tab, line feed and carriage return */
  predicate Blank(s: string, i: nat, j: nat) {
    i <= j <= |s| && forall k | i <= k < j :: s[k] == ' ' || s[k] == '\t' || s[k] == '\n' || s[k] == '\r'
  }

  // ---- Section 7: strings ----------------------------------------------------------------

  predicate HexDigits(s: string, i: nat, j: nat) {
    i <= j <= |s| && forall k | i <= k < j :: '0' <= s[k] <= '9' || 'A' <= s[k] <= 'F' || 'a' <= s[k] <= 'f'
  }

  /** One character unescaped, or an escape and what it escapes. */
  predicate DerivesChar(s: string, i: nat, j: nat) {
    && i < j <= |s|
    && ((j == i + 1 && s[i] as int >= 0x20 && s[i] != QUOTE && s[i] != BACKSLASH)
        || (j == i + 2 && s[i] == BACKSLASH && s[i + 1] in {QUOTE, BACKSLASH, '/', 'b', 'f', 'n', 'r', 't'})
        || (j == i + 6 && s[i] == BACKSLASH && s[i + 1] == 'u' && HexDigits(s, i + 2, j)))
  }

  predicate DerivesChars(s: string, i: nat, j: nat)
    decreases j - i
  {
    i <= j <= |s| && (i == j || exists k | i < k <= j :: DerivesChar(s, i, k) && DerivesChars(s, k, j))
  }

  predicate DerivesString(s: string, i: nat, j: nat) {
    i + 2 <= j <= |s| && s[i] == QUOTE && s[j - 1] == QUOTE && DerivesChars(s, i + 1, j - 1)
  }

  // ---- Section 6: numbers ----------------------------------------------------------------

  predicate Digits(s: string, i: nat, j: nat) { i <= j <= |s| && forall k | i <= k < j :: '0' <= s[k] <= '9' }

  /** zero, or a digit from one to nine and any digits. */
  predicate DerivesInteger(s: string, i: nat, j: nat) {
    i < j <= |s| && ((j == i + 1 && s[i] == '0') || ('1' <= s[i] <= '9' && Digits(s, i + 1, j)))
  }

  predicate DerivesFraction(s: string, i: nat, j: nat) { i + 1 < j <= |s| && s[i] == '.' && Digits(s, i + 1, j) }

  predicate DerivesExponent(s: string, i: nat, j: nat) {
    && i + 1 < j <= |s| && (s[i] == 'e' || s[i] == 'E')
    && (Digits(s, i + 1, j) || (i + 2 < j && (s[i + 1] == '+' || s[i + 1] == '-') && Digits(s, i + 2, j)))
  }

  /** An integer from a on, then a fraction if there is one, then an exponent if there is one. */
  predicate DerivesUnsigned(s: string, a: nat, j: nat) {
    exists m, f | a < m <= f <= j ::
      DerivesInteger(s, a, m) && (m == f || DerivesFraction(s, m, f)) && (f == j || DerivesExponent(s, f, j))
  }

  predicate DerivesNumber(s: string, i: nat, j: nat) {
    i < j <= |s| && (DerivesUnsigned(s, i, j) || (s[i] == '-' && DerivesUnsigned(s, i + 1, j)))
  }

  // ---- Sections 3, 4 and 5: values, objects and arrays -----------------------------------

  predicate DerivesName(s: string, i: nat, j: nat) { i <= j <= |s| && s[i..j] in {TRUE, FALSE, NULL} }

  predicate DerivesValue(s: string, i: nat, j: nat)
    decreases j - i, 0
  {
    && i < j <= |s|
    && (DerivesName(s, i, j) || DerivesNumber(s, i, j) || DerivesString(s, i, j)
        || (i + 2 <= j && s[i] == '{' && s[j - 1] == '}' && (Blank(s, i + 1, j - 1) || DerivesMembers(s, i + 1, j - 1)))
        || (i + 2 <= j && s[i] == '[' && s[j - 1] == ']' && (Blank(s, i + 1, j - 1) || DerivesItems(s, i + 1, j - 1))))
  }

  /** A value with white space on either side. */
  predicate DerivesPadded(s: string, i: nat, j: nat)
    decreases j - i, 1
  {
    i <= j <= |s| && exists a, b | i <= a <= b <= j :: Blank(s, i, a) && DerivesValue(s, a, b) && Blank(s, b, j)
  }

  /** Values separated by commas. */
  predicate DerivesItems(s: string, i: nat, j: nat)
    decreases j - i, 2
  {
    i <= j <= |s| && (DerivesPadded(s, i, j) || exists k | i <= k < j :: s[k] == ',' && DerivesPadded(s, i, k) && DerivesItems(s, k + 1, j))
  }

  /** A value after white space. */
  predicate DerivesLed(s: string, i: nat, j: nat)
    decreases j - i, 1
  {
    i <= j <= |s| && exists v | i <= v <= j :: Blank(s, i, v) && DerivesValue(s, v, j)
  }

  /** A colon between white space, and a value. */
  predicate DerivesNamed(s: string, i: nat, j: nat)
    decreases j - i, 1
  {
    i <= j <= |s| && exists c | i <= c < j :: Blank(s, i, c) && s[c] == ':' && DerivesLed(s, c + 1, j)
  }

  /** A key and what it names. */
  predicate DerivesMember(s: string, i: nat, j: nat)
    decreases j - i, 2
  {
    i <= j <= |s| && exists a | i < a <= j :: DerivesString(s, i, a) && DerivesNamed(s, a, j)
  }

  predicate DerivesPaddedMember(s: string, i: nat, j: nat)
    decreases j - i, 3
  {
    i <= j <= |s| && exists a, b | i <= a <= b <= j :: Blank(s, i, a) && DerivesMember(s, a, b) && Blank(s, b, j)
  }

  /** Members separated by commas. */
  predicate DerivesMembers(s: string, i: nat, j: nat)
    decreases j - i, 4
  {
    i <= j <= |s| && (DerivesPaddedMember(s, i, j) || exists k | i <= k < j :: s[k] == ',' && DerivesPaddedMember(s, i, k) && DerivesMembers(s, k + 1, j))
  }

  /** A JSON text: one value with white space on either side. */
  predicate Derives(s: string) { DerivesPadded(s, 0, |s|) }

  // ---- White space and digits ------------------------------------------------------------

  lemma {:induction false} SkippedIsBlank(s: string, i: nat)
    requires i <= |s|
    ensures Blank(s, i, SkipSpace(s, i)) && (SkipSpace(s, i) < |s| ==> !Space(s[SkipSpace(s, i)]))
    decreases |s| - i
  {
    if i < |s| && Space(s[i]) { SkippedIsBlank(s, i + 1); }
  }

  lemma BlankIsSkipped(s: string, i: nat, j: nat)
    requires Blank(s, i, j) && (j < |s| ==> !Space(s[j]))
    ensures i <= j <= |s| && SkipSpace(s, i) == j
  {
    SkipsSpaces(s, i, j);
  }

  lemma {:induction false} RunIsDigits(s: string, i: nat)
    requires i <= |s|
    ensures Digits(s, i, DigitRun(s, i)) && (DigitRun(s, i) < |s| ==> !Digit(s[DigitRun(s, i)]))
    decreases |s| - i
  {
    if i < |s| && Digit(s[i]) { RunIsDigits(s, i + 1); }
  }

  lemma {:induction false} DigitsAreRun(s: string, i: nat, j: nat)
    requires Digits(s, i, j) && (j < |s| ==> !Digit(s[j]))
    ensures DigitRun(s, i) == j
    decreases j - i
  {
    if i < j { DigitsAreRun(s, i + 1, j); }
  }

  // ---- Numbers ---------------------------------------------------------------------------

  lemma IntegerIsDerived(s: string, i: nat)
    requires i <= |s| && IntegerEnd(s, i).Some?
    ensures DerivesInteger(s, i, IntegerEnd(s, i).value)
  {
    if s[i] != '0' { RunIsDigits(s, i + 1); }
  }

  lemma FractionIsDerived(s: string, i: nat)
    requires i <= |s| && FractionEnd(s, i).Some?
    ensures FractionEnd(s, i).value == i || DerivesFraction(s, i, FractionEnd(s, i).value)
  {
    if i < |s| && s[i] == '.' { RunIsDigits(s, i + 1); }
  }

  lemma ExponentIsDerived(s: string, i: nat)
    requires i <= |s| && ExponentEnd(s, i).Some?
    ensures ExponentEnd(s, i).value == i || DerivesExponent(s, i, ExponentEnd(s, i).value)
  {
    if i < |s| && (s[i] == 'e' || s[i] == 'E') {
      RunIsDigits(s, i + 1);
      if i + 1 < |s| { RunIsDigits(s, i + 2); }
    }
  }

  lemma NumberIsDerived(s: string, i: nat)
    requires i <= |s| && NumberEnd(s, i).Some?
    ensures DerivesNumber(s, i, NumberEnd(s, i).value)
  {
    var a := if s[i] == '-' then i + 1 else i;
    var m := IntegerEnd(s, a).value;
    var f := FractionEnd(s, m).value;
    IntegerIsDerived(s, a);
    FractionIsDerived(s, m);
    ExponentIsDerived(s, f);
    UnsignedInParts(s, a, m, f, NumberEnd(s, i).value);
  }

  lemma UnsignedInParts(s: string, a: nat, m: nat, f: nat, j: nat)
    requires a < m <= f <= j && DerivesInteger(s, a, m) && (m == f || DerivesFraction(s, m, f)) && (f == j || DerivesExponent(s, f, j))
    ensures DerivesUnsigned(s, a, j)
  {}

  lemma IntegerIsRead(s: string, i: nat, j: nat)
    requires DerivesInteger(s, i, j) && (j < |s| ==> !Digit(s[j]))
    ensures IntegerEnd(s, i) == Some(j) && Digit(s[i])
  {
    if s[i] != '0' { DigitsAreRun(s, i + 1, j); }
  }

  lemma FractionIsRead(s: string, i: nat, j: nat)
    requires i <= j <= |s| && (i == j || DerivesFraction(s, i, j)) && (j < |s| ==> !Digit(s[j]) && s[j] != '.')
    ensures FractionEnd(s, i) == Some(j)
  {
    if i < j { DigitsAreRun(s, i + 1, j); }
  }

  lemma ExponentIsRead(s: string, i: nat, j: nat)
    requires i <= j <= |s| && (i == j || DerivesExponent(s, i, j)) && Delimited(s, j)
    ensures ExponentEnd(s, i) == Some(j)
  {
    if i < j {
      if Digits(s, i + 1, j) {
        assert Digit(s[i + 1]);
        DigitsAreRun(s, i + 1, j);
      } else {
        DigitsAreRun(s, i + 2, j);
      }
    }
  }

  lemma UnsignedParts(s: string, a: nat, j: nat) returns (m: nat, f: nat)
    requires DerivesUnsigned(s, a, j)
    ensures a < m <= f <= j && DerivesInteger(s, a, m) && (m == f || DerivesFraction(s, m, f)) && (f == j || DerivesExponent(s, f, j))
  {
    m, f :| a < m <= f <= j && DerivesInteger(s, a, m) && (m == f || DerivesFraction(s, m, f)) && (f == j || DerivesExponent(s, f, j));
  }

  lemma UnsignedIsRead(s: string, a: nat, j: nat)
    requires j <= |s| && DerivesUnsigned(s, a, j) && Delimited(s, j)
    ensures a < |s| && Digit(s[a]) && IntegerEnd(s, a).Some? && FractionEnd(s, IntegerEnd(s, a).value).Some?
    ensures ExponentEnd(s, FractionEnd(s, IntegerEnd(s, a).value).value) == Some(j)
  {
    var m, f := UnsignedParts(s, a, j);
    IntegerIsRead(s, a, m);
    FractionIsRead(s, m, f);
    ExponentIsRead(s, f, j);
  }

  lemma NumberIsRead(s: string, i: nat, j: nat)
    requires DerivesNumber(s, i, j) && Delimited(s, j)
    ensures NumberEnd(s, i) == Some(j) && (s[i] == '-' || Digit(s[i]))
  {
    if DerivesUnsigned(s, i, j) { UnsignedIsRead(s, i, j); } else { UnsignedIsRead(s, i + 1, j); }
  }

  // ---- Strings ---------------------------------------------------------------------------

  lemma HexIsDigits(s: string, i: nat)
    ensures HexAt(s, i).Some? <==> HexDigits(s, i, i + 4)
  {
    if HexDigits(s, i, i + 4) { assert HexValue(s[i]).Some? && HexValue(s[i + 1]).Some? && HexValue(s[i + 2]).Some? && HexValue(s[i + 3]).Some?; }
  }

  /** What the string reader takes at once is one character of the grammar, or the two halves of a surrogate pair. */
  lemma CharIsDerived(s: string, i: nat)
    requires i < |s| && s[i] != QUOTE && CharAt(s, i).Some?
    ensures var next := CharAt(s, i).value.1;
            DerivesChar(s, i, next) || (next == i + 12 && DerivesChar(s, i, i + 6) && DerivesChar(s, i + 6, next))
  {
    HexIsDigits(s, i + 2);
    HexIsDigits(s, i + 8);
  }

  lemma DerivedOne(s: string, i: nat, k: nat, j: nat)
    requires DerivesChar(s, i, k) && DerivesChars(s, k, j)
    ensures DerivesChars(s, i, j)
  {}

  lemma NothingIsDerived(s: string, i: nat)
    requires i <= |s|
    ensures DerivesChars(s, i, i)
  {}

  /** The string reader at its quote, and at any other character. */
  lemma CharsTaken(s: string, i: nat)
    requires i <= |s| && ParseChars(s, i).Some?
    ensures i < |s| && (s[i] == QUOTE ==> ParseChars(s, i).value == ([], i + 1))
    ensures s[i] != QUOTE ==>
              && CharAt(s, i).Some?
              && var (c, next) := CharAt(s, i).value;
                 ParseChars(s, next).Some? && ParseChars(s, i).value == ([c] + ParseChars(s, next).value.0, ParseChars(s, next).value.1)
  {
    hide EscapeAt;
  }

  lemma {:induction false} CharsAreDerived(s: string, i: nat)
    requires i <= |s| && ParseChars(s, i).Some?
    ensures var end := ParseChars(s, i).value.1; s[end - 1] == QUOTE && DerivesChars(s, i, end - 1)
    decreases |s| - i
  {
    hide CharAt, DerivesChar, ParseChars, DerivesChars;
    CharsTaken(s, i);
    NothingIsDerived(s, i);
    if s[i] != QUOTE {
      var next, end := CharAt(s, i).value.1, ParseChars(s, i).value.1;
      CharsAreDerived(s, next);
      CharIsDerived(s, i);
      if DerivesChar(s, i, next) {
        DerivedOne(s, i, next, end - 1);
      } else {
        DerivedOne(s, i + 6, next, end - 1);
        DerivedOne(s, i, i + 6, end - 1);
      }
    }
  }

  /** A character of the grammar is read whole, alone or with the low half of a pair that follows it. */
  lemma CharIsRead(s: string, i: nat, k: nat)
    requires DerivesChar(s, i, k)
    ensures s[i] != QUOTE && CharAt(s, i).Some?
    ensures CharAt(s, i).value.1 == k || (CharAt(s, i).value.1 == k + 6 && k + 6 <= |s| && s[k] == BACKSLASH && s[k + 1] == 'u')
  {
    hide HexAt, HexDigits, HexValue;
    HexIsDigits(s, i + 2);
  }

  /** An escape that starts with u is six characters long. */
  lemma UnicodeIsSix(s: string, k: nat, l: nat)
    requires DerivesChar(s, k, l) && s[k] == BACKSLASH && k + 1 < |s| && s[k + 1] == 'u'
    ensures l == k + 6
  {}

  lemma DerivedAtOnce(s: string, i: nat, j: nat) returns (k: nat)
    requires DerivesChars(s, i, j) && i < j
    ensures i < k <= j && DerivesChar(s, i, k) && DerivesChars(s, k, j)
  {
    k :| i < k <= j && DerivesChar(s, i, k) && DerivesChars(s, k, j);
  }

  /** The string reader, put together again. */
  lemma ReadOn(s: string, i: nat)
    requires i < |s|
    ensures s[i] == QUOTE ==> ParseChars(s, i) == Some(([], i + 1))
    ensures s[i] != QUOTE && CharAt(s, i).Some? && ParseChars(s, CharAt(s, i).value.1).Some? ==>
              ParseChars(s, i).Some? && ParseChars(s, i).value.1 == ParseChars(s, CharAt(s, i).value.1).value.1
  {
    hide EscapeAt;
  }

  lemma {:induction false} CharsAreRead(s: string, i: nat, j: nat)
    requires DerivesChars(s, i, j) && j < |s| && s[j] == QUOTE
    ensures ParseChars(s, i).Some? && ParseChars(s, i).value.1 == j + 1
    decreases j - i
  {
    assert i <= j;
    hide CharAt, DerivesChar, ParseChars, DerivesChars;
    ReadOn(s, i);
    if i < j {
      var k := DerivedAtOnce(s, i, j);
      CharIsRead(s, i, k);
      if CharAt(s, i).value.1 == k {
        CharsAreRead(s, k, j);
      } else {
        assert k < j;
        var l := DerivedAtOnce(s, k, j);
        UnicodeIsSix(s, k, l);
        CharsAreRead(s, l, j);
      }
    }
  }

  // ---- What is read is derived -----------------------------------------------------------

  lemma NameIsDerived(s: string, i: nat, t: string)
    requires At(s, i, t) && t in {TRUE, FALSE, NULL}
    ensures DerivesName(s, i, i + |t|)
  {}

  lemma ScalarIsDerived(s: string, i: nat)
    requires i < |s| && ParseScalar(s, i).Some?
    ensures DerivesValue(s, i, ParseScalar(s, i).value.1)
  {
    hide DerivesMembers, DerivesItems, DerivesChars, DerivesUnsigned, NumberEnd;
    if s[i] == QUOTE {
      CharsAreDerived(s, i + 1);
    } else if At(s, i, TRUE) {
      NameIsDerived(s, i, TRUE);
    } else if At(s, i, FALSE) {
      NameIsDerived(s, i, FALSE);
    } else if At(s, i, NULL) {
      NameIsDerived(s, i, NULL);
    } else {
      NumberIsDerived(s, i);
    }
  }

  /** What stands between an opening bracket, or an element, and the closing bracket of its list. */
  predicate MembersAhead(s: string, i: nat, j: nat, first: bool) {
    || Blank(s, i, j)
    || (first && DerivesMembers(s, i, j))
    || (!first && j <= |s| && exists c | i <= c < j :: Blank(s, i, c) && s[c] == ',' && DerivesMembers(s, c + 1, j))
  }

  predicate ItemsAhead(s: string, i: nat, j: nat, first: bool) {
    || Blank(s, i, j)
    || (first && DerivesItems(s, i, j))
    || (!first && j <= |s| && exists c | i <= c < j :: Blank(s, i, c) && s[c] == ',' && DerivesItems(s, c + 1, j))
  }

  lemma {:induction false} ValueIsDerived(s: string, i: nat)
    requires i <= |s| && ParseValue(s, i).Some?
    ensures DerivesValue(s, SkipSpace(s, i), ParseValue(s, i).value.1)
    decreases |s| - i, 2
  {
    var j := SkipSpace(s, i);
    hide DerivesChars, DerivesNumber, DerivesMembers, DerivesItems, Blank;
    if s[j] == '{' {
      MembersAreDerived(s, j + 1, true);
    } else if s[j] == '[' {
      ItemsAreDerived(s, j + 1, true);
    } else {
      ScalarIsDerived(s, j);
    }
  }

  lemma {:induction false} MemberIsDerived(s: string, i: nat)
    requires i <= |s| && ParseMember(s, i).Some?
    ensures DerivesMember(s, i, ParseMember(s, i).value.1)
    decreases |s| - i, 0
  {
    hide DerivesValue, DerivesChars, DerivesMember, Blank, ParseChars, SkipSpace, ParseValue;
    var a := ParseChars(s, i + 1).value.1;
    var c := SkipSpace(s, a);
    CharsAreDerived(s, i + 1);
    SkippedIsBlank(s, a);
    ValueIsDerived(s, c + 1);
    SkippedIsBlank(s, c + 1);
    MemberInParts(s, i, a, c, SkipSpace(s, c + 1), ParseMember(s, i).value.1);
  }

  lemma MemberInParts(s: string, i: nat, a: nat, c: nat, v: nat, j: nat)
    requires i < a <= c < v && c < |s| && DerivesString(s, i, a) && Blank(s, a, c) && s[c] == ':' && Blank(s, c + 1, v) && DerivesValue(s, v, j)
    ensures i < j && DerivesMember(s, i, j)
  {
    assert v <= j <= |s|;
    hide DerivesValue, DerivesString, Blank;
    assert DerivesLed(s, c + 1, j);
    assert DerivesNamed(s, a, j);
  }

  lemma MemberSplit(s: string, i: nat, j: nat) returns (a: nat, c: nat, v: nat)
    requires DerivesMember(s, i, j)
    ensures i < a <= c < v <= j <= |s| && DerivesString(s, i, a) && Blank(s, a, c) && s[c] == ':' && Blank(s, c + 1, v) && DerivesValue(s, v, j)
  {
    hide DerivesValue, DerivesString, Blank;
    a :| i < a <= j && DerivesString(s, i, a) && DerivesNamed(s, a, j);
    c :| a <= c < j && Blank(s, a, c) && s[c] == ':' && DerivesLed(s, c + 1, j);
    v := LedSplit(s, c + 1, j);
  }

  lemma LedSplit(s: string, i: nat, j: nat) returns (v: nat)
    requires DerivesLed(s, i, j)
    ensures i <= v <= j <= |s| && Blank(s, i, v) && DerivesValue(s, v, j)
  {
    hide DerivesValue, Blank;
    v :| i <= v <= j && Blank(s, i, v) && DerivesValue(s, v, j);
  }

  /** An element, from the start of its padding to the bracket or comma after it, and what follows that. */
  lemma MemberThenRest(s: string, p: nat, a: nat, b: nat, j: nat)
    requires p <= a <= b <= j <= |s| && Blank(s, p, a) && DerivesMember(s, a, b) && MembersAhead(s, b, j, false)
    ensures DerivesMembers(s, p, j)
  {
    hide DerivesMember, Blank;
    if Blank(s, b, j) {
      assert DerivesPaddedMember(s, p, j);
    } else {
      var c :| b <= c < j && Blank(s, b, c) && s[c] == ',' && DerivesMembers(s, c + 1, j);
      assert DerivesPaddedMember(s, p, c);
    }
  }

  lemma ItemThenRest(s: string, p: nat, a: nat, b: nat, j: nat)
    requires p <= a <= b <= j <= |s| && Blank(s, p, a) && DerivesValue(s, a, b) && ItemsAhead(s, b, j, false)
    ensures DerivesItems(s, p, j)
  {
    hide DerivesValue, Blank;
    if Blank(s, b, j) {
      assert DerivesPadded(s, p, j);
    } else {
      var c :| b <= c < j && Blank(s, b, c) && s[c] == ',' && DerivesItems(s, c + 1, j);
      assert DerivesPadded(s, p, c);
    }
  }

  /** Where an element starts: past white space, and past the comma before it if it is not the first. */
  lemma StartIsPadded(s: string, i: nat, first: bool)
    requires i <= |s| && ElementStart(s, i, first).Some?
    ensures var a := ElementStart(s, i, first).value; var j := SkipSpace(s, i);
            && (first ==> Blank(s, i, a))
            && (!first ==> j < |s| && s[j] == ',' && Blank(s, i, j) && Blank(s, j + 1, a))
  {
    SkippedIsBlank(s, i);
    if !first { SkippedIsBlank(s, SkipSpace(s, i) + 1); }
  }

  lemma {:induction false} MembersAreDerived(s: string, i: nat, first: bool)
    requires i <= |s| && ParseMembers(s, i, first).Some?
    ensures var end := ParseMembers(s, i, first).value.1; s[end - 1] == '}' && i < end && MembersAhead(s, i, end - 1, first)
    decreases |s| - i, 1
  {
    hide ParseMember, SkipSpace, ElementStart, Blank, DerivesMember, DerivesMembers;
    var j, end := SkipSpace(s, i), ParseMembers(s, i, first).value.1;
    SkippedIsBlank(s, i);
    if !(j < |s| && s[j] == '}') {
      var a := ElementStart(s, i, first).value;
      var b := ParseMember(s, a).value.1;
      StartIsPadded(s, i, first);
      MemberIsDerived(s, a);
      MembersAreDerived(s, b, false);
      MemberThenRest(s, if first then i else j + 1, a, b, end - 1);
    }
  }

  lemma {:induction false} ItemsAreDerived(s: string, i: nat, first: bool)
    requires i <= |s| && ParseItems(s, i, first).Some?
    ensures var end := ParseItems(s, i, first).value.1; s[end - 1] == ']' && i < end && ItemsAhead(s, i, end - 1, first)
    decreases |s| - i, 3
  {
    hide ParseValue, SkipSpace, ElementStart, Blank, DerivesValue, DerivesItems;
    var j, end := SkipSpace(s, i), ParseItems(s, i, first).value.1;
    SkippedIsBlank(s, i);
    if !(j < |s| && s[j] == ']') {
      var a := ElementStart(s, i, first).value;
      var b := ParseValue(s, a).value.1;
      StartIsPadded(s, i, first);
      StartIsSkipped(s, i, first);
      ValueIsDerived(s, a);
      ItemsAreDerived(s, b, false);
      ItemThenRest(s, if first then i else j + 1, a, b, end - 1);
    }
  }

  lemma StartIsSkipped(s: string, i: nat, first: bool)
    requires i <= |s| && ElementStart(s, i, first).Some?
    ensures SkipSpace(s, ElementStart(s, i, first).value) == ElementStart(s, i, first).value
  {
    SkippedIsBlank(s, i);
    if !first { SkippedIsBlank(s, SkipSpace(s, i) + 1); }
    BlankIsSkipped(s, ElementStart(s, i, first).value, ElementStart(s, i, first).value);
  }

  // ---- What is derived is read -----------------------------------------------------------

  /** A derived value starts with a character that tells what it is. */
  lemma DerivedOpens(s: string, i: nat, j: nat)
    requires DerivesValue(s, i, j)
    ensures i < j <= |s| && Opens(s[i])
    ensures s[i] == QUOTE ==> DerivesString(s, i, j)
    ensures s[i] == '{' ==> i + 2 <= j && s[j - 1] == '}' && (Blank(s, i + 1, j - 1) || DerivesMembers(s, i + 1, j - 1))
    ensures s[i] == '[' ==> i + 2 <= j && s[j - 1] == ']' && (Blank(s, i + 1, j - 1) || DerivesItems(s, i + 1, j - 1))
    ensures s[i] != QUOTE && s[i] != '{' && s[i] != '[' ==> DerivesName(s, i, j) || DerivesNumber(s, i, j)
  {
    hide DerivesMembers, DerivesItems, DerivesChars, Blank, DerivesUnsigned;
    if DerivesName(s, i, j) { NameOpens(s, i, j); }
    if DerivesNumber(s, i, j) { NumberOpens(s, i, j); }
  }

  lemma NameOpens(s: string, i: nat, j: nat)
    requires DerivesName(s, i, j)
    ensures i < j && s[i] in {'t', 'f', 'n'} && At(s, i, s[i..j])
  {
    assert s[i..j][0] == s[i];
  }

  lemma UnsignedOpens(s: string, i: nat, j: nat)
    requires DerivesUnsigned(s, i, j) && j <= |s|
    ensures i < |s| && Digit(s[i])
  {}

  lemma NumberOpens(s: string, i: nat, j: nat)
    requires DerivesNumber(s, i, j)
    ensures s[i] == '-' || Digit(s[i])
  {
    if DerivesUnsigned(s, i, j) { UnsignedOpens(s, i, j); }
  }

  lemma NameIsRead(s: string, i: nat, j: nat)
    requires DerivesName(s, i, j)
    ensures LiteralAt(s, i).Some? && |LiteralAt(s, i).value| == j - i
  {
    NameOpens(s, i, j);
    if At(s, i, TRUE) { Letter(s, i, TRUE, 0); }
    if At(s, i, FALSE) { Letter(s, i, FALSE, 0); }
    if At(s, i, NULL) { Letter(s, i, NULL, 0); }
  }

  lemma NumberLiteral(s: string, i: nat, j: nat)
    requires DerivesNumber(s, i, j) && Delimited(s, j)
    ensures LiteralAt(s, i).Some? && |LiteralAt(s, i).value| == j - i
  {
    NumberIsRead(s, i, j);
    if At(s, i, TRUE) { Letter(s, i, TRUE, 0); }
    if At(s, i, FALSE) { Letter(s, i, FALSE, 0); }
    if At(s, i, NULL) { Letter(s, i, NULL, 0); }
  }

  lemma ScalarIsRead(s: string, i: nat, j: nat)
    requires DerivesValue(s, i, j) && s[i] != '{' && s[i] != '[' && Delimited(s, j)
    ensures ParseScalar(s, i).Some? && ParseScalar(s, i).value.1 == j
  {
    DerivedOpens(s, i, j);
    hide DerivesValue, DerivesChars, DerivesNumber, DerivesName, LiteralAt;
    if s[i] == QUOTE {
      CharsAreRead(s, i + 1, j - 1);
    } else if DerivesName(s, i, j) {
      NameIsRead(s, i, j);
    } else {
      NumberLiteral(s, i, j);
    }
  }

  /** White space, a separator or a closing bracket does not continue a number. */
  lemma BlankDelimits(s: string, b: nat, k: nat)
    requires Blank(s, b, k) && (k < |s| ==> s[k] == ',' || s[k] == '}' || s[k] == ']')
    ensures Delimited(s, b)
  {}

  lemma {:induction false} ValueIsRead(s: string, i: nat, a: nat, b: nat)
    requires Blank(s, i, a) && DerivesValue(s, a, b) && Delimited(s, b)
    ensures ParseValue(s, i).Some? && ParseValue(s, i).value.1 == b
    decreases b - a, 0
  {
    hide DerivesMembers, DerivesItems, DerivesValue, ParseScalar, ParseMembers, ParseItems, Blank, SkipSpace;
    DerivedOpens(s, a, b);
    BlankIsSkipped(s, i, a);
    NoBlank(s, a + 1);
    if s[a] == '{' {
      if Blank(s, a + 1, b - 1) { NothingIsRead(s, a + 1, b - 1, true); } else { MembersAreRead(s, a + 1, true, a + 1, b - 1); }
    } else if s[a] == '[' {
      if Blank(s, a + 1, b - 1) { NothingIsRead(s, a + 1, b - 1, true); } else { ItemsAreRead(s, a + 1, true, a + 1, b - 1); }
    } else {
      ScalarIsRead(s, a, b);
    }
  }

  lemma NothingIsRead(s: string, i: nat, j: nat, first: bool)
    requires Blank(s, i, j) && j < |s| && !Space(s[j])
    ensures s[j] == '}' ==> ParseMembers(s, i, first) == Some(([], j + 1))
    ensures s[j] == ']' ==> ParseItems(s, i, first) == Some(([], j + 1))
  {
    BlankIsSkipped(s, i, j);
  }

  lemma {:induction false} MemberIsRead(s: string, i: nat, j: nat)
    requires DerivesMember(s, i, j) && Delimited(s, j)
    ensures i < |s| && s[i] == QUOTE && ParseMember(s, i).Some? && ParseMember(s, i).value.1 == j
    decreases j - i, 1
  {
    hide DerivesMember, DerivesValue, DerivesChars, Blank, ParseChars, ParseValue, SkipSpace;
    var a, c, v := MemberSplit(s, i, j);
    CharsAreRead(s, i + 1, a - 1);
    BlankIsSkipped(s, a, c);
    ValueIsRead(s, c + 1, v, j);
  }

  /** Entering a list, or going on in it, the next element stands at p's padding. */
  predicate Enters(s: string, i: nat, first: bool, p: nat) {
    if first then i == p else i < p <= |s| && Blank(s, i, p - 1) && s[p - 1] == ','
  }

  lemma ElementIsEntered(s: string, i: nat, first: bool, p: nat, a: nat)
    requires Enters(s, i, first, p) && Blank(s, p, a) && a < |s| && Opens(s[a])
    ensures i <= |s| && ElementStart(s, i, first) == Some(a) && SkipSpace(s, i) < |s|
    ensures s[SkipSpace(s, i)] != '}' && s[SkipSpace(s, i)] != ']'
  {
    BlankIsSkipped(s, p, a);
    if !first { BlankIsSkipped(s, i, p - 1); }
  }

  lemma MembersSplit(s: string, p: nat, q: nat) returns (a: nat, b: nat, k: nat)
    requires DerivesMembers(s, p, q)
    ensures p <= a <= b <= k <= q && Blank(s, p, a) && DerivesMember(s, a, b) && Blank(s, b, k)
    ensures k == q || (s[k] == ',' && DerivesMembers(s, k + 1, q))
  {
    hide DerivesMember, Blank;
    if DerivesPaddedMember(s, p, q) {
      k := q;
    } else {
      k :| p <= k < q && s[k] == ',' && DerivesPaddedMember(s, p, k) && DerivesMembers(s, k + 1, q);
    }
    a, b :| p <= a <= b <= k && Blank(s, p, a) && DerivesMember(s, a, b) && Blank(s, b, k);
  }

  lemma ItemsSplit(s: string, p: nat, q: nat) returns (a: nat, b: nat, k: nat)
    requires DerivesItems(s, p, q)
    ensures p <= a <= b <= k <= q && Blank(s, p, a) && DerivesValue(s, a, b) && Blank(s, b, k)
    ensures k == q || (s[k] == ',' && DerivesItems(s, k + 1, q))
  {
    hide DerivesValue, Blank;
    if DerivesPadded(s, p, q) {
      k := q;
    } else {
      k :| p <= k < q && s[k] == ',' && DerivesPadded(s, p, k) && DerivesItems(s, k + 1, q);
    }
    a, b :| p <= a <= b <= k && Blank(s, p, a) && DerivesValue(s, a, b) && Blank(s, b, k);
  }

  lemma {:induction false} MembersAreRead(s: string, i: nat, first: bool, p: nat, q: nat)
    requires Enters(s, i, first, p) && DerivesMembers(s, p, q) && q < |s| && s[q] == '}'
    ensures ParseMembers(s, i, first).Some? && ParseMembers(s, i, first).value.1 == q + 1
    decreases q - p, 2
  {
    hide DerivesMembers, DerivesMember, ParseMember, ParseMembers, ElementStart, SkipSpace, Blank;
    var a, b, k := MembersSplit(s, p, q);
    BlankDelimits(s, b, k);
    MemberIsRead(s, a, b);
    ElementIsEntered(s, i, first, p, a);
    if k == q { NothingIsRead(s, b, q, false); } else { MembersAreRead(s, b, false, k + 1, q); }
    var m, rest := ParseMember(s, a).value.0, ParseMembers(s, b, false).value.0;
    MembersStep(s, i, first, a, m, b, rest, q + 1);
  }

  lemma {:induction false} ItemsAreRead(s: string, i: nat, first: bool, p: nat, q: nat)
    requires Enters(s, i, first, p) && DerivesItems(s, p, q) && q < |s| && s[q] == ']'
    ensures ParseItems(s, i, first).Some? && ParseItems(s, i, first).value.1 == q + 1
    decreases q - p, 2
  {
    hide DerivesItems, DerivesValue, ParseValue, ParseItems, ElementStart, SkipSpace, Blank;
    var a, b, k := ItemsSplit(s, p, q);
    BlankDelimits(s, b, k);
    DerivedOpens(s, a, b);
    NoBlank(s, a);
    ValueIsRead(s, a, a, b);
    ElementIsEntered(s, i, first, p, a);
    if k == q { NothingIsRead(s, b, q, false); } else { ItemsAreRead(s, b, false, k + 1, q); }
    var n, rest := ParseValue(s, a).value.0, ParseItems(s, b, false).value.0;
    ItemsStep(s, i, first, a, n, b, rest, q + 1);
  }

  lemma NoBlank(s: string, i: nat)
    requires i <= |s|
    ensures Blank(s, i, i)
  {}

  // ---- The main result -------------------------------------------------------------------

  /** The parser accepts a text if and only if the grammar derives it. */
  lemma AcceptsExactlyTheGrammar(s: string)
    ensures ParseDocument(s).Some? <==> Derives(s)
  {
    hide DerivesValue;
    if ParseDocument(s).Some? {
      var end := ParseValue(s, 0).value.1;
      SkippedIsBlank(s, 0);
      ValueIsDerived(s, 0);
      SkippedIsBlank(s, end);
    }
    if Derives(s) {
      var a, b :| 0 <= a <= b <= |s| && Blank(s, 0, a) && DerivesValue(s, a, b) && Blank(s, b, |s|);
      BlankDelimits(s, b, |s|);
      ValueIsRead(s, 0, a, b);
      BlankIsSkipped(s, b, |s|);
    }
  }
}
