/**
 What valid means: a byte string is accepted exactly when it is the encoding, by the
 table of section 3 of RFC 3629, of some sequence of Unicode scalar values.
 */
module Utf8Encoding {
  import opened Utf8

  /** A code point that is no surrogate. */
  predicate Scalar(c: int) { 0 <= c <= 0x10_FFFF && !(0xD800 <= c <= 0xDFFF) }

  /** The bytes of one scalar value: six bits a continuation byte, and no more bytes than it takes. */
  function EncodeScalar(c: int): Bytes
    requires Scalar(c)
  {
    if c <= 0x7F then [c]
    else if c <= 0x7FF then [0xC0 + c / 0x40, 0x80 + c % 0x40]
    else if c <= 0xFFFF then [0xE0 + c / 0x40 / 0x40, 0x80 + c / 0x40 % 0x40, 0x80 + c % 0x40]
    else [0xF0 + c / 0x40 / 0x40 / 0x40, 0x80 + c / 0x40 / 0x40 % 0x40, 0x80 + c / 0x40 % 0x40, 0x80 + c % 0x40]
  }

  predicate Scalars(cs: seq<int>) { forall i | 0 <= i < |cs| :: Scalar(cs[i]) }

  function EncodeText(cs: seq<int>): Bytes
    requires Scalars(cs)
  {
    if cs == [] then [] else EncodeScalar(cs[0]) + EncodeText(cs[1..])
  }

  /** Some text has this encoding. */
  ghost predicate Encodes(s: Bytes) { exists cs :: Scalars(cs) && EncodeText(cs) == s }

  lemma EncodedIsRune(c: int)
    requires Scalar(c)
    ensures RuneLength(EncodeScalar(c)) == |EncodeScalar(c)| > 0
  {}

  /** Six more bits. */
  function More(bits: int, b: int): int { bits * 0x40 + (b - 0x80) }

  /** The scalar value of the rune at the front of a string. */
  function DecodeRune(s: Bytes): int
    requires RuneLength(s) > 0
  {
    match RuneLength(s)
    case 1 => s[0] as int
    case 2 => More(s[0] as int - 0xC0, s[1] as int)
    case 3 => More(More(s[0] as int - 0xE0, s[1] as int), s[2] as int)
    case _ => More(More(More(s[0] as int - 0xF0, s[1] as int), s[2] as int), s[3] as int)
  }

  lemma MoreSplits(bits: int, b: int)
    requires bits >= 0 && 0x80 <= b < 0xC0
    ensures More(bits, b) / 0x40 == bits && More(bits, b) % 0x40 == b - 0x80 && bits * 0x40 <= More(bits, b) < bits * 0x40 + 0x40
  {}

  lemma MoreJoins(c: int)
    requires c >= 0
    ensures More(c / 0x40, 0x80 + c % 0x40) == c
  {}

  lemma TwoBytes(a: int, b: int)
    requires 0xC2 <= a < 0xE0 && 0x80 <= b < 0xC0
    ensures var c := More(a - 0xC0, b); Scalar(c) && EncodeScalar(c) == [a, b]
  {
    MoreSplits(a - 0xC0, b);
  }

  lemma ThreeBytes(a: int, b: int, d: int)
    requires 0xE0 <= a < 0xF0 && 0x80 <= b < 0xC0 && 0x80 <= d < 0xC0 && (a == 0xE0 ==> b >= 0xA0) && (a == 0xED ==> b < 0xA0)
    ensures var c := More(More(a - 0xE0, b), d); Scalar(c) && EncodeScalar(c) == [a, b, d]
  {
    MoreSplits(a - 0xE0, b);
    MoreSplits(More(a - 0xE0, b), d);
    hide More;
  }

  lemma FourBytes(a: int, b: int, d: int, e: int)
    requires 0xF0 <= a < 0xF5 && 0x80 <= b < 0xC0 && 0x80 <= d < 0xC0 && 0x80 <= e < 0xC0 && (a == 0xF0 ==> b >= 0x90) && (a == 0xF4 ==> b < 0x90)
    ensures var c := More(More(More(a - 0xF0, b), d), e); Scalar(c) && EncodeScalar(c) == [a, b, d, e]
  {
    MoreSplits(a - 0xF0, b);
    MoreSplits(More(a - 0xF0, b), d);
    MoreSplits(More(More(a - 0xF0, b), d), e);
    hide More;
  }

  /** What the bytes of a rune may be. */
  lemma RuneBytes(s: Bytes)
    requires RuneLength(s) > 0
    ensures match RuneLength(s)
            case 1 => s[0] < 0x80 && s[..1] == [s[0]]
            case 2 => 0xC2 <= s[0] < 0xE0 && 0x80 <= s[1] < 0xC0 && s[..2] == [s[0], s[1]]
            case 3 => 0xE0 <= s[0] < 0xF0 && 0x80 <= s[1] < 0xC0 && 0x80 <= s[2] < 0xC0 && s[..3] == [s[0], s[1], s[2]]
                      && (s[0] == 0xE0 ==> s[1] >= 0xA0) && (s[0] == 0xED ==> s[1] < 0xA0)
            case _ => 0xF0 <= s[0] < 0xF5 && 0x80 <= s[1] < 0xC0 && 0x80 <= s[2] < 0xC0 && 0x80 <= s[3] < 0xC0 && RuneLength(s) == 4
                      && s[..4] == [s[0], s[1], s[2], s[3]] && (s[0] == 0xF0 ==> s[1] >= 0x90) && (s[0] == 0xF4 ==> s[1] < 0x90)
  {}

  /** A rune is the encoding of its scalar value. */
  lemma RuneIsEncoded(s: Bytes)
    requires RuneLength(s) > 0
    ensures Scalar(DecodeRune(s)) && EncodeScalar(DecodeRune(s)) == s[..RuneLength(s)]
  {
    RuneBytes(s);
    hide RuneLength, EncodeScalar, More;
    match RuneLength(s)
    case 1 => OneByte(s[0]);
    case 2 => TwoBytes(s[0], s[1]);
    case 3 => ThreeBytes(s[0], s[1], s[2]);
    case _ => FourBytes(s[0], s[1], s[2], s[3]);
  }

  lemma OneByte(a: int)
    requires 0 <= a < 0x80
    ensures Scalar(a) && EncodeScalar(a) == [a]
  {}

  lemma {:induction false} EncodedIsValid(cs: seq<int>)
    requires Scalars(cs)
    ensures Valid(EncodeText(cs))
    decreases |cs|
  {
    if cs != [] {
      hide EncodeScalar, RuneLength, Scalar;
      var front, s := EncodeScalar(cs[0]), EncodeText(cs);
      EncodedIsRune(cs[0]);
      assert s[..|front|] == front && s[|front|..] == EncodeText(cs[1..]);
      assert front[..|front|] == front;
      SameRune(front, s);
      EncodedIsValid(cs[1..]);
    }
  }

  lemma FirstRune(s: Bytes)
    requires Valid(s) && s != []
    ensures 0 < RuneLength(s) <= |s| && Valid(s[RuneLength(s)..])
  {
    hide RuneLength;
  }

  lemma OneMoreScalar(c: int, rest: seq<int>)
    requires Scalar(c) && Scalars(rest)
    ensures Scalars([c] + rest) && EncodeText([c] + rest) == EncodeScalar(c) + EncodeText(rest)
  {
    hide EncodeScalar, Scalar;
    assert ([c] + rest)[1..] == rest;
  }

  lemma EncodedInParts(s: Bytes, n: nat, c: int, rest: seq<int>)
    requires n <= |s| && Scalar(c) && EncodeScalar(c) == s[..n] && Scalars(rest) && EncodeText(rest) == s[n..]
    ensures Encodes(s)
  {
    OneMoreScalar(c, rest);
    hide EncodeScalar, EncodeText, Scalars, Scalar;
    assert s[..n] + s[n..] == s;
  }

  lemma NothingIsEncoded()
    ensures Encodes([])
  {
    assert Scalars([]) && EncodeText([]) == [];
  }

  lemma {:induction false} ValidIsEncoded(s: Bytes)
    requires Valid(s)
    ensures Encodes(s)
    decreases |s|
  {
    if s == [] {
      NothingIsEncoded();
    } else {
      FirstRune(s);
      RuneIsEncoded(s);
      hide Valid, RuneLength, EncodeScalar, EncodeText, Scalars, Scalar, DecodeRune;
      ValidIsEncoded(s[RuneLength(s)..]);
      var rest :| Scalars(rest) && EncodeText(rest) == s[RuneLength(s)..];
      EncodedInParts(s, RuneLength(s), DecodeRune(s), rest);
    }
  }

  /** Valid byte strings are exactly the encodings of Unicode text. */
  lemma ValidIffEncodes(s: Bytes)
    ensures Valid(s) <==> Encodes(s)
  {
    if Valid(s) { ValidIsEncoded(s); }
    if Encodes(s) {
      var cs :| Scalars(cs) && EncodeText(cs) == s;
      EncodedIsValid(cs);
    }
  }

  /** No two texts have the same encoding. */
  lemma {:induction false} EncodingIsUnique(a: seq<int>, b: seq<int>)
    requires Scalars(a) && Scalars(b) && EncodeText(a) == EncodeText(b)
    ensures a == b
    decreases |a|
  {
    hide EncodeScalar, Scalar, RuneLength;
    if a != [] { EncodedIsRune(a[0]); }
    if b != [] { EncodedIsRune(b[0]); }
    if a != [] && b != [] {
      var s, x, y := EncodeText(a), EncodeScalar(a[0]), EncodeScalar(b[0]);
      assert s[..|x|] == x == x[..|x|] && s[..|y|] == y == y[..|y|];
      SameRune(x, s);
      SameRune(y, s);
      SameScalar(a[0], b[0]);
      assert s[|x|..] == EncodeText(a[1..]) && s[|y|..] == EncodeText(b[1..]);
      EncodingIsUnique(a[1..], b[1..]);
      assert a == [a[0]] + a[1..] && b == [b[0]] + b[1..];
    }
  }

  /** Decoding undoes encoding. */
  lemma DecodesBack(c: int)
    requires Scalar(c)
    ensures RuneLength(EncodeScalar(c)) > 0 && DecodeRune(EncodeScalar(c)) == c
  {
    EncodedIsRune(c);
    MoreJoins(c);
    if c > 0x7FF { MoreJoins(c / 0x40); }
    if c > 0xFFFF { MoreJoins(c / 0x40 / 0x40); }
    hide RuneLength, More;
  }

  lemma SameScalar(a: int, b: int)
    requires Scalar(a) && Scalar(b) && EncodeScalar(a) == EncodeScalar(b)
    ensures a == b
  {
    hide EncodeScalar, DecodeRune, RuneLength;
    DecodesBack(a);
    DecodesBack(b);
  }
}
