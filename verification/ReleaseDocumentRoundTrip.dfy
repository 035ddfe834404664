/** The parser and the printer undo each other. */
module ReleaseDocumentRoundTrip {
  import opened Wrappers
  import opened ReleaseDocument

  // ---- Positions -------------------------------------------------------------------------

  lemma Parts(s: string, i: nat, a: string, b: string)
    requires At(s, i, a + b)
    ensures At(s, i, a) && At(s, i + |a|, b)
  {
    var whole := s[i..i + |a + b|];
    assert whole == a + b;
    assert whole[..|a|] == a && whole[|a|..] == b;
    assert s[i..i + |a|] == whole[..|a|];
    assert s[i + |a|..i + |a| + |b|] == whole[|a|..];
  }

  lemma Letter(s: string, i: nat, e: string, k: nat)
    requires At(s, i, e) && k < |e|
    ensures i + k < |s| && s[i + k] == e[k]
  {
    assert s[i..i + |e|][k] == s[i + k];
  }

  lemma {:induction false} SkipsSpaces(s: string, i: nat, j: nat)
    requires i <= j <= |s| && forall k | i <= k < j :: Space(s[k])
    ensures SkipSpace(s, i) == SkipSpace(s, j)
    decreases j - i
  {
    if i < j { SkipsSpaces(s, i + 1, j); }
  }

  lemma {:induction false} IndentIsSpace(d: nat)
    ensures |Indent(d)| == 2 * d && forall k | 0 <= k < |Indent(d)| :: Space(Indent(d)[k])
  {
    if d > 0 { IndentIsSpace(d - 1); }
  }

  /** A line break and an indentation lead to whatever follows them. */
  lemma SkipsToElement(s: string, i: nat, d: nat)
    requires At(s, i, ['\n'] + Indent(d)) && i + 1 + 2 * d < |s| && !Space(s[i + 1 + 2 * d])
    ensures SkipSpace(s, i) == i + 1 + 2 * d
  {
    IndentIsSpace(d);
    forall k | i <= k < i + 1 + 2 * d ensures Space(s[k]) { Letter(s, i, ['\n'] + Indent(d), k - i); }
    SkipsSpaces(s, i, i + 1 + 2 * d);
  }

  // ---- Strings ---------------------------------------------------------------------------

  lemma DigitsReadBack(n: nat)
    requires n < 16
    ensures HexValue(HexDigit(n)) == Some(n)
  {}

  lemma Nibbles(n: nat)
    requires n < 0x10000
    ensures n / 4096 < 16
    ensures ((n / 4096 * 16 + n / 256 % 16) * 16 + n / 16 % 16) * 16 + n % 16 == n
  {
    assert n / 256 == n / 4096 * 16 + n / 256 % 16;
    assert n / 16 == n / 256 * 16 + n / 16 % 16;
  }

  lemma HexReadsBack(s: string, i: nat, n: nat)
    requires n < 0x10000 && At(s, i, HexEscape(n))
    ensures i + 6 <= |s| && s[i] == BACKSLASH && s[i + 1] == 'u' && HexAt(s, i + 2) == Some(n)
  {
    var e := HexEscape(n);
    Letter(s, i, e, 0);
    Letter(s, i, e, 1);
    Letter(s, i, e, 2);
    Letter(s, i, e, 3);
    Letter(s, i, e, 4);
    Letter(s, i, e, 5);
    Nibbles(n);
    DigitsReadBack(n / 4096);
    DigitsReadBack(n / 256 % 16);
    DigitsReadBack(n / 16 % 16);
    DigitsReadBack(n % 16);
  }

  lemma ShortReadsBack(s: string, i: nat, c: char)
    requires ShortEscape(c).Some? && At(s, i, [BACKSLASH, ShortEscape(c).value])
    ensures CharAt(s, i) == Some((c, i + 2))
  {
    Letter(s, i, [BACKSLASH, ShortEscape(c).value], 0);
    Letter(s, i, [BACKSLASH, ShortEscape(c).value], 1);
  }

  lemma CharReads(s: string, i: nat, c: char)
    requires At(s, i, Escape(c))
    ensures i < |s| && s[i] != QUOTE && CharAt(s, i) == Some((c, i + |Escape(c)|))
  {
    Letter(s, i, Escape(c), 0);
    if !Plain(c) {
      if ShortEscape(c).Some? { ShortReadsBack(s, i, c); } else { HexReadsBack(s, i, c as int); }
    }
  }

  lemma CharsStep(s: string, i: nat, c: char, next: nat, rest: string, end: nat)
    requires i < |s| && s[i] != QUOTE && CharAt(s, i) == Some((c, next)) && next <= |s| && ParseChars(s, next) == Some((rest, end))
    ensures ParseChars(s, i) == Some(([c] + rest, end))
  {}

  lemma CharsEnd(s: string, i: nat)
    requires At(s, i, [QUOTE])
    ensures ParseChars(s, i) == Some(([], i + 1)) && EncodeChars([]) == []
  {
    Letter(s, i, [QUOTE], 0);
  }

  lemma CharsSplit(s: string, i: nat, v: string)
    requires v != [] && At(s, i, EncodeChars(v) + [QUOTE])
    ensures At(s, i, Escape(v[0])) && At(s, i + |Escape(v[0])|, EncodeChars(v[1..]) + [QUOTE])
    ensures |EncodeChars(v)| == |Escape(v[0])| + |EncodeChars(v[1..])|
  {
    hide *;
    var e, rest := Escape(v[0]), EncodeChars(v[1..]);
    EncodeStep(v);
    Pieces(e, rest, [QUOTE]);
    Parts(s, i, e, rest + [QUOTE]);
  }

  lemma EncodeStep(v: string)
    requires v != []
    ensures EncodeChars(v) == Escape(v[0]) + EncodeChars(v[1..])
  {}

  lemma Pieces(a: string, b: string, c: string)
    ensures a + b + c == a + (b + c)
  {}

  lemma Rejoined(v: string)
    requires v != []
    ensures [v[0]] + v[1..] == v
  {}

  lemma {:induction false} CharsRead(s: string, i: nat, v: string)
    requires At(s, i, EncodeChars(v) + [QUOTE])
    ensures ParseChars(s, i) == Some((v, i + |EncodeChars(v)| + 1))
    decreases |v|
  {
    hide *;
    if v == [] {
      assert EncodeChars(v) + [QUOTE] == [QUOTE] by { CharsNone(); }
      CharsEnd(s, i);
    } else {
      CharsSplit(s, i, v);
      var next := i + |Escape(v[0])|;
      CharReads(s, i, v[0]);
      CharsRead(s, next, v[1..]);
      CharsStep(s, i, v[0], next, v[1..], i + |EncodeChars(v)| + 1);
      Rejoined(v);
    }
  }

  lemma CharsNone()
    ensures EncodeChars([]) == []
  {}

  lemma Quoted(v: string)
    ensures EncodeString(v) == [QUOTE] + (EncodeChars(v) + [QUOTE]) && |EncodeString(v)| == |EncodeChars(v)| + 2
  {}

  lemma StringReads(s: string, i: nat, v: string)
    requires At(s, i, EncodeString(v))
    ensures i < |s| && s[i] == QUOTE && ParseChars(s, i + 1) == Some((v, i + |EncodeString(v)|))
  {
    hide *;
    Quoted(v);
    Parts(s, i, [QUOTE], EncodeChars(v) + [QUOTE]);
    Letter(s, i, [QUOTE], 0);
    CharsRead(s, i + 1, v);
  }

  lemma Whole(s: string)
    ensures At(s, 0, s)
  {}

  /** Escaping loses nothing: different strings are written differently. */
  lemma EncodeStringIsInjective(u: string, v: string)
    requires EncodeString(u) == EncodeString(v)
    ensures u == v
  {
    hide *;
    Whole(EncodeString(u));
    StringReads(EncodeString(u), 0, u);
    StringReads(EncodeString(u), 0, v);
  }

  // ---- Numbers and names -----------------------------------------------------------------

  /** What follows does not continue a number. */
  predicate Delimited(s: string, i: nat) {
    i >= |s| || (!Digit(s[i]) && s[i] != '.' && s[i] != 'e' && s[i] != 'E')
  }

  lemma {:induction false} DigitRunReads(s: string, i: nat, t: string, k: nat)
    requires At(s, i, t) && k <= |t| && Delimited(s, i + |t|)
    ensures DigitRun(s, i + k) == i + DigitRun(t, k)
    decreases |t| - k
  {
    if k < |t| {
      Letter(s, i, t, k);
      if Digit(t[k]) { DigitRunReads(s, i, t, k + 1); }
    }
  }

  lemma IntegerReads(s: string, i: nat, t: string, k: nat)
    requires At(s, i, t) && k <= |t| && Delimited(s, i + |t|) && IntegerEnd(t, k).Some?
    ensures IntegerEnd(s, i + k) == Some(i + IntegerEnd(t, k).value)
  {
    Letter(s, i, t, k);
    DigitRunReads(s, i, t, k + 1);
  }

  lemma FractionReads(s: string, i: nat, t: string, k: nat)
    requires At(s, i, t) && k <= |t| && Delimited(s, i + |t|) && FractionEnd(t, k).Some?
    ensures FractionEnd(s, i + k) == Some(i + FractionEnd(t, k).value)
  {
    if k < |t| {
      Letter(s, i, t, k);
      DigitRunReads(s, i, t, k + 1);
    }
  }

  lemma ExponentReads(s: string, i: nat, t: string, k: nat)
    requires At(s, i, t) && k <= |t| && Delimited(s, i + |t|) && ExponentEnd(t, k).Some?
    ensures ExponentEnd(s, i + k) == Some(i + ExponentEnd(t, k).value)
  {
    if k < |t| {
      Letter(s, i, t, k);
      if t[k] == 'e' || t[k] == 'E' {
        assert k + 1 < |t|;
        Letter(s, i, t, k + 1);
        DigitRunReads(s, i, t, k + 1);
        if t[k + 1] == '+' || t[k + 1] == '-' { DigitRunReads(s, i, t, k + 2); }
      }
    }
  }

  lemma NumberReads(s: string, i: nat, t: string)
    requires IsNumber(t) && At(s, i, t) && Delimited(s, i + |t|)
    ensures NumberEnd(s, i) == Some(i + |t|)
  {
    Letter(s, i, t, 0);
    var k := if t[0] == '-' then 1 else 0;
    IntegerReads(s, i, t, k);
    FractionReads(s, i, t, IntegerEnd(t, k).value);
    ExponentReads(s, i, t, FractionEnd(t, IntegerEnd(t, k).value).value);
  }

  lemma NumberStarts(t: string)
    requires IsNumber(t)
    ensures |t| > 0 && (t[0] == '-' || Digit(t[0]))
  {}

  lemma LiteralReads(s: string, i: nat, t: string)
    requires (t == TRUE || t == FALSE || t == NULL || IsNumber(t)) && At(s, i, t) && Delimited(s, i + |t|)
    ensures LiteralAt(s, i) == Some(t)
  {
    if At(s, i, TRUE) { Letter(s, i, TRUE, 0); }
    if At(s, i, FALSE) { Letter(s, i, FALSE, 0); }
    if At(s, i, NULL) { Letter(s, i, NULL, 0); }
    if IsNumber(t) {
      NumberStarts(t);
      NumberReads(s, i, t);
    }
    Letter(s, i, t, 0);
  }

  // ---- Values ----------------------------------------------------------------------------

  /** The first character of a value tells it from space, separators and closing brackets. */
  predicate Opens(c: char) { !Space(c) && c != ',' && c != '}' && c != ']' }

  lemma ScalarOpens(t: string)
    requires IsScalar(t)
    ensures |t| > 0 && Opens(t[0]) && t[0] != '{' && t[0] != '[' && (t[0] == QUOTE <==> IsString(t))
  {
    if IsNumber(t) { NumberStarts(t); }
  }

  lemma ValueOpens(n: Node, d: nat)
    requires WellFormed(n)
    ensures |Encode(n, d)| > 0 && Opens(Encode(n, d)[0])
  {
    if n.Scalar? { ScalarOpens(n.text); }
  }

  lemma StringScalarReads(s: string, i: nat, v: string)
    requires At(s, i, EncodeString(v))
    ensures i < |s| && ParseScalar(s, i) == Some((Scalar(EncodeString(v)), i + |EncodeString(v)|))
  {
    StringReads(s, i, v);
  }

  lemma LiteralScalarReads(s: string, i: nat, t: string)
    requires IsScalar(t) && !IsString(t) && At(s, i, t) && Delimited(s, i + |t|)
    ensures i < |s| && ParseScalar(s, i) == Some((Scalar(t), i + |t|))
  {
    ScalarOpens(t);
    Letter(s, i, t, 0);
    LiteralReads(s, i, t);
  }

  lemma ScalarReads(s: string, i: nat, t: string)
    requires IsScalar(t) && At(s, i, t) && Delimited(s, i + |t|)
    ensures i < |s| && ParseScalar(s, i) == Some((Scalar(t), i + |t|))
  {
    if v :| t == EncodeString(v) {
      StringScalarReads(s, i, v);
    } else {
      LiteralScalarReads(s, i, t);
    }
  }

  /** What stands after an object's opening brace, or after one of its members, up to its closing brace. */
  function MembersTail(ms: seq<Member>, d: nat, first: bool): string {
    Separator(first || ms == []) + EncodeMembers(ms, d + 1) + Indent(d) + ['}']
  }

  function ItemsTail(ns: seq<Node>, d: nat, first: bool): string {
    Separator(first || ns == []) + EncodeItems(ns, d + 1) + Indent(d) + [']']
  }

  function BareMember(m: Member, d: nat): string { EncodeString(m.key) + [':', ' '] + Encode(m.value, d) }

  lemma Regroup(a: string, x: string, y: string, b: string, c: string, d: string, e: string)
    ensures a + ((x + y) + b + c) + d + e == a + x + y + (b + c + d + e)
  {
    assert a + ((x + y) + b + c) == a + x + y + (b + c);
  }

  lemma MembersTailSplits(ms: seq<Member>, d: nat, first: bool)
    requires ms != []
    ensures MembersTail(ms, d, first) == Separator(first) + Indent(d + 1) + BareMember(ms[0], d + 1) + MembersTail(ms[1..], d, false)
  {
    var bare, rest, separator := BareMember(ms[0], d + 1), EncodeMembers(ms[1..], d + 1), Separator(|ms| == 1);
    assert EncodeMember(ms[0], d + 1) == Indent(d + 1) + bare by { MemberIsIndented(ms[0], d + 1); }
    assert EncodeMembers(ms, d + 1) == (Indent(d + 1) + bare) + separator + rest;
    assert MembersTail(ms[1..], d, false) == separator + rest + Indent(d) + ['}'];
    Regroup(Separator(first), Indent(d + 1), bare, separator, rest, Indent(d), ['}']);
  }

  lemma MemberIsIndented(m: Member, d: nat)
    ensures EncodeMember(m, d) == Indent(d) + BareMember(m, d)
  {}

  lemma ItemsTailSplits(ns: seq<Node>, d: nat, first: bool)
    requires ns != []
    ensures ItemsTail(ns, d, first) == Separator(first) + Indent(d + 1) + Encode(ns[0], d + 1) + ItemsTail(ns[1..], d, false)
  {
    var item, rest, separator := Encode(ns[0], d + 1), EncodeItems(ns[1..], d + 1), Separator(|ns| == 1);
    assert EncodeItems(ns, d + 1) == (Indent(d + 1) + item) + separator + rest;
    assert ItemsTail(ns[1..], d, false) == separator + rest + Indent(d) + [']'];
    Regroup(Separator(first), Indent(d + 1), item, separator, rest, Indent(d), [']']);
  }

  /** A tail starts with a comma or a line break, so it ends whatever number precedes it. */
  lemma TailsDelimit(s: string, i: nat, tail: string, last: bool)
    requires At(s, i, tail) && |tail| > 0 && tail[0] == Separator(last)[0]
    ensures Delimited(s, i)
  {
    Letter(s, i, tail, 0);
  }

  /** The end of an element list: a line break, the indentation, and the closing bracket. */
  lemma ListCloses(s: string, i: nat, d: nat, close: char)
    requires At(s, i, ['\n'] + Indent(d) + [close]) && !Space(close)
    ensures SkipSpace(s, i) == i + 1 + 2 * d < |s| && s[i + 1 + 2 * d] == close
  {
    IndentIsSpace(d);
    Parts(s, i, ['\n'] + Indent(d), [close]);
    Letter(s, i + 1 + 2 * d, [close], 0);
    SkipsToElement(s, i, d);
  }

  /** The start of an element: the comma if there is one before it, a line break, and the indentation. */
  lemma ElementStarts(s: string, i: nat, d: nat, first: bool, element: string)
    requires At(s, i, Separator(first) + Indent(d) + element) && |element| > 0 && Opens(element[0])
    ensures ElementStart(s, i, first) == Some(i + |Separator(first)| + 2 * d) && At(s, i + |Separator(first)| + 2 * d, element)
    ensures SkipSpace(s, i) < |s| && s[SkipSpace(s, i)] == if first then element[0] else ','
  {
    hide At, Indent, SkipSpace;
    IndentIsSpace(d);
    Parts(s, i, Separator(first) + Indent(d), element);
    Letter(s, i + |Separator(first)| + 2 * d, element, 0);
    if first {
      SkipsToElement(s, i, d);
    } else {
      assert Separator(false) + Indent(d) == [','] + (['\n'] + Indent(d));
      Parts(s, i, [','], ['\n'] + Indent(d));
      Letter(s, i, [','], 0);
      NoSpaceToSkip(s, i);
      SkipsToElement(s, i + 1, d);
    }
  }

  lemma NoSpaceToSkip(s: string, i: nat)
    requires i < |s| && !Space(s[i])
    ensures SkipSpace(s, i) == i
  {}

  /** Whatever a printed value is followed by, unless it continues a number, the parser reads back the value and stops there. */
  lemma {:induction false} ValueReads(n: Node, d: nat, s: string, i: nat)
    requires WellFormed(n) && At(s, i, Encode(n, d)) && Delimited(s, i + |Encode(n, d)|)
    ensures ParseValue(s, i) == Some((n, i + |Encode(n, d)|))
    decreases n, 1
  {
    ValueOpens(n, d);
    Letter(s, i, Encode(n, d), 0);
    assert SkipSpace(s, i) == i;
    match n
    case Scalar(t) =>
      ScalarOpens(t);
      ScalarReads(s, i, t);
    case Object(members) => ObjectReads(n, d, s, i);
    case Array(items) => ArrayReads(n, d, s, i);
  }

  lemma Bracketed(open: char, x: string, y: string, close: char)
    ensures [open, '\n'] + x + y + [close] == [open] + (['\n'] + x + y + [close])
  {}

  lemma ObjectText(members: seq<Member>, d: nat)
    requires members != []
    ensures Encode(Object(members), d) == ['{'] + MembersTail(members, d, true)
  {
    Bracketed('{', EncodeMembers(members, d + 1), Indent(d), '}');
  }

  lemma ArrayText(items: seq<Node>, d: nat)
    requires items != []
    ensures Encode(Array(items), d) == ['['] + ItemsTail(items, d, true)
  {
    Bracketed('[', EncodeItems(items, d + 1), Indent(d), ']');
  }

  lemma ObjectStep(s: string, i: nat, members: seq<Member>, end: nat)
    requires i < |s| && s[i] == '{' && ParseMembers(s, i + 1, true) == Some((members, end))
    ensures ParseValue(s, i) == Some((Object(members), end))
  {}

  lemma ArrayStep(s: string, i: nat, items: seq<Node>, end: nat)
    requires i < |s| && s[i] == '[' && ParseItems(s, i + 1, true) == Some((items, end))
    ensures ParseValue(s, i) == Some((Array(items), end))
  {}

  lemma EmptyReads(s: string, i: nat, d: nat)
    ensures At(s, i, ['{', '}']) ==> ParseValue(s, i) == Some((Object([]), i + 2))
    ensures At(s, i, ['[', ']']) ==> ParseValue(s, i) == Some((Array([]), i + 2))
    ensures Encode(Object([]), d) == ['{', '}'] && Encode(Array([]), d) == ['[', ']']
  {
    if At(s, i, ['{', '}']) {
      Letter(s, i, ['{', '}'], 0);
      Letter(s, i, ['{', '}'], 1);
      ObjectStep(s, i, [], i + 2);
    }
    if At(s, i, ['[', ']']) {
      Letter(s, i, ['[', ']'], 0);
      Letter(s, i, ['[', ']'], 1);
      ArrayStep(s, i, [], i + 2);
    }
  }

  lemma {:induction false} ObjectReads(n: Node, d: nat, s: string, i: nat)
    requires n.Object? && (forall m | m in n.members :: WellFormed(m.value)) && At(s, i, Encode(n, d))
    ensures ParseValue(s, i) == Some((n, i + |Encode(n, d)|))
    decreases n, 0
  {
    hide *;
    if n.members == [] {
      EmptyReads(s, i, d);
    } else {
      ObjectText(n.members, d);
      Parts(s, i, ['{'], MembersTail(n.members, d, true));
      Letter(s, i, Encode(n, d), 0);
      MembersRead(n.members, d, s, i + 1, true);
      ObjectStep(s, i, n.members, i + |Encode(n, d)|);
    }
  }

  lemma {:induction false} ArrayReads(n: Node, d: nat, s: string, i: nat)
    requires n.Array? && (forall x | x in n.items :: WellFormed(x)) && At(s, i, Encode(n, d))
    ensures ParseValue(s, i) == Some((n, i + |Encode(n, d)|))
    decreases n, 0
  {
    hide *;
    if n.items == [] {
      EmptyReads(s, i, d);
    } else {
      ArrayText(n.items, d);
      Parts(s, i, ['['], ItemsTail(n.items, d, true));
      Letter(s, i, Encode(n, d), 0);
      ItemsRead(n.items, d, s, i + 1, true);
      ArrayStep(s, i, n.items, i + |Encode(n, d)|);
    }
  }

  lemma MemberStep(s: string, i: nat, m: Member, colon: nat, end: nat)
    requires i < |s| && s[i] == QUOTE && ParseChars(s, i + 1).Some? && ParseChars(s, i + 1).value.0 == m.key
    requires SkipSpace(s, ParseChars(s, i + 1).value.1) == colon < |s| && s[colon] == ':' && ParseValue(s, colon + 1) == Some((m.value, end))
    ensures ParseMember(s, i) == Some((m, end))
  {
    hide SkipSpace, ParseChars, ParseValue;
  }

  /** A value is read from wherever the space before it is entered. */
  lemma ReadsAfterSpace(s: string, i: nat)
    requires i < |s| && Space(s[i])
    ensures ParseValue(s, i) == ParseValue(s, i + 1)
  {
    assert SkipSpace(s, i) == SkipSpace(s, i + 1);
  }

  lemma MemberParts(m: Member, d: nat, s: string, i: nat)
    requires At(s, i, BareMember(m, d))
    ensures At(s, i, EncodeString(m.key)) && At(s, i + |EncodeString(m.key)|, [':', ' ']) && At(s, i + |EncodeString(m.key)| + 2, Encode(m.value, d))
    ensures |BareMember(m, d)| == |EncodeString(m.key)| + 2 + |Encode(m.value, d)|
  {
    var key, value := EncodeString(m.key), Encode(m.value, d);
    assert BareMember(m, d) == key + ([':', ' '] + value);
    Parts(s, i, key, [':', ' '] + value);
    Parts(s, i + |key|, [':', ' '], value);
  }

  lemma ColonReads(s: string, i: nat)
    requires At(s, i, [':', ' '])
    ensures i + 1 < |s| && s[i] == ':' && SkipSpace(s, i) == i && Space(s[i + 1])
  {
    Letter(s, i, [':', ' '], 0);
    Letter(s, i, [':', ' '], 1);
  }

  lemma {:induction false} MemberReads(m: Member, d: nat, s: string, i: nat)
    requires WellFormed(m.value) && At(s, i, BareMember(m, d)) && Delimited(s, i + |BareMember(m, d)|)
    ensures ParseMember(s, i) == Some((m, i + |BareMember(m, d)|))
    decreases m, 0
  {
    hide *;
    var colon, end := i + |EncodeString(m.key)|, i + |BareMember(m, d)|;
    MemberParts(m, d, s, i);
    ColonReads(s, colon);
    ValueReads(m.value, d, s, colon + 2);
    ReadsAfterSpace(s, colon + 1);
    StringReads(s, i, m.key);
    MemberStep(s, i, m, colon, end);
  }

  lemma MembersStep(s: string, i: nat, first: bool, start: nat, m: Member, next: nat, rest: seq<Member>, end: nat)
    requires i <= |s| && SkipSpace(s, i) < |s| && s[SkipSpace(s, i)] != '}' && ElementStart(s, i, first) == Some(start)
    requires ParseMember(s, start) == Some((m, next)) && ParseMembers(s, next, false) == Some((rest, end))
    ensures ParseMembers(s, i, first) == Some(([m] + rest, end))
  {}

  lemma ItemsStep(s: string, i: nat, first: bool, start: nat, n: Node, next: nat, rest: seq<Node>, end: nat)
    requires i <= |s| && SkipSpace(s, i) < |s| && s[SkipSpace(s, i)] != ']' && ElementStart(s, i, first) == Some(start)
    requires ParseValue(s, start) == Some((n, next)) && ParseItems(s, next, false) == Some((rest, end))
    ensures ParseItems(s, i, first) == Some(([n] + rest, end))
  {}

  /** The first element of a list that is not empty, and where the rest of it stands. */
  lemma FirstElement(s: string, i: nat, d: nat, first: bool, element: string, tail: string, last: bool)
    requires At(s, i, Separator(first) + Indent(d) + element + tail) && |element| > 0 && Opens(element[0])
    requires |tail| > 0 && tail[0] == Separator(last)[0]
    ensures var start := i + |Separator(first)| + 2 * d;
            && ElementStart(s, i, first) == Some(start) && At(s, start, element) && At(s, start + |element|, tail) && Delimited(s, start + |element|)
            && SkipSpace(s, i) < |s| && s[SkipSpace(s, i)] != '}' && s[SkipSpace(s, i)] != ']'
            && i + |Separator(first) + Indent(d) + element + tail| == start + |element| + |tail|
  {
    hide At, Indent, SkipSpace, ElementStart, Delimited;
    IndentIsSpace(d);
    Parts(s, i, Separator(first) + Indent(d) + element, tail);
    ElementStarts(s, i, d, first, element);
    TailsDelimit(s, i + |Separator(first)| + 2 * d + |element|, tail, last);
  }

  lemma MembersTailStarts(ms: seq<Member>, d: nat, first: bool)
    ensures |MembersTail(ms, d, first)| > 0 && MembersTail(ms, d, first)[0] == Separator(first || ms == [])[0]
  {}

  lemma ItemsTailStarts(ns: seq<Node>, d: nat, first: bool)
    ensures |ItemsTail(ns, d, first)| > 0 && ItemsTail(ns, d, first)[0] == Separator(first || ns == [])[0]
  {}

  lemma NoMoreMembers(s: string, i: nat, d: nat)
    requires At(s, i, MembersTail([], d, false))
    ensures ParseMembers(s, i, false) == Some(([], i + |MembersTail([], d, false)|))
  {
    assert MembersTail([], d, false) == ['\n'] + Indent(d) + ['}'];
    IndentIsSpace(d);
    ListCloses(s, i, d, '}');
  }

  lemma NoMoreItems(s: string, i: nat, d: nat)
    requires At(s, i, ItemsTail([], d, false))
    ensures ParseItems(s, i, false) == Some(([], i + |ItemsTail([], d, false)|))
  {
    assert ItemsTail([], d, false) == ['\n'] + Indent(d) + [']'];
    IndentIsSpace(d);
    ListCloses(s, i, d, ']');
  }

  lemma BareMemberOpens(m: Member, d: nat)
    ensures |BareMember(m, d)| > 0 && BareMember(m, d)[0] == QUOTE && Opens(QUOTE)
  {}

  /** Where the first member of a list that is not empty stands, where it ends, and what follows it. */
  lemma MembersLayout(ms: seq<Member>, d: nat, s: string, i: nat, first: bool) returns (start: nat, next: nat)
    requires ms != [] && At(s, i, MembersTail(ms, d, first))
    ensures ElementStart(s, i, first) == Some(start) && SkipSpace(s, i) < |s| && s[SkipSpace(s, i)] != '}'
    ensures At(s, start, BareMember(ms[0], d + 1)) && next == start + |BareMember(ms[0], d + 1)| && Delimited(s, next)
    ensures At(s, next, MembersTail(ms[1..], d, false)) && i + |MembersTail(ms, d, first)| == next + |MembersTail(ms[1..], d, false)|
  {
    hide *;
    var element, tail := BareMember(ms[0], d + 1), MembersTail(ms[1..], d, false);
    MembersTailSplits(ms, d, first);
    MembersTailStarts(ms[1..], d, false);
    BareMemberOpens(ms[0], d + 1);
    FirstElement(s, i, d + 1, first, element, tail, ms[1..] == []);
    start := i + |Separator(first)| + 2 * (d + 1);
    next := start + |element|;
  }

  lemma ItemsLayout(ns: seq<Node>, d: nat, s: string, i: nat, first: bool) returns (start: nat, next: nat)
    requires ns != [] && WellFormed(ns[0]) && At(s, i, ItemsTail(ns, d, first))
    ensures ElementStart(s, i, first) == Some(start) && SkipSpace(s, i) < |s| && s[SkipSpace(s, i)] != ']'
    ensures At(s, start, Encode(ns[0], d + 1)) && next == start + |Encode(ns[0], d + 1)| && Delimited(s, next)
    ensures At(s, next, ItemsTail(ns[1..], d, false)) && i + |ItemsTail(ns, d, first)| == next + |ItemsTail(ns[1..], d, false)|
  {
    hide *;
    var element, tail := Encode(ns[0], d + 1), ItemsTail(ns[1..], d, false);
    ItemsTailSplits(ns, d, first);
    ItemsTailStarts(ns[1..], d, false);
    ValueOpens(ns[0], d + 1);
    FirstElement(s, i, d + 1, first, element, tail, ns[1..] == []);
    start := i + |Separator(first)| + 2 * (d + 1);
    next := start + |element|;
  }

  lemma {:induction false} MembersRead(ms: seq<Member>, d: nat, s: string, i: nat, first: bool)
    requires (forall m | m in ms :: WellFormed(m.value)) && At(s, i, MembersTail(ms, d, first)) && (first ==> ms != [])
    ensures ParseMembers(s, i, first) == Some((ms, i + |MembersTail(ms, d, first)|))
    decreases ms, 0
  {
    hide *;
    if ms == [] {
      NoMoreMembers(s, i, d);
    } else {
      var end := i + |MembersTail(ms, d, first)|;
      var start, next := MembersLayout(ms, d, s, i, first);
      MemberReads(ms[0], d + 1, s, start);
      MembersRead(ms[1..], d, s, next, false);
      MembersStep(s, i, first, start, ms[0], next, ms[1..], end);
      assert [ms[0]] + ms[1..] == ms;
    }
  }

  lemma {:induction false} ItemsRead(ns: seq<Node>, d: nat, s: string, i: nat, first: bool)
    requires (forall n | n in ns :: WellFormed(n)) && At(s, i, ItemsTail(ns, d, first)) && (first ==> ns != [])
    ensures ParseItems(s, i, first) == Some((ns, i + |ItemsTail(ns, d, first)|))
    decreases ns, 0
  {
    hide *;
    if ns == [] {
      NoMoreItems(s, i, d);
    } else {
      var end := i + |ItemsTail(ns, d, first)|;
      var start, next := ItemsLayout(ns, d, s, i, first);
      ValueReads(ns[0], d + 1, s, start);
      ItemsRead(ns[1..], d, s, next, false);
      ItemsStep(s, i, first, start, ns[0], next, ns[1..], end);
      assert [ns[0]] + ns[1..] == ns;
    }
  }

  // ---- The main results ------------------------------------------------------------------

  /** Parsing what was printed returns the tree, member for member. */
  lemma ParseUndoesEncode(n: Node)
    requires WellFormed(n)
    ensures ParseDocument(EncodeDocument(n)) == Some(n)
  {
    var e := Encode(n, 0);
    var s := EncodeDocument(n);
    assert s[0..0 + |e|] == e;
    assert s[|e|] == '\n';
    ValueReads(n, 0, s, 0);
  }

  /** Two trees are printed alike only if they are the same tree. */
  lemma EncodingIsInjective(m: Node, n: Node)
    requires WellFormed(m) && WellFormed(n) && EncodeDocument(m) == EncodeDocument(n)
    ensures m == n
  {
    ParseUndoesEncode(m);
    ParseUndoesEncode(n);
  }

  lemma NumberSlice(s: string, i: nat)
    requires i <= |s| && NumberEnd(s, i).Some?
    ensures IsNumber(s[i..NumberEnd(s, i).value])
  {
    var end := NumberEnd(s, i).value;
    var t := s[i..end];
    assert At(s, i, t);
    SliceNumber(s, i, t);
  }

  lemma {:induction false} SliceRun(s: string, i: nat, t: string, k: nat)
    requires At(s, i, t) && k <= |t| && DigitRun(s, i + k) <= i + |t|
    ensures i + DigitRun(t, k) == DigitRun(s, i + k)
    decreases |t| - k
  {
    if k < |t| {
      Letter(s, i, t, k);
      if Digit(t[k]) { SliceRun(s, i, t, k + 1); }
    }
  }

  /** A number read from a text is a number on its own. */
  lemma SliceNumber(s: string, i: nat, t: string)
    requires At(s, i, t) && NumberEnd(s, i) == Some(i + |t|)
    ensures IsNumber(t)
  {
    hide At, IntegerEnd, FractionEnd, ExponentEnd;
    Letter(s, i, t, 0);
    var k := if t[0] == '-' then 1 else 0;
    var integer := IntegerEnd(s, i + k).value;
    var fraction := FractionEnd(s, integer).value;
    Letter(s, i, t, k);
    SliceInteger(s, i, t, k);
    SliceFraction(s, i, t, integer - i);
    SliceExponent(s, i, t, fraction - i);
  }

  lemma SliceInteger(s: string, i: nat, t: string, k: nat)
    requires At(s, i, t) && k < |t| && IntegerEnd(s, i + k).Some? && IntegerEnd(s, i + k).value <= i + |t|
    ensures IntegerEnd(t, k) == Some(IntegerEnd(s, i + k).value - i)
  {
    Letter(s, i, t, k);
    if s[i + k] != '0' { SliceRun(s, i, t, k + 1); }
  }

  lemma SliceFraction(s: string, i: nat, t: string, k: nat)
    requires At(s, i, t) && k <= |t| && FractionEnd(s, i + k).Some? && FractionEnd(s, i + k).value <= i + |t|
    ensures FractionEnd(t, k) == Some(FractionEnd(s, i + k).value - i)
  {
    if k < |t| {
      Letter(s, i, t, k);
      if s[i + k] == '.' { SliceRun(s, i, t, k + 1); }
    }
  }

  lemma SliceExponent(s: string, i: nat, t: string, k: nat)
    requires At(s, i, t) && k <= |t| && ExponentEnd(s, i + k) == Some(i + |t|)
    ensures ExponentEnd(t, k) == Some(|t|)
  {
    if k < |t| {
      Letter(s, i, t, k);
      if s[i + k] == 'e' || s[i + k] == 'E' {
        assert k + 1 < |t|;
        Letter(s, i, t, k + 1);
        var signed := s[i + k + 1] == '+' || s[i + k + 1] == '-';
        SliceRun(s, i, t, if signed then k + 2 else k + 1);
      }
    }
  }

  lemma ScalarIsWellFormed(s: string, i: nat)
    requires i < |s| && ParseScalar(s, i).Some?
    ensures WellFormed(ParseScalar(s, i).value.0)
  {
    if s[i] != QUOTE && !At(s, i, TRUE) && !At(s, i, FALSE) && !At(s, i, NULL) { NumberSlice(s, i); }
  }

  /** Whatever text is accepted, the tree is well formed. */
  lemma {:induction false} ValueIsWellFormed(s: string, i: nat)
    requires i <= |s| && ParseValue(s, i).Some?
    ensures WellFormed(ParseValue(s, i).value.0)
    decreases |s| - i, 2
  {
    var j := SkipSpace(s, i);
    if s[j] == '{' {
      MembersAreWellFormed(s, j + 1, true);
    } else if s[j] == '[' {
      ItemsAreWellFormed(s, j + 1, true);
    } else {
      ScalarIsWellFormed(s, j);
    }
  }

  lemma {:induction false} MembersAreWellFormed(s: string, i: nat, first: bool)
    requires i <= |s| && ParseMembers(s, i, first).Some?
    ensures forall m | m in ParseMembers(s, i, first).value.0 :: WellFormed(m.value)
    decreases |s| - i, 1
  {
    hide SkipSpace, ElementStart, ParseMember, ParseChars, ParseValue, WellFormed;
    var j := SkipSpace(s, i);
    if !(j < |s| && s[j] == '}') {
      var start := ElementStart(s, i, first).value;
      MemberHasValue(s, start);
      var key := ParseChars(s, start + 1).value;
      ValueIsWellFormed(s, SkipSpace(s, key.1) + 1);
      MembersAreWellFormed(s, ParseMember(s, start).value.1, false);
    }
  }

  lemma MemberHasValue(s: string, start: nat)
    requires start <= |s| && ParseMember(s, start).Some?
    ensures start < |s| && ParseChars(s, start + 1).Some?
    ensures var colon := SkipSpace(s, ParseChars(s, start + 1).value.1);
            && colon < |s| && ParseValue(s, colon + 1).Some?
            && ParseMember(s, start).value == (Member(ParseChars(s, start + 1).value.0, ParseValue(s, colon + 1).value.0), ParseValue(s, colon + 1).value.1)
  {
    hide SkipSpace, ParseChars, ParseValue;
  }

  lemma {:induction false} ItemsAreWellFormed(s: string, i: nat, first: bool)
    requires i <= |s| && ParseItems(s, i, first).Some?
    ensures forall n | n in ParseItems(s, i, first).value.0 :: WellFormed(n)
    decreases |s| - i, 3
  {
    var j := SkipSpace(s, i);
    if !(j < |s| && s[j] == ']') {
      var start := ElementStart(s, i, first).value;
      ValueIsWellFormed(s, start);
      ItemsAreWellFormed(s, ParseValue(s, start).value.1, false);
    }
  }

  /** Rewriting any accepted document settles at once: what is written reads back as the same tree, and writes the same bytes again. */
  lemma RewritingSettles(s: string)
    requires ParseDocument(s).Some?
    ensures var n := ParseDocument(s).value;
            ParseDocument(EncodeDocument(n)) == Some(n) && EncodeDocument(ParseDocument(EncodeDocument(n)).value) == EncodeDocument(n)
  {
    ValueIsWellFormed(s, 0);
    ParseUndoesEncode(ParseDocument(s).value);
  }
}
