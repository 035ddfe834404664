/**
 The layout of the release documents, told of the text alone: two spaces a level,
 one element a line, and each string in its one spelling. A document is rewritten
 byte for byte exactly when it is laid out so.
 */
module ReleaseDocumentLayout {
  import opened Wrappers
  import opened ReleaseDocument
  import opened ReleaseDocumentRoundTrip
  import opened ReleaseDocumentGrammar

  // ---- The layout ------------------------------------------------------------------------

  predicate Spaces(s: string, i: nat, j: nat) { i <= j <= |s| && forall k | i <= k < j :: s[k] == ' ' }

  predicate LowerHex(c: char) { '0' <= c <= '9' || 'a' <= c <= 'f' }

  /** The four digits after \u: those of a control character that has no letter, or of a line or paragraph separator. */
  predicate LaidCode(s: string, i: nat) {
    && i + 4 <= |s|
    && ((s[i] == '0' && s[i + 1] == '0' && s[i + 2] == '0' && s[i + 3] in {'0', '1', '2', '3', '4', '5', '6', '7', 'b', 'e', 'f'})
        || (s[i] == '0' && s[i + 1] == '0' && s[i + 2] == '1' && LowerHex(s[i + 3]))
        || (s[i] == '2' && s[i + 1] == '0' && s[i + 2] == '2' && s[i + 3] in {'8', '9'}))
  }

  /** A character as it stands, unless it must be escaped; then by its letter, if it has one. */
  predicate LaidChar(s: string, i: nat, j: nat) {
    && i < j <= |s|
    && ((j == i + 1 && s[i] >= ' ' && s[i] !in {QUOTE, BACKSLASH, '\U{2028}', '\U{2029}'})
        || (j == i + 2 && s[i] == BACKSLASH && s[i + 1] in {QUOTE, BACKSLASH, 'b', 'f', 'n', 'r', 't'})
        || (j == i + 6 && s[i] == BACKSLASH && s[i + 1] == 'u' && LaidCode(s, i + 2)))
  }

  predicate LaidChars(s: string, i: nat, j: nat)
    decreases j - i
  {
    i <= j <= |s| && (i == j || exists k | i < k <= j :: LaidChar(s, i, k) && LaidChars(s, k, j))
  }

  predicate LaidString(s: string, i: nat, j: nat) {
    i + 2 <= j <= |s| && s[i] == QUOTE && s[j - 1] == QUOTE && LaidChars(s, i + 1, j - 1)
  }

  /** A bracket and a line break, and at the other end the indentation of the level and the bracket that closes it. */
  predicate LaidBlock(s: string, i: nat, j: nat, d: nat, open: char, close: char) {
    i + 3 + 2 * d < j <= |s| && s[i] == open && s[i + 1] == '\n' && Spaces(s, j - 1 - 2 * d, j - 1) && s[j - 1] == close
  }

  predicate LaidValue(s: string, i: nat, j: nat, d: nat)
    decreases j - i, 0
  {
    && i < j <= |s|
    && (DerivesName(s, i, j) || DerivesNumber(s, i, j) || LaidString(s, i, j)
        || (j == i + 2 && s[i] == '{' && s[i + 1] == '}')
        || (j == i + 2 && s[i] == '[' && s[i + 1] == ']')
        || (LaidBlock(s, i, j, d, '{', '}') && LaidMembers(s, i + 2, j - 1 - 2 * d, d + 1))
        || (LaidBlock(s, i, j, d, '[', ']') && LaidItems(s, i + 2, j - 1 - 2 * d, d + 1)))
  }

  /** One item on its line. */
  predicate LaidItem(s: string, i: nat, j: nat, d: nat)
    decreases j - i, 1
  {
    i + 2 * d <= j && Spaces(s, i, i + 2 * d) && LaidValue(s, i + 2 * d, j, d)
  }

  /** Items, one a line, with a comma at the end of every line but the last. */
  predicate LaidItems(s: string, i: nat, j: nat, d: nat)
    decreases j - i, 2
  {
    j <= |s| && exists k | i < k < j ::
      LaidItem(s, i, k, d) && ((k + 1 == j && s[k] == '\n') || (k + 2 < j && s[k] == ',' && s[k + 1] == '\n' && LaidItems(s, k + 2, j, d)))
  }

  /** A key, a colon and one space, and the value. */
  predicate LaidBare(s: string, i: nat, j: nat, d: nat)
    decreases j - i, 1
  {
    j <= |s| && exists a | i < a && a + 2 <= j :: LaidString(s, i, a) && s[a] == ':' && s[a + 1] == ' ' && LaidValue(s, a + 2, j, d)
  }

  predicate LaidMember(s: string, i: nat, j: nat, d: nat)
    decreases j - i, 2
  {
    i + 2 * d <= j && Spaces(s, i, i + 2 * d) && LaidBare(s, i + 2 * d, j, d)
  }

  predicate LaidMembers(s: string, i: nat, j: nat, d: nat)
    decreases j - i, 3
  {
    j <= |s| && exists k | i < k < j ::
      LaidMember(s, i, k, d) && ((k + 1 == j && s[k] == '\n') || (k + 2 < j && s[k] == ',' && s[k + 1] == '\n' && LaidMembers(s, k + 2, j, d)))
  }

  /** A whole document: one value at the margin, and a line break. */
  predicate LaidOut(s: string) { s != [] && s[|s| - 1] == '\n' && LaidValue(s, 0, |s| - 1, 0) }

  // ---- Parts of a text -------------------------------------------------------------------

  lemma Cut(s: string, i: nat, k: nat, j: nat)
    requires i <= k <= j <= |s|
    ensures s[i..j] == s[i..k] + s[k..j]
  {}

  lemma Here(s: string, i: nat, e: string)
    requires At(s, i, e)
    ensures i + |e| <= |s| && s[i..i + |e|] == e
  {}

  lemma {:induction false} IndentIsSpaces(d: nat)
    ensures |Indent(d)| == 2 * d && forall k | 0 <= k < 2 * d :: Indent(d)[k] == ' '
  {
    if d > 0 { IndentIsSpaces(d - 1); }
  }

  lemma SpacesAreIndent(s: string, i: nat, d: nat)
    requires i + 2 * d <= |s|
    ensures Spaces(s, i, i + 2 * d) <==> s[i..i + 2 * d] == Indent(d)
  {
    IndentIsSpaces(d);
    hide Indent;
    var t := s[i..i + 2 * d];
    if t == Indent(d) {
      forall k | i <= k < i + 2 * d ensures s[k] == ' ' { assert s[k] == t[k - i]; }
    }
  }

  // ---- Numbers, wherever they stand ------------------------------------------------------

  predicate SameText(s: string, i: nat, t: string, k: nat, n: nat) {
    i + n <= |s| && k + n <= |t| && s[i..i + n] == t[k..k + n]
  }

  lemma SameChar(s: string, i: nat, t: string, k: nat, n: nat, x: nat)
    requires SameText(s, i, t, k, n) && x < n
    ensures s[i + x] == t[k + x]
  {
    assert s[i..i + n][x] == t[k..k + n][x];
  }

  lemma SameDigits(s: string, i: nat, t: string, k: nat, n: nat, a: nat, b: nat)
    requires SameText(s, i, t, k, n) && a <= b <= n && Digits(s, i + a, i + b)
    ensures Digits(t, k + a, k + b)
  {
    forall x | k + a <= x < k + b ensures Digit(t[x]) {
      SameChar(s, i, t, k, n, x - k);
      assert Digit(s[i + (x - k)]);
    }
  }

  lemma SameInteger(s: string, i: nat, t: string, k: nat, n: nat, a: nat, b: nat)
    requires SameText(s, i, t, k, n) && a <= b <= n && DerivesInteger(s, i + a, i + b)
    ensures DerivesInteger(t, k + a, k + b)
  {
    SameChar(s, i, t, k, n, a);
    if s[i + a] != '0' || b != a + 1 { SameDigits(s, i, t, k, n, a + 1, b); }
  }

  lemma SameFraction(s: string, i: nat, t: string, k: nat, n: nat, a: nat, b: nat)
    requires SameText(s, i, t, k, n) && a <= b <= n && DerivesFraction(s, i + a, i + b)
    ensures DerivesFraction(t, k + a, k + b)
  {
    SameChar(s, i, t, k, n, a);
    SameDigits(s, i, t, k, n, a + 1, b);
  }

  lemma SameExponent(s: string, i: nat, t: string, k: nat, n: nat, a: nat, b: nat)
    requires SameText(s, i, t, k, n) && a <= b <= n && DerivesExponent(s, i + a, i + b)
    ensures DerivesExponent(t, k + a, k + b)
  {
    SameChar(s, i, t, k, n, a);
    SameChar(s, i, t, k, n, a + 1);
    if Digits(s, i + (a + 1), i + b) { SameDigits(s, i, t, k, n, a + 1, b); } else { SameDigits(s, i, t, k, n, a + 2, b); }
  }

  lemma SameUnsigned(s: string, i: nat, t: string, k: nat, n: nat, a: nat)
    requires SameText(s, i, t, k, n) && a <= n && DerivesUnsigned(s, i + a, i + n)
    ensures DerivesUnsigned(t, k + a, k + n)
  {
    hide DerivesUnsigned, DerivesInteger, DerivesFraction, DerivesExponent, SameText;
    var m, f := UnsignedParts(s, i + a, i + n);
    SameInteger(s, i, t, k, n, a, m - i);
    if m != f { SameFraction(s, i, t, k, n, m - i, f - i); }
    if f != i + n { SameExponent(s, i, t, k, n, f - i, n); }
    UnsignedInParts(t, k + a, k + (m - i), k + (f - i), k + n);
  }

  lemma SameNumber(s: string, i: nat, t: string, k: nat, n: nat)
    requires SameText(s, i, t, k, n) && DerivesNumber(s, i, i + n)
    ensures DerivesNumber(t, k, k + n)
  {
    SameChar(s, i, t, k, n, 0);
    if DerivesUnsigned(s, i + 0, i + n) { SameUnsigned(s, i, t, k, n, 0); } else { SameUnsigned(s, i, t, k, n, 1); }
  }

  /** A text is a number, as the scanner has it, exactly when the grammar derives it wherever it stands. */
  lemma NumberIsDerivedAnywhere(s: string, i: nat, t: string)
    requires At(s, i, t)
    ensures IsNumber(t) <==> DerivesNumber(s, i, i + |t|)
  {
    assert t[0..0 + |t|] == t;
    if IsNumber(t) {
      NumberIsDerived(t, 0);
      SameNumber(t, 0, s, i, |t|);
    }
    if DerivesNumber(s, i, i + |t|) {
      SameNumber(s, i, t, 0, |t|);
      NumberIsRead(t, 0, |t|);
    }
  }

  // ---- Strings in their one spelling -----------------------------------------------------

  predicate HexWritten(c: char) { !Plain(c) && ShortEscape(c).None? }

  lemma WrittenHex(c: char)
    requires HexWritten(c)
    ensures var e := HexEscape(c as int); |e| == 6 && e[0] == BACKSLASH && e[1] == 'u' && LaidCode(e, 2)
  {
    var n := c as int;
    assert n < 0x20 || n == 0x2028 || n == 0x2029;
    if n < 0x20 {
      assert n / 4096 == 0 && n / 256 % 16 == 0;
      assert n / 16 % 16 == n / 16 && (n / 16 == 0 || n / 16 == 1);
    }
  }

  lemma CodeValue(s: string, i: nat) returns (c: char)
    requires LaidCode(s, i)
    ensures HexWritten(c) && HexEscape(c as int)[2..] == s[i..i + 4]
  {
    var low := HexValue(s[i + 3]).value;
    assert HexDigit(low) == s[i + 3];
    var n := if s[i] == '2' then 0x2020 + low else if s[i + 2] == '0' then low else 16 + low;
    c := n as char;
    assert n / 4096 == (if s[i] == '2' then 2 else 0) && n / 256 % 16 == 0 && n % 16 == low;
    assert n / 16 % 16 == if s[i] == '2' then 2 else if s[i + 2] == '0' then 0 else 1;
    assert s[i..i + 4] == [s[i], s[i + 1], s[i + 2], s[i + 3]];
  }

  lemma EscapeIsLaid(s: string, i: nat, c: char)
    requires At(s, i, Escape(c))
    ensures LaidChar(s, i, i + |Escape(c)|)
  {
    Letter(s, i, Escape(c), 0);
    if !Plain(c) {
      Letter(s, i, Escape(c), 1);
      if ShortEscape(c).None? {
        WrittenHex(c);
        Letter(s, i, Escape(c), 2);
        Letter(s, i, Escape(c), 3);
        Letter(s, i, Escape(c), 4);
        Letter(s, i, Escape(c), 5);
        hide HexEscape;
      }
    }
  }

  lemma LaidIsEscape(s: string, i: nat, k: nat) returns (c: char)
    requires LaidChar(s, i, k)
    ensures s[i..k] == Escape(c)
  {
    if k == i + 1 {
      c := s[i];
    } else if k == i + 2 {
      var e := s[i + 1];
      c := if e == 'b' then 8 as char else if e == 'f' then 12 as char else if e == 'n' then 10 as char
           else if e == 'r' then 13 as char else if e == 't' then 9 as char else e;
      assert s[i..k] == [s[i], s[i + 1]];
    } else {
      c := CodeValue(s, i + 2);
      var e := HexEscape(c as int);
      assert e == [BACKSLASH, 'u'] + e[2..];
      assert s[i..k] == [s[i], s[i + 1]] + s[i + 2..k];
    }
  }

  lemma NoCharsLaid(s: string, i: nat)
    requires At(s, i, [])
    ensures LaidChars(s, i, i)
  {}

  lemma CharsOne(s: string, i: nat, k: nat, j: nat)
    requires LaidChar(s, i, k) && LaidChars(s, k, j)
    ensures LaidChars(s, i, j)
  {}

  lemma {:induction false} CharsAreLaid(s: string, i: nat, v: string)
    requires At(s, i, EncodeChars(v))
    ensures LaidChars(s, i, i + |EncodeChars(v)|)
    decreases |v|
  {
    hide *;
    if v == [] {
      CharsNone();
      NoCharsLaid(s, i);
    } else {
      EncodeStep(v);
      Parts(s, i, Escape(v[0]), EncodeChars(v[1..]));
      EscapeIsLaid(s, i, v[0]);
      CharsAreLaid(s, i + |Escape(v[0])|, v[1..]);
      CharsOne(s, i, i + |Escape(v[0])|, i + |EncodeChars(v)|);
    }
  }

  lemma {:induction false} LaidCharsSpell(s: string, i: nat, j: nat) returns (v: string)
    requires LaidChars(s, i, j)
    ensures s[i..j] == EncodeChars(v)
    decreases j - i
  {
    if i == j {
      v := [];
    } else {
      var k :| i < k <= j && LaidChar(s, i, k) && LaidChars(s, k, j);
      hide LaidChar, Escape;
      var c := LaidIsEscape(s, i, k);
      var rest := LaidCharsSpell(s, k, j);
      v := [c] + rest;
      Cut(s, i, k, j);
      assert v[1..] == rest;
    }
  }

  lemma StringIsLaid(s: string, i: nat, v: string)
    requires At(s, i, EncodeString(v))
    ensures LaidString(s, i, i + |EncodeString(v)|)
  {
    hide LaidChars, EncodeChars;
    Quoted(v);
    Parts(s, i, [QUOTE], EncodeChars(v) + [QUOTE]);
    Parts(s, i + 1, EncodeChars(v), [QUOTE]);
    Letter(s, i, [QUOTE], 0);
    Letter(s, i + 1 + |EncodeChars(v)|, [QUOTE], 0);
    CharsAreLaid(s, i + 1, v);
  }

  lemma LaidStringSpells(s: string, i: nat, j: nat) returns (v: string)
    requires LaidString(s, i, j)
    ensures s[i..j] == EncodeString(v)
  {
    hide LaidChars, EncodeString, EncodeChars;
    v := LaidCharsSpell(s, i + 1, j - 1);
    Cut(s, i, i + 1, j);
    Cut(s, i + 1, j - 1, j);
    assert s[i..i + 1] == [QUOTE] && s[j - 1..j] == [QUOTE];
    Quoted(v);
  }

  // ---- What is printed is laid out -------------------------------------------------------

  lemma ScalarIsLaid(s: string, i: nat, t: string, d: nat)
    requires IsScalar(t) && At(s, i, t)
    ensures LaidValue(s, i, i + |t|, d)
  {
    hide LaidMembers, LaidItems, LaidChars, DerivesNumber, IsNumber;
    ScalarOpens(t);
    if v :| t == EncodeString(v) {
      StringIsLaid(s, i, v);
    } else {
      NumberIsDerivedAnywhere(s, i, t);
    }
  }

  lemma BlockParts(s: string, i: nat, d: nat, open: char, body: string, close: char)
    requires At(s, i, [open, '\n'] + body + Indent(d) + [close]) && body != []
    ensures var j := i + |[open, '\n'] + body + Indent(d) + [close]|;
            LaidBlock(s, i, j, d, open, close) && At(s, i + 2, body) && i + 2 + |body| == j - 1 - 2 * d
  {
    hide At, Indent;
    IndentIsSpaces(d);
    Parts(s, i, [open, '\n'] + body + Indent(d), [close]);
    Parts(s, i, [open, '\n'] + body, Indent(d));
    Parts(s, i, [open, '\n'], body);
    Letter(s, i, [open, '\n'], 0);
    Letter(s, i, [open, '\n'], 1);
    Letter(s, i + 2 + |body| + 2 * d, [close], 0);
    SpacesAreIndent(s, i + 2 + |body|, d);
  }

  lemma EmptyIsLaid(s: string, i: nat, d: nat)
    ensures At(s, i, ['{', '}']) || At(s, i, ['[', ']']) ==> LaidValue(s, i, i + 2, d)
    ensures Encode(Object([]), d) == ['{', '}'] && Encode(Array([]), d) == ['[', ']']
  {
    if At(s, i, ['{', '}']) { Letter(s, i, ['{', '}'], 0); Letter(s, i, ['{', '}'], 1); }
    if At(s, i, ['[', ']']) { Letter(s, i, ['[', ']'], 0); Letter(s, i, ['[', ']'], 1); }
  }

  lemma BlockIsValue(s: string, i: nat, j: nat, d: nat)
    requires (LaidBlock(s, i, j, d, '{', '}') && LaidMembers(s, i + 2, j - 1 - 2 * d, d + 1))
             || (LaidBlock(s, i, j, d, '[', ']') && LaidItems(s, i + 2, j - 1 - 2 * d, d + 1))
    ensures LaidValue(s, i, j, d)
  {
    hide LaidMembers, LaidItems, Spaces, DerivesName, DerivesNumber, LaidString;
  }

  lemma ObjectBlock(members: seq<Member>, d: nat)
    requires members != []
    ensures Encode(Object(members), d) == ['{', '\n'] + EncodeMembers(members, d + 1) + Indent(d) + ['}']
  {}

  lemma ArrayBlock(items: seq<Node>, d: nat)
    requires items != []
    ensures Encode(Array(items), d) == ['[', '\n'] + EncodeItems(items, d + 1) + Indent(d) + [']']
  {}

  lemma {:induction false} ValueIsLaid(n: Node, d: nat, s: string, i: nat)
    requires WellFormed(n) && At(s, i, Encode(n, d))
    ensures LaidValue(s, i, i + |Encode(n, d)|, d)
    decreases n, 1
  {
    match n
    case Scalar(t) => ScalarIsLaid(s, i, t, d);
    case Object(members) => ObjectIsLaid(n, d, s, i);
    case Array(items) => ArrayIsLaid(n, d, s, i);
  }

  lemma {:induction false} ObjectIsLaid(n: Node, d: nat, s: string, i: nat)
    requires n.Object? && (forall m | m in n.members :: WellFormed(m.value)) && At(s, i, Encode(n, d))
    ensures LaidValue(s, i, i + |Encode(n, d)|, d)
    decreases n, 0
  {
    hide *;
    if n.members == [] {
      EmptyIsLaid(s, i, d);
    } else {
      ObjectBlock(n.members, d);
      MembersAreNotNothing(n.members, d + 1);
      BlockParts(s, i, d, '{', EncodeMembers(n.members, d + 1), '}');
      MembersAreLaid(n.members, d + 1, s, i + 2);
      BlockIsValue(s, i, i + |Encode(n, d)|, d);
    }
  }

  lemma {:induction false} ArrayIsLaid(n: Node, d: nat, s: string, i: nat)
    requires n.Array? && (forall x | x in n.items :: WellFormed(x)) && At(s, i, Encode(n, d))
    ensures LaidValue(s, i, i + |Encode(n, d)|, d)
    decreases n, 0
  {
    hide *;
    if n.items == [] {
      EmptyIsLaid(s, i, d);
    } else {
      ArrayBlock(n.items, d);
      ItemsAreNotNothing(n.items, d + 1);
      BlockParts(s, i, d, '[', EncodeItems(n.items, d + 1), ']');
      ItemsAreLaid(n.items, d + 1, s, i + 2);
      BlockIsValue(s, i, i + |Encode(n, d)|, d);
    }
  }

  lemma MembersAreNotNothing(ms: seq<Member>, d: nat)
    requires ms != []
    ensures EncodeMembers(ms, d) != [] && EncodeMembers(ms, d) == EncodeMember(ms[0], d) + Separator(|ms| == 1) + EncodeMembers(ms[1..], d)
  {}

  lemma ItemsAreNotNothing(ns: seq<Node>, d: nat)
    requires ns != []
    ensures EncodeItems(ns, d) != [] && EncodeItems(ns, d) == (Indent(d) + Encode(ns[0], d)) + Separator(|ns| == 1) + EncodeItems(ns[1..], d)
  {}

  /** An element, the end of its line, and the lines after it. */
  lemma LineParts(s: string, i: nat, element: string, last: bool, rest: string)
    requires At(s, i, element + Separator(last) + rest) && (last ==> rest == [])
    ensures At(s, i, element)
    ensures var k, j := i + |element|, i + |element + Separator(last) + rest|;
            if last then k + 1 == j && s[k] == '\n' else k + 1 < |s| && s[k] == ',' && s[k + 1] == '\n' && At(s, k + 2, rest) && k + 2 + |rest| == j
  {
    Parts(s, i, element + Separator(last), rest);
    Parts(s, i, element, Separator(last));
    Letter(s, i + |element|, Separator(last), 0);
    if !last { Letter(s, i + |element|, Separator(last), 1); }
  }

  lemma MembersInParts(s: string, i: nat, k: nat, j: nat, d: nat)
    requires i < k < j <= |s| && LaidMember(s, i, k, d)
    requires (k + 1 == j && s[k] == '\n') || (k + 2 < j && s[k] == ',' && s[k + 1] == '\n' && LaidMembers(s, k + 2, j, d))
    ensures LaidMembers(s, i, j, d)
  {}

  lemma ItemsInParts(s: string, i: nat, k: nat, j: nat, d: nat)
    requires i < k < j <= |s| && LaidItem(s, i, k, d)
    requires (k + 1 == j && s[k] == '\n') || (k + 2 < j && s[k] == ',' && s[k + 1] == '\n' && LaidItems(s, k + 2, j, d))
    ensures LaidItems(s, i, j, d)
  {}

  lemma BareInParts(s: string, i: nat, a: nat, j: nat, d: nat)
    requires i < a && a + 2 < j <= |s| && LaidString(s, i, a) && s[a] == ':' && s[a + 1] == ' ' && LaidValue(s, a + 2, j, d)
    ensures LaidBare(s, i, j, d)
  {}

  lemma Indented(s: string, i: nat, d: nat, element: string)
    requires At(s, i, Indent(d) + element)
    ensures Spaces(s, i, i + 2 * d) && At(s, i + 2 * d, element) && |Indent(d) + element| == 2 * d + |element|
  {
    IndentIsSpaces(d);
    hide Indent;
    Parts(s, i, Indent(d), element);
    Here(s, i, Indent(d));
    SpacesAreIndent(s, i, d);
  }

  /** Where the key, the colon and the value of a printed member stand. */
  lemma MemberSlots(m: Member, d: nat, s: string, i: nat)
    requires At(s, i, EncodeMember(m, d))
    ensures var p := i + 2 * d; var a := p + |EncodeString(m.key)|;
            && Spaces(s, i, p) && At(s, p, EncodeString(m.key)) && a + 1 < |s| && s[a] == ':' && s[a + 1] == ' ' && At(s, a + 2, Encode(m.value, d))
            && i + |EncodeMember(m, d)| == a + 2 + |Encode(m.value, d)| && i + |EncodeMember(m, d)| <= |s|
  {
    hide Encode, EncodeString, Indent, At, Spaces;
    MemberIsIndented(m, d);
    hide EncodeMember, BareMember;
    Here(s, i, EncodeMember(m, d));
    Indented(s, i, d, BareMember(m, d));
    MemberParts(m, d, s, i + 2 * d);
    ColonReads(s, i + 2 * d + |EncodeString(m.key)|);
    Letter(s, i + 2 * d + |EncodeString(m.key)|, [':', ' '], 1);
  }

  lemma MemberIsLaid(m: Member, d: nat, s: string, i: nat)
    requires WellFormed(m.value) && At(s, i, EncodeMember(m, d))
    ensures LaidMember(s, i, i + |EncodeMember(m, d)|, d) && |EncodeMember(m, d)| > 0
    decreases m, 2
  {
    hide LaidValue, LaidString, LaidBare, Encode, EncodeString, EncodeMember, WellFormed, At, Spaces;
    var p, a, j := i + 2 * d, i + 2 * d + |EncodeString(m.key)|, i + |EncodeMember(m, d)|;
    MemberSlots(m, d, s, i);
    StringIsLaid(s, p, m.key);
    ValueIsLaid(m.value, d, s, a + 2);
    ValueOpens(m.value, d);
    Quoted(m.key);
    BareInParts(s, p, a, j, d);
  }

  lemma {:induction false} MembersAreLaid(ms: seq<Member>, d: nat, s: string, i: nat)
    requires ms != [] && (forall m | m in ms :: WellFormed(m.value)) && At(s, i, EncodeMembers(ms, d))
    ensures LaidMembers(s, i, i + |EncodeMembers(ms, d)|, d)
    decreases ms, 0
  {
    hide LaidMember, LaidMembers, EncodeMembers, EncodeMember, WellFormed;
    var element, rest := EncodeMember(ms[0], d), EncodeMembers(ms[1..], d);
    var k, j := i + |element|, i + |EncodeMembers(ms, d)|;
    MembersAreNotNothing(ms, d);
    if |ms| == 1 { NoMembersLeft(ms, d); } else { MembersAreNotNothing(ms[1..], d); }
    LineParts(s, i, element, |ms| == 1, rest);
    MemberIsLaid(ms[0], d, s, i);
    if |ms| > 1 { MembersAreLaid(ms[1..], d, s, k + 2); }
    MembersInParts(s, i, k, j, d);
  }

  lemma NoMembersLeft(ms: seq<Member>, d: nat)
    requires |ms| == 1
    ensures EncodeMembers(ms[1..], d) == []
  {}

  lemma NoItemsLeft(ns: seq<Node>, d: nat)
    requires |ns| == 1
    ensures EncodeItems(ns[1..], d) == []
  {}

  lemma ItemIsLaid(n: Node, d: nat, s: string, i: nat)
    requires WellFormed(n) && At(s, i, Indent(d) + Encode(n, d))
    ensures LaidItem(s, i, i + |Indent(d) + Encode(n, d)|, d) && |Encode(n, d)| > 0
    decreases n, 2
  {
    hide LaidValue, Encode, WellFormed, Indent;
    Indented(s, i, d, Encode(n, d));
    ValueOpens(n, d);
    ValueIsLaid(n, d, s, i + 2 * d);
  }

  lemma {:induction false} ItemsAreLaid(ns: seq<Node>, d: nat, s: string, i: nat)
    requires ns != [] && (forall n | n in ns :: WellFormed(n)) && At(s, i, EncodeItems(ns, d))
    ensures LaidItems(s, i, i + |EncodeItems(ns, d)|, d)
    decreases ns, 0
  {
    hide LaidItem, LaidItems, EncodeItems, Encode, Indent, WellFormed;
    var element, rest := Indent(d) + Encode(ns[0], d), EncodeItems(ns[1..], d);
    var k, j := i + |element|, i + |EncodeItems(ns, d)|;
    ItemsAreNotNothing(ns, d);
    if |ns| == 1 { NoItemsLeft(ns, d); } else { ItemsAreNotNothing(ns[1..], d); }
    LineParts(s, i, element, |ns| == 1, rest);
    ItemIsLaid(ns[0], d, s, i);
    if |ns| > 1 { ItemsAreLaid(ns[1..], d, s, k + 2); }
    ItemsInParts(s, i, k, j, d);
  }

  // ---- What is laid out is printed -------------------------------------------------------

  lemma LaidScalarIs(s: string, i: nat, j: nat)
    requires i < j <= |s| && (DerivesName(s, i, j) || DerivesNumber(s, i, j) || LaidString(s, i, j))
    ensures IsScalar(s[i..j])
  {
    if DerivesNumber(s, i, j) {
      NumberIsDerivedAnywhere(s, i, s[i..j]);
    } else if LaidString(s, i, j) {
      var v := LaidStringSpells(s, i, j);
    }
  }

  lemma BlockText(s: string, i: nat, j: nat, d: nat, open: char, close: char, body: string)
    requires LaidBlock(s, i, j, d, open, close) && s[i + 2..j - 1 - 2 * d] == body
    ensures s[i..j] == [open, '\n'] + body + Indent(d) + [close]
  {
    var e := j - 1 - 2 * d;
    Cut(s, i, i + 2, j);
    Cut(s, i + 2, e, j);
    Cut(s, e, j - 1, j);
    SpacesAreIndent(s, e, d);
    assert s[i..i + 2] == [open, '\n'] && s[j - 1..j] == [close];
  }

  lemma {:induction false} LaidValuePrints(s: string, i: nat, j: nat, d: nat) returns (n: Node)
    requires LaidValue(s, i, j, d)
    ensures WellFormed(n) && s[i..j] == Encode(n, d)
    decreases j - i, 0
  {
    hide LaidMembers, LaidItems, LaidString, DerivesName, DerivesNumber, Spaces, IsScalar, EncodeMembers, EncodeItems;
    if DerivesName(s, i, j) || DerivesNumber(s, i, j) || LaidString(s, i, j) {
      LaidScalarIs(s, i, j);
      n := Scalar(s[i..j]);
    } else if j == i + 2 && s[i] == '{' && s[i + 1] == '}' {
      n := Object([]);
    } else if j == i + 2 && s[i] == '[' && s[i + 1] == ']' {
      n := Array([]);
    } else if LaidBlock(s, i, j, d, '{', '}') && LaidMembers(s, i + 2, j - 1 - 2 * d, d + 1) {
      var ms := LaidMembersPrint(s, i + 2, j - 1 - 2 * d, d + 1);
      n := Object(ms);
      BlockText(s, i, j, d, '{', '}', EncodeMembers(ms, d + 1));
    } else {
      var ns := LaidItemsPrint(s, i + 2, j - 1 - 2 * d, d + 1);
      n := Array(ns);
      BlockText(s, i, j, d, '[', ']', EncodeItems(ns, d + 1));
    }
  }

  lemma BareSplit(s: string, i: nat, j: nat, d: nat) returns (a: nat)
    requires LaidBare(s, i, j, d)
    ensures i < a && a + 2 <= j <= |s| && LaidString(s, i, a) && s[a] == ':' && s[a + 1] == ' ' && LaidValue(s, a + 2, j, d)
  {
    hide LaidString, LaidValue;
    a :| i < a && a + 2 <= j && LaidString(s, i, a) && s[a] == ':' && s[a + 1] == ' ' && LaidValue(s, a + 2, j, d);
  }

  lemma LaidMemberPrints(s: string, i: nat, j: nat, d: nat) returns (m: Member)
    requires LaidMember(s, i, j, d)
    ensures j <= |s| && WellFormed(m.value) && s[i..j] == EncodeMember(m, d)
    decreases j - i, 1
  {
    hide LaidString, LaidValue, LaidBare, WellFormed, Encode, EncodeString, Indent;
    var p := i + 2 * d;
    var a := BareSplit(s, p, j, d);
    var key := LaidStringSpells(s, p, a);
    var value := LaidValuePrints(s, a + 2, j, d);
    m := Member(key, value);
    SpacesAreIndent(s, i, d);
    Cut(s, i, p, j);
    Cut(s, p, a, j);
    Cut(s, a, a + 2, j);
    assert s[a..a + 2] == [':', ' '];
    assert s[p..j] == BareMember(m, d);
    MemberIsIndented(m, d);
  }

  lemma LineText(s: string, i: nat, k: nat, j: nat, last: bool)
    requires i < k < j <= |s| && (if last then k + 1 == j && s[k] == '\n' else k + 2 <= j && s[k] == ',' && s[k + 1] == '\n')
    ensures s[i..j] == s[i..k] + Separator(last) + if last then [] else s[k + 2..j]
  {
    Cut(s, i, k, j);
    if !last {
      Cut(s, k, k + 2, j);
      assert s[k..k + 2] == [',', '\n'];
    } else {
      assert s[k..j] == ['\n'];
    }
  }

  lemma {:induction false} LaidMembersPrint(s: string, i: nat, j: nat, d: nat) returns (ms: seq<Member>)
    requires LaidMembers(s, i, j, d)
    ensures j <= |s| && i <= j && ms != [] && (forall m | m in ms :: WellFormed(m.value)) && s[i..j] == EncodeMembers(ms, d)
    decreases j - i, 2
  {
    hide LaidMember, EncodeMembers, EncodeMember, WellFormed;
    var k :| i < k < j && LaidMember(s, i, k, d)
             && ((k + 1 == j && s[k] == '\n') || (k + 2 < j && s[k] == ',' && s[k + 1] == '\n' && LaidMembers(s, k + 2, j, d)));
    var first := LaidMemberPrints(s, i, k, d);
    if k + 1 == j && s[k] == '\n' {
      ms := [first];
      LineText(s, i, k, j, true);
      NoMembersLeft(ms, d);
    } else {
      var rest := LaidMembersPrint(s, k + 2, j, d);
      ms := [first] + rest;
      assert ms[1..] == rest;
      LineText(s, i, k, j, false);
    }
    MembersAreNotNothing(ms, d);
  }

  lemma LaidItemPrints(s: string, i: nat, j: nat, d: nat) returns (n: Node)
    requires LaidItem(s, i, j, d)
    ensures j <= |s| && WellFormed(n) && s[i..j] == Indent(d) + Encode(n, d)
    decreases j - i, 1
  {
    hide LaidValue, WellFormed, Encode, Indent;
    LaidValueFits(s, i + 2 * d, j, d);
    n := LaidValuePrints(s, i + 2 * d, j, d);
    SpacesAreIndent(s, i, d);
    Cut(s, i, i + 2 * d, j);
  }

  lemma LaidValueFits(s: string, i: nat, j: nat, d: nat)
    requires LaidValue(s, i, j, d)
    ensures i < j <= |s|
  {}

  lemma {:induction false} LaidItemsPrint(s: string, i: nat, j: nat, d: nat) returns (ns: seq<Node>)
    requires LaidItems(s, i, j, d)
    ensures j <= |s| && i <= j && ns != [] && (forall n | n in ns :: WellFormed(n)) && s[i..j] == EncodeItems(ns, d)
    decreases j - i, 2
  {
    hide LaidItem, EncodeItems, Encode, Indent, WellFormed;
    var k :| i < k < j && LaidItem(s, i, k, d)
             && ((k + 1 == j && s[k] == '\n') || (k + 2 < j && s[k] == ',' && s[k + 1] == '\n' && LaidItems(s, k + 2, j, d)));
    var first := LaidItemPrints(s, i, k, d);
    if k + 1 == j && s[k] == '\n' {
      ns := [first];
      LineText(s, i, k, j, true);
      NoItemsLeft(ns, d);
    } else {
      var rest := LaidItemsPrint(s, k + 2, j, d);
      ns := [first] + rest;
      assert ns[1..] == rest;
      LineText(s, i, k, j, false);
    }
    ItemsAreNotNothing(ns, d);
  }

  // ---- The main results ------------------------------------------------------------------

  /** A text is laid out exactly when it is what the printer makes of some well-formed tree. */
  lemma LaidOutIsPrinted(s: string)
    ensures LaidOut(s) <==> exists n :: WellFormed(n) && s == EncodeDocument(n)
  {
    hide LaidValue, Encode, WellFormed;
    if LaidOut(s) {
      var n := LaidValuePrints(s, 0, |s| - 1, 0);
      Cut(s, 0, |s| - 1, |s|);
      assert s[0..|s|] == s && s[|s| - 1..|s|] == ['\n'];
      assert s == EncodeDocument(n);
    }
    forall n | WellFormed(n) && s == EncodeDocument(n) ensures LaidOut(s) {
      Whole(s);
      Parts(s, 0, Encode(n, 0), ['\n']);
      ValueIsLaid(n, 0, s, 0);
    }
  }

  /** A document is accepted and rewritten byte for byte if and only if it is laid out. */
  lemma ByteIdenticalIff(s: string)
    ensures ParseDocument(s).Some? && EncodeDocument(ParseDocument(s).value) == s <==> LaidOut(s)
  {
    hide LaidOut, WellFormed, EncodeDocument, ParseValue;
    LaidOutIsPrinted(s);
    if ParseDocument(s).Some? { ValueIsWellFormed(s, 0); }
    forall n | WellFormed(n) && s == EncodeDocument(n) ensures ParseDocument(s) == Some(n) { ParseUndoesEncode(n); }
  }
}
