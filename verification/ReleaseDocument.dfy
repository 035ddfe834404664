/**
 Order-preserving reading and writing of the release documents: a tree whose
 printer lays it out with two-space indentation, and a parser over positions in
 the text. Text is a sequence of Unicode scalar values.
 */
module ReleaseDocument {
  import opened Wrappers

  datatype Node = Scalar(text: string) | Object(members: seq<Member>) | Array(items: seq<Node>)

  datatype Member = Member(key: string, value: Node)

  // ---- Strings ---------------------------------------------------------------------------

  const QUOTE: char := '"'
  const BACKSLASH: char := '\\'
  const REPLACEMENT: char := '\U{FFFD}'

  predicate Plain(c: char) {
    c as int >= 0x20 && c != QUOTE && c != BACKSLASH && c as int != 0x2028 && c as int != 0x2029
  }

  function HexDigit(n: nat): char
    requires n < 16
  {
    if n < 10 then (n + 48) as char else (n + 87) as char
  }

  function HexValue(c: char): Option<nat> {
    var n := c as int;
    if 48 <= n <= 57 then Some(n - 48) else if 97 <= n <= 102 then Some(n - 87) else if 65 <= n <= 70 then Some(n - 55) else None
  }

  function HexEscape(n: nat): string
    requires n < 0x10000
  {
    [BACKSLASH, 'u', HexDigit(n / 4096), HexDigit(n / 256 % 16), HexDigit(n / 16 % 16), HexDigit(n % 16)]
  }

  /** The letter of a two-character escape. */
  function ShortEscape(c: char): Option<char> {
    if c == QUOTE || c == BACKSLASH then Some(c)
    else if c as int == 8 then Some('b')
    else if c as int == 12 then Some('f')
    else if c as int == 10 then Some('n')
    else if c as int == 13 then Some('r')
    else if c as int == 9 then Some('t')
    else None
  }

  function Escape(c: char): (e: string)
    ensures |e| > 0 && e[0] != QUOTE && e[0] as int >= 0x20
  {
    if Plain(c) then [c]
    else if ShortEscape(c).Some? then [BACKSLASH, ShortEscape(c).value]
    else HexEscape(c as int)
  }

  function EncodeChars(v: string): string { if v == [] then [] else Escape(v[0]) + EncodeChars(v[1..]) }

  function EncodeString(v: string): string { [QUOTE] + EncodeChars(v) + [QUOTE] }

  // ---- Printing --------------------------------------------------------------------------

  function Indent(d: nat): string { if d == 0 then [] else [' ', ' '] + Indent(d - 1) }

  function Separator(last: bool): string { if last then ['\n'] else [',', '\n'] }

  function Encode(n: Node, d: nat): string
    decreases n
  {
    match n
    case Scalar(text) => text
    case Object(members) => if members == [] then ['{', '}'] else ['{', '\n'] + EncodeMembers(members, d + 1) + Indent(d) + ['}']
    case Array(items) => if items == [] then ['[', ']'] else ['[', '\n'] + EncodeItems(items, d + 1) + Indent(d) + [']']
  }

  function EncodeMember(m: Member, d: nat): string
    decreases m
  {
    Indent(d) + EncodeString(m.key) + [':', ' '] + Encode(m.value, d)
  }

  function EncodeMembers(ms: seq<Member>, d: nat): string
    decreases ms
  {
    if ms == [] then [] else EncodeMember(ms[0], d) + Separator(|ms| == 1) + EncodeMembers(ms[1..], d)
  }

  function EncodeItems(ns: seq<Node>, d: nat): string
    decreases ns
  {
    if ns == [] then [] else Indent(d) + Encode(ns[0], d) + Separator(|ns| == 1) + EncodeItems(ns[1..], d)
  }

  function EncodeDocument(n: Node): string { Encode(n, 0) + ['\n'] }

  // ---- Reading scalars -------------------------------------------------------------------

  predicate Space(c: char) { c == ' ' || c == '\t' || c == '\r' || c == '\n' }

  function SkipSpace(s: string, i: nat): (j: nat)
    requires i <= |s|
    ensures i <= j <= |s|
    decreases |s| - i
  {
    if i < |s| && Space(s[i]) then SkipSpace(s, i + 1) else i
  }

  function HexAt(s: string, i: nat): Option<nat> {
    if i + 4 > |s| then None
    else if HexValue(s[i]).None? || HexValue(s[i + 1]).None? || HexValue(s[i + 2]).None? || HexValue(s[i + 3]).None? then None
    else Some(((HexValue(s[i]).value * 16 + HexValue(s[i + 1]).value) * 16 + HexValue(s[i + 2]).value) * 16 + HexValue(s[i + 3]).value)
  }

  predicate HighSurrogate(n: int) { 0xD800 <= n < 0xDC00 }
  predicate LowSurrogate(n: int) { 0xDC00 <= n < 0xE000 }

  lemma HexIsBounded(s: string, i: nat)
    ensures HexAt(s, i).Some? ==> HexAt(s, i).value < 0x10000
  {}

  /** A \u escape: one scalar value, a surrogate pair, or half a pair, which reads as the replacement character. */
  function UnicodeAt(s: string, i: nat): Option<(char, nat)>
    requires i + 2 <= |s|
  {
    HexIsBounded(s, i + 2);
    HexIsBounded(s, i + 8);
    var first := HexAt(s, i + 2);
    if first.None? then None
    else if HighSurrogate(first.value) then
      var second := if i + 8 <= |s| && s[i + 6] == BACKSLASH && s[i + 7] == 'u' then HexAt(s, i + 8) else None;
      if second.Some? && LowSurrogate(second.value)
      then Some(((0x10000 + (first.value - 0xD800) * 0x400 + (second.value - 0xDC00)) as char, i + 12))
      else Some((REPLACEMENT, i + 6))
    else if LowSurrogate(first.value) then Some((REPLACEMENT, i + 6))
    else Some((first.value as char, i + 6))
  }

  function EscapeAt(s: string, i: nat): Option<(char, nat)>
    requires i < |s|
  {
    if i + 1 >= |s| then None
    else
      var c := s[i + 1];
      if c == QUOTE || c == BACKSLASH || c == '/' then Some((c, i + 2))
      else if c == 'b' then Some((8 as char, i + 2))
      else if c == 'f' then Some((12 as char, i + 2))
      else if c == 'n' then Some((10 as char, i + 2))
      else if c == 'r' then Some((13 as char, i + 2))
      else if c == 't' then Some((9 as char, i + 2))
      else if c == 'u' then UnicodeAt(s, i)
      else None
  }

  /** One character of a string's content, and where the next one starts. */
  function CharAt(s: string, i: nat): (r: Option<(char, nat)>)
    requires i < |s|
    ensures r.Some? ==> i < r.value.1 <= |s|
  {
    if s[i] as int < 0x20 then None
    else if s[i] == BACKSLASH then EscapeAt(s, i)
    else Some((s[i], i + 1))
  }

  /** The content of a string from just after its opening quote, and where its closing quote ends. */
  function ParseChars(s: string, i: nat): (r: Option<(string, nat)>)
    requires i <= |s|
    ensures r.Some? ==> i < r.value.1 <= |s|
    decreases |s| - i
  {
    if i == |s| then None
    else if s[i] == QUOTE then Some(([], i + 1))
    else
      var c := CharAt(s, i);
      if c.None? then None
      else
        var rest := ParseChars(s, c.value.1);
        if rest.None? then None else Some(([c.value.0] + rest.value.0, rest.value.1))
  }

  predicate Digit(c: char) { '0' <= c <= '9' }

  function DigitRun(s: string, i: nat): (j: nat)
    requires i <= |s|
    ensures i <= j <= |s|
    decreases |s| - i
  {
    if i < |s| && Digit(s[i]) then DigitRun(s, i + 1) else i
  }

  function IntegerEnd(s: string, i: nat): (r: Option<nat>)
    requires i <= |s|
    ensures r.Some? ==> i < r.value <= |s|
  {
    if i < |s| && s[i] == '0' then Some(i + 1)
    else if i < |s| && Digit(s[i]) then Some(DigitRun(s, i + 1))
    else None
  }

  function FractionEnd(s: string, i: nat): (r: Option<nat>)
    requires i <= |s|
    ensures r.Some? ==> i <= r.value <= |s|
  {
    if i == |s| || s[i] != '.' then Some(i)
    else if DigitRun(s, i + 1) == i + 1 then None
    else Some(DigitRun(s, i + 1))
  }

  function ExponentEnd(s: string, i: nat): (r: Option<nat>)
    requires i <= |s|
    ensures r.Some? ==> i <= r.value <= |s|
  {
    if i == |s| || (s[i] != 'e' && s[i] != 'E') then Some(i)
    else
      var k := if i + 1 < |s| && (s[i + 1] == '+' || s[i + 1] == '-') then i + 2 else i + 1;
      if DigitRun(s, k) == k then None else Some(DigitRun(s, k))
  }

  /** Where the number starting here ends; a number is read as far as it goes. */
  function NumberEnd(s: string, i: nat): (r: Option<nat>)
    requires i <= |s|
    ensures r.Some? ==> i < r.value <= |s|
  {
    var integer := IntegerEnd(s, if i < |s| && s[i] == '-' then i + 1 else i);
    if integer.None? then None
    else
      var fraction := FractionEnd(s, integer.value);
      if fraction.None? then None else ExponentEnd(s, fraction.value)
  }

  predicate At(s: string, i: nat, e: string) { i + |e| <= |s| && s[i..i + |e|] == e }

  const TRUE: string := ['t', 'r', 'u', 'e']
  const FALSE: string := ['f', 'a', 'l', 's', 'e']
  const NULL: string := ['n', 'u', 'l', 'l']

  /** The text of a number or of one of the three names, as it stands. */
  function LiteralAt(s: string, i: nat): (r: Option<string>)
    requires i <= |s|
    ensures r.Some? ==> |r.value| > 0 && At(s, i, r.value)
  {
    if At(s, i, TRUE) then Some(TRUE)
    else if At(s, i, FALSE) then Some(FALSE)
    else if At(s, i, NULL) then Some(NULL)
    else if NumberEnd(s, i).Some? then Some(s[i..NumberEnd(s, i).value])
    else None
  }

  // ---- Reading values --------------------------------------------------------------------

  /** A scalar starting exactly here. */
  function ParseScalar(s: string, i: nat): (r: Option<(Node, nat)>)
    requires i < |s|
    ensures r.Some? ==> i < r.value.1 <= |s|
  {
    if s[i] == QUOTE then
      var v := ParseChars(s, i + 1);
      if v.None? then None else Some((Scalar(EncodeString(v.value.0)), v.value.1))
    else
      var text := LiteralAt(s, i);
      if text.None? then None else Some((Scalar(text.value), i + |text.value|))
  }

  function ParseValue(s: string, i: nat): (r: Option<(Node, nat)>)
    requires i <= |s|
    ensures r.Some? ==> i < r.value.1 <= |s|
    decreases |s| - i, 2
  {
    var j := SkipSpace(s, i);
    if j == |s| then None
    else if s[j] == '{' then
      var ms := ParseMembers(s, j + 1, true);
      if ms.None? then None else Some((Object(ms.value.0), ms.value.1))
    else if s[j] == '[' then
      var ns := ParseItems(s, j + 1, true);
      if ns.None? then None else Some((Array(ns.value.0), ns.value.1))
    else ParseScalar(s, j)
  }

  /** Where the next element starts, past the comma that must precede it unless it is the first. */
  function ElementStart(s: string, i: nat, first: bool): (r: Option<nat>)
    requires i <= |s|
    ensures r.Some? ==> i <= r.value <= |s|
  {
    var j := SkipSpace(s, i);
    if first then Some(j) else if j < |s| && s[j] == ',' then Some(SkipSpace(s, j + 1)) else None
  }

  /** One member, from its key. */
  function ParseMember(s: string, i: nat): (r: Option<(Member, nat)>)
    requires i <= |s|
    ensures r.Some? ==> i < r.value.1 <= |s|
    decreases |s| - i, 0
  {
    if i == |s| || s[i] != QUOTE then None
    else
      var key := ParseChars(s, i + 1);
      if key.None? then None
      else
        var colon := SkipSpace(s, key.value.1);
        if colon == |s| || s[colon] != ':' then None
        else
          var value := ParseValue(s, colon + 1);
          if value.None? then None else Some((Member(key.value.0, value.value.0), value.value.1))
  }

  /** The members of an object up to and past its closing brace. */
  function ParseMembers(s: string, i: nat, first: bool): (r: Option<(seq<Member>, nat)>)
    requires i <= |s|
    ensures r.Some? ==> i < r.value.1 <= |s|
    decreases |s| - i, 1
  {
    var j := SkipSpace(s, i);
    if j < |s| && s[j] == '}' then Some(([], j + 1))
    else
      var start := ElementStart(s, i, first);
      if start.None? then None
      else
        var member := ParseMember(s, start.value);
        if member.None? then None
        else
          var rest := ParseMembers(s, member.value.1, false);
          if rest.None? then None else Some(([member.value.0] + rest.value.0, rest.value.1))
  }

  /** The items of an array up to and past its closing bracket. */
  function ParseItems(s: string, i: nat, first: bool): (r: Option<(seq<Node>, nat)>)
    requires i <= |s|
    ensures r.Some? ==> i < r.value.1 <= |s|
    decreases |s| - i, 3
  {
    var j := SkipSpace(s, i);
    if j < |s| && s[j] == ']' then Some(([], j + 1))
    else
      var start := ElementStart(s, i, first);
      if start.None? then None
      else
        var item := ParseValue(s, start.value);
        if item.None? then None
        else
          var rest := ParseItems(s, item.value.1, false);
          if rest.None? then None else Some(([item.value.0] + rest.value.0, rest.value.1))
  }

  /** Exactly one value, and nothing but space after it. */
  function ParseDocument(s: string): Option<Node> {
    var value := ParseValue(s, 0);
    if value.Some? && SkipSpace(s, value.value.1) == |s| then Some(value.value.0) else None
  }

  // ---- Well-formed trees -----------------------------------------------------------------

  predicate IsNumber(text: string) { NumberEnd(text, 0) == Some(|text|) }

  ghost predicate IsString(text: string) { exists v :: text == EncodeString(v) }

  /** The text of a scalar is a name, a number, or a string in its canonical spelling. */
  ghost predicate IsScalar(text: string) { text == TRUE || text == FALSE || text == NULL || IsNumber(text) || IsString(text) }

  ghost predicate WellFormed(n: Node) {
    match n
    case Scalar(text) => IsScalar(text)
    case Object(members) => forall m | m in members :: WellFormed(m.value)
    case Array(items) => forall x | x in items :: WellFormed(x)
  }
}
