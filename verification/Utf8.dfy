/** Byte strings: UTF-8 validity (section 3 of RFC 3629), rune boundaries, and replacing one byte string by another. */
module Utf8 {
  import opened Wrappers

  type Byte = x: int | 0 <= x < 256
  type Bytes = seq<Byte>

  predicate Continuation(b: Byte) { 0x80 <= b < 0xC0 }

  predicate RuneStart(b: Byte) { !Continuation(b) }

  /** What the byte after this lead byte may be. */
  predicate Second(lead: Byte, b: Byte) {
    if lead == 0xE0 then 0xA0 <= b < 0xC0
    else if lead == 0xED then 0x80 <= b < 0xA0
    else if lead == 0xF0 then 0x90 <= b < 0xC0
    else if lead == 0xF4 then 0x80 <= b < 0x90
    else Continuation(b)
  }

  /** How many bytes a rune with this lead byte takes; 0 when no rune starts so. */
  function Announced(lead: Byte): nat {
    if lead < 0x80 then 1
    else if 0xC2 <= lead < 0xE0 then 2
    else if 0xE0 <= lead < 0xF0 then 3
    else if 0xF0 <= lead < 0xF5 then 4
    else 0
  }

  /** The bytes of one whole rune at the front of s, or 0. */
  function RuneLength(s: Bytes): (n: nat)
    ensures n <= 4 && n <= |s|
  {
    if s == [] then 0
    else
      var n := Announced(s[0]);
      if n > |s| then 0
      else if n >= 2 && !Second(s[0], s[1]) then 0
      else if n >= 3 && !Continuation(s[2]) then 0
      else if n == 4 && !Continuation(s[3]) then 0
      else n
  }

  predicate Valid(s: Bytes) { s == [] || (RuneLength(s) > 0 && Valid(s[RuneLength(s)..])) }

  /** A position between two runes, or at either end. */
  predicate Boundary(s: Bytes, p: nat) { p == |s| || (p < |s| && RuneStart(s[p])) }

  // ---- Runes -----------------------------------------------------------------------------

  lemma RuneShape(s: Bytes)
    requires RuneLength(s) > 0
    ensures RuneStart(s[0]) && forall k | 0 < k < RuneLength(s) :: Continuation(s[k])
  {}

  /** A rune is recognised from its own bytes alone. */
  lemma SameRune(s: Bytes, t: Bytes)
    requires RuneLength(s) > 0 && RuneLength(s) <= |t| && t[..RuneLength(s)] == s[..RuneLength(s)]
    ensures RuneLength(t) == RuneLength(s)
  {
    forall k | 0 <= k < RuneLength(s) ensures t[k] == s[k] { assert t[..RuneLength(s)][k] == s[..RuneLength(s)][k]; }
  }

  /** A rune cut short is not completed by anything that starts a new one. */
  lemma CutRune(s: Bytes, p: nat, t: Bytes)
    requires 0 < p < RuneLength(s) && (t == [] || RuneStart(t[0]))
    ensures RuneLength(s[..p] + t) == 0
  {
    var u := s[..p] + t;
    assert u[0] == s[0];
    if t != [] { assert u[p] == t[0]; }
    forall k | 0 <= k < p ensures u[k] == s[k] {}
  }

  lemma {:induction false} ValidStarts(s: Bytes)
    requires Valid(s) && s != []
    ensures RuneStart(s[0])
  {
    RuneShape(s);
  }

  lemma Slices(s: Bytes, n: nat, p: nat)
    requires n <= p <= |s|
    ensures s[n..][..p - n] == s[..p][n..] && s[n..][p - n..] == s[p..] && s[..p][..n] == s[..n]
  {}

  lemma DropJoined(a: Bytes, b: Bytes, n: nat)
    requires n <= |a|
    ensures (a + b)[n..] == a[n..] + b && (a + b)[..n] == a[..n]
  {}

  /** Whatever follows it, a valid string cut inside a rune stays broken unless a continuation follows. */
  lemma {:induction false} CutStaysBroken(s: Bytes, p: nat, t: Bytes)
    requires Valid(s) && p <= |s| && !Boundary(s, p) && (t == [] || RuneStart(t[0]))
    ensures !Valid(s[..p] + t)
    decreases |s|
  {
    var n := RuneLength(s);
    ValidStarts(s);
    if p < n {
      CutRune(s, p, t);
    } else {
      var u := s[..p] + t;
      assert u[..n] == s[..n];
      SameRune(s, u);
      DropJoined(s[..p], t, n);
      Slices(s, n, p);
      CutStaysBroken(s[n..], p - n, t);
    }
  }

  /** A valid string splits into valid parts at every boundary. */
  lemma {:induction false} SplitsValid(s: Bytes, p: nat)
    requires Valid(s) && p <= |s| && Boundary(s, p)
    ensures Valid(s[..p]) && Valid(s[p..])
    decreases |s|
  {
    if p == 0 {
      assert s[0..] == s;
    } else {
      var n := RuneLength(s);
      RuneShape(s);
      assert p >= n;
      Slices(s, n, p);
      SplitsValid(s[n..], p - n);
      SameRune(s, s[..p]);
    }
  }

  /** The valid prefixes of a valid string are those that end at a boundary. */
  lemma PrefixIsValidIff(s: Bytes, p: nat)
    requires Valid(s) && p <= |s|
    ensures Valid(s[..p]) <==> Boundary(s, p)
  {
    if Boundary(s, p) {
      SplitsValid(s, p);
    } else {
      CutStaysBroken(s, p, []);
      assert s[..p] + [] == s[..p];
    }
  }

  lemma {:induction false} JoinsValid(a: Bytes, b: Bytes)
    requires Valid(a) && Valid(b)
    ensures Valid(a + b)
    decreases |a|
  {
    if a == [] {
      assert a + b == b;
    } else {
      var n := RuneLength(a);
      assert (a + b)[..n] == a[..n];
      SameRune(a, a + b);
      assert (a + b)[n..] == a[n..] + b;
      JoinsValid(a[n..], b);
    }
  }

  // ---- Truncation ------------------------------------------------------------------------

  /** p is the longest prefix of s that fits and is valid. */
  ghost predicate LongestValidPrefix(s: Bytes, maximum: nat, p: nat) {
    && p <= |s| && p <= maximum && Valid(s[..p])
    && forall q | p < q <= |s| && q <= maximum :: !Valid(s[..q])
  }

  /** Where truncation cuts: the last boundary that fits. */
  function Cut(s: Bytes, maximum: nat): (p: nat)
    ensures p <= |s| && p <= maximum
    decreases maximum
  {
    if maximum >= |s| then |s| else if maximum == 0 || RuneStart(s[maximum]) then maximum else Cut(s, maximum - 1)
  }

  method Truncate(value: Bytes, maximum: nat) returns (result: Bytes)
    ensures result == value[..Cut(value, maximum)]
    ensures Valid(value) ==> LongestValidPrefix(value, maximum, |result|)
  {
    if Valid(value) { CutIsLongest(value, maximum); }
    if maximum >= |value| {
      return value;
    }
    var end := maximum;
    while end > 0 && !RuneStart(value[end])
      invariant 0 <= end < |value| && Cut(value, end) == Cut(value, maximum)
    {
      end := end - 1;
    }
    return value[..end];
  }

  /** Truncating valid text keeps the longest valid prefix that fits. */
  lemma {:induction false} CutIsLongest(s: Bytes, maximum: nat)
    requires Valid(s)
    ensures LongestValidPrefix(s, maximum, Cut(s, maximum))
    decreases maximum
  {
    var p := Cut(s, maximum);
    if maximum >= |s| {
      assert s[..|s|] == s;
    } else if maximum == 0 || RuneStart(s[maximum]) {
      if maximum > 0 { PrefixIsValidIff(s, maximum); }
    } else {
      CutIsLongest(s, maximum - 1);
      PrefixIsValidIff(s, maximum);
    }
  }

  // ---- Replacement -----------------------------------------------------------------------

  predicate OccursAt(s: Bytes, i: nat, sub: Bytes) { i + |sub| <= |s| && s[i..i + |sub|] == sub }

  predicate Contains(s: Bytes, sub: Bytes) { exists i: nat | i <= |s| :: OccursAt(s, i, sub) }

  /** The first occurrence at or after i. */
  function IndexFrom(s: Bytes, i: nat, sub: Bytes): (r: Option<nat>)
    requires i <= |s|
    ensures r.Some? ==> i <= r.value && r.value + |sub| <= |s|
    ensures r.Some? ==> OccursAt(s, r.value, sub) && forall j | i <= j < r.value :: !OccursAt(s, j, sub)
    ensures r.None? ==> forall j | i <= j <= |s| :: !OccursAt(s, j, sub)
    decreases |s| - i
  {
    if OccursAt(s, i, sub) then Some(i) else if i == |s| then None else IndexFrom(s, i + 1, sub)
  }

  /** Every non-overlapping occurrence replaced, from the left, and how many there were. */
  function Replace(s: Bytes, sub: Bytes, marker: Bytes): (r: (Bytes, nat))
    requires sub != []
    ensures r.1 == 0 <==> !Contains(s, sub)
    ensures r.1 == 0 ==> r.0 == s
    decreases |s|
  {
    var i := IndexFrom(s, 0, sub);
    if i.None? then (s, 0)
    else
      var (rest, count) := Replace(s[i.value + |sub|..], sub, marker);
      (s[..i.value] + marker + rest, count + 1)
  }

  lemma ReplaceStep(s: Bytes, sub: Bytes, marker: Bytes)
    requires sub != []
    ensures var i := IndexFrom(s, 0, sub);
            && (i.None? ==> Replace(s, sub, marker) == (s, 0))
            && (i.Some? ==> var tail := Replace(s[i.value + |sub|..], sub, marker);
                            Replace(s, sub, marker) == (s[..i.value] + marker + tail.0, tail.1 + 1))
  {
    hide Contains, OccursAt, IndexFrom;
  }

  lemma Regroup(a: Bytes, b: Bytes, c: Bytes, d: Bytes)
    ensures a + (b + c + d) == a + b + c + d
  {}

  method ReplaceAll(s: Bytes, sub: Bytes, marker: Bytes) returns (result: Bytes, count: nat)
    requires sub != []
    ensures (result, count) == Replace(s, sub, marker)
  {
    hide Replace;
    result, count := [], 0;
    var rest := s;
    while true
      invariant result + Replace(rest, sub, marker).0 == Replace(s, sub, marker).0 && count + Replace(rest, sub, marker).1 == Replace(s, sub, marker).1
      decreases |rest|
    {
      var i := IndexFrom(rest, 0, sub);
      ReplaceStep(rest, sub, marker);
      if i.None? {
        result := result + rest;
        return;
      }
      Regroup(result, rest[..i.value], marker, Replace(rest[i.value + |sub|..], sub, marker).0);
      result := result + rest[..i.value] + marker;
      rest, count := rest[i.value + |sub|..], count + 1;
    }
  }

  lemma PrefixContains(s: Bytes, p: nat, sub: Bytes)
    requires p <= |s| && Contains(s[..p], sub)
    ensures Contains(s, sub)
  {
    var i: nat :| i <= |s[..p]| && OccursAt(s[..p], i, sub);
    assert s[..p][i..i + |sub|] == s[i..i + |sub|];
    assert OccursAt(s, i, sub);
  }

  /** In valid text a valid string occurs only between boundaries. */
  lemma OccursBetweenBoundaries(s: Bytes, i: nat, sub: Bytes)
    requires Valid(s) && Valid(sub) && sub != [] && OccursAt(s, i, sub)
    ensures Valid(s[..i]) && Valid(s[i + |sub|..])
  {
    ValidStarts(sub);
    assert s[i] == sub[0] by { assert s[i..i + |sub|][0] == s[i]; }
    SplitsValid(s, i);
    assert s[i..][..|sub|] == sub;
    PrefixIsValidIff(s[i..], |sub|);
    SplitsValid(s[i..], |sub|);
    assert s[i..][|sub|..] == s[i + |sub|..];
  }

  /** Replacing valid by valid in valid text leaves valid text. */
  lemma {:induction false} ReplacingKeepsValid(s: Bytes, sub: Bytes, marker: Bytes)
    requires Valid(s) && Valid(sub) && sub != [] && Valid(marker)
    ensures Valid(Replace(s, sub, marker).0)
    decreases |s|
  {
    hide Valid, Replace, OccursAt;
    var i := IndexFrom(s, 0, sub);
    ReplaceStep(s, sub, marker);
    if i.Some? {
      var tail := s[i.value + |sub|..];
      OccursBetweenBoundaries(s, i.value, sub);
      ReplacingKeepsValid(tail, sub, marker);
      JoinsValid(s[..i.value], marker);
      JoinsValid(s[..i.value] + marker, Replace(tail, sub, marker).0);
    }
  }

  lemma StartsElsewhere(s: Bytes, i: nat, sub: Bytes)
    requires OccursAt(s, i, sub) && sub != [] && RuneStart(sub[0]) && Continuation(s[0])
    ensures i > 0
  {
    assert s[i..i + |sub|][0] == s[i];
  }

  /** Text whose next byte continues a rune does not come to start one by replacing something that starts a rune. */
  lemma ReplacingKeepsContinuation(s: Bytes, sub: Bytes, marker: Bytes)
    requires sub != [] && RuneStart(sub[0]) && s != [] && Continuation(s[0])
    ensures Replace(s, sub, marker).0 != [] && Continuation(Replace(s, sub, marker).0[0])
  {
    var i := IndexFrom(s, 0, sub);
    if i.Some? {
      StartsElsewhere(s, i.value, sub);
      assert (s[..i.value] + marker + Replace(s[i.value + |sub|..], sub, marker).0)[0] == s[0];
    }
  }

  /**
   Redacting one string from valid text leaves valid text exactly when the string is itself valid or
   does not occur: half a rune cannot be taken out without breaking the other half.
   */
  lemma RedactionStaysValidIff(s: Bytes, sub: Bytes, marker: Bytes)
    requires Valid(s) && sub != [] && Valid(marker) && marker != []
    ensures Valid(Replace(s, sub, marker).0) <==> Valid(sub) || !Contains(s, sub)
  {
    if Valid(sub) {
      ReplacingKeepsValid(s, sub, marker);
    } else if Contains(s, sub) {
      InvalidRedactionBreaks(s, sub, marker);
    }
  }

  lemma {:induction false} AsciiIsValid(s: Bytes)
    requires forall i | 0 <= i < |s| :: s[i] < 0x80
    ensures Valid(s)
    decreases |s|
  {
    if s != [] { AsciiIsValid(s[1..]); }
  }

  /** So it happens: taking the first half of a two-byte rune out of a text leaves the other half behind the marker. */
  lemma HalfARune(marker: Bytes)
    requires marker != [] && forall i | 0 <= i < |marker| :: marker[i] < 0x80
    ensures Valid([0xC3, 0xA9]) && Replace([0xC3, 0xA9], [0xC3], marker) == (marker + [0xA9], 1)
    ensures !Valid(marker + [0xA9]) && !Contains(marker + [0xA9], [0xC3])
  {
    var s: Bytes, tail: Bytes, broken: Bytes := [0xC3, 0xA9], [0xA9], marker + [0xA9];
    assert s[0..1] == [0xC3] && s[1..] == tail && s[..0] + marker + tail == broken;
    assert s[2..] == [] && RuneLength(s) == 2;
    assert OccursAt(s, 0, [0xC3]) && !OccursAt(tail, 0, [0xC3]) && !OccursAt(tail, 1, [0xC3]);
    assert IndexFrom(tail, 0, [0xC3]) == None;
    AsciiIsValid(marker);
    ContinuationBreaks(marker, [0xA9]);
    forall i: nat | i <= |broken| ensures !OccursAt(broken, i, [0xC3]) {
      if i < |broken| { assert broken[i..i + 1][0] == broken[i]; }
    }
  }

  /** Valid text is not followed by a continuation byte in valid text. */
  lemma ContinuationBreaks(a: Bytes, b: Bytes)
    requires Valid(a) && b != [] && Continuation(b[0])
    ensures !Valid(a + b)
  {
    if Valid(a + b) {
      assert (a + b)[..|a|] == a && (a + b)[|a|] == b[0];
      PrefixIsValidIff(a + b, |a|);
    }
  }

  /** What follows an invalid string that occurs at a boundary continues a rune. */
  lemma InvalidEndsInsideRune(s: Bytes, i: nat, sub: Bytes)
    requires Valid(s) && sub != [] && !Valid(sub) && OccursAt(s, i, sub) && Boundary(s, i)
    ensures Valid(s[..i]) && RuneStart(sub[0]) && s[i + |sub|..] != [] && Continuation(s[i + |sub|..][0])
  {
    SplitsValid(s, i);
    assert s[i..i + |sub|][0] == s[i];
    assert s[i..][..|sub|] == sub;
    PrefixIsValidIff(s[i..], |sub|);
  }

  /** Cut before something invalid, marked, and followed by the rest of a broken rune: it stays broken. */
  lemma MarkingStaysBroken(s: Bytes, i: nat, sub: Bytes, marker: Bytes, rest: Bytes)
    requires Valid(s) && sub != [] && !Valid(sub) && OccursAt(s, i, sub) && Valid(marker) && marker != []
    requires Boundary(s, i) ==> rest != [] && Continuation(rest[0])
    ensures !Valid(s[..i] + marker + rest)
  {
    if Boundary(s, i) {
      hide *;
      SplitsValid(s, i);
      JoinsValid(s[..i], marker);
      ContinuationBreaks(s[..i] + marker, rest);
    } else {
      ValidStarts(marker);
      hide Valid, OccursAt;
      assert s[..i] + marker + rest == s[..i] + (marker + rest);
      CutStaysBroken(s, i, marker + rest);
    }
  }

  lemma FirstOccurrence(s: Bytes, sub: Bytes) returns (i: nat)
    requires Contains(s, sub)
    ensures IndexFrom(s, 0, sub) == Some(i) && OccursAt(s, i, sub)
  {
    i := IndexFrom(s, 0, sub).value;
  }

  lemma InvalidRedactionBreaks(s: Bytes, sub: Bytes, marker: Bytes)
    requires Valid(s) && sub != [] && !Valid(sub) && Contains(s, sub) && Valid(marker) && marker != []
    ensures !Valid(Replace(s, sub, marker).0)
  {
    hide *;
    var i := FirstOccurrence(s, sub);
    var tail := s[i + |sub|..];
    ReplaceStep(s, sub, marker);
    if Boundary(s, i) {
      InvalidEndsInsideRune(s, i, sub);
      ReplacingKeepsContinuation(tail, sub, marker);
    }
    MarkingStaysBroken(s, i, sub, marker, Replace(tail, sub, marker).0);
  }
}
