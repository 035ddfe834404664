/** Reading and rewriting single members: an edit changes the member it names and nothing else. */
module ReleaseDocumentEdits {
  import opened Wrappers
  import opened ReleaseDocument
  import opened ReleaseDocumentRoundTrip

  datatype Problem = NotAnObject | NotPresent | NotAScalar | NotAString

  /** The first member under a key. */
  function IndexOf(ms: seq<Member>, key: string): (r: Option<nat>)
    ensures r.Some? ==> r.value < |ms| && ms[r.value].key == key && forall i | 0 <= i < r.value :: ms[i].key != key
    ensures r.None? ==> forall i | 0 <= i < |ms| :: ms[i].key != key
  {
    if ms == [] then None
    else if ms[0].key == key then Some(0)
    else
      var r := IndexOf(ms[1..], key);
      if r.None? then None else Some(r.value + 1)
  }

  function Child(n: Node, path: seq<string>): Result<Node, Problem>
    decreases |path|
  {
    if path == [] then Ok(n)
    else if !n.Object? then Err(NotAnObject)
    else
      var i := IndexOf(n.members, path[0]);
      if i.None? then Err(NotPresent) else Child(n.members[i.value].value, path[1..])
  }

  /** The string a scalar's text stands for; null reads as the empty string, as it does for the decoder. */
  function Decoded(text: string): Result<string, Problem> {
    if text == NULL then Ok([])
    else if |text| > 0 && text[0] == QUOTE && ParseChars(text, 1).Some? && ParseChars(text, 1).value.1 == |text| then Ok(ParseChars(text, 1).value.0)
    else Err(NotAString)
  }

  function StringAt(n: Node, path: seq<string>): Result<string, Problem> {
    var c := Child(n, path);
    if c.Err? then Err(c.error) else if !c.value.Scalar? then Err(NotAScalar) else Decoded(c.value.text)
  }

  // ---- Edits -----------------------------------------------------------------------------

  datatype Edit = SetTo(value: string) | Upsert(key: string, value: string) | Remove(key: string)

  function Without(ms: seq<Member>, key: string): seq<Member> {
    if ms == [] then [] else (if ms[0].key == key then [] else [ms[0]]) + Without(ms[1..], key)
  }

  function Upserted(ms: seq<Member>, key: string, value: string): seq<Member> {
    var m := Member(key, Scalar(EncodeString(value)));
    var i := IndexOf(ms, key);
    if i.Some? then ms[i.value := m] else ms + [m]
  }

  /** What an edit makes of the node it is aimed at. */
  function Edited(n: Node, e: Edit): Result<Node, Problem> {
    match e
    case SetTo(value) => if n.Scalar? then Ok(Scalar(EncodeString(value))) else Err(NotAScalar)
    case Upsert(key, value) => if n.Object? then Ok(Object(Upserted(n.members, key, value))) else Err(NotAnObject)
    case Remove(key) => if n.Object? then Ok(Object(Without(n.members, key))) else Err(NotAnObject)
  }

  /** The document after an edit aimed at one path. */
  function Apply(n: Node, path: seq<string>, e: Edit): Result<Node, Problem>
    decreases |path|
  {
    if path == [] then Edited(n, e)
    else if !n.Object? then Err(NotAnObject)
    else
      var i := IndexOf(n.members, path[0]);
      if i.None? then Err(NotPresent)
      else
        var inner := Apply(n.members[i.value].value, path[1..], e);
        if inner.Err? then inner else Ok(Object(n.members[i.value := Member(path[0], inner.value)]))
  }

  /** The document with another node where a path leads. */
  function Replaced(n: Node, path: seq<string>, x: Node): Node
    requires Child(n, path).Ok?
    decreases |path|
  {
    if path == [] then x
    else
      var i := IndexOf(n.members, path[0]).value;
      Object(n.members[i := Member(path[0], Replaced(n.members[i].value, path[1..], x))])
  }

  /** An edit rewrites the one node it reaches. */
  lemma {:induction false} EditReplaces(n: Node, path: seq<string>, e: Edit)
    requires Child(n, path).Ok? && Edited(Child(n, path).value, e).Ok?
    ensures Apply(n, path, e) == Ok(Replaced(n, path, Edited(Child(n, path).value, e).value))
    decreases |path|
  {
    if path != [] { EditReplaces(n.members[IndexOf(n.members, path[0]).value].value, path[1..], e); }
  }

  // ---- Laws of one level -----------------------------------------------------------------

  lemma {:induction false} ReplacedIsFound(ms: seq<Member>, i: nat, m: Member, key: string)
    requires i < |ms| && ms[i].key == m.key
    ensures IndexOf(ms[i := m], key) == IndexOf(ms, key)
  {
    if i == 0 {
      assert ms[0 := m][1..] == ms[1..];
    } else {
      assert ms[i := m][1..] == ms[1..][i - 1 := m];
      ReplacedIsFound(ms[1..], i - 1, m, key);
    }
  }

  lemma {:induction false} AppendedIsFound(ms: seq<Member>, m: Member, key: string)
    ensures IndexOf(ms + [m], key) == if IndexOf(ms, key).Some? then IndexOf(ms, key) else if m.key == key then Some(|ms|) else None
  {
    if ms == [] {
      assert ms + [m] == [m];
    } else {
      assert (ms + [m])[1..] == ms[1..] + [m];
      AppendedIsFound(ms[1..], m, key);
    }
  }

  lemma {:induction false} RemovedIsGone(ms: seq<Member>, key: string)
    ensures IndexOf(Without(ms, key), key) == None
    ensures forall m | m in Without(ms, key) :: m in ms
  {
    if ms != [] {
      RemovedIsGone(ms[1..], key);
      if ms[0].key != key {
        assert Without(ms, key)[1..] == Without(ms[1..], key);
      } else {
        assert Without(ms, key) == Without(ms[1..], key);
      }
    }
  }

  /** Removing what is absent changes nothing. */
  lemma {:induction false} RemovingNothing(ms: seq<Member>, key: string)
    requires IndexOf(ms, key) == None
    ensures Without(ms, key) == ms
  {
    if ms != [] {
      assert IndexOf(ms[1..], key) == None by { assert forall i | 0 <= i < |ms[1..]| :: ms[1..][i] == ms[i + 1]; }
      RemovingNothing(ms[1..], key);
      assert [ms[0]] + ms[1..] == ms;
    }
  }

  lemma {:induction false} RemovingLast(ms: seq<Member>, m: Member)
    ensures Without(ms + [m], m.key) == Without(ms, m.key)
  {
    if ms == [] {
      assert ms + [m] == [m];
      assert Without([m], m.key) == Without([m][1..], m.key);
    } else {
      assert (ms + [m])[1..] == ms[1..] + [m];
      RemovingLast(ms[1..], m);
    }
  }

  lemma IndexStep(ms: seq<Member>, key: string)
    requires ms != []
    ensures IndexOf(ms, key) == if ms[0].key == key then Some(0) else if IndexOf(ms[1..], key).Some? then Some(IndexOf(ms[1..], key).value + 1) else None
  {}

  lemma WithoutStep(ms: seq<Member>, key: string)
    requires ms != []
    ensures ms[0].key == key ==> Without(ms, key) == Without(ms[1..], key)
    ensures ms[0].key != key ==> Without(ms, key) != [] && Without(ms, key)[0] == ms[0] && Without(ms, key)[1..] == Without(ms[1..], key)
  {}

  /** The member found under a key, if there is one. */
  function Found(ms: seq<Member>, key: string): Option<Member> { if IndexOf(ms, key).None? then None else Some(ms[IndexOf(ms, key).value]) }

  lemma FoundStep(ms: seq<Member>, key: string)
    requires ms != []
    ensures Found(ms, key) == if ms[0].key == key then Some(ms[0]) else Found(ms[1..], key)
  {
    IndexStep(ms, key);
  }

  /** Removing a key leaves every other key's first member where lookups find it. */
  lemma {:induction false} OthersSurviveRemoval(ms: seq<Member>, key: string, other: string)
    requires other != key
    ensures Found(Without(ms, key), other) == Found(ms, other)
  {
    if ms != [] {
      hide *;
      OthersSurviveRemoval(ms[1..], key, other);
      WithoutStep(ms, key);
      FoundStep(ms, other);
      if ms[0].key != key { FoundStep(Without(ms, key), other); }
    }
  }

  // ---- Laws of whole documents -----------------------------------------------------------

  /** An edit succeeds exactly when its path leads to a node it applies to, and then that node is what it was meant to become. */
  lemma {:induction false} EditReachesItsTarget(n: Node, path: seq<string>, e: Edit)
    ensures Apply(n, path, e).Ok? <==> Child(n, path).Ok? && Edited(Child(n, path).value, e).Ok?
    ensures Apply(n, path, e).Err? ==> Apply(n, path, e).error == if Child(n, path).Err? then Child(n, path).error else Edited(Child(n, path).value, e).error
    ensures Apply(n, path, e).Ok? ==> Child(Apply(n, path, e).value, path) == Ok(Edited(Child(n, path).value, e).value)
    decreases |path|
  {
    if path != [] && n.Object? && IndexOf(n.members, path[0]).Some? {
      var i := IndexOf(n.members, path[0]).value;
      EditReachesItsTarget(n.members[i].value, path[1..], e);
      var inner := Apply(n.members[i].value, path[1..], e);
      if inner.Ok? { ReplacedIsFound(n.members, i, Member(path[0], inner.value), path[0]); }
    }
  }

  /** Where a path that leads nowhere stops: at a node without the member it names next, or at one that has no members. */
  lemma {:induction false} PathStops(n: Node, path: seq<string>) returns (k: nat)
    requires Child(n, path).Err?
    ensures k < |path| && Child(n, path[..k]).Ok?
    ensures var x := Child(n, path[..k]).value;
            if x.Object? then Child(n, path).error == NotPresent && forall m | m in x.members :: m.key != path[k]
            else Child(n, path).error == NotAnObject
    decreases |path|
  {
    k := 0;
    if n.Object? && IndexOf(n.members, path[0]).Some? {
      k := PathStops(n.members[IndexOf(n.members, path[0]).value].value, path[1..]);
      assert path[..k + 1][0] == path[0] && path[..k + 1][1..] == path[1..][..k];
      k := k + 1;
    }
  }

  /** Each refusal of an edit, and the node on its path that it is about. */
  lemma RefusalsMean(n: Node, path: seq<string>, e: Edit) returns (k: nat)
    requires Apply(n, path, e).Err?
    ensures k <= |path| && Child(n, path[..k]).Ok?
    ensures var x := Child(n, path[..k]).value;
            match Apply(n, path, e).error
            case NotPresent => k < |path| && x.Object? && forall m | m in x.members :: m.key != path[k]
            case NotAnObject => !x.Object? && (k < |path| || e.Upsert? || e.Remove?)
            case NotAScalar => k == |path| && !x.Scalar? && e.SetTo?
            case NotAString => false
  {
    EditReachesItsTarget(n, path, e);
    if Child(n, path).Err? {
      k := PathStops(n, path);
    } else {
      k := |path|;
      assert path[..k] == path;
    }
  }

  /** What reading a string of a well-formed document answers. */
  lemma StringAnswers(n: Node, path: seq<string>)
    requires Child(n, path).Ok? && WellFormed(Child(n, path).value)
    ensures var x := Child(n, path).value;
            && (StringAt(n, path) == Err(NotAScalar) <==> x.Object? || x.Array?)
            && (StringAt(n, path) == Err(NotAString) <==> x.Scalar? && x.text != NULL && !IsString(x.text))
            && (forall v :: StringAt(n, path) == Ok(v) <==> x.Scalar? && (x.text == EncodeString(v) || (x.text == NULL && v == [])))
  {
    var x := Child(n, path).value;
    if x.Scalar? {
      NullIsNoString();
      if IsString(x.text) {
        var w :| x.text == EncodeString(w);
        EncodedDecodes(w);
        forall v ensures x.text == EncodeString(v) <==> v == w {
          if x.text == EncodeString(v) { EncodeStringIsInjective(v, w); }
        }
      } else if |x.text| > 0 && x.text[0] == QUOTE {
        NotALiteral(x.text);
      }
    }
  }

  lemma NullIsNoString()
    ensures !IsString(NULL)
  {
    forall v ensures NULL != EncodeString(v) { assert EncodeString(v)[0] == QUOTE != NULL[0]; }
  }

  /** The paths part: neither leads through the other. */
  predicate Diverge(p: seq<string>, q: seq<string>)
    decreases |p|
  {
    p != [] && q != [] && (p[0] != q[0] || Diverge(p[1..], q[1..]))
  }

  /** An edit changes nothing that is read along a path that parts from its own. */
  lemma {:induction false} EditLeavesTheRest(n: Node, path: seq<string>, e: Edit, other: seq<string>)
    requires Apply(n, path, e).Ok? && Diverge(path, other)
    ensures Child(Apply(n, path, e).value, other) == Child(n, other)
    decreases |path|
  {
    var i := IndexOf(n.members, path[0]).value;
    var inner := Apply(n.members[i].value, path[1..], e).value;
    ReplacedIsFound(n.members, i, Member(path[0], inner), other[0]);
    if path[0] == other[0] {
      EditLeavesTheRest(n.members[i].value, path[1..], e, other[1..]);
    }
  }

  /** Setting a string is read back as that string, and setting again replaces it. */
  lemma SetThenGet(n: Node, path: seq<string>, value: string)
    requires Apply(n, path, SetTo(value)).Ok?
    ensures StringAt(Apply(n, path, SetTo(value)).value, path) == Ok(value)
  {
    EditReachesItsTarget(n, path, SetTo(value));
    EncodedDecodes(value);
  }

  lemma EncodedDecodes(value: string)
    ensures Decoded(EncodeString(value)) == Ok(value) && EncodeString(value) != NULL
  {
    var s := EncodeString(value);
    Whole(s);
    StringReads(s, 0, value);
  }

  lemma {:induction false} LastEditWins(n: Node, path: seq<string>, first: string, second: string)
    requires Apply(n, path, SetTo(first)).Ok?
    ensures Apply(Apply(n, path, SetTo(first)).value, path, SetTo(second)) == Apply(n, path, SetTo(second))
    decreases |path|
  {
    if path != [] {
      var i := IndexOf(n.members, path[0]).value;
      var inner := Apply(n.members[i].value, path[1..], SetTo(first)).value;
      ReplacedIsFound(n.members, i, Member(path[0], inner), path[0]);
      LastEditWins(n.members[i].value, path[1..], first, second);
      var once := Apply(n.members[i].value, path[1..], SetTo(second));
      if once.Ok? {
        var m := Member(path[0], once.value);
        assert n.members[i := Member(path[0], inner)][i := m] == n.members[i := m];
      }
    }
  }

  /** Setting a string to what a well-formed document already holds there changes nothing — unless what it holds is null. */
  lemma {:induction false} SettingTheSameIsNothing(n: Node, path: seq<string>)
    requires WellFormed(n) && StringAt(n, path).Ok?
    ensures Apply(n, path, SetTo(StringAt(n, path).value)) == Ok(n) <==> Child(n, path).value.text != NULL
    decreases |path|
  {
    if path == [] {
      var text := n.text;
      if text != NULL {
        NotALiteral(text);
        var v :| text == EncodeString(v);
        EncodedDecodes(v);
      } else {
        EncodedDecodes([]);
      }
    } else {
      var i := IndexOf(n.members, path[0]).value;
      assert n.members[i] in n.members;
      SettingTheSameIsNothing(n.members[i].value, path[1..]);
      var inner := Apply(n.members[i].value, path[1..], SetTo(StringAt(n, path).value));
      if inner == Ok(n.members[i].value) { assert n.members[i := Member(path[0], inner.value)] == n.members; }
      if inner.Ok? && inner.value != n.members[i].value {
        assert n.members[i := Member(path[0], inner.value)][i] != n.members[i];
      }
    }
  }

  lemma NotALiteral(text: string)
    requires IsScalar(text) && |text| > 0 && text[0] == QUOTE
    ensures IsString(text)
  {
    ScalarOpens(text);
  }

  /** An upserted member reads back; it takes the place of the one that was there, or comes last. */
  lemma UpsertThenGet(target: Node, key: string, value: string, other: string)
    requires target.Object? && other != key
    ensures var after := Object(Upserted(target.members, key, value));
            && Edited(target, Upsert(key, value)) == Ok(after)
            && StringAt(after, [key]) == Ok(value) && Child(after, [other]) == Child(target, [other])
            && (IndexOf(target.members, key).Some? ==> |after.members| == |target.members|)
            && (IndexOf(target.members, key).None? ==> after.members == target.members + [Member(key, Scalar(EncodeString(value)))])
  {
    var before := target.members;
    var m := Member(key, Scalar(EncodeString(value)));
    var after := Object(Upserted(before, key, value));
    EncodedDecodes(value);
    if IndexOf(before, key).Some? {
      ReplacedIsFound(before, IndexOf(before, key).value, m, key);
      ReplacedIsFound(before, IndexOf(before, key).value, m, other);
    } else {
      AppendedIsFound(before, m, key);
      AppendedIsFound(before, m, other);
    }
    assert Child(after, [key]) == Ok(m.value) by { assert Child(m.value, [key][1..]) == Ok(m.value); }
  }

  /** A removed member is gone, and every other one reads as before. */
  lemma RemoveThenGet(target: Node, key: string, other: string)
    requires target.Object? && other != key
    ensures var after := Object(Without(target.members, key));
            && Edited(target, Remove(key)) == Ok(after)
            && Child(after, [key]) == Err(NotPresent) && Child(after, [other]) == Child(target, [other])
  {
    RemovedIsGone(target.members, key);
    OthersSurviveRemoval(target.members, key, other);
  }

  /** Removing a member that was not there before it was upserted restores the document exactly. */
  lemma {:induction false} RemoveUndoesUpsert(n: Node, path: seq<string>, key: string, value: string)
    requires Child(n, path).Ok? && Child(n, path).value.Object? && IndexOf(Child(n, path).value.members, key).None?
    ensures Apply(n, path, Upsert(key, value)).Ok?
    ensures Apply(Apply(n, path, Upsert(key, value)).value, path, Remove(key)) == Ok(n)
    decreases |path|
  {
    if path == [] {
      RemovingLast(n.members, Member(key, Scalar(EncodeString(value))));
      RemovingNothing(n.members, key);
    } else {
      var i := IndexOf(n.members, path[0]).value;
      RemoveUndoesUpsert(n.members[i].value, path[1..], key, value);
      var inner := Apply(n.members[i].value, path[1..], Upsert(key, value)).value;
      ReplacedIsFound(n.members, i, Member(path[0], inner), path[0]);
      assert n.members[i := Member(path[0], inner)][i := n.members[i]] == n.members;
    }
  }

  lemma EditedIsWellFormed(n: Node, e: Edit)
    requires WellFormed(n) && Edited(n, e).Ok?
    ensures WellFormed(Edited(n, e).value)
  {
    match e
    case SetTo(value) =>
    case Upsert(key, value) => assert IsString(EncodeString(value));
    case Remove(key) => RemovedIsGone(n.members, key);
  }

  /** An edited document is still well formed, so it still reads back as written. */
  lemma {:induction false} EditKeepsWellFormed(n: Node, path: seq<string>, e: Edit)
    requires WellFormed(n) && Apply(n, path, e).Ok?
    ensures WellFormed(Apply(n, path, e).value)
    decreases |path|
  {
    if path == [] {
      EditedIsWellFormed(n, e);
    } else {
      var i := IndexOf(n.members, path[0]).value;
      assert n.members[i] in n.members;
      EditKeepsWellFormed(n.members[i].value, path[1..], e);
    }
  }

  /** Reading a document, editing it and writing it: reading the result gives the edited tree. */
  lemma RewriteReadsBack(s: string, path: seq<string>, e: Edit)
    requires ParseDocument(s).Some? && Apply(ParseDocument(s).value, path, e).Ok?
    ensures ParseDocument(EncodeDocument(Apply(ParseDocument(s).value, path, e).value)) == Some(Apply(ParseDocument(s).value, path, e).value)
  {
    ValueIsWellFormed(s, 0);
    EditKeepsWellFormed(ParseDocument(s).value, path, e);
    ParseUndoesEncode(Apply(ParseDocument(s).value, path, e).value);
  }
}
