/** The decoder, the printer and the edits as loops over a position, a buffer and member lists. */
module ReleaseDocumentCodec {
  import opened Wrappers
  import opened ReleaseDocument
  import opened ReleaseDocumentEdits

  /** A list read so far, in front of what is still to be read. */
  function Onto<T>(done: seq<T>, rest: Option<(seq<T>, nat)>): Option<(seq<T>, nat)> {
    if rest.None? then None else Some((done + rest.value.0, rest.value.1))
  }

  lemma OntoOneMore<T>(done: seq<T>, x: T, rest: Option<(seq<T>, nat)>)
    ensures Onto(done, Onto([x], rest)) == Onto(done + [x], rest)
  {
    if rest.Some? { assert done + ([x] + rest.value.0) == done + [x] + rest.value.0; }
  }

  lemma OntoNothing<T>(rest: Option<(seq<T>, nat)>)
    ensures Onto([], rest) == rest
  {
    if rest.Some? { assert [] + rest.value.0 == rest.value.0; }
  }

  lemma OntoEnd<T>(done: seq<T>, end: nat)
    ensures Onto(done, Some(([], end))) == Some((done, end))
  {
    assert done + [] == done;
  }

  class Decoder {
    const text: string
    var at: nat

    ghost predicate Valid()
      reads this
    {
      at <= |text|
    }

    constructor (text: string)
      ensures Valid() && this.text == text && at == 0
    {
      this.text, at := text, 0;
    }

    method Skip()
      requires Valid()
      modifies this
      ensures Valid() && at == SkipSpace(text, old(at))
    {
      while at < |text| && Space(text[at])
        invariant Valid() && SkipSpace(text, at) == SkipSpace(text, old(at))
      {
        at := at + 1;
      }
    }

    /** The content of a string, from just after its opening quote to just after its closing one. */
    method ReadChars() returns (value: Option<string>)
      requires Valid()
      modifies this
      ensures Valid()
      ensures value.Some? <==> ParseChars(text, old(at)).Some?
      ensures value.Some? ==> (value.value, at) == ParseChars(text, old(at)).value
    {
      var done: string := [];
      OntoNothing(ParseChars(text, at));
      while at < |text| && text[at] != QUOTE
        invariant Valid() && Onto(done, ParseChars(text, at)) == ParseChars(text, old(at))
        decreases |text| - at
      {
        var c := CharAt(text, at);
        if c.None? {
          return None;
        }
        OntoOneMore(done, c.value.0, ParseChars(text, c.value.1));
        done := done + [c.value.0];
        at := c.value.1;
      }
      if at == |text| {
        return None;
      }
      OntoEnd(done, at + 1);
      at := at + 1;
      return Some(done);
    }

    /** Moves to the next element of a list, past the comma before it unless it is the first. */
    method NextElement(first: bool) returns (found: bool)
      requires Valid()
      modifies this
      ensures Valid() && (found <==> ElementStart(text, old(at), first).Some?)
      ensures found ==> at == ElementStart(text, old(at), first).value
    {
      Skip();
      if first {
        return true;
      }
      if at == |text| || text[at] != ',' {
        return false;
      }
      at := at + 1;
      Skip();
      return true;
    }

    method ReadValue() returns (node: Option<Node>)
      requires Valid()
      modifies this
      ensures Valid() && (node.Some? <==> ParseValue(text, old(at)).Some?)
      ensures node.Some? ==> (node.value, at) == ParseValue(text, old(at)).value
      decreases |text| - at, 2
    {
      Skip();
      if at == |text| {
        return None;
      }
      if text[at] == '{' {
        at := at + 1;
        var members := ReadMembers();
        return if members.None? then None else Some(Object(members.value));
      }
      if text[at] == '[' {
        at := at + 1;
        var items := ReadItems();
        return if items.None? then None else Some(Array(items.value));
      }
      node := ReadScalar();
    }

    method ReadScalar() returns (node: Option<Node>)
      requires at < |text|
      modifies this
      ensures Valid() && (node.Some? <==> ParseScalar(text, old(at)).Some?)
      ensures node.Some? ==> (node.value, at) == ParseScalar(text, old(at)).value
    {
      if text[at] == QUOTE {
        at := at + 1;
        var value := ReadChars();
        return if value.None? then None else Some(Scalar(EncodeString(value.value)));
      }
      var literal := LiteralAt(text, at);
      if literal.None? {
        return None;
      }
      at := at + |literal.value|;
      return Some(Scalar(literal.value));
    }

    method ReadMember() returns (member: Option<Member>)
      requires Valid()
      modifies this
      ensures Valid() && (member.Some? <==> ParseMember(text, old(at)).Some?)
      ensures member.Some? ==> (member.value, at) == ParseMember(text, old(at)).value
      decreases |text| - at, 0
    {
      if at == |text| || text[at] != QUOTE {
        return None;
      }
      at := at + 1;
      var key := ReadChars();
      if key.None? {
        return None;
      }
      Skip();
      if at == |text| || text[at] != ':' {
        return None;
      }
      at := at + 1;
      var value := ReadValue();
      return if value.None? then None else Some(Member(key.value, value.value));
    }

    /** The members of an object, from just after its opening brace to just after its closing one. */
    method ReadMembers() returns (members: Option<seq<Member>>)
      requires Valid()
      modifies this
      ensures Valid() && (members.Some? <==> ParseMembers(text, old(at), true).Some?)
      ensures members.Some? ==> (members.value, at) == ParseMembers(text, old(at), true).value
      decreases |text| - at, 1
    {
      var done: seq<Member> := [];
      var first := true;
      OntoNothing(ParseMembers(text, at, true));
      while true
        invariant Valid() && at >= old(at) && Onto(done, ParseMembers(text, at, first)) == ParseMembers(text, old(at), true)
        decreases |text| - at
      {
        var close := SkipSpace(text, at);
        if close < |text| && text[close] == '}' {
          OntoEnd(done, close + 1);
          at := close + 1;
          return Some(done);
        }
        ghost var before := at;
        var found := NextElement(first);
        if !found {
          return None;
        }
        var member := ReadMember();
        if member.None? {
          return None;
        }
        MembersUnfold(text, before, first, member.value, at);
        OntoOneMore(done, member.value, ParseMembers(text, at, false));
        done, first := done + [member.value], false;
      }
    }

    /** The items of an array, from just after its opening bracket to just after its closing one. */
    method ReadItems() returns (items: Option<seq<Node>>)
      requires Valid()
      modifies this
      ensures Valid() && (items.Some? <==> ParseItems(text, old(at), true).Some?)
      ensures items.Some? ==> (items.value, at) == ParseItems(text, old(at), true).value
      decreases |text| - at, 3
    {
      var done: seq<Node> := [];
      var first := true;
      OntoNothing(ParseItems(text, at, true));
      while true
        invariant Valid() && at >= old(at) && Onto(done, ParseItems(text, at, first)) == ParseItems(text, old(at), true)
        decreases |text| - at
      {
        var close := SkipSpace(text, at);
        if close < |text| && text[close] == ']' {
          OntoEnd(done, close + 1);
          at := close + 1;
          return Some(done);
        }
        ghost var before := at;
        var found := NextElement(first);
        if !found {
          return None;
        }
        var item := ReadValue();
        if item.None? {
          return None;
        }
        ItemsUnfold(text, before, first, item.value, at);
        OntoOneMore(done, item.value, ParseItems(text, at, false));
        done, first := done + [item.value], false;
      }
    }

    /** Reads exactly one document. */
    method ReadDocument() returns (node: Option<Node>)
      requires at == 0
      modifies this
      ensures node == ParseDocument(text)
    {
      node := ReadValue();
      if node.None? {
        return None;
      }
      Skip();
      return if at == |text| then node else None;
    }
  }

  lemma MembersUnfold(s: string, i: nat, first: bool, m: Member, next: nat)
    requires i <= |s| && !(SkipSpace(s, i) < |s| && s[SkipSpace(s, i)] == '}') && ElementStart(s, i, first).Some?
    requires ParseMember(s, ElementStart(s, i, first).value) == Some((m, next))
    ensures ParseMembers(s, i, first) == Onto([m], ParseMembers(s, next, false))
  {}

  lemma ItemsUnfold(s: string, i: nat, first: bool, n: Node, next: nat)
    requires i <= |s| && !(SkipSpace(s, i) < |s| && s[SkipSpace(s, i)] == ']') && ElementStart(s, i, first).Some?
    requires ParseValue(s, ElementStart(s, i, first).value) == Some((n, next))
    ensures ParseItems(s, i, first) == Onto([n], ParseItems(s, next, false))
  {}

  // ---- Printing --------------------------------------------------------------------------

  lemma MembersFrom(ms: seq<Member>, i: nat, d: nat)
    requires i < |ms|
    ensures EncodeMembers(ms[i..], d) == EncodeMember(ms[i], d) + Separator(i == |ms| - 1) + EncodeMembers(ms[i + 1..], d)
  {
    assert ms[i..][0] == ms[i] && ms[i..][1..] == ms[i + 1..];
  }

  lemma ItemsFrom(ns: seq<Node>, i: nat, d: nat)
    requires i < |ns|
    ensures EncodeItems(ns[i..], d) == Indent(d) + Encode(ns[i], d) + Separator(i == |ns| - 1) + EncodeItems(ns[i + 1..], d)
  {
    assert ns[i..][0] == ns[i] && ns[i..][1..] == ns[i + 1..];
  }

  lemma NoneFrom(ms: seq<Member>, ns: seq<Node>, b: string, d: nat)
    ensures ms[0..] == ms && ns[0..] == ns
    ensures b + EncodeMembers(ms[|ms|..], d) == b && b + EncodeItems(ns[|ns|..], d) == b
  {}

  lemma Associate(a: string, b: string, c: string)
    ensures (a + b) + c == a + (b + c)
  {}

  /** Five pieces put one after another. */
  lemma Gather(buffer: string, a: string, b: string, c: string, d: string)
    ensures buffer + a + b + c + d == buffer + (a + b + c + d)
  {}

  lemma Containers(n: Node, d: nat)
    ensures n.Object? && n.members == [] ==> Encode(n, d) == ['{', '}']
    ensures n.Array? && n.items == [] ==> Encode(n, d) == ['[', ']']
    ensures n.Object? && n.members != [] ==> Encode(n, d) == ['{', '\n'] + EncodeMembers(n.members, d + 1) + Indent(d) + ['}']
    ensures n.Array? && n.items != [] ==> Encode(n, d) == ['[', '\n'] + EncodeItems(n.items, d + 1) + Indent(d) + [']']
    ensures n.Scalar? ==> Encode(n, d) == n.text
  {}

  class Printer {
    var buffer: string

    constructor ()
      ensures buffer == []
    {
      buffer := [];
    }

    method Put(text: string)
      modifies this
      ensures buffer == old(buffer) + text
    {
      buffer := buffer + text;
    }

    method Write(n: Node, depth: nat)
      modifies this
      ensures buffer == old(buffer) + Encode(n, depth)
      decreases n, 1
    {
      hide *;
      Containers(n, depth);
      match n {
        case Scalar(text) => Put(text);
        case Object(members) =>
          if members == [] {
            Put(['{', '}']);
            return;
          }
          Gather(buffer, ['{', '\n'], EncodeMembers(members, depth + 1), Indent(depth), ['}']);
          Put(['{', '\n']);
          WriteMembers(members, depth + 1);
          Put(Indent(depth));
          Put(['}']);
        case Array(items) =>
          if items == [] {
            Put(['[', ']']);
            return;
          }
          Gather(buffer, ['[', '\n'], EncodeItems(items, depth + 1), Indent(depth), [']']);
          Put(['[', '\n']);
          WriteItems(items, depth + 1);
          Put(Indent(depth));
          Put([']']);
      }
    }

    /** Ends an element: a comma unless it is the last, and a line break. */
    method EndElement(last: bool)
      modifies this
      ensures buffer == old(buffer) + Separator(last)
    {
      if !last {
        Put([',']);
      }
      Put(['\n']);
    }

    method WriteMember(m: Member, depth: nat)
      modifies this
      ensures buffer == old(buffer) + EncodeMember(m, depth)
      decreases m, 0
    {
      Gather(buffer, Indent(depth), EncodeString(m.key), [':', ' '], Encode(m.value, depth));
      Put(Indent(depth));
      Put(EncodeString(m.key));
      Put([':', ' ']);
      Write(m.value, depth);
    }

    method WriteMembers(members: seq<Member>, depth: nat)
      modifies this
      ensures buffer == old(buffer) + EncodeMembers(members, depth)
      decreases members, 0
    {
      hide *;
      NoneFrom(members, [], buffer, depth);
      for index := 0 to |members|
        invariant buffer + EncodeMembers(members[index..], depth) == old(buffer) + EncodeMembers(members, depth)
      {
        var line, rest := EncodeMember(members[index], depth), EncodeMembers(members[index + 1..], depth);
        MembersFrom(members, index, depth);
        Associate(buffer, line, Separator(index == |members| - 1));
        Associate(buffer, line + Separator(index == |members| - 1), rest);
        WriteMember(members[index], depth);
        EndElement(index == |members| - 1);
      }
      NoneFrom(members, [], buffer, depth);
    }

    method WriteItems(items: seq<Node>, depth: nat)
      modifies this
      ensures buffer == old(buffer) + EncodeItems(items, depth)
      decreases items, 0
    {
      hide *;
      NoneFrom([], items, buffer, depth);
      for index := 0 to |items|
        invariant buffer + EncodeItems(items[index..], depth) == old(buffer) + EncodeItems(items, depth)
      {
        ItemsFrom(items, index, depth);
        Gather(buffer, Indent(depth), Encode(items[index], depth), Separator(index == |items| - 1), EncodeItems(items[index + 1..], depth));
        Put(Indent(depth));
        Write(items[index], depth);
        EndElement(index == |items| - 1);
      }
      NoneFrom([], items, buffer, depth);
    }

    method WriteDocument(n: Node)
      modifies this
      ensures buffer == old(buffer) + EncodeDocument(n)
    {
      Write(n, 0);
      Put(['\n']);
    }
  }

  // ---- Edits -----------------------------------------------------------------------------

  class Document {
    var root: Node

    constructor (root: Node)
      ensures this.root == root
    {
      this.root := root;
    }

    /** Descends through object members by key. */
    method Descend(path: seq<string>) returns (found: Result<Node, Problem>)
      ensures found == Child(root, path)
    {
      var current := root;
      var i := 0;
      assert path[0..] == path;
      while i < |path|
        invariant 0 <= i <= |path| && Child(current, path[i..]) == Child(root, path)
      {
        assert path[i..][0] == path[i] && path[i..][1..] == path[i + 1..];
        if !current.Object? {
          return Err(NotAnObject);
        }
        var place := Lookup(current.members, path[i]);
        if place.None? {
          return Err(NotPresent);
        }
        current := current.members[place.value].value;
        i := i + 1;
      }
      return Ok(current);
    }

    method Lookup(members: seq<Member>, key: string) returns (place: Option<nat>)
      ensures place == IndexOf(members, key)
    {
      for index := 0 to |members|
        invariant forall i | 0 <= i < index :: members[i].key != key
      {
        if members[index].key == key {
          return Some(index);
        }
      }
      return None;
    }

    /** Keeps, in order, the members not under a key. */
    method Keep(members: seq<Member>, key: string) returns (kept: seq<Member>)
      ensures kept == Without(members, key)
    {
      kept := [];
      assert members[0..] == members;
      for index := 0 to |members|
        invariant kept + Without(members[index..], key) == Without(members, key)
      {
        assert members[index..][0] == members[index] && members[index..][1..] == members[index + 1..];
        if members[index].key != key {
          kept := kept + [members[index]];
        }
      }
      assert Without(members[|members|..], key) == [];
    }

    /** Sets a member in its place, or appends it. */
    method Put(members: seq<Member>, key: string, value: string) returns (put: seq<Member>)
      ensures put == Upserted(members, key, value)
    {
      var member := Member(key, Scalar(EncodeString(value)));
      for index := 0 to |members|
        invariant forall i | 0 <= i < index :: members[i].key != key
      {
        if members[index].key == key {
          return members[index := member];
        }
      }
      return members + [member];
    }

    /** What the edit makes of the node it reached. */
    method Change(target: Node, e: Edit) returns (changed: Result<Node, Problem>)
      ensures changed == Edited(target, e)
    {
      match e {
        case SetTo(value) =>
          if !target.Scalar? {
            return Err(NotAScalar);
          }
          return Ok(Scalar(EncodeString(value)));
        case Upsert(key, value) =>
          if !target.Object? {
            return Err(NotAnObject);
          }
          var put := Put(target.members, key, value);
          return Ok(Object(put));
        case Remove(key) =>
          if !target.Object? {
            return Err(NotAnObject);
          }
          var kept := Keep(target.members, key);
          return Ok(Object(kept));
      }
    }

    method Rewrite(path: seq<string>, e: Edit) returns (answer: Result<(), Problem>)
      modifies this
      ensures answer.Ok? <==> Apply(old(root), path, e).Ok?
      ensures answer.Err? ==> root == old(root) && answer.error == Apply(old(root), path, e).error
      ensures answer.Ok? ==> root == Apply(old(root), path, e).value
      // The target is what the edit makes of it, and everything off its path is as it was.
      ensures answer.Ok? ==> Child(old(root), path).Ok? && Child(root, path) == Edited(Child(old(root), path).value, e)
      ensures answer.Ok? ==> forall q | Diverge(path, q) :: Child(root, q) == Child(old(root), q)
    {
      EditReachesItsTarget(root, path, e);
      var target := Descend(path);
      if target.Err? {
        return Err(target.error);
      }
      var changed := Change(target.value, e);
      if changed.Err? {
        return Err(changed.error);
      }
      ghost var before := root;
      EditReplaces(root, path, e);
      root := Replaced(root, path, changed.value);
      forall q | Diverge(path, q) ensures Child(root, q) == Child(before, q) { EditLeavesTheRest(before, path, e, q); }
      return Ok(());
    }
  }
}
