/**
 Who gets the token budget, and what the evidence of a compilation says: in terms
 of the trust classes themselves, not of the numbers they are sorted by.
 */
module ContextCompilerGrants {
  import opened Wrappers
  import opened Utf8
  import opened ContextCompiler

  // ---- Who comes before whom -------------------------------------------------------------

  /** The classes that are trusted more than this one. */
  predicate MoreTrusted(a: Trust, b: Trust) {
    match b
    case System => false
    case Agent => a == System
    case Tools => a in {System, Agent}
    case User => a in {System, Agent, Tools}
    case Retrieved => a in {System, Agent, Tools, User}
    case ToolOutput => a in {System, Agent, Tools, User, Retrieved}
    case ProviderOutput => a in {System, Agent, Tools, User, Retrieved, ToolOutput}
    case UnknownTrust => false
  }

  /** In the order of a dictionary: a shorter text before its extensions, otherwise by the first difference. */
  ghost predicate Precedes(a: string, b: string) {
    (|a| < |b| && b[..|a|] == a) || (exists k: nat | k < |a| && k < |b| :: a[..k] == b[..k] && a[k] < b[k])
  }

  lemma {:induction false} StringLessIsPrecedes(a: string, b: string)
    ensures StringLess(a, b) <==> Precedes(a, b)
    decreases |a|
  {
    if a != [] && b != [] && a[0] == b[0] {
      StringLessIsPrecedes(a[1..], b[1..]);
      if Precedes(a[1..], b[1..]) { PrecedesAfter(a, b); }
      if Precedes(a, b) { PrecedesWithin(a, b); }
    } else if a != [] && b != [] && a[0] < b[0] {
      assert a[..0] == b[..0];
    }
  }

  lemma PrecedesAfter(a: string, b: string)
    requires a != [] && b != [] && a[0] == b[0] && Precedes(a[1..], b[1..])
    ensures Precedes(a, b)
  {
    if |a| < |b| && b[1..][..|a| - 1] == a[1..] {
      assert b[..|a|] == [b[0]] + b[1..][..|a| - 1] && a == [a[0]] + a[1..];
    } else {
      var k: nat :| k < |a[1..]| && k < |b[1..]| && a[1..][..k] == b[1..][..k] && a[1..][k] < b[1..][k];
      assert a[..k + 1] == [a[0]] + a[1..][..k] && b[..k + 1] == [b[0]] + b[1..][..k];
      assert a[k + 1] < b[k + 1];
    }
  }

  lemma PrecedesWithin(a: string, b: string)
    requires a != [] && b != [] && a[0] == b[0] && Precedes(a, b)
    ensures Precedes(a[1..], b[1..])
  {
    if |a| < |b| && b[..|a|] == a {
      assert b[1..][..|a| - 1] == b[..|a|][1..];
    } else {
      var k: nat :| k < |a| && k < |b| && a[..k] == b[..k] && a[k] < b[k];
      assert k > 0;
      assert a[1..][..k - 1] == a[..k][1..] && b[1..][..k - 1] == b[..k][1..];
      assert a[1..][k - 1] < b[1..][k - 1];
    }
  }

  /** The source is served first: it is trusted more, or as much and has the smaller identity. */
  ghost predicate Ahead(a: Source, b: Source) { MoreTrusted(a.trust, b.trust) || (a.trust == b.trust && Precedes(a.id, b.id)) }

  predicate Known(t: Trust) { t != UnknownTrust }

  lemma RankIsTrust(a: Trust, b: Trust)
    requires Known(a) && Known(b)
    ensures Rank(a) < Rank(b) <==> MoreTrusted(a, b)
    ensures Rank(a) == Rank(b) <==> a == b
  {}

  lemma BeforeIsAhead(a: Source, b: Source)
    requires Known(a.trust) && Known(b.trust)
    ensures Before(a, b) <==> Ahead(a, b)
  {
    RankIsTrust(a.trust, b.trust);
    StringLessIsPrecedes(a.id, b.id);
    hide Precedes, StringLess, MoreTrusted;
  }

  /** Everything up to here is of one of the classes that may come before. */
  predicate OnlyBefore(c: Compiled, t: Trust, allowed: set<Trust>) {
    forall i, j | 0 <= i < j < |c.disclosures| && c.disclosures[j].trust == t :: c.disclosures[i].trust in allowed
  }

  /** No disclosure precedes one that is trusted more. */
  predicate ByTrust(c: Compiled) {
    && OnlyBefore(c, System, {System}) && OnlyBefore(c, Agent, {System, Agent}) && OnlyBefore(c, Tools, {System, Agent, Tools})
    && OnlyBefore(c, User, {System, Agent, Tools, User}) && OnlyBefore(c, Retrieved, {System, Agent, Tools, User, Retrieved})
    && OnlyBefore(c, ToolOutput, {System, Agent, Tools, User, Retrieved, ToolOutput}) && OnlyBefore(c, UnknownTrust, {})
  }

  // ---- What each source is granted -------------------------------------------------------

  /** What all of them ask for together that come before this one. */
  ghost function AskedAhead(sources: seq<Source>, s: Source): int {
    if sources == [] then 0
    else AskedAhead(sources[..|sources| - 1], s) + if Ahead(sources[|sources| - 1], s) then sources[|sources| - 1].budget else 0
  }

  /** The lesser of what is asked and what is left. */
  function Lesser(asked: int, left: int): int { if left <= 0 then 0 else if asked <= left then asked else left }

  function Asked(sources: seq<Source>): int { if sources == [] then 0 else Asked(sources[..|sources| - 1]) + sources[|sources| - 1].budget }

  /** Each layer was granted the lesser of what its source asked and what the ones before it left. */
  predicate InTurn(layers: seq<Layer>, done: seq<Source>, total: int) {
    && |layers| == |done|
    && (done != [] ==>
          var n := |done| - 1;
          InTurn(layers[..n], done[..n], total) && done[n].budget >= 0 && layers[n].budget == Lesser(done[n].budget, total - Asked(done[..n])))
  }

  predicate GrantedInTurn(c: Compiled, done: seq<Source>, total: int) {
    InTurn(c.layers, done, total) && c.remaining == Lesser(total, total - Asked(done))
  }

  lemma {:induction false} TurnAt(layers: seq<Layer>, done: seq<Source>, total: int, i: nat)
    requires InTurn(layers, done, total) && i < |done|
    ensures layers[i].budget == Lesser(done[i].budget, total - Asked(done[..i])) && done[i].budget >= 0
    decreases |done|
  {
    hide Lesser, Asked;
    var n := |done| - 1;
    if i < n {
      TurnAt(layers[..n], done[..n], total, i);
      assert done[..n][..i] == done[..i];
    }
  }

  lemma {:induction false} AskedIsNatural(layers: seq<Layer>, done: seq<Source>, total: int)
    requires InTurn(layers, done, total)
    ensures Asked(done) >= 0
    decreases |done|
  {
    hide Lesser;
    if done != [] { AskedIsNatural(layers[..|done| - 1], done[..|done| - 1], total); }
  }

  lemma AddGrants(config: Config, c: Compiled, s: Source, workspace: string, marker: Bytes)
    requires config.Valid() && Add(config, c, s, workspace, marker).Ok?
    ensures var next := Add(config, c, s, workspace, marker).value;
            && s.budget >= 0 && Known(s.trust) && |next.layers| == |c.layers| + 1 && next.layers[..|c.layers|] == c.layers
            && next.layers[|c.layers|].budget == Lesser(s.budget, c.remaining) && next.remaining == c.remaining - Lesser(s.budget, c.remaining)
  {
    hide Minimize, Cut, OpaqueId, Utf8.Valid;
  }

  lemma OneMoreGrant(c: Compiled, done: seq<Source>, s: Source, next: Compiled, total: int)
    requires GrantedInTurn(c, done, total) && s.budget >= 0 && |next.layers| == |c.layers| + 1 && next.layers[..|c.layers|] == c.layers
    requires next.layers[|c.layers|].budget == Lesser(s.budget, c.remaining) && next.remaining == c.remaining - Lesser(s.budget, c.remaining)
    ensures GrantedInTurn(next, done + [s], total)
  {
    hide Lesser;
    var more := done + [s];
    assert more[..|more| - 1] == done;
    AskedIsNatural(c.layers, done, total);
    StillLeft(total, Asked(done), s.budget);
  }

  lemma StillLeft(total: int, asked: int, ask: int)
    requires asked >= 0 && ask >= 0
    ensures var left := Lesser(total, total - asked);
            Lesser(ask, left) == Lesser(ask, total - asked) && left - Lesser(ask, left) == Lesser(total, total - (asked + ask))
  {}

  lemma {:induction false} AddAllGrants(config: Config, c: Compiled, done: seq<Source>, sources: seq<Source>, workspace: string, marker: Bytes, total: int)
    requires config.Valid() && GrantedInTurn(c, done, total) && AddAll(config, c, sources, workspace, marker).Ok?
    requires forall i | 0 <= i < |done| :: Known(done[i].trust)
    ensures GrantedInTurn(AddAll(config, c, sources, workspace, marker).value, done + sources, total)
    ensures forall i | 0 <= i < |sources| :: Known(sources[i].trust)
    decreases |sources|
  {
    hide AddAll, Add, GrantedInTurn, Known;
    if sources == [] {
      assert done + sources == done;
      AddNone(config, c, workspace, marker);
    } else {
      var next := Add(config, c, sources[0], workspace, marker);
      AddAllStep(config, c, sources, workspace, marker);
      AddGrants(config, c, sources[0], workspace, marker);
      OneMoreGrant(c, done, sources[0], next.value, total);
      AddAllGrants(config, next.value, done + [sources[0]], sources[1..], workspace, marker, total);
      assert done + [sources[0]] + sources[1..] == done + sources;
      assert forall i | 0 < i < |sources| :: sources[i] == sources[1..][i - 1];
    }
  }

  /** In an arrangement, the ones before a source are exactly the ones it has to wait for. */
  lemma {:induction false} AskedBeforeIsAskedAhead(sorted: seq<Source>, i: nat, n: nat)
    requires Sorted(sorted) && i < |sorted| && n <= |sorted|
    requires forall j | 0 <= j < |sorted| :: Known(sorted[j].trust)
    requires forall j, k | 0 <= j < k < |sorted| :: sorted[j].id != sorted[k].id
    ensures AskedAhead(sorted[..n], sorted[i]) == Asked(sorted[..if n < i then n else i])
    decreases n
  {
    if n > 0 {
      assert sorted[..n][..n - 1] == sorted[..n - 1] && sorted[..n][n - 1] == sorted[n - 1];
      AskedBeforeIsAskedAhead(sorted, i, n - 1);
      InOrder(sorted, i, n - 1);
      if n <= i { assert Asked(sorted[..n]) == Asked(sorted[..n - 1]) + sorted[n - 1].budget; }
    }
  }

  lemma InOrder(sorted: seq<Source>, i: nat, j: nat)
    requires Sorted(sorted) && i < |sorted| && j < |sorted|
    requires forall j | 0 <= j < |sorted| :: Known(sorted[j].trust)
    requires forall j, k | 0 <= j < k < |sorted| :: sorted[j].id != sorted[k].id
    ensures Ahead(sorted[j], sorted[i]) <==> j < i
  {
    BeforeIsAhead(sorted[j], sorted[i]);
    RankIsTrust(sorted[j].trust, sorted[i].trust);
    StringsAreOrdered(sorted[j].id, sorted[i].id);
    StringsAreOrdered(sorted[i].id, sorted[i].id);
    hide MoreTrusted, Ahead, StringLess, Rank;
  }

  lemma {:induction false} AheadWithout(a: seq<Source>, i: nat, s: Source)
    requires i < |a|
    ensures AskedAhead(a, s) == AskedAhead(a[..i] + a[i + 1..], s) + if Ahead(a[i], s) then a[i].budget else 0
    decreases |a|
  {
    hide Ahead;
    var last := |a| - 1;
    var rest := a[..i] + a[i + 1..];
    if i == last {
      assert rest == a[..last];
    } else {
      AheadWithout(a[..last], i, s);
      assert rest[..|rest| - 1] == a[..last][..i] + a[..last][i + 1..] && rest[|rest| - 1] == a[last];
    }
  }

  /** It does not matter in which order they are added up. */
  lemma {:induction false} AskedAheadOfPermutation(a: seq<Source>, b: seq<Source>, s: Source)
    requires multiset(a) == multiset(b)
    ensures AskedAhead(a, s) == AskedAhead(b, s)
    decreases |a|
  {
    hide Ahead;
    assert |multiset(a)| == |a| && |multiset(b)| == |b|;
    if a != [] {
      var last := a[|a| - 1];
      assert a == a[..|a| - 1] + [last];
      assert last in multiset(b);
      var i: nat :| i < |b| && b[i] == last;
      AheadWithout(b, i, s);
      var rest := b[..i] + b[i + 1..];
      assert multiset(rest) == multiset(a[..|a| - 1]) by {
        assert b == b[..i] + [b[i]] + b[i + 1..];
        assert multiset(rest) == multiset(b) - multiset{last};
        assert multiset(a) == multiset(a[..|a| - 1]) + multiset{last};
      }
      AskedAheadOfPermutation(a[..|a| - 1], rest, s);
    }
  }

  /** The source has a layer, and was granted the lesser of its request and what those before it leave of the total. */
  ghost predicate Granted(r: Request, c: Compiled, s: Source) {
    exists i: nat | i < |c.layers| && i < |c.disclosures| ::
      c.layers[i].id == s.id && c.disclosures[i].trust == s.trust && c.layers[i].budget == Lesser(s.budget, r.total - AskedAhead(r.sources, s))
  }

  /**
   The budget follows trust. In every successful compilation no class comes before one that is trusted
   more, and every source is granted the lesser of what it asks and what all that are trusted more, and
   the smaller identities of its own class, have left of the total.
   */
  lemma BudgetFollowsTrust(config: Config, r: Request, sorted: seq<Source>)
    requires config.Valid() && Arranges(sorted, r.sources) && CompileArranged(config, r, sorted).Ok?
    ensures ByTrust(CompileArranged(config, r, sorted).value)
    ensures forall s | s in r.sources :: Granted(r, CompileArranged(config, r, sorted).value, s)
  {
    hide *;
    var c := CompileArranged(config, r, sorted).value;
    CompiledInTurn(config, r, sorted);
    CompilationIsBounded(config, r, sorted);
    TrustOrderIsByTrust(config, sorted, c, Marker(r));
    forall s | s in r.sources ensures Granted(r, c, s) {
      var i := PlaceOf(r.sources, sorted, s);
      GrantAt(config, r, sorted, c, i);
    }
  }

  lemma PlaceOf(sources: seq<Source>, sorted: seq<Source>, s: Source) returns (i: nat)
    requires Arranges(sorted, sources) && s in sources
    ensures i < |sorted| && sorted[i] == s
  {
    assert s in multiset(sorted);
    i :| 0 <= i < |sorted| && sorted[i] == s;
  }

  lemma CompiledInTurn(config: Config, r: Request, sorted: seq<Source>)
    requires config.Valid() && CompileArranged(config, r, sorted).Ok?
    ensures GrantedInTurn(CompileArranged(config, r, sorted).value, sorted, r.total) && Distinct(sorted, {})
    ensures forall j | 0 <= j < |sorted| :: Known(sorted[j].trust)
  {
    hide AddAll, Utf8.Valid, Distinct, Known;
    assert GrantedInTurn(Nothing(r.total), [], r.total);
    AddAllGrants(config, Nothing(r.total), [], sorted, r.workspace, Marker(r), r.total);
    assert [] + sorted == sorted;
    SuccessMeansDistinct(config, Nothing(r.total), sorted, r.workspace, Marker(r));
  }

  lemma FaithfulAt(config: Config, sorted: seq<Source>, c: Compiled, marker: Bytes, i: nat)
    requires config.Valid() && AllFaithful(config, sorted, c, marker) && i < |sorted|
    ensures i < |c.layers| && i < |c.disclosures| && c.layers[i].id == sorted[i].id && c.disclosures[i].trust == sorted[i].trust
  {
    assert Faithful(config, sorted[i], c.layers[i], c.disclosures[i], marker, i);
  }

  /** What an arrangement of known, distinct sources gives to each of them. */
  lemma GrantAt(config: Config, r: Request, sorted: seq<Source>, c: Compiled, i: nat)
    requires config.Valid() && Arranges(sorted, r.sources) && i < |sorted| && GrantedInTurn(c, sorted, r.total) && AllFaithful(config, sorted, c, Marker(r))
    requires forall j | 0 <= j < |sorted| :: Known(sorted[j].trust)
    requires Distinct(sorted, {})
    ensures Granted(r, c, sorted[i])
  {
    hide *;
    FaithfulAt(config, sorted, c, Marker(r), i);
    BudgetAt(c, sorted, r.total, i);
    AskedAheadAt(sorted, r.sources, i);
    GrantedWith(r, c, sorted[i], i);
  }

  lemma BudgetAt(c: Compiled, sorted: seq<Source>, total: int, i: nat)
    requires GrantedInTurn(c, sorted, total) && i < |sorted|
    ensures i < |c.layers| && c.layers[i].budget == Lesser(sorted[i].budget, total - Asked(sorted[..i]))
  {
    TurnAt(c.layers, sorted, total, i);
  }

  lemma AskedAheadAt(sorted: seq<Source>, sources: seq<Source>, i: nat)
    requires Arranges(sorted, sources) && Distinct(sorted, {}) && i < |sorted|
    requires forall j | 0 <= j < |sorted| :: Known(sorted[j].trust)
    ensures AskedAhead(sources, sorted[i]) == Asked(sorted[..i])
  {
    hide Sorted, AskedAhead, Asked, Known;
    AskedBeforeIsAskedAhead(sorted, i, |sorted|);
    assert sorted[..|sorted|] == sorted;
    AskedAheadOfPermutation(sorted, sources, sorted[i]);
  }

  lemma GrantedWith(r: Request, c: Compiled, s: Source, i: nat)
    requires i < |c.layers| && i < |c.disclosures| && c.layers[i].id == s.id && c.disclosures[i].trust == s.trust
    requires c.layers[i].budget == Lesser(s.budget, r.total - AskedAhead(r.sources, s))
    ensures Granted(r, c, s)
  {}

  lemma TrustOrderIsByTrust(config: Config, sorted: seq<Source>, c: Compiled, marker: Bytes)
    requires config.Valid() && AllFaithful(config, sorted, c, marker) && InTrustOrder(c)
    requires forall j | 0 <= j < |sorted| :: Known(sorted[j].trust)
    ensures ByTrust(c)
  {
    forall i, j | 0 <= i < j < |c.disclosures|
      ensures Known(c.disclosures[j].trust) && (c.disclosures[i].trust == c.disclosures[j].trust || MoreTrusted(c.disclosures[i].trust, c.disclosures[j].trust))
    {
      assert Faithful(config, sorted[i], c.layers[i], c.disclosures[i], marker, i);
      assert Faithful(config, sorted[j], c.layers[j], c.disclosures[j], marker, j);
      hide Faithful, AllFaithful;
      RankIsTrust(c.disclosures[i].trust, c.disclosures[j].trust);
    }
    hide AllFaithful, Known, InTrustOrder;
  }

  /** So sources that come after one never cost it a token: with any more of them it is granted the same. */
  lemma {:induction false} LaterSourcesCostNothing(sources: seq<Source>, more: seq<Source>, s: Source)
    requires forall i | 0 <= i < |more| :: !Ahead(more[i], s)
    ensures AskedAhead(sources + more, s) == AskedAhead(sources, s)
    decreases |more|
  {
    hide Ahead;
    if more == [] {
      assert sources + more == sources;
    } else {
      LaterSourcesCostNothing(sources, more[..|more| - 1], s);
      assert (sources + more)[..|sources + more| - 1] == sources + more[..|more| - 1];
    }
  }
}
