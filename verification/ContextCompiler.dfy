/**
 Context compilation: sources ordered by trust, redacted, budgeted and cut. How a
 credential is recognised is not interpreted: it is any predicate of the content.
 */
module ContextCompiler {
  import opened Wrappers
  import opened Utf8

  datatype Trust = System | Agent | Tools | User | Retrieved | ToolOutput | ProviderOutput | UnknownTrust

  function Rank(t: Trust): int {
    match t
    case System => 0
    case Agent => 1
    case Tools => 2
    case User => 3
    case Retrieved => 4
    case ToolOutput => 5
    case ProviderOutput => 6
    case UnknownTrust => -1
  }

  datatype Classification = Public | Internal | Confidential | Restricted | UnknownClass

  datatype Source = Source(id: string, trust: Trust, classification: Classification, content: Bytes, workspace: string, budget: int)

  /** `policiesValid` says that both policy references are well formed. */
  datatype Request = Request(
    workspace: string, project: string, run: string, sources: seq<Source>, policiesValid: bool, replacement: Bytes, total: int,
    compiledAt: int, memory: bool)

  datatype Config = Config(secrets: seq<Bytes>, credential: Bytes -> bool)
  {
    /** Registered secrets are never empty. */
    predicate Valid() { forall i | 0 <= i < |secrets| :: secrets[i] != [] }
  }

  datatype Digest = Digest(content: Bytes)

  datatype Layer = Layer(id: string, position: nat, digest: Digest, classification: Classification, redacted: bool, budget: nat)

  datatype Disclosure = Disclosure(id: string, trust: Trust, classification: Classification, content: Bytes)

  datatype Problem = MemoryForbidden | Incomplete | BadReplacement | BadSource | Credential | SecretSurvived | NegativeBudget

  /** What has been compiled so far, and what is left of the token budget. */
  datatype Compiled = Compiled(
    layers: seq<Layer>, disclosures: seq<Disclosure>, truncations: map<string, nat>, removed: nat, classes: set<Classification>,
    system: nat, tools: nat, user: nat, remaining: nat, seen: set<string>)

  const MARKER: Bytes := [91, 82, 69, 68, 65, 67, 84, 69, 68, 93]

  // ---- Order -----------------------------------------------------------------------------

  predicate StringLess(a: string, b: string)
    decreases |a|
  {
    b != [] && (a == [] || a[0] < b[0] || (a[0] == b[0] && StringLess(a[1..], b[1..])))
  }

  predicate Before(a: Source, b: Source) { Rank(a.trust) < Rank(b.trust) || (Rank(a.trust) == Rank(b.trust) && StringLess(a.id, b.id)) }

  ghost predicate Sorted(s: seq<Source>) { forall i, j | 0 <= i < j < |s| :: !Before(s[j], s[i]) }

  ghost predicate Arranges(sorted: seq<Source>, sources: seq<Source>) { Sorted(sorted) && multiset(sorted) == multiset(sources) }

  lemma {:induction false} StringsAreOrdered(a: string, b: string)
    ensures a != b ==> StringLess(a, b) || StringLess(b, a)
    ensures !(StringLess(a, b) && StringLess(b, a))
    decreases |a|
  {
    if a != [] && b != [] && a[0] == b[0] {
      StringsAreOrdered(a[1..], b[1..]);
      assert a == [a[0]] + a[1..] && b == [b[0]] + b[1..];
    }
  }

  lemma {:induction false} StringsTransitive(a: string, b: string, c: string)
    requires StringLess(a, b) && StringLess(b, c)
    ensures StringLess(a, c)
    decreases |a|
  {
    if a != [] && a[0] == b[0] && b[0] == c[0] { StringsTransitive(a[1..], b[1..], c[1..]); }
  }

  /** Not being before is transitive, so an arrangement may be checked neighbour by neighbour. */
  lemma NotBeforeTransitive(a: Source, b: Source, c: Source)
    requires !Before(b, a) && !Before(c, b)
    ensures !Before(c, a)
  {
    StringsAreOrdered(a.id, b.id);
    StringsAreOrdered(b.id, c.id);
    if Before(c, a) && a.id != b.id && Rank(a.trust) == Rank(b.trust) == Rank(c.trust) { StringsTransitive(c.id, a.id, b.id); }
  }

  // ---- One source ------------------------------------------------------------------------

  predicate IdStart(c: char) { '0' <= c <= '9' || 'A' <= c <= 'Z' || 'a' <= c <= 'z' }

  predicate OpaqueId(id: string) {
    0 < |id| <= 128 && IdStart(id[0]) && forall i | 0 <= i < |id| :: IdStart(id[i]) || id[i] == '.' || id[i] == '_' || id[i] == ':' || id[i] == '-'
  }

  predicate Acceptable(s: Source, workspace: string, seen: set<string>) {
    OpaqueId(s.id) && s.id !in seen && s.workspace == workspace && s.trust != UnknownTrust && s.classification != UnknownClass && Utf8.Valid(s.content)
  }

  /** Every registered secret replaced, one after another, and how many were. */
  function Redact(content: Bytes, secrets: seq<Bytes>, marker: Bytes): (Bytes, nat)
    requires forall i | 0 <= i < |secrets| :: secrets[i] != []
    decreases |secrets|
  {
    if secrets == [] then (content, 0)
    else
      var (once, n) := Replace(content, secrets[0], marker);
      var (rest, m) := Redact(once, secrets[1..], marker);
      (rest, n + m)
  }

  predicate Clean(content: Bytes, secrets: seq<Bytes>) { forall i | 0 <= i < |secrets| :: !Contains(content, secrets[i]) }

  function Minimize(config: Config, content: Bytes, marker: Bytes): Result<(Bytes, nat), Problem>
    requires config.Valid()
  {
    if config.credential(content) then Err(Credential)
    else
      var redacted := Redact(content, config.secrets, marker);
      if Clean(redacted.0, config.secrets) then Ok(redacted) else Err(SecretSurvived)
  }

  /** What a source is granted: what it asks for, or what is left. */
  function Granted(s: Source, remaining: nat): nat
    requires s.budget >= 0
  {
    if s.budget > remaining then remaining else s.budget
  }

  function Add(config: Config, c: Compiled, s: Source, workspace: string, marker: Bytes): Result<Compiled, Problem>
    requires config.Valid()
  {
    if !Acceptable(s, workspace, c.seen) then Err(BadSource)
    else
      var minimized := Minimize(config, s.content, marker);
      if minimized.Err? then Err(minimized.error)
      else if s.budget < 0 then Err(NegativeBudget)
      else
        var budget := Granted(s, c.remaining);
        var whole := minimized.value.0;
        var content := whole[..Cut(whole, budget * 4)];
        Ok(Compiled(
          c.layers + [Layer(s.id, |c.layers|, Digest(content), s.classification, minimized.value.1 > 0, budget)],
          c.disclosures + [Disclosure(s.id, s.trust, s.classification, content)],
          if budget * 4 < |whole| then c.truncations[s.id := |whole| - |content|] else c.truncations,
          c.removed + minimized.value.1, c.classes + {s.classification},
          c.system + (if s.trust == System || s.trust == Agent then budget else 0),
          c.tools + (if s.trust == Tools then budget else 0),
          c.user + (if s.trust == System || s.trust == Agent || s.trust == Tools then 0 else budget),
          c.remaining - budget, c.seen + {s.id}))
  }

  // ---- All sources -----------------------------------------------------------------------

  function AddAll(config: Config, c: Compiled, sources: seq<Source>, workspace: string, marker: Bytes): Result<Compiled, Problem>
    requires config.Valid()
    decreases |sources|
  {
    if sources == [] then Ok(c)
    else
      var next := Add(config, c, sources[0], workspace, marker);
      if next.Err? then next else AddAll(config, next.value, sources[1..], workspace, marker)
  }

  function Marker(r: Request): Bytes { if r.replacement == [] then MARKER else r.replacement }

  function Refusal(r: Request): Option<Problem> {
    if r.memory then Some(MemoryForbidden)
    else if r.workspace == "" || r.project == "" || r.run == "" || |r.sources| == 0 || |r.sources| > 128 then Some(Incomplete)
    else if r.total < 1 || r.total > 1_000_000 || r.compiledAt == 0 || !r.policiesValid then Some(Incomplete)
    else if |Marker(r)| > 64 || !Utf8.Valid(Marker(r)) then Some(BadReplacement)
    else None
  }

  function Nothing(total: nat): Compiled { Compiled([], [], map[], 0, {}, 0, 0, 0, total, {}) }

  /** The outcome for one arrangement of the request's sources. */
  function CompileArranged(config: Config, r: Request, sorted: seq<Source>): Result<Compiled, Problem>
    requires config.Valid()
  {
    if Refusal(r).Some? then Err(Refusal(r).value) else AddAll(config, Nothing(r.total), sorted, r.workspace, Marker(r))
  }

  function SumBudgets(layers: seq<Layer>): nat { if layers == [] then 0 else SumBudgets(layers[..|layers| - 1]) + layers[|layers| - 1].budget }

  // ---- Deterministic ---------------------------------------------------------------------

  /** No identity is used twice, here or before. */
  ghost predicate Distinct(sources: seq<Source>, seen: set<string>) {
    && (forall i | 0 <= i < |sources| :: sources[i].id !in seen)
    && (forall i, j | 0 <= i < j < |sources| :: sources[i].id != sources[j].id)
  }

  lemma {:induction false} SuccessMeansDistinct(config: Config, c: Compiled, sources: seq<Source>, workspace: string, marker: Bytes)
    requires config.Valid() && AddAll(config, c, sources, workspace, marker).Ok?
    ensures Distinct(sources, c.seen)
    decreases |sources|
  {
    if sources != [] {
      var next := Add(config, c, sources[0], workspace, marker).value;
      SuccessMeansDistinct(config, next, sources[1..], workspace, marker);
      forall i | 0 < i < |sources| ensures sources[i].id !in next.seen { assert sources[i] == sources[1..][i - 1]; }
      forall i, j | 0 < i < j < |sources| ensures sources[i].id != sources[j].id {
        assert sources[i] == sources[1..][i - 1] && sources[j] == sources[1..][j - 1];
      }
    }
  }

  /** Sources with distinct identities have one arrangement only. */
  lemma {:induction false} OneArrangement(a: seq<Source>, b: seq<Source>)
    requires Sorted(a) && Sorted(b) && multiset(a) == multiset(b)
    requires forall i, j | 0 <= i < j < |a| :: a[i].id != a[j].id
    ensures a == b
    decreases |a|
  {
    hide Sorted;
    assert |multiset(a)| == |a| && |multiset(b)| == |b|;
    if a != [] {
      SameFirst(a, b);
      SameRest(a, b);
      OneArrangement(a[1..], b[1..]);
      assert a == [a[0]] + a[1..] && b == [b[0]] + b[1..];
    }
  }

  lemma SameRest(a: seq<Source>, b: seq<Source>)
    requires Sorted(a) && Sorted(b) && multiset(a) == multiset(b) && a != [] && b != [] && a[0] == b[0]
    ensures Sorted(a[1..]) && Sorted(b[1..]) && multiset(a[1..]) == multiset(b[1..])
  {
    SortedRest(a);
    SortedRest(b);
    hide Sorted;
    assert a == [a[0]] + a[1..] && b == [b[0]] + b[1..];
    assert multiset(a[1..]) == multiset(a) - multiset{a[0]} && multiset(b[1..]) == multiset(b) - multiset{b[0]};
  }

  lemma SortedRest(a: seq<Source>)
    requires Sorted(a) && a != []
    ensures Sorted(a[1..])
  {
    hide Before;
  }

  lemma SameFirst(a: seq<Source>, b: seq<Source>)
    requires Sorted(a) && Sorted(b) && multiset(a) == multiset(b) && a != [] && b != []
    requires forall i, j | 0 <= i < j < |a| :: a[i].id != a[j].id
    ensures a[0] == b[0]
  {
    assert a[0] in multiset(b) && b[0] in multiset(a);
    var i :| 0 <= i < |a| && a[i] == b[0];
    var j :| 0 <= j < |b| && b[j] == a[0];
    assert !Before(b[0], a[0]) && !Before(a[0], b[0]) by {
      StringsAreOrdered(a[0].id, a[0].id);
      StringsAreOrdered(b[0].id, b[0].id);
    }
    StringsAreOrdered(a[0].id, b[0].id);
  }

  lemma SameRefusal(r: Request, sources: seq<Source>)
    requires multiset(sources) == multiset(r.sources)
    ensures Refusal(r.(sources := sources)) == Refusal(r)
  {
    assert |multiset(sources)| == |sources| && |multiset(r.sources)| == |r.sources|;
  }

  /**
   The order sources arrive in does not matter, nor how they are sorted: any two arrangements of any
   two permutations both succeed, with one and the same result, or both fail.
   */
  lemma OrderDoesNotMatter(config: Config, r: Request, permuted: seq<Source>, a: seq<Source>, b: seq<Source>)
    requires config.Valid() && multiset(permuted) == multiset(r.sources) && Arranges(a, r.sources) && Arranges(b, permuted)
    ensures var x, y := CompileArranged(config, r, a), CompileArranged(config, r.(sources := permuted), b);
            (x.Ok? <==> y.Ok?) && (x.Ok? ==> x == y)
  {
    SameRefusal(r, permuted);
    if Refusal(r).None? {
      var start := Nothing(r.total);
      if AddAll(config, start, a, r.workspace, Marker(r)).Ok? {
        SuccessMeansDistinct(config, start, a, r.workspace, Marker(r));
        OneArrangement(a, b);
      }
      if AddAll(config, start, b, r.workspace, Marker(r)).Ok? {
        SuccessMeansDistinct(config, start, b, r.workspace, Marker(r));
        OneArrangement(b, a);
      }
    }
  }

  // ---- Bounded and redacted --------------------------------------------------------------

  lemma {:induction false} RedactKeepsValid(content: Bytes, secrets: seq<Bytes>, marker: Bytes)
    requires Utf8.Valid(content) && Utf8.Valid(marker) && forall i | 0 <= i < |secrets| :: secrets[i] != [] && Utf8.Valid(secrets[i])
    ensures Utf8.Valid(Redact(content, secrets, marker).0)
    decreases |secrets|
  {
    if secrets != [] {
      ReplacingKeepsValid(content, secrets[0], marker);
      RedactKeepsValid(Replace(content, secrets[0], marker).0, secrets[1..], marker);
    }
  }

  /** Every registered secret is text. */
  predicate SecretsAreText(config: Config) { forall i | 0 <= i < |config.secrets| :: Utf8.Valid(config.secrets[i]) }

  /** What one disclosed layer promises about the source it is of. */
  ghost predicate Faithful(config: Config, s: Source, layer: Layer, d: Disclosure, marker: Bytes, position: nat)
    requires config.Valid()
  {
    && layer.id == d.id == s.id && layer.position == position && layer.digest == Digest(d.content)
    && layer.classification == d.classification == s.classification && d.trust == s.trust && layer.budget <= s.budget
    && Clean(d.content, config.secrets) && |d.content| <= 4 * layer.budget
    && var whole := Redact(s.content, config.secrets, marker);
    && d.content <= whole.0 && (layer.redacted <==> whole.1 > 0)
    && (Utf8.Valid(whole.0) ==> LongestValidPrefix(whole.0, 4 * layer.budget, |d.content|))
    && (SecretsAreText(config) && Utf8.Valid(marker) ==> Utf8.Valid(whole.0))
  }

  ghost predicate AllFaithful(config: Config, sources: seq<Source>, c: Compiled, marker: Bytes)
    requires config.Valid()
  {
    && |c.layers| == |c.disclosures| == |sources|
    && forall i | 0 <= i < |sources| :: Faithful(config, sources[i], c.layers[i], c.disclosures[i], marker, i)
  }

  /** The class totals are the layers' budgets, and with what remains they make up the whole. */
  ghost predicate Balanced(c: Compiled, total: nat) {
    c.system + c.tools + c.user == SumBudgets(c.layers) && SumBudgets(c.layers) + c.remaining == total
  }

  lemma AddIsFaithful(config: Config, c: Compiled, s: Source, workspace: string, marker: Bytes)
    requires config.Valid() && Add(config, c, s, workspace, marker).Ok?
    ensures var next := Add(config, c, s, workspace, marker).value;
            && |next.layers| == |c.layers| + 1 && |next.disclosures| == |c.disclosures| + 1
            && next.layers[..|c.layers|] == c.layers && next.disclosures[..|c.disclosures|] == c.disclosures
            && Faithful(config, s, next.layers[|c.layers|], next.disclosures[|c.disclosures|], marker, |c.layers|)
  {
    var whole := Redact(s.content, config.secrets, marker).0;
    var budget := Granted(s, c.remaining);
    var cut := Cut(whole, budget * 4);
    forall i | 0 <= i < |config.secrets| ensures !Contains(whole[..cut], config.secrets[i]) {
      if Contains(whole[..cut], config.secrets[i]) { PrefixContains(whole, cut, config.secrets[i]); }
    }
    if SecretsAreText(config) && Utf8.Valid(marker) { RedactKeepsValid(s.content, config.secrets, marker); }
    if Utf8.Valid(whole) { CutIsLongest(whole, budget * 4); }
  }

  lemma AddStaysBalanced(config: Config, c: Compiled, s: Source, workspace: string, marker: Bytes, total: nat)
    requires config.Valid() && Add(config, c, s, workspace, marker).Ok? && Balanced(c, total)
    ensures Balanced(Add(config, c, s, workspace, marker).value, total)
  {
    var next := Add(config, c, s, workspace, marker).value;
    assert next.layers[..|next.layers| - 1] == c.layers;
  }

  lemma OneMoreFaithful(config: Config, done: seq<Source>, c: Compiled, s: Source, next: Compiled, marker: Bytes)
    requires config.Valid() && AllFaithful(config, done, c, marker)
    requires |next.layers| == |c.layers| + 1 && |next.disclosures| == |c.disclosures| + 1
    requires next.layers[..|c.layers|] == c.layers && next.disclosures[..|c.disclosures|] == c.disclosures
    requires Faithful(config, s, next.layers[|c.layers|], next.disclosures[|c.disclosures|], marker, |c.layers|)
    ensures AllFaithful(config, done + [s], next, marker)
  {
    forall i | 0 <= i < |done| ensures Faithful(config, (done + [s])[i], next.layers[i], next.disclosures[i], marker, i) {
      assert next.layers[i] == next.layers[..|c.layers|][i] && next.disclosures[i] == next.disclosures[..|c.disclosures|][i];
    }
  }

  lemma AddKeepsFaith(config: Config, done: seq<Source>, c: Compiled, s: Source, workspace: string, marker: Bytes, total: nat)
    requires config.Valid() && AllFaithful(config, done, c, marker) && Balanced(c, total) && Add(config, c, s, workspace, marker).Ok?
    ensures var next := Add(config, c, s, workspace, marker).value; AllFaithful(config, done + [s], next, marker) && Balanced(next, total)
  {
    AddIsFaithful(config, c, s, workspace, marker);
    AddStaysBalanced(config, c, s, workspace, marker, total);
    OneMoreFaithful(config, done, c, s, Add(config, c, s, workspace, marker).value, marker);
  }

  lemma AddAllStep(config: Config, c: Compiled, sources: seq<Source>, workspace: string, marker: Bytes)
    requires config.Valid() && sources != [] && AddAll(config, c, sources, workspace, marker).Ok?
    ensures Add(config, c, sources[0], workspace, marker).Ok?
    ensures AddAll(config, Add(config, c, sources[0], workspace, marker).value, sources[1..], workspace, marker) == AddAll(config, c, sources, workspace, marker)
  {}

  lemma AddNone(config: Config, c: Compiled, workspace: string, marker: Bytes)
    requires config.Valid()
    ensures AddAll(config, c, [], workspace, marker) == Ok(c)
  {}

  lemma {:induction false} AddAllIsFaithful(config: Config, done: seq<Source>, c: Compiled, sources: seq<Source>, workspace: string, marker: Bytes, total: nat)
    requires config.Valid() && AllFaithful(config, done, c, marker) && Balanced(c, total)
    requires AddAll(config, c, sources, workspace, marker).Ok?
    ensures var end := AddAll(config, c, sources, workspace, marker).value;
            AllFaithful(config, done + sources, end, marker) && Balanced(end, total)
    decreases |sources|
  {
    hide *;
    if sources == [] {
      assert done + sources == done;
      AddNone(config, c, workspace, marker);
    } else {
      AddAllStep(config, c, sources, workspace, marker);
      AddKeepsFaith(config, done, c, sources[0], workspace, marker, total);
      AddAllIsFaithful(config, done + [sources[0]], Add(config, c, sources[0], workspace, marker).value, sources[1..], workspace, marker, total);
      assert done + [sources[0]] + sources[1..] == done + sources;
    }
  }

  /** The disclosures follow the order of trust. */
  predicate InTrustOrder(c: Compiled) {
    forall i, j | 0 <= i < j < |c.disclosures| :: Rank(c.disclosures[i].trust) <= Rank(c.disclosures[j].trust)
  }

  lemma ArrangedIsInTrustOrder(config: Config, sources: seq<Source>, sorted: seq<Source>, c: Compiled, marker: Bytes)
    requires config.Valid() && Arranges(sorted, sources) && AllFaithful(config, sorted, c, marker)
    ensures InTrustOrder(c) && |c.layers| == |sources|
  {
    assert |multiset(sorted)| == |sorted| && |multiset(sources)| == |sources|;
    forall i, j | 0 <= i < j < |c.disclosures| ensures Rank(c.disclosures[i].trust) <= Rank(c.disclosures[j].trust) {
      assert Faithful(config, sorted[i], c.layers[i], c.disclosures[i], marker, i);
      assert Faithful(config, sorted[j], c.layers[j], c.disclosures[j], marker, j);
    }
  }

  /**
   What compilation discloses: one layer a source, and in order of trust when the sources are arranged
   so; no registered secret anywhere; each content within four bytes a granted token and, whenever the
   redacted source is text, its longest valid prefix that fits; and budgets that add up, class by class,
   to no more than the total.
   */
  lemma CompilationIsBounded(config: Config, r: Request, sorted: seq<Source>)
    requires config.Valid() && CompileArranged(config, r, sorted).Ok?
    ensures var c := CompileArranged(config, r, sorted).value;
            && AllFaithful(config, sorted, c, Marker(r))
            && (Arranges(sorted, r.sources) ==> InTrustOrder(c) && |c.layers| == |r.sources|)
            && c.system + c.tools + c.user == SumBudgets(c.layers) <= r.total
            && c.remaining == r.total - SumBudgets(c.layers)
  {
    AddAllIsFaithful(config, [], Nothing(r.total), sorted, r.workspace, Marker(r), r.total);
    assert [] + sorted == sorted;
    hide AllFaithful, AddAll, Sorted;
    if Arranges(sorted, r.sources) { ArrangedIsInTrustOrder(config, r.sources, sorted, CompileArranged(config, r, sorted).value, Marker(r)); }
  }

  /** A registered secret that is half a rune makes a compilation disclose what is not text, though the source was. */
  lemma HalfRuneIsDisclosed(r: Request, s: Source, credential: Bytes -> bool)
    requires r.sources == [s] && s.content == [0xC3, 0xA9] && Refusal(r).None? && r.replacement == []
    requires Acceptable(s, r.workspace, {}) && s.budget >= 3 && r.total >= 3 && !credential(s.content)
    ensures Config([[0xC3]], credential).Valid()
    ensures var c := CompileArranged(Config([[0xC3]], credential), r, [s]);
            c.Ok? && |c.value.disclosures| == 1 && !Utf8.Valid(c.value.disclosures[0].content)
  {
    hide *;
    HalfRuneIsAdded(r, s, credential);
    OneSource(Config([[0xC3]], credential), r, s);
  }

  lemma OneSource(config: Config, r: Request, s: Source)
    requires config.Valid() && Refusal(r).None? && r.total >= 1
    ensures CompileArranged(config, r, [s]) == Add(config, Nothing(r.total), s, r.workspace, Marker(r))
  {
    hide Refusal, Add;
    var next := Add(config, Nothing(r.total), s, r.workspace, Marker(r));
    assert [s][0] == s && [s][1..] == [];
    if next.Ok? { AddNone(config, next.value, r.workspace, Marker(r)); }
  }

  lemma HalfRuneIsMinimized(content: Bytes, credential: Bytes -> bool)
    requires content == [0xC3, 0xA9] && !credential(content)
    ensures var config := Config([[0xC3]], credential);
            && config.Valid() && Minimize(config, content, MARKER) == Ok((MARKER + [0xA9], 1)) && !Utf8.Valid(MARKER + [0xA9])
  {
    HalfARune(MARKER);
    hide Replace, Redact, Contains, Utf8.Valid, MARKER;
    OneSecret(content, [0xC3], MARKER);
  }

  lemma OneSecret(content: Bytes, secret: Bytes, marker: Bytes)
    requires secret != []
    ensures Redact(content, [secret], marker) == Replace(content, secret, marker)
  {
    hide Replace;
    assert [secret][1..] == [];
    var (once, n) := Replace(content, secret, marker);
    assert Redact(once, [], marker) == (once, 0);
  }

  lemma HalfRuneIsAdded(r: Request, s: Source, credential: Bytes -> bool)
    requires s.content == [0xC3, 0xA9] && r.replacement == [] && Refusal(r).None?
    requires Acceptable(s, r.workspace, {}) && s.budget >= 3 && r.total >= 3 && !credential(s.content)
    ensures var config := Config([[0xC3]], credential);
            && config.Valid() && Marker(r) == MARKER
            && var a := Add(config, Nothing(r.total), s, r.workspace, MARKER);
               a.Ok? && |a.value.disclosures| == 1 && !Utf8.Valid(a.value.disclosures[0].content)
  {
    HalfRuneIsMinimized(s.content, credential);
    var whole := MARKER + [0xA9];
    assert |whole| == 11;
    hide Minimize, Utf8.Valid, Acceptable, Refusal, MARKER;
    assert Cut(whole, Granted(s, r.total) * 4) == 11 && whole[..11] == whole;
  }
}
