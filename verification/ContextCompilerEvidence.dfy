/** What the evidence of a compilation says of its sources: which class was granted how much, and what was left out. */
module ContextCompilerEvidence {
  import opened Wrappers
  import opened Utf8
  import opened ContextCompiler

  /** The tokens granted to the sources of some classes. */
  function ClassBudget(layers: seq<Layer>, done: seq<Source>, classes: set<Trust>): nat
    requires |layers| == |done|
  {
    if done == [] then 0
    else
      var n := |done| - 1;
      ClassBudget(layers[..n], done[..n], classes) + if done[n].trust in classes then layers[n].budget else 0
  }

  /** How often a registered secret was taken out of the sources. */
  ghost function Removed(config: Config, done: seq<Source>, marker: Bytes): nat
    requires config.Valid()
  {
    if done == [] then 0
    else Removed(config, done[..|done| - 1], marker) + Redact(done[|done| - 1].content, config.secrets, marker).1
  }

  /** A truncation is reported for exactly the sources whose redacted content was cut, with the bytes that were lost. */
  ghost predicate TruncationReported(config: Config, s: Source, d: Disclosure, truncations: map<string, nat>, marker: Bytes)
    requires config.Valid()
  {
    var whole := Redact(s.content, config.secrets, marker).0;
    && |d.content| <= |whole| && (s.id in truncations <==> |d.content| < |whole|)
    && (s.id in truncations ==> truncations[s.id] == |whole| - |d.content|)
  }

  function Identities(done: seq<Source>): set<string> { if done == [] then {} else Identities(done[..|done| - 1]) + {done[|done| - 1].id} }

  function Classes(done: seq<Source>): set<Classification> {
    if done == [] then {} else Classes(done[..|done| - 1]) + {done[|done| - 1].classification}
  }

  /** Every source so far has its truncation reported, or none. */
  ghost predicate AllReported(config: Config, done: seq<Source>, disclosures: seq<Disclosure>, truncations: map<string, nat>, marker: Bytes)
    requires config.Valid()
  {
    |disclosures| == |done| && forall i | 0 <= i < |done| :: TruncationReported(config, done[i], disclosures[i], truncations, marker)
  }

  /** Nothing else was truncated. */
  predicate OnlyTheirs(truncations: map<string, nat>, seen: set<string>) { truncations.Keys <= seen }

  ghost predicate Evident(config: Config, done: seq<Source>, c: Compiled, marker: Bytes)
    requires config.Valid()
  {
    && |c.layers| == |c.disclosures| == |done|
    && c.system == ClassBudget(c.layers, done, {System, Agent})
    && c.tools == ClassBudget(c.layers, done, {Tools})
    && c.user == ClassBudget(c.layers, done, {User, Retrieved, ToolOutput, ProviderOutput})
    && c.removed == Removed(config, done, marker)
    && c.classes == Classes(done) && c.seen == Identities(done) && OnlyTheirs(c.truncations, c.seen)
    && AllReported(config, done, c.disclosures, c.truncations, marker)
  }

  /** What one more source adds to the evidence. */
  ghost predicate Adds(config: Config, c: Compiled, s: Source, next: Compiled, marker: Bytes)
    requires config.Valid()
  {
    && |next.layers| == |c.layers| + 1 && |next.disclosures| == |c.disclosures| + 1
    && next.layers[..|c.layers|] == c.layers && next.disclosures[..|c.disclosures|] == c.disclosures
    && var budget, whole, content := next.layers[|c.layers|].budget, Redact(s.content, config.secrets, marker), next.disclosures[|c.disclosures|].content;
    && next.system == c.system + (if s.trust in {System, Agent} then budget else 0)
    && next.tools == c.tools + (if s.trust in {Tools} then budget else 0)
    && next.user == c.user + (if s.trust in {User, Retrieved, ToolOutput, ProviderOutput} then budget else 0)
    && next.removed == c.removed + whole.1 && next.classes == c.classes + {s.classification} && next.seen == c.seen + {s.id} && s.id !in c.seen
    && |content| <= |whole.0|
    && next.truncations == if |content| < |whole.0| then c.truncations[s.id := |whole.0| - |content|] else c.truncations
  }

  lemma AddAdds(config: Config, c: Compiled, s: Source, workspace: string, marker: Bytes)
    requires config.Valid() && Add(config, c, s, workspace, marker).Ok?
    ensures Adds(config, c, s, Add(config, c, s, workspace, marker).value, marker)
  {
    hide Redact, OpaqueId, Utf8.Valid, Clean;
  }

  lemma BudgetsAdd(layers: seq<Layer>, done: seq<Source>, more: seq<Layer>, s: Source, classes: set<Trust>)
    requires |layers| == |done| && |more| == |layers| + 1 && more[..|layers|] == layers
    ensures ClassBudget(more, done + [s], classes) == ClassBudget(layers, done, classes) + if s.trust in classes then more[|layers|].budget else 0
  {
    assert (done + [s])[..|done|] == done;
  }

  lemma RemovedAdds(config: Config, done: seq<Source>, s: Source, marker: Bytes)
    requires config.Valid()
    ensures Removed(config, done + [s], marker) == Removed(config, done, marker) + Redact(s.content, config.secrets, marker).1
  {
    hide Redact;
    assert (done + [s])[..|done|] == done;
  }

  lemma NamesAdd(done: seq<Source>, s: Source)
    ensures Classes(done + [s]) == Classes(done) + {s.classification} && Identities(done + [s]) == Identities(done) + {s.id}
  {
    assert (done + [s])[..|done|] == done;
  }

  lemma {:induction false} IdentityIsSeen(done: seq<Source>, i: nat)
    requires i < |done|
    ensures done[i].id in Identities(done) && done[i].classification in Classes(done)
    decreases |done|
  {
    if i < |done| - 1 { IdentityIsSeen(done[..|done| - 1], i); }
  }

  /** Other sources' truncations stay as they were reported. */
  lemma ReportStays(config: Config, s: Source, d: Disclosure, before: map<string, nat>, after: map<string, nat>, marker: Bytes)
    requires config.Valid() && TruncationReported(config, s, d, before, marker)
    requires (s.id in before <==> s.id in after) && (s.id in before ==> after[s.id] == before[s.id])
    ensures TruncationReported(config, s, d, after, marker)
  {}

  lemma OneMoreIsReported(config: Config, done: seq<Source>, c: Compiled, s: Source, next: Compiled, marker: Bytes)
    requires config.Valid() && AllReported(config, done, c.disclosures, c.truncations, marker) && c.seen == Identities(done)
    requires OnlyTheirs(c.truncations, c.seen) && Adds(config, c, s, next, marker)
    ensures AllReported(config, done + [s], next.disclosures, next.truncations, marker) && OnlyTheirs(next.truncations, next.seen)
  {
    var more := done + [s];
    assert TruncationReported(config, s, next.disclosures[|done|], next.truncations, marker);
    hide Redact, Identities;
    forall i | 0 <= i < |more| ensures TruncationReported(config, more[i], next.disclosures[i], next.truncations, marker) {
      if i < |done| {
        assert next.disclosures[i] == next.disclosures[..|c.disclosures|][i] == c.disclosures[i];
        IdentityIsSeen(done, i);
        assert TruncationReported(config, done[i], c.disclosures[i], c.truncations, marker);
        hide TruncationReported;
        ReportStays(config, done[i], c.disclosures[i], c.truncations, next.truncations, marker);
      }
    }
  }

  lemma OneMoreIsEvident(config: Config, done: seq<Source>, c: Compiled, s: Source, next: Compiled, marker: Bytes)
    requires config.Valid() && Evident(config, done, c, marker) && Adds(config, c, s, next, marker)
    ensures Evident(config, done + [s], next, marker)
  {
    hide ClassBudget, Removed, Redact, Classes, Identities, AllReported, OnlyTheirs;
    BudgetsAdd(c.layers, done, next.layers, s, {System, Agent});
    BudgetsAdd(c.layers, done, next.layers, s, {Tools});
    BudgetsAdd(c.layers, done, next.layers, s, {User, Retrieved, ToolOutput, ProviderOutput});
    RemovedAdds(config, done, s, marker);
    NamesAdd(done, s);
    OneMoreIsReported(config, done, c, s, next, marker);
  }

  lemma {:induction false} AddAllIsEvident(config: Config, done: seq<Source>, c: Compiled, sources: seq<Source>, workspace: string, marker: Bytes)
    requires config.Valid() && Evident(config, done, c, marker) && AddAll(config, c, sources, workspace, marker).Ok?
    ensures Evident(config, done + sources, AddAll(config, c, sources, workspace, marker).value, marker)
    decreases |sources|
  {
    hide *;
    if sources == [] {
      assert done + sources == done;
      AddNone(config, c, workspace, marker);
    } else {
      var next := Add(config, c, sources[0], workspace, marker);
      AddAllStep(config, c, sources, workspace, marker);
      AddAdds(config, c, sources[0], workspace, marker);
      OneMoreIsEvident(config, done, c, sources[0], next.value, marker);
      AddAllIsEvident(config, done + [sources[0]], next.value, sources[1..], workspace, marker);
      assert done + [sources[0]] + sources[1..] == done + sources;
    }
  }

  /**
   The evidence adds up by class: the system budget is what system and agent sources were granted, the
   tools budget what tools were, the user budget all the rest; every classification is reported, every
   removed secret counted, and every truncation reported with exactly the bytes that were lost.
   */
  lemma CompilationIsEvident(config: Config, r: Request, sorted: seq<Source>)
    requires config.Valid() && CompileArranged(config, r, sorted).Ok?
    ensures Evident(config, sorted, CompileArranged(config, r, sorted).value, Marker(r))
  {
    assert Evident(config, [], Nothing(r.total), Marker(r));
    hide Evident, AddAll, Utf8.Valid;
    AddAllIsEvident(config, [], Nothing(r.total), sorted, r.workspace, Marker(r));
    assert [] + sorted == sorted;
  }

  /**
   A compilation is refused for its own reason: what is asked of it at all, or the first source in order
   that is unacceptable, carries a credential, keeps a secret, or asks for a negative budget.
   */
  lemma RefusalsMean(r: Request)
    ensures Refusal(r) == Some(MemoryForbidden) <==> r.memory
    ensures Refusal(r) == Some(Incomplete) <==>
              !r.memory && (r.workspace == "" || r.project == "" || r.run == "" || !(1 <= |r.sources| <= 128) || !(1 <= r.total <= 1_000_000)
                            || r.compiledAt == 0 || !r.policiesValid)
    ensures Refusal(r).None? ==> |Marker(r)| <= 64 && Utf8.Valid(Marker(r)) && (r.replacement != [] ==> Marker(r) == r.replacement)
    ensures Refusal(r) in {None, Some(MemoryForbidden), Some(Incomplete), Some(BadReplacement)}
  {
    hide Utf8.Valid;
  }

  lemma SourceRefusalsMean(config: Config, c: Compiled, s: Source, workspace: string, marker: Bytes)
    requires config.Valid() && Add(config, c, s, workspace, marker).Err?
    ensures var error := Add(config, c, s, workspace, marker).error;
            && (error == BadSource <==> !Acceptable(s, workspace, c.seen))
            && (error == Credential <==> Acceptable(s, workspace, c.seen) && config.credential(s.content))
            && (error == SecretSurvived <==> Acceptable(s, workspace, c.seen) && !config.credential(s.content)
                                             && !Clean(Redact(s.content, config.secrets, marker).0, config.secrets))
            && (error == NegativeBudget ==> s.budget < 0)
            && error in {BadSource, Credential, SecretSurvived, NegativeBudget}
  {
    hide Acceptable, Redact, Clean;
  }

  // ---- When a compilation succeeds -------------------------------------------------------

  /** An opaque identity: a letter or digit, then letters, digits and four marks, 128 characters at most. */
  predicate Named(id: string) {
    && id != "" && |id| <= 128 && id[0] !in {'.', '_', ':', '-'}
    && forall i | 0 <= i < |id| :: 'a' <= id[i] <= 'z' || 'A' <= id[i] <= 'Z' || '0' <= id[i] <= '9' || id[i] in {'.', '_', ':', '-'}
  }

  /** A source fit for a compilation of this workspace, whatever else is in it. */
  ghost predicate Fit(config: Config, s: Source, workspace: string, marker: Bytes)
    requires config.Valid()
  {
    && Named(s.id) && s.workspace == workspace && s.budget >= 0
    && s.trust in {System, Agent, Tools, User, Retrieved, ToolOutput, ProviderOutput}
    && s.classification in {Public, Internal, Confidential, Restricted}
    && Utf8.Valid(s.content) && !config.credential(s.content)
    && forall i | 0 <= i < |config.secrets| :: !Contains(Redact(s.content, config.secrets, marker).0, config.secrets[i])
  }

  lemma NamedIsOpaque(id: string)
    ensures Named(id) <==> OpaqueId(id)
  {
    if OpaqueId(id) { assert IdStart(id[0]); }
    if Named(id) { assert IdStart(id[0]); }
  }

  lemma AddsExactly(config: Config, c: Compiled, s: Source, workspace: string, marker: Bytes)
    requires config.Valid()
    ensures Add(config, c, s, workspace, marker).Ok? <==> Fit(config, s, workspace, marker) && s.id !in c.seen
  {
    NamedIsOpaque(s.id);
    hide Named, OpaqueId, Redact, Utf8.Valid, Contains, Cut;
  }

  lemma DistinctParts(sources: seq<Source>, seen: set<string>)
    requires sources != []
    ensures Distinct(sources, seen) <==> sources[0].id !in seen && Distinct(sources[1..], seen + {sources[0].id})
  {
    var rest := sources[1..];
    assert forall i | 0 <= i < |rest| :: rest[i] == sources[i + 1];
    assert forall i | 1 <= i < |sources| :: sources[i] == rest[i - 1];
  }

  lemma {:induction false} AddsAllExactly(config: Config, c: Compiled, sources: seq<Source>, workspace: string, marker: Bytes)
    requires config.Valid()
    ensures AddAll(config, c, sources, workspace, marker).Ok?
            <==> Distinct(sources, c.seen) && forall s | s in sources :: Fit(config, s, workspace, marker)
    decreases |sources|
  {
    if sources != [] {
      var next := Add(config, c, sources[0], workspace, marker);
      AddAllUnfolds(config, c, sources, workspace, marker);
      AddsExactly(config, c, sources[0], workspace, marker);
      DistinctParts(sources, c.seen);
      assert forall s :: s in sources <==> s == sources[0] || s in sources[1..] by { assert sources == [sources[0]] + sources[1..]; }
      hide AddAll, Add, Fit, Distinct;
      if next.Ok? { AddsAllExactly(config, next.value, sources[1..], workspace, marker); }
    }
  }

  lemma AddAllUnfolds(config: Config, c: Compiled, sources: seq<Source>, workspace: string, marker: Bytes)
    requires config.Valid() && sources != []
    ensures var next := Add(config, c, sources[0], workspace, marker);
            && AddAll(config, c, sources, workspace, marker) == (if next.Err? then next else AddAll(config, next.value, sources[1..], workspace, marker))
            && (next.Ok? ==> next.value.seen == c.seen + {sources[0].id})
  {
    hide Acceptable, ContextCompiler.Minimize, Cut;
  }

  lemma {:induction false} IdentitiesAre(done: seq<Source>)
    ensures |Identities(done)| <= |done| && forall id :: id in Identities(done) <==> exists s :: s in done && s.id == id
    decreases |done|
  {
    if done != [] {
      var n := |done| - 1;
      IdentitiesAre(done[..n]);
      assert done == done[..n] + [done[n]];
      assert forall s :: s in done <==> s in done[..n] || s == done[n];
    }
  }

  lemma DistinctFront(front: seq<Source>, x: Source)
    ensures Distinct(front + [x], {}) <==> Distinct(front, {}) && forall i | 0 <= i < |front| :: front[i].id != x.id
  {
    var done := front + [x];
    assert forall i | 0 <= i < |front| :: done[i] == front[i];
    if Distinct(done, {}) {
      forall i | 0 <= i < |front| ensures front[i].id != x.id { assert done[i].id != done[|front|].id; }
      forall i, j | 0 <= i < j < |front| ensures front[i].id != front[j].id { assert done[i].id != done[j].id; }
    }
  }

  lemma IdentityOf(front: seq<Source>, id: string)
    ensures id in Identities(front) <==> exists i :: 0 <= i < |front| && front[i].id == id
  {
    IdentitiesAre(front);
    hide Identities;
    if i :| 0 <= i < |front| && front[i].id == id { assert front[i] in front; }
  }

  lemma {:induction false} DistinctByCount(done: seq<Source>)
    ensures Distinct(done, {}) <==> |Identities(done)| == |done|
    decreases |done|
  {
    if done != [] {
      var n := |done| - 1;
      var front := done[..n];
      assert done == front + [done[n]];
      IdentitiesAre(front);
      DistinctFront(front, done[n]);
      DistinctByCount(front);
      IdentityOf(front, done[n].id);
      hide Distinct;
    }
  }

  /** Whether an identity is used twice does not depend on the order of the sources. */
  lemma SameDistinct(a: seq<Source>, b: seq<Source>)
    requires multiset(a) == multiset(b)
    ensures (forall s :: s in a <==> s in b) && (Distinct(a, {}) <==> Distinct(b, {}))
  {
    hide Distinct;
    SameElements(a, b);
    IdentitiesAre(a);
    IdentitiesAre(b);
    DistinctByCount(a);
    DistinctByCount(b);
    assert Identities(a) == Identities(b);
  }

  lemma SameElements(a: seq<Source>, b: seq<Source>)
    requires multiset(a) == multiset(b)
    ensures |a| == |b| && forall s :: s in a <==> s in b
  {
    assert |a| == |multiset(a)| == |multiset(b)| == |b|;
    forall s ensures s in a <==> s in b { assert s in multiset(a) <==> s in multiset(b); }
  }

  /** Compilation succeeds exactly when the request stands, no identity is used twice, and every source is fit on its own. */
  lemma SucceedsExactly(config: Config, r: Request, sorted: seq<Source>)
    requires config.Valid() && Arranges(sorted, r.sources)
    ensures CompileArranged(config, r, sorted).Ok?
            <==> Refusal(r).None? && Distinct(r.sources, {}) && forall s | s in r.sources :: Fit(config, s, r.workspace, Marker(r))
  {
    hide Distinct, Fit, AddAll, Utf8.Valid;
    SameDistinct(sorted, r.sources);
    if Refusal(r).None? { AddsAllExactly(config, Nothing(r.total), sorted, r.workspace, Marker(r)); }
  }
}
