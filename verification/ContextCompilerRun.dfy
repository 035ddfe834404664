/** The compiler as it runs: sort, then one source after another. */
module ContextCompilerRun {
  import opened Wrappers
  import opened Utf8
  import opened ContextCompiler
  import opened ContextCompilerGrants
  import opened ContextCompilerEvidence

  lemma JoinOne<T>(a: seq<T>, x: T, b: seq<T>)
    ensures multiset(a + [x] + b) == multiset(a) + multiset{x} + multiset(b)
  {}

  /** Inserting a source where everything before it is not after it and everything after it is not before it. */
  lemma InsertedSorted(s: seq<Source>, i: nat, x: Source)
    requires Sorted(s) && i <= |s|
    requires forall k | 0 <= k < i :: !Before(x, s[k])
    requires forall k | i <= k < |s| :: !Before(s[k], x)
    ensures Sorted(s[..i] + [x] + s[i..])
  {}

  lemma LaterNotBefore(s: seq<Source>, i: nat, x: Source)
    requires Sorted(s) && i < |s| && Before(x, s[i])
    ensures forall k | i <= k < |s| :: !Before(s[k], x)
  {
    forall k | i <= k < |s| ensures !Before(s[k], x) {
      NotBeforeItsFollower(x, s[i]);
      if k > i { NotBeforeTransitive(x, s[i], s[k]); }
    }
  }

  lemma NotBeforeItsFollower(a: Source, b: Source)
    requires Before(a, b)
    ensures !Before(b, a)
  {
    StringsAreOrdered(a.id, b.id);
  }

  class Compiler {
    const config: Config

    constructor (secrets: seq<Bytes>, credential: Bytes -> bool)
      ensures config.Valid() && config.credential == credential
      ensures forall i | 0 <= i < |config.secrets| :: config.secrets[i] in secrets
      ensures forall s | s in secrets && s != [] :: s in config.secrets
    {
      var values: seq<Bytes> := [];
      for i := 0 to |secrets|
        invariant forall k | 0 <= k < |values| :: values[k] != [] && values[k] in secrets
        invariant forall k | 0 <= k < i && secrets[k] != [] :: secrets[k] in values
      {
        if secrets[i] != [] {
          values := values + [secrets[i]];
        }
      }
      config := Config(values, credential);
    }

    /** Any arrangement will do; this one is by insertion. */
    method Arrange(sources: seq<Source>) returns (sorted: seq<Source>)
      ensures Arranges(sorted, sources)
    {
      sorted := [];
      for i := 0 to |sources|
        invariant Arranges(sorted, sources[..i])
      {
        var x := sources[i];
        var place := 0;
        while place < |sorted| && !Before(x, sorted[place])
          invariant 0 <= place <= |sorted| && forall k | 0 <= k < place :: !Before(x, sorted[k])
        {
          place := place + 1;
        }
        if place < |sorted| { LaterNotBefore(sorted, place, x); }
        InsertedSorted(sorted, place, x);
        JoinOne(sorted[..place], x, sorted[place..]);
        assert sorted[..place] + sorted[place..] == sorted;
        assert sources[..i + 1] == sources[..i] + [x];
        sorted := sorted[..place] + [x] + sorted[place..];
      }
      assert sources[..|sources|] == sources;
    }

    method Minimize(content: Bytes, marker: Bytes) returns (answer: Result<(Bytes, nat), Problem>)
      requires config.Valid()
      ensures answer == ContextCompiler.Minimize(config, content, marker)
    {
      if config.credential(content) {
        return Err(Credential);
      }
      var current, removed := content, 0;
      var i := 0;
      assert config.secrets[0..] == config.secrets;
      while i < |config.secrets|
        invariant 0 <= i <= |config.secrets|
        invariant Redact(content, config.secrets, marker)
                  == (Redact(current, config.secrets[i..], marker).0, removed + Redact(current, config.secrets[i..], marker).1)
      {
        assert config.secrets[i..][0] == config.secrets[i] && config.secrets[i..][1..] == config.secrets[i + 1..];
        var replaced, count := ReplaceAll(current, config.secrets[i], marker);
        current, removed, i := replaced, removed + count, i + 1;
      }
      for k := 0 to |config.secrets|
        invariant forall j | 0 <= j < k :: !Contains(current, config.secrets[j])
      {
        if IndexFrom(current, 0, config.secrets[k]).Some? {
          assert Contains(current, config.secrets[k]);
          return Err(SecretSurvived);
        }
      }
      return Ok((current, removed));
    }

    /** Adds one source to what has been compiled. */
    method AddOne(c: Compiled, s: Source, workspace: string, marker: Bytes) returns (answer: Result<Compiled, Problem>)
      requires config.Valid()
      ensures answer == Add(config, c, s, workspace, marker)
    {
      hide Acceptable, ContextCompiler.Minimize, Cut;
      if !Acceptable(s, workspace, c.seen) {
        return Err(BadSource);
      }
      var minimized := Minimize(s.content, marker);
      if minimized.Err? {
        return Err(minimized.error);
      }
      if s.budget < 0 {
        return Err(NegativeBudget);
      }
      var (content, removed) := minimized.value;
      var budget: nat := s.budget;
      if budget > c.remaining {
        budget := c.remaining;
      }
      var next := c;
      var truncated := Truncate(content, budget * 4);
      if budget * 4 < |content| {
        next := next.(truncations := next.truncations[s.id := |content| - |truncated|]);
      }
      next := next.(remaining := c.remaining - budget, seen := c.seen + {s.id}, removed := c.removed + removed, classes := c.classes + {s.classification});
      next := next.(layers := c.layers + [Layer(s.id, |c.layers|, Digest(truncated), s.classification, removed > 0, budget)],
                    disclosures := c.disclosures + [Disclosure(s.id, s.trust, s.classification, truncated)]);
      if s.trust == System || s.trust == Agent {
        next := next.(system := c.system + budget);
      } else if s.trust == Tools {
        next := next.(tools := c.tools + budget);
      } else {
        next := next.(user := c.user + budget);
      }
      return Ok(next);
    }

    method Compile(r: Request) returns (answer: Result<Compiled, Problem>)
      requires config.Valid()
      ensures answer.Ok? ==> exists sorted :: Arranges(sorted, r.sources) && answer == CompileArranged(config, r, sorted)
      // The outcome is that of every arrangement of the sources, whatever order they came in.
      ensures forall sorted | Arranges(sorted, r.sources) ::
                (answer.Ok? <==> CompileArranged(config, r, sorted).Ok?) && (answer.Ok? ==> answer == CompileArranged(config, r, sorted))
      // No class comes before one that is trusted more, and nobody is granted a token that a more trusted source still asked for.
      ensures answer.Ok? ==> ByTrust(answer.value) && forall s | s in r.sources :: ContextCompilerGrants.Granted(r, answer.value, s)
      ensures answer.Ok? ==> exists sorted :: Arranges(sorted, r.sources) && Evident(config, sorted, answer.value, Marker(r))
      // It succeeds exactly for a request that stands and sources that are fit one by one, no identity twice.
      ensures answer.Ok? <==> Refusal(r).None? && Distinct(r.sources, {}) && forall s | s in r.sources :: Fit(config, s, r.workspace, Marker(r))
      // The request itself is refused for durable memory, for anything missing or out of bounds, or for its marker.
      ensures answer == Err(MemoryForbidden) <==> r.memory
      ensures answer == Err(Incomplete) <==>
                !r.memory && (r.workspace == "" || r.project == "" || r.run == "" || !(1 <= |r.sources| <= 128) || !(1 <= r.total <= 1_000_000)
                              || r.compiledAt == 0 || !r.policiesValid)
    {
      hide AddAll, Sorted, ByTrust, ContextCompilerGrants.Granted, Evident, Refusal, Distinct, Fit;
      RefusalsMean(r);
      var sorted := Arrange(r.sources);
      answer := CompileSorted(r, sorted);
      SucceedsExactly(config, r, sorted);
      if answer.Ok? {
        BudgetFollowsTrust(config, r, sorted);
        CompilationIsEvident(config, r, sorted);
      }
      assert r.(sources := r.sources) == r;
      forall other | Arranges(other, r.sources)
        ensures (answer.Ok? <==> CompileArranged(config, r, other).Ok?) && (answer.Ok? ==> answer == CompileArranged(config, r, other))
      {
        OrderDoesNotMatter(config, r, r.sources, sorted, other);
      }
    }

    method CompileSorted(r: Request, sorted: seq<Source>) returns (answer: Result<Compiled, Problem>)
      requires config.Valid()
      ensures answer == CompileArranged(config, r, sorted)
      ensures answer.Err? && answer.error in {MemoryForbidden, Incomplete} ==> Refusal(r) == Some(answer.error)
    {
      hide AddAll, Utf8.Valid;
      if r.memory {
        return Err(MemoryForbidden);
      }
      if r.workspace == "" || r.project == "" || r.run == "" || |r.sources| == 0 || |r.sources| > 128 || r.total < 1 || r.total > 1_000_000
         || r.compiledAt == 0 || !r.policiesValid
      {
        return Err(Incomplete);
      }
      var marker := if r.replacement == [] then MARKER else r.replacement;
      if |marker| > 64 || !Utf8.Valid(marker) {
        return Err(BadReplacement);
      }
      answer := AddEach(sorted, r.total, r.workspace, marker);
    }

    /** One source after another, each on what the ones before it left. */
    method AddEach(sorted: seq<Source>, total: nat, workspace: string, marker: Bytes) returns (answer: Result<Compiled, Problem>)
      requires config.Valid()
      ensures answer == AddAll(config, Nothing(total), sorted, workspace, marker)
      ensures answer.Err? ==> answer.error in {BadSource, Credential, SecretSurvived, NegativeBudget}
    {
      hide AddAll, Add;
      var c := Compiled([], [], map[], 0, {}, 0, 0, 0, total, {});
      var i := 0;
      assert sorted[0..] == sorted;
      while i < |sorted|
        invariant 0 <= i <= |sorted|
        invariant AddAll(config, c, sorted[i..], workspace, marker) == AddAll(config, Nothing(total), sorted, workspace, marker)
      {
        assert sorted[i..][0] == sorted[i] && sorted[i..][1..] == sorted[i + 1..];
        AddAllUnfolds(config, c, sorted[i..], workspace, marker);
        var next := AddOne(c, sorted[i], workspace, marker);
        if next.Err? {
          SourceRefusalsMean(config, c, sorted[i], workspace, marker);
          return next;
        }
        c, i := next.value, i + 1;
      }
      assert sorted[i..] == [];
      AddNone(config, c, workspace, marker);
      return Ok(c);
    }
  }
}
