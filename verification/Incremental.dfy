/** Incremental verification: change detection, dependency-based test selection, success cache.

    A revision is the content of the execution-relevant files; revision ids and content digests are
    injective, so a snapshot stands for both. What a test reads and whether it passes is an oracle
    that the verifier observes only by running the test. */
module Incremental {
  import opened Options

  type Path = string
  type Content = string
  type Test = string
  type Snapshot = map<Path, Content>

  predicate EndsWithExtension(path: Path, extension: string) {
    && |path| > |extension|
    && path[|path| - |extension|..] == extension
    && path[|path| - |extension| - 1] != '/'
  }

  predicate Contains(text: string, part: string) {
    exists i :: 0 <= i <= |text| && part <= text[i..]
  }

  /** Java and Kotlin sources below some `src/main/`. */
  predicate ImplementationSource(path: Path) {
    && ("src/main/" <= path || Contains(path, "/src/main/"))
    && (EndsWithExtension(path, ".java") || EndsWithExtension(path, ".kt"))
  }

  /** The project under test. `surface` is the declaration digest of a file's content. */
  datatype Oracle = Oracle(
    tests: Snapshot -> set<Test>,
    passes: (Test, Snapshot) -> bool,
    footprint: (Test, Snapshot) -> set<Path>,
    surface: (Path, Content) -> string)

  ghost predicate SameBackdrop(o: Oracle, w: Snapshot, v: Snapshot) {
    && w.Keys == v.Keys
    && forall p :: p in w ==> (ImplementationSource(p) || w[p] == v[p]) && o.surface(p, w[p]) == o.surface(p, v[p])
  }

  ghost predicate AgreeOn(paths: set<Path>, w: Snapshot, v: Snapshot) {
    forall p :: p in paths && p in w && p in v ==> w[p] == v[p]
  }

  /** What the selection relies on: non-implementation files and surfaces fix the set of tests, and
      with them a test's footprint files fix its result and its footprint. */
  ghost predicate Lawful(o: Oracle) {
    && (forall w, v :: SameBackdrop(o, w, v) ==> o.tests(w) == o.tests(v))
    && (forall w, v, t :: SameBackdrop(o, w, v) && AgreeOn(o.footprint(t, w), w, v) ==> SameBehaviour(o, w, v, t))
  }

  predicate SameBehaviour(o: Oracle, w: Snapshot, v: Snapshot, t: Test) {
    o.passes(t, w) == o.passes(t, v) && o.footprint(t, w) == o.footprint(t, v)
  }

  ghost predicate AllPass(o: Oracle, w: Snapshot) {
    forall t :: t in o.tests(w) ==> o.passes(t, w)
  }

  // ---------------------------------------------------------------- the store and the selection

  /** Cached revisions, oldest first; saved manifests; the dependency rows of each test. */
  datatype Store = Store(cache: seq<Snapshot>, manifests: set<Snapshot>, deps: map<Test, set<Path>>)

  function Changed(b: Snapshot, w: Snapshot): set<Path> {
    set p | p in b.Keys + w.Keys && !(p in b && p in w && b[p] == w[p])
  }

  function Dependents(s: Store, p: Path): set<Test> {
    set t | t in s.deps && p in s.deps[t]
  }

  /** A changed path that the selection can follow: an implementation source that exists on both
      sides with an unchanged surface and at least one known dependent. */
  predicate Followable(o: Oracle, s: Store, b: Snapshot, w: Snapshot, p: Path) {
    && ImplementationSource(p) && p in b && p in w
    && o.surface(p, b[p]) == o.surface(p, w[p])
    && Dependents(s, p) != {}
  }

  function Affected(s: Store, paths: set<Path>): set<Test> {
    set t | t in s.deps && s.deps[t] * paths != {}
  }

  function Baseline(s: Store, requested: Option<Snapshot>): Option<Snapshot> {
    if requested.Some? then requested
    else if s.cache == [] then None
    else Some(s.cache[|s.cache| - 1])
  }

  /** `None` means every test. */
  function Impacted(o: Oracle, s: Store, requested: Option<Snapshot>, w: Snapshot): Option<set<Test>> {
    var baseline := Baseline(s, requested);
    if baseline.None? || baseline.value == w || baseline.value !in s.manifests then None
    else
      var b := baseline.value;
      if exists p :: p in Changed(b, w) && !Followable(o, s, b, w, p) then None
      else if Affected(s, Changed(b, w)) == {} then None
      else Some(Affected(s, Changed(b, w)))
  }

  /** The loop of `impacted_tests`: it visits the changed paths and gives up at the first one it
      cannot follow. */
  method ImpactedTests(o: Oracle, s: Store, requested: Option<Snapshot>, w: Snapshot) returns (r: Option<set<Test>>)
    ensures r == Impacted(o, s, requested, w)
  {
    var baseline := Baseline(s, requested);
    if baseline.None? {
      return None;
    }
    var b := baseline.value;
    if b == w || b !in s.manifests {
      return None;
    }
    var paths := Changed(b, w);
    var selected := {};
    while paths != {}
      invariant paths <= Changed(b, w)
      invariant forall p :: p in Changed(b, w) - paths ==> Followable(o, s, b, w, p)
      invariant selected == Affected(s, Changed(b, w) - paths)
      decreases paths
    {
      var path :| path in paths;
      if !ImplementationSource(path) || path !in b || path !in w || o.surface(path, b[path]) != o.surface(path, w[path]) {
        return None;
      }
      var exact := Dependents(s, path);
      if exact == {} {
        return None;
      }
      assert Changed(b, w) - (paths - {path}) == (Changed(b, w) - paths) + {path};
      AffectedByOneMore(s, Changed(b, w) - paths, path);
      selected := selected + exact;
      paths := paths - {path};
    }
    assert Changed(b, w) - paths == Changed(b, w);
    return if selected == {} then None else Some(selected);
  }

  lemma AffectedByOneMore(s: Store, paths: set<Path>, p: Path)
    ensures Affected(s, paths + {p}) == Affected(s, paths) + Dependents(s, p)
  {
    forall t | t in s.deps
      ensures s.deps[t] * (paths + {p}) != {} <==> s.deps[t] * paths != {} || p in s.deps[t]
    {
      assert s.deps[t] * (paths + {p}) == s.deps[t] * paths + (if p in s.deps[t] then {p} else {});
    }
  }

  // ---------------------------------------------------------------- verification histories

  datatype Request =
    | Default
    | Explicit(tests: set<Test>)   // named tests, also a full-mode recording
    | Full
    | Since(baseline: Snapshot)    // an earlier revision as the baseline

  predicate IsDefault(request: Request) {
    request.Default? || request == Explicit({})
  }

  /** The tests passed to the build tool; `None` runs all of them. */
  function Selection(o: Oracle, s: Store, request: Request, w: Snapshot): Option<set<Test>> {
    match request
    case Default => Impacted(o, s, None, w)
    case Explicit(tests) => if tests == {} then Impacted(o, s, None, w) else Some(tests)
    case Full => None
    case Since(b) => Impacted(o, s, Some(b), w)
  }

  function Executed(o: Oracle, selection: Option<set<Test>>, w: Snapshot): set<Test> {
    if selection.None? then o.tests(w) else selection.value * o.tests(w)
  }

  /** Passed: the worker succeeded, at least one test passed, and every requested test was seen to
      pass. */
  predicate Passed(o: Oracle, selection: Option<set<Test>>, w: Snapshot) {
    var executed := Executed(o, selection, w);
    && executed != {}
    && (forall t :: t in executed ==> o.passes(t, w))
    && (selection.Some? ==> selection.value <= executed)
  }

  /** Every executed test's dependency rows are replaced, whatever the outcome. */
  function Ingest(o: Oracle, s: Store, executed: set<Test>, w: Snapshot): Store {
    s.(deps := map t | t in s.deps.Keys + executed :: if t in executed then o.footprint(t, w) else s.deps[t])
  }

  function Without(cache: seq<Snapshot>, w: Snapshot): (rest: seq<Snapshot>)
    ensures forall r :: r in rest <==> r in cache && r != w
  {
    if cache == [] then [] else (if cache[0] == w then [] else [cache[0]]) + Without(cache[1..], w)
  }

  function SaveCache(s: Store, w: Snapshot): Store {
    s.(cache := Without(s.cache, w) + [w], manifests := s.manifests + {w})
  }

  /** `Verify` is a verification whose workspace stayed at `w`. `Wavering` is one whose workspace was
      edited while it ran and was back at `w` when it was captured again: the run saw anything, but
      both captures agree, so a passing default one is cached. `Disturbed` is any other executed run:
      the workspace changed, the worker died or the stream was cut; it caches nothing. Either may
      leave any dependency rows. `Prune` drops the oldest cached rows, as module
      `CacheOrder` shows, and any manifests. */
  datatype Action =
    | Verify(request: Request, w: Snapshot)
    | Wavering(request: Request, w: Snapshot, rows: map<Test, set<Path>>, passed: bool)
    | Disturbed(rows: map<Test, set<Path>>)
    | Prune(oldest: nat, dropped: set<Snapshot>)

  /** `tainted`: some dependency row may not describe the newest cached revision. `suspects`: rows
      cached by a wavering run, or from an impact selection that used tainted rows. Neither is known
      to the program. */
  datatype State = State(store: Store, tainted: bool, suspects: set<Snapshot>)

  const EMPTY := State(Store([], {}, map[]), false, {})

  predicate CacheHit(s: Store, request: Request, w: Snapshot) {
    IsDefault(request) && w in s.cache
  }

  function VerifyStore(o: Oracle, s: Store, request: Request, w: Snapshot): Store {
    if CacheHit(s, request, w) then s
    else
      var selection := Selection(o, s, request, w);
      var ingested := Ingest(o, s, Executed(o, selection, w), w);
      if IsDefault(request) && Passed(o, selection, w) then SaveCache(ingested, w) else ingested
  }

  function PruneStore(s: Store, oldest: nat, dropped: set<Snapshot>): Store {
    s.(cache := if oldest <= |s.cache| then s.cache[oldest..] else [], manifests := s.manifests - dropped)
  }

  predicate AtNewest(s: Store, w: Snapshot) {
    s.cache != [] && s.cache[|s.cache| - 1] == w
  }

  function Step(o: Oracle, s: State, a: Action): State {
    match a
    case Verify(request, w) =>
      var selection := Selection(o, s.store, request, w);
      var next := VerifyStore(o, s.store, request, w);
      if CacheHit(s.store, request, w) then s
      else if !(IsDefault(request) && Passed(o, selection, w)) then
        State(next, s.tainted || !AtNewest(s.store, w), s.suspects)
      else if selection.None? then State(next, false, s.suspects - {w})
      else State(next, s.tainted, if s.tainted then s.suspects + {w} else s.suspects - {w})
    case Wavering(request, w, rows, passed) =>
      var ingested := s.store.(deps := rows);
      if CacheHit(s.store, request, w) then s
      else if IsDefault(request) && passed then State(SaveCache(ingested, w), true, s.suspects + {w})
      else State(ingested, true, s.suspects)
    case Disturbed(rows) => State(s.store.(deps := rows), true, s.suspects)
    case Prune(oldest, dropped) => s.(store := PruneStore(s.store, oldest, dropped))
  }

  function Replay(o: Oracle, history: seq<Action>): State {
    if history == [] then EMPTY
    else Step(o, Replay(o, history[..|history| - 1]), history[|history| - 1])
  }

  /** Exactly the rows of these tests were rewritten, to what the tests read, and nothing is known
      about other tests that was not known before. */
  ghost predicate RowsRewritten(o: Oracle, before: Store, after: Store, ran: set<Test>, w: Snapshot) {
    && after.deps.Keys == before.deps.Keys + ran
    && (forall t :: t in ran ==> after.deps[t] == o.footprint(t, w))
    && (forall t :: t in before.deps && t !in ran ==> after.deps[t] == before.deps[t])
  }

  /** The daemon's own view: the store changes in place and the reply says what happened. */
  datatype Reply = Cached | Ran(passed: bool, selection: Option<set<Test>>)

  class Verifier {
    var store: Store

    constructor ()
      ensures store == EMPTY.store
    {
      store := Store([], {}, map[]);
    }

    /** A request is answered from the cache exactly if it is a default one for a cached revision. A
        full run executes every test there is, and an explicit one exactly the named tests that exist;
        a run passes only with at least one passing test and all the tests it asked for. */
    method Run(o: Oracle, request: Request, w: Snapshot) returns (reply: Reply)
      modifies this
      ensures reply.Cached? <==> (request == Default || request == Explicit({})) && w in old(store).cache
      ensures reply.Cached? ==> store == old(store)
      ensures request == Full ==>
        RowsRewritten(o, old(store), store, o.tests(w), w) && Aligned(o, store, w) && (reply.passed ==> AllPass(o, w))
      ensures request.Explicit? && request.tests != {} ==>
        RowsRewritten(o, old(store), store, request.tests * o.tests(w), w)
      ensures reply.Ran? && reply.passed ==>
        && (exists t :: t in o.tests(w) && o.passes(t, w))
        && (request.Explicit? ==> forall t :: t in request.tests ==> t in o.tests(w) && o.passes(t, w))
      ensures (request.Full? || request.Since? || (request.Explicit? && request.tests != {})) ==>
        store.cache == old(store).cache && store.manifests == old(store).manifests
      ensures store == VerifyStore(o, old(store), request, w)
      ensures reply.Cached? <==> CacheHit(old(store), request, w)
      ensures reply.Ran? ==> reply.selection == Selection(o, old(store), request, w)
      ensures reply.Ran? ==> reply.passed == Passed(o, reply.selection, w)
    {
      var cacheable := IsDefault(request);
      if cacheable && w in store.cache {
        return Cached;
      }
      var selection := None;
      match request {
        case Default => selection := ImpactedTests(o, store, None, w);
        case Explicit(tests) =>
          if tests == {} {
            selection := ImpactedTests(o, store, None, w);
          } else {
            selection := Some(tests);
          }
        case Full =>
        case Since(b) => selection := ImpactedTests(o, store, Some(b), w);
      }
      store := Ingest(o, store, Executed(o, selection, w), w);
      var passed := Passed(o, selection, w);
      FullIsSound(o, old(store), w);
      if cacheable && passed {
        store := SaveCache(store, w);
      }
      return Ran(passed, selection);
    }
  }

  // ---------------------------------------------------------------- soundness

  ghost predicate Aligned(o: Oracle, s: Store, b: Snapshot) {
    forall t :: t in o.tests(b) ==> t in s.deps && s.deps[t] == o.footprint(t, b)
  }

  ghost predicate Inv(o: Oracle, s: State) {
    && (forall r :: r in s.store.cache && r !in s.suspects ==> AllPass(o, r))
    && (!s.tainted && s.store.cache != [] ==>
          var b := s.store.cache[|s.store.cache| - 1];
          b !in s.suspects && Aligned(o, s.store, b))
  }

  /** A selection is made only where files, surfaces and non-implementation contents stayed. */
  lemma {:induction false} SelectionMeansSameBackdrop(o: Oracle, s: Store, b: Snapshot, w: Snapshot)
    requires Impacted(o, s, Some(b), w).Some?
    ensures SameBackdrop(o, b, w)
  {
    forall p | p in b || p in w
      ensures p in b && p in w
      ensures (ImplementationSource(p) || b[p] == w[p]) && o.surface(p, b[p]) == o.surface(p, w[p])
    {
      assert p in Changed(b, w) ==> Followable(o, s, b, w, p);
    }
  }

  /** A test that was not selected behaves as it did at the baseline. */
  lemma {:induction false} UnselectedBehaves(o: Oracle, s: Store, b: Snapshot, w: Snapshot, t: Test)
    requires Lawful(o) && SameBackdrop(o, b, w)
    requires t in s.deps && s.deps[t] == o.footprint(t, b) && t !in Affected(s, Changed(b, w))
    ensures o.passes(t, w) == o.passes(t, b) && o.footprint(t, w) == o.footprint(t, b)
  {
    UnselectedUntouched(o, s, b, w, t);
    assert SameBehaviour(o, b, w, t);
  }

  /** Rows of tests that did not run describe the new revision already. */
  lemma {:induction false} RowsStayAligned(o: Oracle, s: Store, b: Snapshot, w: Snapshot, selected: set<Test>)
    requires Lawful(o) && Aligned(o, s, b) && Impacted(o, s, Some(b), w) == Some(selected)
    ensures Aligned(o, Ingest(o, s, Executed(o, Some(selected), w), w), w)
  {
    SelectionMeansSameBackdrop(o, s, b, w);
    forall t | t in o.tests(w) && t !in selected
      ensures t in s.deps && s.deps[t] == o.footprint(t, w)
    {
      assert t in o.tests(b);
      UnselectedBehaves(o, s, b, w, t);
    }
  }

  /** The heart of it: from an aligned, passing baseline, a passing run of the selected tests means
      that every test passes, because aligned rows cover the baseline, and leaves the rows aligned
      with the new revision. */
  lemma {:induction false} ImpactIsSound(o: Oracle, s: Store, b: Snapshot, w: Snapshot, selected: set<Test>)
    requires Lawful(o) && Aligned(o, s, b) && AllPass(o, b)
    requires Impacted(o, s, Some(b), w) == Some(selected)
    requires Passed(o, Some(selected), w)
    ensures AllPass(o, w) && Aligned(o, Ingest(o, s, Executed(o, Some(selected), w), w), w)
  {
    AlignedIsCovered(o, s, b);
    forall t | t in o.tests(w)
      ensures o.passes(t, w)
    {
      CoveredIsEnough(o, o, s, b, w, selected, t);
    }
    RowsStayAligned(o, s, b, w, selected);
  }

  lemma UnselectedUntouched(o: Oracle, s: Store, b: Snapshot, w: Snapshot, t: Test)
    requires t in s.deps && s.deps[t] == o.footprint(t, b)
    requires t !in Affected(s, Changed(b, w))
    ensures AgreeOn(o.footprint(t, b), b, w)
  {
    forall p | p in s.deps[t] && p in b && p in w
      ensures b[p] == w[p]
    {
      assert p !in s.deps[t] * Changed(b, w);
    }
  }

  lemma {:induction false} PassingKeepsInv(o: Oracle, s: State, request: Request, w: Snapshot)
    requires Lawful(o) && Inv(o, s) && !CacheHit(s.store, request, w)
    requires IsDefault(request) && Passed(o, Selection(o, s.store, request, w), w)
    ensures Inv(o, Step(o, s, Verify(request, w)))
  {
    var selection := Selection(o, s.store, request, w);
    var s' := Step(o, s, Verify(request, w));
    assert s'.store.cache[|s'.store.cache| - 1] == w;
    if selection.Some? && !s.tainted {
      var b := s.store.cache[|s.store.cache| - 1];
      assert b in s.store.cache;
      ImpactIsSound(o, s.store, b, w, selection.value);
    }
  }

  lemma {:induction false} VerifyKeepsInv(o: Oracle, s: State, request: Request, w: Snapshot)
    requires Lawful(o) && Inv(o, s)
    ensures Inv(o, Step(o, s, Verify(request, w)))
  {
    if !CacheHit(s.store, request, w) && IsDefault(request) && Passed(o, Selection(o, s.store, request, w), w) {
      PassingKeepsInv(o, s, request, w);
    }
  }

  lemma {:induction false} WaveringKeepsInv(
    o: Oracle, s: State, request: Request, w: Snapshot, rows: map<Test, set<Path>>, passed: bool)
    requires Inv(o, s)
    ensures Inv(o, Step(o, s, Wavering(request, w, rows, passed)))
  {
  }

  lemma PruneKeepsInv(o: Oracle, s: State, oldest: nat, dropped: set<Snapshot>)
    requires Inv(o, s)
    ensures Inv(o, Step(o, s, Prune(oldest, dropped)))
  {
  }

  lemma {:induction false} HistoryInv(o: Oracle, history: seq<Action>)
    requires Lawful(o)
    ensures Inv(o, Replay(o, history))
  {
    if history != [] {
      var before := history[..|history| - 1];
      HistoryInv(o, before);
      match history[|history| - 1]
      case Verify(request, w) => VerifyKeepsInv(o, Replay(o, before), request, w);
      case Wavering(request, w, rows, passed) => WaveringKeepsInv(o, Replay(o, before), request, w, rows, passed);
      case Disturbed(_) =>
      case Prune(oldest, dropped) => PruneKeepsInv(o, Replay(o, before), oldest, dropped);
    }
  }

  /** Soundness over every history: whatever was verified, interrupted or pruned before, a cached
      revision is one where running all tests would pass, unless its row came from a wavering run or
      from an impact selection made while the dependency rows were tainted. */
  lemma CachedMeansAllPass(o: Oracle, history: seq<Action>, r: Snapshot)
    requires Lawful(o)
    requires r in Replay(o, history).store.cache && r !in Replay(o, history).suspects
    ensures AllPass(o, r)
  {
    HistoryInv(o, history);
  }

  /** A default verification that is answered from the cache, or whose run passed. */
  predicate Healthy(o: Oracle, s: State, a: Action) {
    match a
    case Verify(request, w) =>
      IsDefault(request) && (CacheHit(s.store, request, w) || Passed(o, Selection(o, s.store, request, w), w))
    case Wavering(_, _, _, _) => false
    case Disturbed(_) => false
    case Prune(_, _) => true
  }

  predicate HealthyHistory(o: Oracle, history: seq<Action>) {
    forall i {:trigger history[i]} :: 0 <= i < |history| ==> Healthy(o, Replay(o, history[..i]), history[i])
  }

  /** In particular, over every history of default verifications whose executed runs all pass, every
      cached revision is one where running all tests would pass. */
  lemma {:induction false} HealthyHistoriesAreSound(o: Oracle, history: seq<Action>)
    requires Lawful(o) && HealthyHistory(o, history)
    ensures !Replay(o, history).tainted && Replay(o, history).suspects == {}
    ensures forall r :: r in Replay(o, history).store.cache ==> AllPass(o, r)
  {
    HistoryInv(o, history);
    if history != [] {
      var n := |history| - 1;
      assert HealthyHistory(o, history[..n]) by {
        forall i | 0 <= i < n
          ensures Healthy(o, Replay(o, history[..n][..i]), history[..n][i])
        {
          assert history[..n][..i] == history[..i] && history[..n][i] == history[i];
        }
      }
      HealthyHistoriesAreSound(o, history[..n]);
      assert Healthy(o, Replay(o, history[..n]), history[n]);
    }
  }

  // ---------------------------------------------------------------- the other requests

  /** A full run executes every test: on every store, whatever its rows, it leaves the rows aligned with
      the revision, and if it passed then all tests pass. */
  lemma {:induction false} FullIsSound(o: Oracle, s: Store, w: Snapshot)
    ensures Aligned(o, VerifyStore(o, s, Full, w), w)
    ensures Passed(o, Selection(o, s, Full, w), w) ==> AllPass(o, w)
    ensures RowsRewritten(o, s, VerifyStore(o, s, Full, w), o.tests(w), w)
  {
    assert !IsDefault(Full);
    assert Executed(o, None, w) == o.tests(w);
  }

  /** A passing run against an earlier revision means that every test passes, if every test passes there
      and the rows cover that revision; nothing is asked of any other revision. */
  lemma {:induction false} SinceIsSound(o: Oracle, s: Store, b: Snapshot, w: Snapshot)
    requires Lawful(o) && AllPass(o, b) && Covered(o, s, b)
    requires Passed(o, Selection(o, s, Since(b), w), w)
    ensures AllPass(o, w)
  {
    var selection := Selection(o, s, Since(b), w);
    forall t | t in o.tests(w)
      ensures o.passes(t, w)
    {
      if selection.Some? {
        CoveredIsEnough(o, o, s, b, w, selection.value, t);
      } else {
        assert t in Executed(o, selection, w);
      }
    }
  }

  /** Which tests an impact run executes, exactly: those that depend on a changed path, or all of them
      if some change cannot be followed or the baseline is the revision itself or unknown. */
  lemma {:induction false} ImpactRunsExactly(o: Oracle, s: Store, b: Snapshot, w: Snapshot, t: Test)
    ensures t in Executed(o, Selection(o, s, Since(b), w), w) <==>
      && t in o.tests(w)
      && (|| b == w || b !in s.manifests
          || (exists p :: p in Changed(b, w) && !Followable(o, s, b, w, p))
          || (t in s.deps && exists p :: p in s.deps[t] && p in Changed(b, w)))
    ensures s.cache != [] && s.cache[|s.cache| - 1] == b ==>
      Selection(o, s, Default, w) == Selection(o, s, Since(b), w)
  {
    if b != w && b in s.manifests && forall p :: p in Changed(b, w) ==> Followable(o, s, b, w, p) {
      DifferentSomewhere(b, w);
      var p :| p in Changed(b, w);
      var u :| u in Dependents(s, p);
      assert p in s.deps[u] * Changed(b, w);
      assert u in Affected(s, Changed(b, w));
      assert t in s.deps ==> forall p :: p in s.deps[t] * Changed(b, w) <==> p in s.deps[t] && p in Changed(b, w);
    }
  }

  lemma {:induction false} DifferentSomewhere(b: Snapshot, w: Snapshot)
    requires b != w
    ensures Changed(b, w) != {}
  {
    if b.Keys == w.Keys {
      var p :| p in b && b[p] != w[p];
      assert p in Changed(b, w);
    } else {
      var p :| p in b.Keys + w.Keys && (p !in b || p !in w);
      assert p in Changed(b, w);
    }
  }

  /** A default verification that passed is answered from the cache when it is asked again. */
  lemma {:induction false} PassedIsCached(o: Oracle, s: Store, w: Snapshot)
    requires Passed(o, Selection(o, s, Default, w), w)
    ensures
      var next := VerifyStore(o, s, Default, w);
      w in next.cache && VerifyStore(o, next, Default, w) == next
      && (w !in s.cache ==> next.cache[|next.cache| - 1] == w && w in next.manifests)
  {
  }

  // ---------------------------------------------------------------- when a selection can be trusted

  /** Two projects that look the same at b: the same tests with the same results and footprints, under
      the daemon's one surface function. */
  ghost predicate SameAt(o: Oracle, o': Oracle, b: Snapshot) {
    && o'.surface == o.surface
    && o.tests(b) == o'.tests(b)
    && forall t :: t in o.tests(b) ==> o.passes(t, b) == o'.passes(t, b) && o.footprint(t, b) == o'.footprint(t, b)
  }

  /** The rows cover the baseline: a path that the selection can follow, with dependents that still
      exist, is in the row of every test that reads it. */
  ghost predicate Covered(o: Oracle, s: Store, b: Snapshot) {
    forall t, p :: t in o.tests(b) && p in o.footprint(t, b) && Exposed(o, s, b, p) ==> t in Dependents(s, p)
  }

  /** The path can change in a way that the selection follows. */
  ghost predicate Exposed(o: Oracle, s: Store, b: Snapshot, p: Path) {
    && p in b && ImplementationSource(p) && Dependents(s, p) != {} && Dependents(s, p) <= o.tests(b)
    && exists c :: c != b[p] && o.surface(p, c) == o.surface(p, b[p])
  }

  /** Every project that looks like o at b is sound to verify from b by the impact selection. */
  ghost predicate Trustworthy(o: Oracle, s: Store, b: Snapshot) {
    forall o', w, selected ::
      Lawful(o') && SameAt(o, o', b) && Impacted(o', s, Some(b), w) == Some(selected) && Passed(o', Some(selected), w)
      ==> AllPass(o', w)
  }

  lemma {:induction false} ChangedPathIsExposed(
    o: Oracle, o': Oracle, s: Store, b: Snapshot, w: Snapshot, selected: set<Test>, p: Path)
    requires Lawful(o') && SameAt(o, o', b) && SameBackdrop(o', b, w) && p in Changed(b, w)
    requires Impacted(o', s, Some(b), w) == Some(selected) && Passed(o', Some(selected), w)
    ensures Exposed(o, s, b, p) && Dependents(s, p) <= selected
  {
    assert Followable(o', s, b, w, p);
    assert w[p] != b[p] && o.surface(p, w[p]) == o.surface(p, b[p]);
    assert o'.tests(w) == o.tests(b);
    forall t | t in Dependents(s, p)
      ensures t in selected
    {
      assert p in s.deps[t] * Changed(b, w);
    }
  }

  lemma {:induction false} CoveredIsEnough(
    o: Oracle, o': Oracle, s: Store, b: Snapshot, w: Snapshot, selected: set<Test>, t: Test)
    requires AllPass(o, b) && Covered(o, s, b) && Lawful(o') && SameAt(o, o', b)
    requires Impacted(o', s, Some(b), w) == Some(selected) && Passed(o', Some(selected), w) && t in o'.tests(w)
    ensures o'.passes(t, w)
  {
    SelectionMeansSameBackdrop(o', s, b, w);
    assert o'.tests(w) == o.tests(b);
    if t !in selected {
      forall p | p in o'.footprint(t, b) && p in b && p in w
        ensures b[p] == w[p]
      {
        if p in Changed(b, w) {
          ChangedPathIsExposed(o, o', s, b, w, selected, p);
        }
      }
      assert AgreeOn(o'.footprint(t, b), b, w);
      assert SameBehaviour(o', b, w, t);
    } else {
      assert t in Executed(o', Some(selected), w);
    }
  }

  /** A project like o at b in which t fails as soon as p changes, and everything else passes. */
  function Fragile(o: Oracle, b: Snapshot, t: Test, p: Path): Oracle {
    Oracle(w => o.tests(b), (u, w) => u != t || (p in b && p in w && w[p] == b[p]),
           (u, w) => o.footprint(u, b), o.surface)
  }

  lemma {:induction false} FragileLawful(o: Oracle, b: Snapshot, t: Test, p: Path)
    requires p in o.footprint(t, b) && p in b
    ensures Lawful(Fragile(o, b, t, p))
  {
    var o' := Fragile(o, b, t, p);
    forall w, v, u | SameBackdrop(o', w, v) && AgreeOn(o'.footprint(u, w), w, v)
      ensures SameBehaviour(o', w, v, u)
    {
      assert p in w && p in v && u == t ==> w[p] == v[p];
    }
  }

  lemma {:induction false} FragileIsMissed(o: Oracle, s: Store, b: Snapshot, t: Test, p: Path, c: Content)
    requires AllPass(o, b) && b in s.manifests
    requires t in o.tests(b) && p in o.footprint(t, b) && Exposed(o, s, b, p) && t !in Dependents(s, p)
    requires c != b[p] && o.surface(p, c) == o.surface(p, b[p])
    ensures
      var o', w := Fragile(o, b, t, p), b[p := c];
      && SameAt(o, o', b) && Impacted(o', s, Some(b), w) == Some(Dependents(s, p))
      && Passed(o', Some(Dependents(s, p)), w) && !AllPass(o', w)
  {
    var o', w := Fragile(o, b, t, p), b[p := c];
    assert w[p] != b[p];
    assert Changed(b, w) == {p};
    FollowOne(o', s, b, w, p);
    var selected := Dependents(s, p);
    assert Executed(o', Some(selected), w) == selected;
    assert t in o'.tests(w) && !o'.passes(t, w);
  }

  lemma {:induction false} FollowOne(o: Oracle, s: Store, b: Snapshot, w: Snapshot, p: Path)
    requires b in s.manifests && b != w && Changed(b, w) == {p} && Followable(o, s, b, w, p)
    ensures Impacted(o, s, Some(b), w) == Some(Dependents(s, p))
  {
    AffectedByOneMore(s, {}, p);
    assert {} + {p} == {p};
    assert Affected(s, {}) == {};
    assert Affected(s, Changed(b, w)) == Dependents(s, p);
    assert forall x :: x in Changed(b, w) ==> Followable(o, s, b, w, x);
  }

  /** When the impact selection can be trusted, exactly: from a passing baseline, every project that
      looks the same there is verified soundly if and only if the dependency rows cover the baseline. */
  lemma {:induction false} TrustworthyIffCovered(o: Oracle, s: Store, b: Snapshot)
    requires AllPass(o, b) && b in s.manifests
    ensures Trustworthy(o, s, b) <==> Covered(o, s, b)
  {
    if Covered(o, s, b) {
      forall o', w, selected | Lawful(o') && SameAt(o, o', b) && Impacted(o', s, Some(b), w) == Some(selected)
                               && Passed(o', Some(selected), w)
        ensures AllPass(o', w)
      {
        forall t | t in o'.tests(w)
          ensures o'.passes(t, w)
        {
          CoveredIsEnough(o, o', s, b, w, selected, t);
        }
      }
    } else {
      var t, p :| t in o.tests(b) && p in o.footprint(t, b) && Exposed(o, s, b, p) && t !in Dependents(s, p);
      var c :| c != b[p] && o.surface(p, c) == o.surface(p, b[p]);
      FragileLawful(o, b, t, p);
      FragileIsMissed(o, s, b, t, p, c);
      assert !Trustworthy(o, s, b);
    }
  }

  /** Rows aligned with the baseline cover it. */
  lemma AlignedIsCovered(o: Oracle, s: Store, b: Snapshot)
    requires Aligned(o, s, b)
    ensures Covered(o, s, b)
  {
  }

  // ---------------------------------------------------------------- why the condition is needed

  function At(w: Snapshot, p: Path): Content {
    if p in w then w[p] else ""
  }

  /** T reads p and, only if p is "1", q. A strict T passes when both are "1"; a lenient one passes
      also when p is not. U reads q and passes. */
  predicate WitnessPasses(p: Path, q: Path, strict: bool, t: Test, w: Snapshot) {
    t == "U" || (if At(w, p) == "1" then At(w, q) == "1" else !strict)
  }

  function WitnessFootprint(p: Path, q: Path, t: Test, w: Snapshot): set<Path> {
    if t == "U" then {q} else if At(w, p) == "1" then {p, q} else {p}
  }

  function Witness(p: Path, q: Path, strict: bool): Oracle {
    Oracle(w => {"T", "U"}, (t, w) => WitnessPasses(p, q, strict, t, w), (t, w) => WitnessFootprint(p, q, t, w), (path, c) => "")
  }

  function Files(p: Path, q: Path, atP: Content, atQ: Content): Snapshot {
    map[p := atP, q := atQ]
  }

  lemma WitnessAgrees(p: Path, q: Path, strict: bool, t: Test, w: Snapshot, v: Snapshot)
    requires w.Keys == v.Keys && AgreeOn(WitnessFootprint(p, q, t, w), w, v)
    ensures WitnessPasses(p, q, strict, t, w) == WitnessPasses(p, q, strict, t, v)
    ensures WitnessFootprint(p, q, t, w) == WitnessFootprint(p, q, t, v)
  {
    if t != "U" {
      assert p in WitnessFootprint(p, q, t, w);
      assert At(w, p) == At(v, p);
      if At(w, p) == "1" {
        assert q in WitnessFootprint(p, q, t, w);
      }
    }
  }

  lemma WitnessLawful(p: Path, q: Path, strict: bool)
    ensures Lawful(Witness(p, q, strict))
  {
    var o := Witness(p, q, strict);
    forall w, v, t | SameBackdrop(o, w, v) && AgreeOn(o.footprint(t, w), w, v)
      ensures SameBehaviour(o, w, v, t)
    {
      WitnessAgrees(p, q, strict, t, w, v);
    }
  }

  /** The first verification runs everything and caches the good revision with full footprints. */
  lemma WitnessFirst(p: Path, q: Path, strict: bool)
    requires p != q
    ensures
      var good := Files(p, q, "1", "1");
      VerifyStore(Witness(p, q, strict), EMPTY.store, Default, good) == Store([good], {good}, map["T" := {p, q}, "U" := {q}])
  {
    var o, s, good := Witness(p, q, strict), EMPTY.store, Files(p, q, "1", "1");
    assert "T"[0] != "U"[0];
    var executed := Executed(o, None, good);
    assert executed == {"T", "U"};
    assert "T" in executed && Passed(o, None, good);
    assert Ingest(o, s, executed, good).deps == map["T" := {p, q}, "U" := {q}];
  }

  lemma SelectOne(o: Oracle, s: Store, b: Snapshot, w: Snapshot, p: Path, t: Test)
    requires s.cache == [b] && s.manifests == {b} && w != b
    requires Changed(b, w) == {p} && Followable(o, s, b, w, p) && Dependents(s, p) == {t}
    ensures Selection(o, s, Default, w) == Some({t})
  {
    FollowOne(o, s, b, w, p);
  }

  /** What a run of one selected test does to the witness store. */
  lemma RunOne(p: Path, q: Path, strict: bool, s: Store, request: Request, w: Snapshot, t: Test)
    requires Selection(Witness(p, q, strict), s, request, w) == Some({t}) && t in {"T", "U"} && !CacheHit(s, request, w)
    ensures
      var rows := s.deps[t := WitnessFootprint(p, q, t, w)];
      && Passed(Witness(p, q, strict), Some({t}), w) == WitnessPasses(p, q, strict, t, w)
      && VerifyStore(Witness(p, q, strict), s, request, w)
         == if IsDefault(request) && WitnessPasses(p, q, strict, t, w) then SaveCache(s.(deps := rows), w)
            else s.(deps := rows)
  {
    var o := Witness(p, q, strict);
    var executed := Executed(o, Some({t}), w);
    assert executed == {t};
    assert Ingest(o, s, executed, w).deps == s.deps[t := WitnessFootprint(p, q, t, w)];
    assert t in executed;
    assert Passed(o, Some({t}), w) == WitnessPasses(p, q, strict, t, w);
  }

  lemma WitnessSelects(p: Path, q: Path, strict: bool, s: Store)
    requires p != q && ImplementationSource(p)
    requires s == Store([Files(p, q, "1", "1")], {Files(p, q, "1", "1")}, map["T" := {p, q}, "U" := {q}])
    ensures Files(p, q, "2", "1") !in s.cache
    ensures Selection(Witness(p, q, strict), s, Default, Files(p, q, "2", "1")) == Some({"T"})
  {
    var b, w := Files(p, q, "1", "1"), Files(p, q, "2", "1");
    assert "T"[0] != "U"[0] && "1"[0] != "2"[0];
    assert b[p] != w[p] && b[q] == w[q];
    assert Changed(b, w) == {p};
    assert Dependents(s, p) == {"T"};
    assert "T" in Dependents(s, p);
    SelectOne(Witness(p, q, strict), s, b, w, p, "T");
  }

  /** The second selects T, which fails and loses its dependency on q. */
  lemma WitnessSecond(p: Path, q: Path, s: Store)
    requires p != q && ImplementationSource(p)
    requires s == Store([Files(p, q, "1", "1")], {Files(p, q, "1", "1")}, map["T" := {p, q}, "U" := {q}])
    ensures VerifyStore(Witness(p, q, true), s, Default, Files(p, q, "2", "1")) == s.(deps := map["T" := {p}, "U" := {q}])
  {
    WitnessSelects(p, q, true, s);
    RunOne(p, q, true, s, Default, Files(p, q, "2", "1"), "T");
    assert "T"[0] != "U"[0] && "1"[0] != "2"[0];
    assert s.deps["T" := {p}] == map["T" := {p}, "U" := {q}];
  }

  /** The same by an explicit run of T that passes. */
  lemma WitnessPassingSecond(p: Path, q: Path, s: Store)
    requires p != q
    requires s == Store([Files(p, q, "1", "1")], {Files(p, q, "1", "1")}, map["T" := {p, q}, "U" := {q}])
    ensures
      var o, w := Witness(p, q, false), Files(p, q, "2", "1");
      && Passed(o, Some({"T"}), w)
      && VerifyStore(o, s, Explicit({"T"}), w) == s.(deps := map["T" := {p}, "U" := {q}])
  {
    var o, w := Witness(p, q, false), Files(p, q, "2", "1");
    assert "T"[0] != "U"[0] && "1"[0] != "2"[0];
    assert "T" in {"T"} && Explicit({"T"}) != Explicit({});
    RunOne(p, q, false, s, Explicit({"T"}), w, "T");
    assert Executed(o, Some({"T"}), w) == {"T"};
    assert s.deps["T" := {p}] == map["T" := {p}, "U" := {q}];
  }

  /** The third selects U alone, which passes. */
  lemma WitnessThird(p: Path, q: Path, strict: bool, s: Store)
    requires p != q && ImplementationSource(q)
    requires s == Store([Files(p, q, "1", "1")], {Files(p, q, "1", "1")}, map["T" := {p}, "U" := {q}])
    ensures Files(p, q, "1", "2") in VerifyStore(Witness(p, q, strict), s, Default, Files(p, q, "1", "2")).cache
  {
    var b, w := Files(p, q, "1", "1"), Files(p, q, "1", "2");
    assert "T"[0] != "U"[0] && "1"[0] != "2"[0];
    assert b[p] == w[p] && b[q] != w[q];
    assert Changed(b, w) == {q};
    assert Dependents(s, q) == {"U"};
    assert "U" in Dependents(s, q);
    SelectOne(Witness(p, q, strict), s, b, w, q, "U");
    RunOne(p, q, strict, s, Default, w, "U");
  }

  lemma ReplayVerify(o: Oracle, history: seq<Action>, request: Request, w: Snapshot)
    ensures Replay(o, history + [Verify(request, w)]).store == VerifyStore(o, Replay(o, history).store, request, w)
  {
    assert (history + [Verify(request, w)])[..|history|] == history;
  }

  lemma {:induction false} ReplayThree(o: Oracle, u: Snapshot, request: Request, v: Snapshot, w: Snapshot)
    ensures
      var s1 := VerifyStore(o, EMPTY.store, Default, u);
      var s2 := VerifyStore(o, s1, request, v);
      Replay(o, [Verify(Default, u), Verify(request, v), Verify(Default, w)]).store == VerifyStore(o, s2, Default, w)
  {
    var h1: seq<Action> := [] + [Verify(Default, u)];
    var h2 := h1 + [Verify(request, v)];
    ReplayVerify(o, [], Default, u);
    ReplayVerify(o, h1, request, v);
    ReplayVerify(o, h2, Default, w);
    assert h2 + [Verify(Default, w)] == [Verify(Default, u), Verify(request, v), Verify(Default, w)];
  }

  lemma WitnessFails(p: Path, q: Path, strict: bool)
    requires p != q
    ensures !AllPass(Witness(p, q, strict), Files(p, q, "1", "2"))
  {
    var o, bad := Witness(p, q, strict), Files(p, q, "1", "2");
    assert "1"[0] != "2"[0] && "T"[0] != "U"[0];
    assert "T" in o.tests(bad) && !o.passes("T", bad);
  }

  /** A failed run overwrites dependency rows too, and that alone breaks the cache. With both files
      good every test passes; T is then run with a bad p, fails and is left with the row {p}; with
      p good again and a bad q, only U is selected, so a revision where T fails is cached. */
  lemma FailedRunsBreakTheCache(p: Path, q: Path)
    requires p != q && ImplementationSource(p) && ImplementationSource(q)
    ensures
      var o, bad := Witness(p, q, true), Files(p, q, "1", "2");
      var history := [Verify(Default, Files(p, q, "1", "1")), Verify(Default, Files(p, q, "2", "1")), Verify(Default, bad)];
      Lawful(o) && bad in Replay(o, history).store.cache && !AllPass(o, bad)
  {
    var o, good, badP, badQ := Witness(p, q, true), Files(p, q, "1", "1"), Files(p, q, "2", "1"), Files(p, q, "1", "2");
    WitnessLawful(p, q, true);
    WitnessFirst(p, q, true);
    var s1 := VerifyStore(o, EMPTY.store, Default, good);
    WitnessSecond(p, q, s1);
    WitnessThird(p, q, true, VerifyStore(o, s1, Default, badP));
    ReplayThree(o, good, Default, badP, badQ);
    WitnessFails(p, q, true);
  }

  /** A passing run can break it as well: an explicit run of T at another revision passes without
      reading q, and its row replaces the baseline's. Every run of this history passes. */
  lemma PassingRunsBreakTheCache(p: Path, q: Path)
    requires p != q && ImplementationSource(p) && ImplementationSource(q)
    ensures
      var o, other, bad := Witness(p, q, false), Files(p, q, "2", "1"), Files(p, q, "1", "2");
      var history := [Verify(Default, Files(p, q, "1", "1")), Verify(Explicit({"T"}), other), Verify(Default, bad)];
      && Lawful(o) && Passed(o, Some({"T"}), other)
      && bad in Replay(o, history).store.cache && !AllPass(o, bad)
  {
    var o, good, other, bad := Witness(p, q, false), Files(p, q, "1", "1"), Files(p, q, "2", "1"), Files(p, q, "1", "2");
    WitnessLawful(p, q, false);
    WitnessFirst(p, q, false);
    var s1 := VerifyStore(o, EMPTY.store, Default, good);
    WitnessPassingSecond(p, q, s1);
    WitnessThird(p, q, false, VerifyStore(o, s1, Explicit({"T"}), other));
    ReplayThree(o, good, Explicit({"T"}), other, bad);
    WitnessFails(p, q, false);
  }

  /** Java and Kotlin files at any depth below a `src/main/` of the workspace, or of any module in it, are
      implementation sources. */
  lemma {:induction false} SourcesOfModules(root: Path, rest: Path, extension: string)
    requires rest != "" && rest[|rest| - 1] != '/' && extension in [".java", ".kt"]
    ensures ImplementationSource("src/main/" + rest + extension)
    ensures ImplementationSource(root + "/src/main/" + rest + extension)
  {
    var short, long := "src/main/" + rest + extension, root + "/src/main/" + rest + extension;
    assert "src/main/" <= short && |extension| >= 3;
    assert short[|short| - |extension|..] == extension && short[|short| - |extension| - 1] == rest[|rest| - 1];
    assert long[|long| - |extension|..] == extension && long[|long| - |extension| - 1] == rest[|rest| - 1];
    assert long[|root|..] == "/src/main/" + rest + extension;
    assert "/src/main/" <= long[|root|..];
    assert Contains(long, "/src/main/");
  }

  /** There are implementation sources to break it with. */
  lemma ImplementationSourcesExist()
    ensures ImplementationSource("src/main/A.java") && ImplementationSource("src/main/B.java")
    ensures "src/main/A.java" != "src/main/B.java"
  {
    var a, b := "src/main/A.java", "src/main/B.java";
    assert "src/main/" <= a && "src/main/" <= b;
    assert a[10..] == ".java" && b[10..] == ".java";
    assert a[9] != b[9];
  }

  /** A lawful project and a history that leave a revision with a failing test cached. */
  ghost predicate Unsound(o: Oracle, history: seq<Action>, r: Snapshot) {
    Lawful(o) && r in Replay(o, history).store.cache && !AllPass(o, r)
  }

  lemma {:induction false} UnsoundFor(p: Path, q: Path)
    requires p != q && ImplementationSource(p) && ImplementationSource(q)
    ensures exists o, history, r :: Unsound(o, history, r)
  {
    FailedRunsBreakTheCache(p, q);
    var bad := Files(p, q, "1", "2");
    var history := [Verify(Default, Files(p, q, "1", "1")), Verify(Default, Files(p, q, "2", "1")), Verify(Default, bad)];
    assert Unsound(Witness(p, q, true), history, bad);
  }

  /** So the cache is not sound over every history. */
  lemma {:induction false} CacheIsNotSound()
    ensures exists o, history, r :: Unsound(o, history, r)
  {
    ImplementationSourcesExist();
    UnsoundFor("src/main/A.java", "src/main/B.java");
  }
}
