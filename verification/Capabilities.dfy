/** Whether a recording may claim to be complete: the capability calculus of `ingest_events`, and the
    capability checks a recording must pass before it is replayed. */
module Capabilities {
  import opened Boundaries
  import opened Counting

  /** The fields of one event line the calculus reads; an absent field reads as its default. */
  datatype RawEvent = RawEvent(
    rawType: string,
    threadId: nat,
    threadKey: string,
    targetOwner: string,
    targetMethod: string,
    inputKind: string,
    capability: string,
    denied: bool)

  datatype Completeness = Complete | Partial

  datatype Manifest = Manifest(completeness: Completeness, supported: set<string>, unavailable: set<string>)

  predicate IsCall(e: RawEvent) { e.rawType == "CALL" }

  predicate IsInput(e: RawEvent) { e.rawType == "INPUT" }

  predicate NondeterministicCall(e: RawEvent) { IsCall(e) && Nondeterministic(e.targetOwner, e.targetMethod) }

  predicate FileCall(e: RawEvent) { IsCall(e) && SupportedFile(e.targetOwner, e.targetMethod) }

  predicate UnsupportedIoCall(e: RawEvent) { IsCall(e) && Io(e.targetOwner) && !SupportedFile(e.targetOwner, e.targetMethod) }

  predicate FileInput(e: RawEvent) { IsInput(e) && StartsWith(e.inputKind, "io.file.") }

  predicate PlainInput(e: RawEvent) { IsInput(e) && !StartsWith(e.inputKind, "io.file.") }

  /** What one event takes away. */
  function Denied(e: RawEvent): set<string> {
    if IsCall(e) then Crossed(e.targetOwner, e.targetMethod)
    else if e.rawType == "CAPABILITY" && e.denied then {e.capability}
    else {}
  }

  // What a stream says, independently of how it is read.

  function ThreadIds(events: seq<RawEvent>): set<nat> {
    set e | e in events :: e.threadId
  }

  predicate Unnamed(key: string) {
    |key| >= 10 && key[|key| - 10..] == ":<unnamed>"
  }

  ghost predicate Keyed(events: seq<RawEvent>, t: nat, key: string) {
    key != "" && exists i :: 0 <= i < |events| && events[i].threadId == t && events[i].threadKey == key
  }

  /** Thread ids and their non-empty stable keys are in bijection, and every key is a proper name. */
  ghost predicate StableThreads(events: seq<RawEvent>) {
    && (forall t :: t in ThreadIds(events) ==> exists key :: Keyed(events, t, key))
    && (forall t, a, b :: Keyed(events, t, a) && Keyed(events, t, b) ==> a == b)
    && (forall t, u, key :: Keyed(events, t, key) && Keyed(events, u, key) ==> t == u)
    && (forall t, key :: Keyed(events, t, key) ==> !Unnamed(key))
  }

  ghost predicate DeniedBy(events: seq<RawEvent>, capability: string) {
    exists i :: 0 <= i < |events| && capability in Denied(events[i])
  }

  /** There are nondeterministic calls, and as many recorded inputs. */
  ghost predicate InputsMatch(events: seq<RawEvent>) {
    |Where(events, PlainInput)| == |Where(events, NondeterministicCall)| > 0
  }

  ghost predicate FilesMatch(events: seq<RawEvent>) {
    |Where(events, FileInput)| == |Where(events, FileCall)| > 0 && Where(events, UnsupportedIoCall) == {}
  }

  /** A capability the recording lacks. */
  ghost predicate Missing(events: seq<RawEvent>, capability: string) {
    || (capability == "threads" && |ThreadIds(events)| > 1 && !StableThreads(events))
    || (&& DeniedBy(events, capability)
        && !(capability == "nondeterminism" && InputsMatch(events))
        && !(capability == "io" && FilesMatch(events)))
  }

  /** The capability checks of `validate_recording`. */
  predicate Accepts(m: Manifest) {
    && m.completeness == Complete
    && "pureJvm" in m.supported
    && ("singleThread" in m.supported || "threadSchedule" in m.supported)
  }

  // The accumulators of the loop.

  /** The last key seen for each thread, and whether some thread had two. */
  ghost predicate KeysInv(events: seq<RawEvent>, threads: set<nat>, keys: map<nat, string>, conflict: bool) {
    && threads == ThreadIds(events)
    && (forall t :: t in keys ==> Keyed(events, t, keys[t]))
    && (forall t, key :: Keyed(events, t, key) ==> t in keys)
    && (conflict <==> exists t, a, b :: Keyed(events, t, a) && Keyed(events, t, b) && a != b)
  }

  lemma KeyedGrows(events: seq<RawEvent>, n: nat, t: nat, key: string)
    requires n < |events|
    ensures Keyed(events[..n + 1], t, key)
       <==> Keyed(events[..n], t, key) || (key != "" && events[n].threadId == t && events[n].threadKey == key)
  {
    var more, front := events[..n + 1], events[..n];
    assert more[n] == events[n];
    assert forall i :: 0 <= i < n ==> more[i] == front[i];
  }

  lemma KeysStep(events: seq<RawEvent>, n: nat, threads: set<nat>, keys: map<nat, string>, conflict: bool)
    requires n < |events| && KeysInv(events[..n], threads, keys, conflict)
    ensures
      var e := events[n];
      KeysInv(events[..n + 1], threads + {e.threadId},
              if e.threadKey != "" then keys[e.threadId := e.threadKey] else keys,
              conflict || (e.threadKey != "" && e.threadId in keys && keys[e.threadId] != e.threadKey))
  {
    var e, front, more := events[n], events[..n], events[..n + 1];
    assert more == front + [e];
    forall t, key
      ensures Keyed(more, t, key) <==> Keyed(front, t, key) || (key != "" && e.threadId == t && e.threadKey == key)
    {
      KeyedGrows(events, n, t, key);
    }
    if e.threadKey != "" && e.threadId in keys {
      assert Keyed(front, e.threadId, keys[e.threadId]) && Keyed(more, e.threadId, e.threadKey);
      assert Keyed(more, e.threadId, keys[e.threadId]);
    }
  }

  /** The loop's three sizes are equal exactly when threads and keys are in bijection. */
  lemma StableIffSizes(events: seq<RawEvent>, threads: set<nat>, keys: map<nat, string>, conflict: bool)
    requires KeysInv(events, threads, keys, conflict)
    ensures
      StableThreads(events)
      <==> !conflict && |keys.Keys| == |threads| && |keys.Values| == |threads|
           && forall key :: key in keys.Values ==> !Unnamed(key)
  {
    forall t | t in keys
      ensures t in threads
    {
      assert Keyed(events, t, keys[t]);
    }
    SubsetSize(keys.Keys, threads);
    ValuesSize(keys);
    if !conflict {
      assert forall t, key :: Keyed(events, t, key) ==> keys[t] == key;
    }
  }

  /** The counters, and the capabilities taken away so far. */
  datatype Tally = Tally(
    nondeterministicCalls: nat,
    deterministicInputs: nat,
    fileCalls: nat,
    fileInputs: nat,
    unsupportedIo: bool,
    unavailable: set<string>)

  ghost predicate CallsInv(events: seq<RawEvent>, tally: Tally) {
    && tally.nondeterministicCalls == |Where(events, NondeterministicCall)|
    && tally.fileCalls == |Where(events, FileCall)|
    && (tally.unsupportedIo <==> Where(events, UnsupportedIoCall) != {})
  }

  ghost predicate InputsInv(events: seq<RawEvent>, tally: Tally) {
    && tally.deterministicInputs == |Where(events, PlainInput)|
    && tally.fileInputs == |Where(events, FileInput)|
  }

  ghost predicate TallyInv(events: seq<RawEvent>, tally: Tally) {
    && CallsInv(events, tally) && InputsInv(events, tally)
    && forall c :: c in tally.unavailable <==> DeniedBy(events, c)
  }

  /** `next` is `tally` after one more event. */
  ghost predicate Counts(tally: Tally, e: RawEvent, next: Tally) {
    && next.nondeterministicCalls == tally.nondeterministicCalls + (if NondeterministicCall(e) then 1 else 0)
    && next.deterministicInputs == tally.deterministicInputs + (if PlainInput(e) then 1 else 0)
    && next.fileCalls == tally.fileCalls + (if FileCall(e) then 1 else 0)
    && next.fileInputs == tally.fileInputs + (if FileInput(e) then 1 else 0)
    && next.unsupportedIo == (tally.unsupportedIo || UnsupportedIoCall(e))
    && next.unavailable == tally.unavailable + Denied(e)
  }

  /** The body of the loop, past the thread bookkeeping. */
  method Classify(tally: Tally, e: RawEvent) returns (next: Tally)
    ensures Counts(tally, e, next)
  {
    next := tally;
    DistinctTypes();
    if e.rawType == "CALL" {
      next := ClassifyCall(tally, e.targetOwner, e.targetMethod);
    } else if e.rawType == "INPUT" {
      if StartsWith(e.inputKind, "io.file.") {
        next := next.(fileInputs := next.fileInputs + 1);
      } else {
        next := next.(deterministicInputs := next.deterministicInputs + 1);
      }
    } else if e.rawType == "CAPABILITY" && e.denied {
      next := next.(unavailable := next.unavailable + {e.capability});
    }
  }

  method ClassifyCall(tally: Tally, owner: string, name: string) returns (next: Tally)
    ensures next.nondeterministicCalls == tally.nondeterministicCalls + (if Nondeterministic(owner, name) then 1 else 0)
    ensures next.fileCalls == tally.fileCalls + (if SupportedFile(owner, name) then 1 else 0)
    ensures next.unsupportedIo == (tally.unsupportedIo || (Io(owner) && !SupportedFile(owner, name)))
    ensures next.unavailable == tally.unavailable + Crossed(owner, name)
    ensures next.deterministicInputs == tally.deterministicInputs && next.fileInputs == tally.fileInputs
  {
    next := tally;
    if Nondeterministic(owner, name) {
      next := next.(nondeterministicCalls := next.nondeterministicCalls + 1);
    }
    if SupportedFile(owner, name) {
      next := next.(fileCalls := next.fileCalls + 1);
    } else if Io(owner) {
      next := next.(unsupportedIo := true);
    }
    next := next.(unavailable := next.unavailable + Crossed(owner, name));
  }

  lemma {:induction false} CallsStep(events: seq<RawEvent>, n: nat, tally: Tally, next: Tally)
    requires n < |events| && CallsInv(events[..n], tally) && Counts(tally, events[n], next)
    ensures CallsInv(events[..n + 1], next)
  {
    WhereGrows(events, n, NondeterministicCall);
    WhereGrows(events, n, FileCall);
    WhereGrows(events, n, UnsupportedIoCall);
  }

  lemma {:induction false} InputsStep(events: seq<RawEvent>, n: nat, tally: Tally, next: Tally)
    requires n < |events| && InputsInv(events[..n], tally) && Counts(tally, events[n], next)
    ensures InputsInv(events[..n + 1], next)
  {
    WhereGrows(events, n, PlainInput);
    WhereGrows(events, n, FileInput);
  }

  lemma {:induction false} TallyStep(events: seq<RawEvent>, n: nat, tally: Tally, next: Tally)
    requires n < |events| && TallyInv(events[..n], tally) && Counts(tally, events[n], next)
    ensures TallyInv(events[..n + 1], next)
  {
    CallsStep(events, n, tally, next);
    InputsStep(events, n, tally, next);
    DeniedGrows(events, n);
  }

  lemma DistinctTypes()
    ensures "CALL" != "INPUT" && "CAPABILITY" != "INPUT" && "CAPABILITY" != "CALL"
  {
    assert |"CALL"| == 4 && |"INPUT"| == 5;
  }

  lemma DeniedGrows(events: seq<RawEvent>, n: nat)
    requires n < |events|
    ensures forall c :: DeniedBy(events[..n + 1], c) <==> DeniedBy(events[..n], c) || c in Denied(events[n])
  {
    var more, front := events[..n + 1], events[..n];
    assert more[n] == events[n];
    assert forall i :: 0 <= i < n ==> more[i] == front[i];
  }

  const MAX_EVENTS_PER_RUN: nat := 1_000_000

  datatype Ingested = Ingested(manifest: Manifest) | TooManyEvents

  // What always shows in a manifest.

  lemma {:induction false} CrossedIsDenied(stream: seq<RawEvent>, i: nat, capability: string)
    requires i < |stream| && IsCall(stream[i]) && capability in Crossed(stream[i].targetOwner, stream[i].targetMethod)
    ensures DeniedBy(stream, capability)
  {
  }

  /** What an event takes away, case by case: a worker reports it as denied, or the program makes one of
      these calls. */
  predicate Takes(e: RawEvent, capability: string) {
    if e.rawType == "CALL" then
      var owner, name := e.targetOwner, e.targetMethod;
      || (capability == "io" && ("java/io/" <= owner || "java/nio/file/" <= owner || "java/net/" <= owner))
      || (capability == "subprocess"
          && (owner == "java/lang/ProcessBuilder" || (owner == "java/lang/Runtime" && name == "exec")))
      || (capability == "environment" && owner == "java/lang/System" && name == "getenv")
      || (capability == "systemProperties" && owner == "java/lang/System" && name == "getProperty")
      || (capability == "native"
          && owner in ["java/lang/System", "java/lang/Runtime"] && name in ["load", "loadLibrary"])
      || (capability == "nondeterminism"
          && (|| (owner == "java/lang/System" && name in ["currentTimeMillis", "nanoTime"])
              || ("java/time/" <= owner && name == "now")
              || (owner == "java/util/UUID" && name == "randomUUID")
              || (owner == "java/lang/Math" && name == "random")
              || (&& (|| "java/util/Random" <= owner || "java/util/random/" <= owner
                      || owner in ["java/util/SplittableRandom", "java/util/concurrent/ThreadLocalRandom",
                                   "java/security/SecureRandom"])
                  && ("next" <= name || name == "generateSeed"))))
    else e.rawType == "CAPABILITY" && e.denied && e.capability == capability
  }

  lemma TakesExactly(e: RawEvent, capability: string)
    ensures capability in Denied(e) <==> Takes(e, capability)
  {
  }

  /** A stream loses a capability exactly to such an event, and to nothing else. */
  lemma {:induction false} DeniedExactly(stream: seq<RawEvent>, capability: string)
    ensures DeniedBy(stream, capability) <==> exists e :: e in stream && Takes(e, capability)
  {
    forall e | e in stream
      ensures capability in Denied(e) <==> Takes(e, capability)
    {
      TakesExactly(e, capability);
    }
    assert forall i :: 0 <= i < |stream| ==> stream[i] in stream;
  }

  /** A program that starts a process, reads the environment or a system property, loads native code,
      or does input and output other than reading whole files, leaves no complete recording. */
  lemma {:induction false} BoundariesShow(stream: seq<RawEvent>, i: nat)
    requires i < |stream| && stream[i].rawType == "CALL"
    ensures
      var owner, name := stream[i].targetOwner, stream[i].targetMethod;
      && (owner == "java/lang/ProcessBuilder" || (owner == "java/lang/Runtime" && name == "exec") ==>
            Missing(stream, "subprocess"))
      && (owner == "java/lang/System" && name == "getenv" ==> Missing(stream, "environment"))
      && (owner == "java/lang/System" && name == "getProperty" ==> Missing(stream, "systemProperties"))
      && (owner in ["java/lang/System", "java/lang/Runtime"] && name in ["load", "loadLibrary"] ==>
            Missing(stream, "native"))
      && ((|| "java/io/" <= owner || "java/net/" <= owner
           || ("java/nio/file/" <= owner
               && !(owner == "java/nio/file/Files" && (name == "readAllBytes" || name == "readString")))) ==>
            Missing(stream, "io"))
  {
    var owner, name := stream[i].targetOwner, stream[i].targetMethod;
    OtherCapabilities();
    forall capability | capability in Crossed(owner, name)
      ensures DeniedBy(stream, capability)
    {
      CrossedIsDenied(stream, i, capability);
    }
    if (|| "java/io/" <= owner || "java/net/" <= owner
        || ("java/nio/file/" <= owner
            && !(owner == "java/nio/file/Files" && (name == "readAllBytes" || name == "readString"))))
    {
      OtherIoShows(stream, i);
    }
  }

  lemma {:induction false} OtherIoShows(stream: seq<RawEvent>, i: nat)
    requires i < |stream| && stream[i].rawType == "CALL"
    requires
      var owner, name := stream[i].targetOwner, stream[i].targetMethod;
      || "java/io/" <= owner || "java/net/" <= owner
      || ("java/nio/file/" <= owner
          && !(owner == "java/nio/file/Files" && (name == "readAllBytes" || name == "readString")))
    ensures Missing(stream, "io")
  {
    var owner := stream[i].targetOwner;
    if owner == "java/nio/file/Files" {
      assert owner[5] == 'n' && "java/net/"[6] == 'e' && "java/io/"[5] == 'i';
    }
    assert UnsupportedIoCall(stream[i]);
    assert i in Where(stream, UnsupportedIoCall);
  }

  lemma {:induction false} OtherCapabilities()
    ensures forall capability :: capability in ["subprocess", "environment", "systemProperties", "native"] ==>
      capability != "nondeterminism" && capability != "io"
  {
    assert |"io"| == 2 && |"nondeterminism"| == 14 && |"subprocess"| == 10 && |"environment"| == 11;
    assert |"systemProperties"| == 16 && |"native"| == 6;
  }

  /** A clock, a random UUID or a random generator, where no input was recorded, leaves no complete
      recording. */
  lemma {:induction false} NondeterminismShows(stream: seq<RawEvent>, i: nat)
    requires i < |stream| && stream[i].rawType == "CALL" && forall e :: e in stream ==> e.rawType != "INPUT"
    ensures
      var owner, name := stream[i].targetOwner, stream[i].targetMethod;
      (|| (owner == "java/lang/System" && (name == "currentTimeMillis" || name == "nanoTime"))
       || ("java/time/" <= owner && name == "now")
       || (owner == "java/util/UUID" && name == "randomUUID")
       || (owner == "java/lang/Math" && name == "random")
       || (&& (|| "java/util/Random" <= owner || owner == "java/util/SplittableRandom" || "java/util/random/" <= owner
               || owner == "java/util/concurrent/ThreadLocalRandom" || owner == "java/security/SecureRandom")
           && ("next" <= name || name == "generateSeed")))
      ==> Missing(stream, "nondeterminism")
  {
    if Nondeterministic(stream[i].targetOwner, stream[i].targetMethod) {
      DistinctCapabilities();
      CrossedIsDenied(stream, i, "nondeterminism");
      assert Where(stream, PlainInput) == {};
    }
  }

  /** What the worker itself reports as unavailable is missing, unless it is one of the two that matching
      totals can speak for and some input was recorded. */
  lemma {:induction false} ReportsShow(stream: seq<RawEvent>, i: nat)
    requires i < |stream| && stream[i].rawType == "CAPABILITY" && stream[i].denied
    requires
      || (stream[i].capability != "nondeterminism" && stream[i].capability != "io")
      || forall e :: e in stream ==> e.rawType != "INPUT"
    ensures Missing(stream, stream[i].capability)
  {
    DistinctTypes();
    DistinctCapabilities();
    assert stream[i].capability in Denied(stream[i]);
    if forall e :: e in stream ==> e.rawType != "INPUT" {
      assert Where(stream, PlainInput) == {} && Where(stream, FileInput) == {};
    }
  }

  /** The loop over the stream's lines. */
  method Read(stream: seq<RawEvent>) returns (full: bool, tally: Tally, threadCount: nat, scheduled: bool)
    ensures full <==> |stream| > MAX_EVENTS_PER_RUN
    ensures !full ==>
      && TallyInv(stream, tally) && threadCount == |ThreadIds(stream)|
      && (scheduled <==> threadCount > 1 && StableThreads(stream))
  {
    var threads: set<nat>, keys: map<nat, string>, conflict := {}, map[], false;
    tally := Tally(0, 0, 0, 0, false, {});
    for n := 0 to |stream|
      invariant n <= MAX_EVENTS_PER_RUN
      invariant KeysInv(stream[..n], threads, keys, conflict)
      invariant TallyInv(stream[..n], tally)
    {
      if n >= MAX_EVENTS_PER_RUN {
        return true, tally, 0, false;
      }
      var e := stream[n];
      KeysStep(stream, n, threads, keys, conflict);
      threads := threads + {e.threadId};
      if e.threadKey != "" {
        conflict := conflict || (e.threadId in keys && keys[e.threadId] != e.threadKey);
        keys := keys[e.threadId := e.threadKey];
      }
      var next := Classify(tally, e);
      TallyStep(stream, n, tally, next);
      tally := next;
    }
    assert stream[..|stream|] == stream;
    StableIffSizes(stream, threads, keys, conflict);
    full, threadCount := false, |threads|;
    scheduled := |threads| > 1 && !conflict && |keys.Keys| == |threads| && |keys.Values| == |threads|
                 && forall key :: key in keys.Values ==> !Unnamed(key);
  }

  /** Honest completeness. For every event stream the manifest is complete exactly when no capability
      is missing from the stream, and exactly when the replay checks accept it; a complete manifest of
      several threads has stable threads. A worker that left no stream is never complete. */
  method Ingest(stream: seq<RawEvent>, present: bool) returns (r: Ingested)
    ensures r.TooManyEvents? <==> present && |stream| > 1_000_000
    ensures !present ==> r.Ingested? && !Accepts(r.manifest)
    ensures r.Ingested? && present ==>
      && (forall c :: c in r.manifest.unavailable <==> Missing(stream, c))
      && (r.manifest.completeness == Complete <==> forall c :: !Missing(stream, c))
      && (r.manifest.completeness == Complete ==> |ThreadIds(stream)| <= 1 || StableThreads(stream))
    ensures r.Ingested? ==> (Accepts(r.manifest) <==> r.manifest.completeness == Complete)
  {
    if !present {
      return Ingested(Manifest(Partial, {}, {"events"}));
    }
    var full, tally, threadCount, scheduled := Read(stream);
    if full {
      return TooManyEvents;
    }
    var manifest := Conclude(tally, threadCount, scheduled);
    assert threadCount > 1 && !scheduled ==> Missing(stream, "threads");
    return Ingested(manifest);
  }

  /** The manifest, once the whole stream has been read. */
  method Conclude(tally: Tally, threads: nat, scheduled: bool) returns (m: Manifest)
    ensures forall c :: c in m.unavailable <==>
      || (c == "threads" && threads > 1 && !scheduled)
      || (&& c in tally.unavailable
          && !(c == "nondeterminism" && tally.deterministicInputs == tally.nondeterministicCalls > 0)
          && !(c == "io" && tally.fileInputs == tally.fileCalls > 0 && !tally.unsupportedIo))
    ensures m.completeness == Complete <==> m.unavailable == {}
    ensures "pureJvm" in m.supported <==> m.unavailable == {}
    ensures "singleThread" in m.supported <==> threads <= 1
    ensures "threadSchedule" in m.supported <==> scheduled
    ensures Accepts(m) <==> m.completeness == Complete
  {
    var unavailable := tally.unavailable;
    if threads > 1 && !scheduled {
      unavailable := unavailable + {"threads"};
    }
    DistinctCapabilities();
    if tally.nondeterministicCalls > 0 && tally.deterministicInputs == tally.nondeterministicCalls {
      unavailable := unavailable - {"nondeterminism"};
    }
    if tally.fileCalls > 0 && tally.fileInputs == tally.fileCalls && !tally.unsupportedIo {
      unavailable := unavailable - {"io"};
    }
    var supported := {"line", "call", "write"};
    if threads <= 1 {
      supported := supported + {"singleThread"};
    }
    if scheduled {
      supported := supported + {"threads", "threadSchedule"};
    }
    if unavailable == {} {
      supported := supported + {"pureJvm"};
    }
    m := Manifest(if unavailable == {} then Complete else Partial, supported, unavailable);
  }

  lemma DistinctCapabilities()
    ensures "threads" != "nondeterminism" && "threads" != "io" && "io" != "nondeterminism"
  {
    assert |"io"| == 2 && |"threads"| == 7 && |"nondeterminism"| == 14;
  }
}
