/** Recordings that claim to be complete are faithful to replay.

    One recording is two things at once: an event stream, from which the daemon decides whether any
    capability is missing, and a tape with the schedule made from the stream, which a replay reads
    back. A rewritten call that extends the tape and then announces nothing would shift every later
    input; but it is also a counted call without an input, so the totals give it away. */
module CompleteRecordings {
  import opened Options
  import opened ReplayScheduler
  import opened Boundaries
  import opened Capabilities
  import A = InputCounts
  import F = ReplayFidelity
  import P = ReplayProtocol

  /** What a recording thread does, as both sides see it. */
  datatype Step =
    | Call(t: nat, site: Site)
    | Append(t: nat, kind: string, encoded: string)   // the value is on the tape
    | Announce(t: nat, kind: string)                  // its INPUT event is written
    | FailAnnouncing(t: nat)                          // it is not: the writer threw, or the test has ended
    | GiveUp(t: nat, oversized: bool)                 // no value: an exception, or a file over the limit
    | Other(e: RawEvent)

  function KeyOf(threads: P.ThreadId -> JvmThread, t: nat): string {
    ThreadKey(threads(t))
  }

  predicate EndsWith(s: string, suffix: string) {
    |s| >= |suffix| && s[|s| - |suffix|..] == suffix
  }

  /** Which keys the daemon takes for unnamed, exactly: those of threads without a name, and of threads
      whose own name looks like such a key. */
  lemma {:induction false} UnnamedExactly(thread: JvmThread)
    ensures Unnamed(ThreadKey(thread)) <==> Nameless(thread) || EndsWith(thread.name, ":<unnamed>")
  {
    NameOfKey(thread);
    var key, prefix := ThreadKey(thread), if thread.isVirtual then "virtual:" else "platform:";
    var name := if IsBlank(thread.name) then "<unnamed>" else thread.name;
    assert key == prefix + name && prefix[|prefix| - 1] == ':';
    UnnamedSuffix(prefix, name);
  }

  lemma {:induction false} UnnamedSuffix(prefix: string, name: string)
    requires |prefix| >= 8 && prefix[|prefix| - 1] == ':'
    ensures Unnamed(prefix + name) <==> name == "<unnamed>" || EndsWith(name, ":<unnamed>")
  {
    var key, tail := prefix + name, ":<unnamed>";
    assert |tail| == 10 && tail[1..] == "<unnamed>";
    if |name| > 9 {
      assert key[|key| - 10..] == name[|name| - 10..];
    } else if |name| == 9 {
      assert key[|key| - 10..] == [':'] + name;
      assert tail == [':'] + tail[1..];
      assert ([':'] + name)[1..] == name;
    } else if |key| >= 10 {
      var at := 9 - |name|;
      assert key[|key| - 10..][at] == ':';
      assert forall i :: 1 <= i < 10 ==> tail[i] != ':';
    }
  }

  /** The step in the event stream. */
  function InStream(s: Step, threads: P.ThreadId -> JvmThread): seq<A.Step> {
    match s
    case Call(t, site) => [A.Call(t, KeyOf(threads, t), site)]
    case Append(_, _, _) => []
    case Announce(t, kind) => [A.Observe(t, KeyOf(threads, t), kind)]
    case FailAnnouncing(t) => [A.GiveUp(t, KeyOf(threads, t), false)]
    case GiveUp(t, oversized) => [A.GiveUp(t, KeyOf(threads, t), oversized)]
    case Other(e) => [A.Other(e)]
  }

  /** The step in the recording that will be replayed. */
  function InRecording(s: Step): seq<F.RecordStep> {
    match s
    case Call(t, _) => [F.Emit(t, "CALL")]
    case Append(t, kind, encoded) => [F.Append(t, kind, encoded)]
    case Announce(t, _) => [F.Announce(t)]
    case FailAnnouncing(t) => [F.FailAnnouncing(t)]
    case GiveUp(t, oversized) => if oversized then [F.Emit(t, "CAPABILITY")] else []
    case Other(e) => [F.Emit(e.threadId, e.rawType)]
  }

  function StreamSteps(steps: seq<Step>, threads: P.ThreadId -> JvmThread): seq<A.Step> {
    if steps == [] then []
    else StreamSteps(steps[..|steps| - 1], threads) + InStream(steps[|steps| - 1], threads)
  }

  function RecordSteps(steps: seq<Step>): seq<F.RecordStep> {
    if steps == [] then [] else RecordSteps(steps[..|steps| - 1]) + InRecording(steps[|steps| - 1])
  }

  function Stream(steps: seq<Step>, threads: P.ThreadId -> JvmThread, captureFileIo: bool): Option<A.Agent> {
    A.Run(StreamSteps(steps, threads), captureFileIo)
  }

  function Recording(steps: seq<Step>): Option<F.Recording> {
    F.Record(RecordSteps(steps))
  }

  /** The steps are possible on both sides. */
  predicate Consistent(steps: seq<Step>, threads: P.ThreadId -> JvmThread, captureFileIo: bool) {
    Stream(steps, threads, captureFileIo).Some? && Recording(steps).Some?
  }

  lemma {:induction false} StreamStep(front: seq<A.Step>, more: seq<A.Step>, captureFileIo: bool)
    requires |more| <= 1 && A.Run(front + more, captureFileIo).Some?
    ensures A.Run(front, captureFileIo).Some?
    ensures
      var a, b := A.Run(front, captureFileIo).value, A.Run(front + more, captureFileIo).value;
      if more == [] then b == a else A.Enabled(a, more[0]) && b == A.Apply(a, more[0], captureFileIo)
  {
    if more == [] {
      assert front + more == front;
    } else {
      assert (front + more)[..|front|] == front;
    }
  }

  lemma {:induction false} RecordStep(front: seq<F.RecordStep>, more: seq<F.RecordStep>)
    requires |more| <= 1 && F.Record(front + more).Some?
    ensures F.Record(front).Some?
    ensures
      var a, b := F.Record(front).value, F.Record(front + more).value;
      if more == [] then b == a else F.Possible(a, more[0]) && b == F.Advance(a, more[0])
  {
    if more == [] {
      assert front + more == front;
    } else {
      assert (front + more)[..|front|] == front;
    }
  }

  lemma {:induction false} AbandonedAfter(front: seq<A.Step>, more: seq<A.Step>, captureFileIo: bool)
    requires |more| <= 1 && A.Run(front + more, captureFileIo).Some?
    ensures A.Run(front, captureFileIo).Some?
    ensures |A.Run(front + more, captureFileIo).value.abandoned|
         == |A.Run(front, captureFileIo).value.abandoned| + (if more != [] && more[0].GiveUp? then 1 else 0)
  {
    StreamStep(front, more, captureFileIo);
    if more != [] {
      A.RunKeepsInv(front, captureFileIo);
      A.RunAbandons(front, captureFileIo);
      A.StepAbandons(A.Run(front, captureFileIo).value, more[0], captureFileIo);
    }
  }

  lemma {:induction false} OrphansAfter(front: seq<F.RecordStep>, more: seq<F.RecordStep>)
    requires |more| <= 1 && F.Record(front + more).Some?
    ensures F.Record(front).Some?
    ensures F.Record(front + more).value.orphans
         == F.Record(front).value.orphans + (if more != [] && more[0].FailAnnouncing? then 1 else 0)
  {
    RecordStep(front, more);
  }

  /** Calls that ended without an input, and those of them that had extended the tape. */
  function Failures(steps: seq<Step>): nat {
    if steps == [] then 0
    else Failures(steps[..|steps| - 1])
         + (if steps[|steps| - 1].FailAnnouncing? || steps[|steps| - 1].GiveUp? then 1 else 0)
  }

  function Unannounced(steps: seq<Step>): (n: nat)
    ensures n <= Failures(steps)
  {
    if steps == [] then 0
    else Unannounced(steps[..|steps| - 1]) + (if steps[|steps| - 1].FailAnnouncing? then 1 else 0)
  }

  lemma {:induction false} AbandonedAreFailures(steps: seq<Step>, threads: P.ThreadId -> JvmThread, captureFileIo: bool)
    requires Stream(steps, threads, captureFileIo).Some?
    ensures |Stream(steps, threads, captureFileIo).value.abandoned| == Failures(steps)
  {
    if steps != [] {
      var front, last := steps[..|steps| - 1], steps[|steps| - 1];
      AbandonedAfter(StreamSteps(front, threads), InStream(last, threads), captureFileIo);
      AbandonedAreFailures(front, threads, captureFileIo);
    }
  }

  lemma {:induction false} OrphansAreUnannounced(steps: seq<Step>)
    requires Recording(steps).Some?
    ensures Recording(steps).value.orphans == Unannounced(steps)
  {
    if steps != [] {
      var front, last := steps[..|steps| - 1], steps[|steps| - 1];
      OrphansAfter(RecordSteps(front), InRecording(last));
      OrphansAreUnannounced(front);
    }
  }

  /** Each unannounced tape entry is an abandoned call of the stream. */
  lemma {:induction false} OrphansAreAbandoned(steps: seq<Step>, threads: P.ThreadId -> JvmThread, captureFileIo: bool)
    requires Consistent(steps, threads, captureFileIo)
    ensures Recording(steps).value.orphans <= |Stream(steps, threads, captureFileIo).value.abandoned|
  {
    AbandonedAreFailures(steps, threads, captureFileIo);
    OrphansAreUnannounced(steps);
  }

  /** Both sides see the same events. */
  ghost predicate SameEvents(stream: seq<RawEvent>, events: seq<F.Recorded>) {
    |stream| == |events| && forall i :: 0 <= i < |stream| ==> events[i] == F.Recorded(stream[i].rawType, stream[i].threadId)
  }

  function Announced(more: seq<A.Step>): seq<RawEvent> {
    if more == [] then [] else A.Announcement(more[0])
  }

  function Emitted(more: seq<F.RecordStep>): seq<F.Recorded> {
    if more == [] then []
    else
      match more[0]
      case Emit(t, rawType) => [F.Recorded(rawType, t)]
      case Announce(t) => [F.Recorded("INPUT", t)]
      case _ => []
  }

  lemma {:induction false} StepSame(s: Step, threads: P.ThreadId -> JvmThread)
    ensures SameEvents(Announced(InStream(s, threads)), Emitted(InRecording(s)))
  {
  }

  lemma {:induction false} SameMore(
    stream: seq<RawEvent>, events: seq<F.Recorded>, more: seq<RawEvent>, added: seq<F.Recorded>)
    requires SameEvents(stream, events) && SameEvents(more, added)
    ensures SameEvents(stream + more, events + added)
  {
  }

  lemma {:induction false} StreamAfter(a: A.Agent, more: seq<A.Step>, captureFileIo: bool)
    requires |more| == 1 && A.Enabled(a, more[0])
    ensures A.Apply(a, more[0], captureFileIo).stream == a.stream + Announced(more)
  {
  }

  lemma {:induction false} EventsAfter(r: F.Recording, more: seq<F.RecordStep>)
    requires |more| == 1 && F.Possible(r, more[0])
    ensures F.Advance(r, more[0]).events == r.events + Emitted(more)
  {
    assert r.events + [] == r.events;
  }

  lemma {:induction false} SidesAgree(steps: seq<Step>, threads: P.ThreadId -> JvmThread, captureFileIo: bool)
    requires Consistent(steps, threads, captureFileIo)
    ensures SameEvents(Stream(steps, threads, captureFileIo).value.stream, Recording(steps).value.events)
  {
    if steps != [] {
      var front, last := steps[..|steps| - 1], steps[|steps| - 1];
      var here, there := InStream(last, threads), InRecording(last);
      StreamStep(StreamSteps(front, threads), here, captureFileIo);
      RecordStep(RecordSteps(front), there);
      SidesAgree(front, threads, captureFileIo);
      var a, r := Stream(front, threads, captureFileIo).value, Recording(front).value;
      if here != [] {
        StreamAfter(a, here, captureFileIo);
      }
      if there != [] {
        EventsAfter(r, there);
      }
      assert a.stream + [] == a.stream && r.events + [] == r.events;
      StepSame(last, threads);
      SameMore(a.stream, r.events, Announced(here), Emitted(there));
    }
  }

  /** A recording that lacks no capability has no unannounced tape entry. */
  lemma {:induction false} CompleteMeansNoOrphans(steps: seq<Step>, threads: P.ThreadId -> JvmThread, captureFileIo: bool)
    requires Consistent(steps, threads, captureFileIo)
    requires forall c :: !Missing(Stream(steps, threads, captureFileIo).value.stream, c)
    ensures Recording(steps).value.orphans == 0
  {
    OrphansAreAbandoned(steps, threads, captureFileIo);
    A.CompleteMeansNothingAbandoned(StreamSteps(steps, threads), captureFileIo);
  }

  /** Input fidelity of every recording the replay checks accept: if no capability is missing from its
      stream, then in every interleaving of a replay without lost entries each finished read returns
      an entry recorded under the reader's key, in tape order, and a prefix of them if no announced
      input was dropped. */
  lemma {:induction false} AcceptedRecordingsAreFaithful(
    steps: seq<Step>, threads: P.ThreadId -> JvmThread, captureFileIo: bool, c: P.Config, run: seq<P.Event>, key: string)
    requires Consistent(steps, threads, captureFileIo) && P.Run(c, run).Some?
    requires forall name :: !Missing(Stream(steps, threads, captureFileIo).value.stream, name)
    requires c.expected <= F.Schedule(Recording(steps).value.events, threads) && c.expected != []
    requires c.tape == Recording(steps).value.tape
    requires P.Run(c, run).value.lost == 0
    ensures
      var r, s := Recording(steps).value, P.Run(c, run).value;
      && SameEvents(Stream(steps, threads, captureFileIo).value.stream, r.events)
      && |r.owners| == |r.tape|
      && F.ReadsOwn(c, s, r, threads)
      && (forall i, j :: 0 <= i < j < |s.delivered| ==> s.delivered[i].slot < s.delivered[j].slot)
      && (s.dropped == 0 ==> F.ReadBack(c, s.delivered, key) <= F.RecordedBy(r.tape, r.owners, threads, key))
  {
    SidesAgree(steps, threads, captureFileIo);
    CompleteMeansNoOrphans(steps, threads, captureFileIo);
    F.InputFidelity(RecordSteps(steps), threads, c, run, key);
  }
}
