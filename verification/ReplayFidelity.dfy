/** Recording followed by replay: each thread reads back its own inputs in its own order.

    While recording, the scheduler is off and events are appended to one stream. `InputTape.next`
    holds the tape monitor while it obtains a value, appends it to the tape and emits its INPUT
    event, so threads may interleave between those steps but not within the tape. */
module ReplayFidelity {
  import opened ReplayScheduler
  import opened InputTape
  import opened EventKinds
  import opened Options
  import P = ReplayProtocol

  datatype Recorded = Recorded(rawType: string, thread: P.ThreadId)

  /** `owners[i]` is the thread whose call appended tape entry i. An entry is an orphan when its call
      wrote no INPUT event. */
  datatype Recording = Recording(
    events: seq<Recorded>,
    tape: seq<TapeEntry>,
    owners: seq<P.ThreadId>,
    holder: Option<P.ThreadId>,
    orphans: nat)

  datatype RecordStep =
    | Emit(t: P.ThreadId, rawType: string)
    | Append(t: P.ThreadId, kind: string, encoded: string)
    | Announce(t: P.ThreadId)
    | FailAnnouncing(t: P.ThreadId)   // the tape was extended, then the event writer threw or the test had ended

  predicate Possible(r: Recording, e: RecordStep) {
    match e
    case Emit(t, rawType) => rawType != "INPUT" && r.holder != Some(t)
    case Append(_, _, _) => r.holder.None?
    case Announce(t) => r.holder == Some(t)
    case FailAnnouncing(t) => r.holder == Some(t)
  }

  function Advance(r: Recording, e: RecordStep): Recording
    requires Possible(r, e)
  {
    match e
    case Emit(t, rawType) => r.(events := r.events + [Recorded(rawType, t)])
    case Append(t, kind, encoded) =>
      r.(tape := r.tape + [TapeEntry(kind, encoded)], owners := r.owners + [t], holder := Some(t))
    case Announce(t) => r.(events := r.events + [Recorded("INPUT", t)], holder := None)
    case FailAnnouncing(_) => r.(holder := None, orphans := r.orphans + 1)
  }

  function Record(steps: seq<RecordStep>): Option<Recording> {
    if steps == [] then Some(Recording([], [], [], None, 0))
    else
      var before := Record(steps[..|steps| - 1]);
      var e := steps[|steps| - 1];
      if before.Some? && Possible(before.value, e) then Some(Advance(before.value, e)) else None
  }

  /** The schedule the daemon writes from the recorded events (events without a key are skipped). */
  function Schedule(events: seq<Recorded>, threads: P.ThreadId -> JvmThread): seq<Entry> {
    if events == [] then []
    else
      var rest := Schedule(events[..|events| - 1], threads);
      var last := events[|events| - 1];
      var key := ThreadKey(threads(last.thread));
      if key == "" then rest else rest + [Entry(ScheduleCategory(KindOf(last.rawType)), key)]
  }

  function InputOwners(events: seq<Recorded>): seq<P.ThreadId> {
    if events == [] then []
    else
      var rest := InputOwners(events[..|events| - 1]);
      var last := events[|events| - 1];
      if last.rawType == "INPUT" then rest + [last.thread] else rest
  }

  lemma InputOwnersSnoc(events: seq<Recorded>, e: Recorded)
    ensures InputOwners(events + [e]) == InputOwners(events) + (if e.rawType == "INPUT" then [e.thread] else [])
  {
    assert (events + [e])[..|events|] == events;
  }

  /** In every recording without orphans the k-th INPUT event and the k-th tape entry come from the
      same call; only the entry whose call is still holding the tape has no event yet. Every orphan
      is one more entry than there are events, so totals of the two differ exactly then. */
  lemma {:induction false} TapeFollowsEvents(steps: seq<RecordStep>)
    requires Record(steps).Some?
    ensures
      var r := Record(steps).value;
      && |r.owners| == |r.tape| == |InputOwners(r.events)| + r.orphans + (if r.holder.Some? then 1 else 0)
      && (r.orphans == 0 ==>
            r.owners == InputOwners(r.events) + (if r.holder.Some? then [r.holder.value] else []))
  {
    if steps != [] {
      var r := Record(steps[..|steps| - 1]).value;
      var e := steps[|steps| - 1];
      TapeFollowsEvents(steps[..|steps| - 1]);
      match e
      case Emit(t, rawType) => InputOwnersSnoc(r.events, Recorded(rawType, t));
      case Append(_, _, _) =>
      case Announce(t) => InputOwnersSnoc(r.events, Recorded("INPUT", t));
      case FailAnnouncing(_) =>
    }
  }

  lemma OnlyInputsScheduledAsInput(rawType: string)
    ensures ScheduleCategory(KindOf(rawType)) == "INPUT" <==> rawType == "INPUT"
  {
    var k := KindOf(rawType);
    assert k != Input ==> |ScheduleCategory(k)| != 5 || ScheduleCategory(k)[1] != 'N';
  }

  lemma {:induction false} ScheduledInputs(events: seq<Recorded>, threads: P.ThreadId -> JvmThread)
    ensures
      var keys, owners := P.InputKeys(Schedule(events, threads)), InputOwners(events);
      |keys| == |owners| && forall i :: 0 <= i < |keys| ==> keys[i] == ThreadKey(threads(owners[i]))
  {
    if events != [] {
      var n := |events| - 1;
      ScheduledInputs(events[..n], threads);
      OnlyInputsScheduledAsInput(events[n].rawType);
      var schedule, rest := Schedule(events, threads), Schedule(events[..n], threads);
      assert schedule[..|rest|] == rest;
    }
  }

  /** Values a thread key reads back in a replay, in its order. */
  function ReadBack(c: P.Config, delivered: seq<P.Delivery>, key: string): seq<TapeEntry> {
    if delivered == [] then []
    else
      var rest := ReadBack(c, delivered[..|delivered| - 1], key);
      var last := delivered[|delivered| - 1];
      if c.keyOf(last.thread) == key && last.slot < |c.tape| then rest + [c.tape[last.slot]] else rest
  }

  /** Values a thread key recorded, in its order. */
  function RecordedBy(tape: seq<TapeEntry>, owners: seq<P.ThreadId>, threads: P.ThreadId -> JvmThread, key: string)
    : seq<TapeEntry>
    requires |tape| == |owners|
  {
    if tape == [] then []
    else
      var n := |tape| - 1;
      var rest := RecordedBy(tape[..n], owners[..n], threads, key);
      if ThreadKey(threads(owners[n])) == key then rest + [tape[n]] else rest
  }

  lemma {:induction false} RecordedByPrefix(
    tape: seq<TapeEntry>, owners: seq<P.ThreadId>, threads: P.ThreadId -> JvmThread, key: string, n: nat)
    requires |tape| == |owners| && n <= |tape|
    ensures RecordedBy(tape[..n], owners[..n], threads, key) <= RecordedBy(tape, owners, threads, key)
  {
    if n < |tape| {
      var m := |tape| - 1;
      RecordedByPrefix(tape[..m], owners[..m], threads, key, n);
      assert tape[..m][..n] == tape[..n] && owners[..m][..n] == owners[..n];
    } else {
      assert tape[..n] == tape && owners[..n] == owners;
    }
  }

  lemma {:induction false} ReadBackIsRecorded(
    c: P.Config, delivered: seq<P.Delivery>, owners: seq<P.ThreadId>, threads: P.ThreadId -> JvmThread, key: string)
    requires |delivered| <= |c.tape| == |owners|
    requires forall i :: 0 <= i < |delivered| ==>
                           delivered[i].slot == i && c.keyOf(delivered[i].thread) == ThreadKey(threads(owners[i]))
    ensures ReadBack(c, delivered, key) == RecordedBy(c.tape[..|delivered|], owners[..|delivered|], threads, key)
  {
    if delivered != [] {
      var n := |delivered| - 1;
      ReadBackIsRecorded(c, delivered[..n], owners, threads, key);
      assert c.tape[..|delivered|][..n] == c.tape[..n] && owners[..|delivered|][..n] == owners[..n];
    }
  }

  /** Each finished read returns an entry that a thread with the reader's key recorded. */
  ghost predicate ReadsOwn(c: P.Config, s: P.State, r: Recording, threads: P.ThreadId -> JvmThread)
    requires |r.owners| == |r.tape|
  {
    forall i :: 0 <= i < |s.delivered| ==>
      && s.delivered[i].slot < |r.tape|
      && s.delivered[i].slot == i + s.delivered[i].droppedBefore
      && s.delivered[i].droppedBefore <= s.dropped
      && c.keyOf(s.delivered[i].thread) == ThreadKey(threads(r.owners[s.delivered[i].slot]))
  }

  /** The schedule's n-th INPUT has the key of the n-th entry's owner, also in a prefix of it. */
  lemma {:induction false} ScheduledOwner(
    steps: seq<RecordStep>, threads: P.ThreadId -> JvmThread, expected: seq<Entry>, n: nat)
    requires Record(steps).Some? && Record(steps).value.orphans == 0
    requires expected <= Schedule(Record(steps).value.events, threads) && n < |P.InputKeys(expected)|
    ensures
      var r := Record(steps).value;
      |r.owners| == |r.tape| && n < |r.tape| && P.InputKeys(expected)[n] == ThreadKey(threads(r.owners[n]))
  {
    var r := Record(steps).value;
    TapeFollowsEvents(steps);
    ScheduledInputs(r.events, threads);
    var schedule := Schedule(r.events, threads);
    assert schedule[..|expected|] == expected;
    P.InputKeysPrefix(schedule, |expected|);
  }

  lemma {:induction false} ReadsAreOwn(
    steps: seq<RecordStep>, threads: P.ThreadId -> JvmThread, c: P.Config, run: seq<P.Event>)
    requires Record(steps).Some? && Record(steps).value.orphans == 0 && P.Run(c, run).Some?
    requires c.expected <= Schedule(Record(steps).value.events, threads) && c.expected != []
    requires P.Run(c, run).value.lost == 0
    ensures |Record(steps).value.owners| == |Record(steps).value.tape|
    ensures ReadsOwn(c, P.Run(c, run).value, Record(steps).value, threads)
  {
    var r, s := Record(steps).value, P.Run(c, run).value;
    TapeFollowsEvents(steps);
    forall i: nat | i < |s.delivered|
      ensures s.delivered[i].slot == i + s.delivered[i].droppedBefore < |r.tape|
      ensures s.delivered[i].droppedBefore <= s.dropped
      ensures c.keyOf(s.delivered[i].thread) == ThreadKey(threads(r.owners[s.delivered[i].slot]))
    {
      P.InputAlignment(c, run, i);
      ScheduledOwner(steps, threads, c.expected, i + s.delivered[i].droppedBefore);
    }
  }

  /** Input fidelity. Take any recording in which every tape entry was announced, finished or cut
      short anywhere, any prefix of its schedule, and any interleaving of a replay of it in which no
      entry was lost. Every finished read returns an entry recorded by the thread with the reader's
      key, in tape order. If no announced input was dropped either, the i-th read returns the i-th
      entry, so what each thread key reads back is a prefix of what it recorded. */
  lemma {:induction false} InputFidelity(
    steps: seq<RecordStep>, threads: P.ThreadId -> JvmThread, c: P.Config, run: seq<P.Event>, key: string)
    requires Record(steps).Some? && Record(steps).value.orphans == 0 && P.Run(c, run).Some?
    requires c.expected <= Schedule(Record(steps).value.events, threads) && c.expected != []
    requires c.tape == Record(steps).value.tape
    requires P.Run(c, run).value.lost == 0
    ensures
      var r, s := Record(steps).value, P.Run(c, run).value;
      && |r.owners| == |r.tape|
      && ReadsOwn(c, s, r, threads)
      && (forall i, j :: 0 <= i < j < |s.delivered| ==> s.delivered[i].slot < s.delivered[j].slot)
      && (s.dropped == 0 ==>
            && (forall i :: 0 <= i < |s.delivered| ==> s.delivered[i].slot == i)
            && ReadBack(c, s.delivered, key) <= RecordedBy(r.tape, r.owners, threads, key))
  {
    var r, s := Record(steps).value, P.Run(c, run).value;
    ReadsAreOwn(steps, threads, c, run);
    P.InputsInTapeOrder(c, run);
    if s.dropped == 0 {
      assert forall i :: 0 <= i < |s.delivered| ==> s.delivered[i].slot == i;
      if |s.delivered| > 0 {
        assert s.delivered[|s.delivered| - 1].slot < |r.tape|;
      }
      ReadBackIsRecorded(c, s.delivered, r.owners, threads, key);
      RecordedByPrefix(r.tape, r.owners, threads, key, |s.delivered|);
    }
  }
}
