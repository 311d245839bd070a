/** Replaying threads, interleaved in every possible way.

    A replaying thread either emits an event (`AgentBridge.emitForTest`: scheduler `before`, write,
    scheduler `after`) or reads a recorded input (`InputTape.next`: take the tape's monitor, advance
    the tape cursor, emit an INPUT event, release the monitor). A run is any sequence of such steps,
    including refusals, time-outs and interrupts of the scheduler's wait.
 */
module ReplayProtocol {
  import opened ReplayScheduler
  import opened InputTape
  import opened Options

  type ThreadId = nat

  datatype Config = Config(expected: seq<Entry>, tape: seq<TapeEntry>, keyOf: ThreadId -> string)

  /** Where a thread is. `slot` is the tape entry its call of `next` holds, if it is in one. */
  datatype Pc =
    | Idle
    | AtGate(rawType: string, slot: Option<nat>)
    | Inside(rawType: string, slot: Option<nat>)

  datatype Admission = Admission(thread: ThreadId, category: string)

  /** A finished `next`: the entry it returned and how many entries had been lost, and how many
      announced inputs dropped, by then. */
  datatype Delivery = Delivery(thread: ThreadId, slot: nat, lostBefore: nat, droppedBefore: nat)

  /** The scheduler's and the tape's fields, then the history of the run. An entry is lost when the
      tape cursor moved past it and `next` threw before its INPUT event was admitted; it is dropped
      when the event was admitted but writing it failed, so that `next` threw afterwards. */
  datatype State = State(
    cursor: nat,
    writing: bool,
    tapeCursor: nat,
    holder: Option<ThreadId>,
    pcs: map<ThreadId, Pc>,
    admitted: seq<Admission>,
    delivered: seq<Delivery>,
    lost: nat,
    dropped: nat)

  const INITIAL := State(0, false, 0, None, map[], [], [], 0, 0)

  function PcOf(s: State, t: ThreadId): Pc {
    if t in s.pcs then s.pcs[t] else Idle
  }

  datatype Event =
    | Begin(t: ThreadId, rawType: string)   // emitForTest reaches `before`
    | Take(t: ThreadId, kind: string)       // next holds the tape monitor and an entry of its kind
    | Spoil(t: ThreadId, kind: string)      // next moves the cursor, then throws: another kind
    | RunOut(t: ThreadId, kind: string)     // next throws with the cursor unmoved: tape ended
    | Admit(t: ThreadId)                    // `before` returns
    | Refuse(t: ThreadId)                   // `before` throws: exceeded or different category
    | GiveUp(t: ThreadId)                   // `before` throws out of its wait: time-out or interrupt
    | Leave(t: ThreadId)                    // `after`, and the end of the enclosing `next`
    | FailWrite(t: ThreadId)                // the event writer throws; `after` still runs, `next` throws

  function VerdictFor(c: Config, s: State, t: ThreadId): Verdict
    requires PcOf(s, t).AtGate?
  {
    Decide(c.expected, s.cursor, s.writing, PcOf(s, t).rawType, c.keyOf(t))
  }

  /** INPUT events are emitted by the tape alone, so no thread begins one directly. */
  predicate Enabled(c: Config, s: State, e: Event) {
    match e
    case Begin(t, rawType) => PcOf(s, t).Idle? && rawType != "INPUT"
    case Take(t, kind) =>
      PcOf(s, t).Idle? && s.holder.None? && Consult(c.tape, s.tapeCursor, kind).Taken?
    case Spoil(t, kind) =>
      PcOf(s, t).Idle? && s.holder.None? && Consult(c.tape, s.tapeCursor, kind).WrongKind?
    case RunOut(t, kind) =>
      PcOf(s, t).Idle? && s.holder.None? && Consult(c.tape, s.tapeCursor, kind).Ended?
    case Admit(t) => PcOf(s, t).AtGate? && VerdictFor(c, s, t).Pass?
    case Refuse(t) => PcOf(s, t).AtGate? && (VerdictFor(c, s, t).Exceeded? || VerdictFor(c, s, t).Mismatch?)
    case GiveUp(t) => PcOf(s, t).AtGate?    // an interrupt may come when the turn has come, too
    case Leave(t) => PcOf(s, t).Inside?
    case FailWrite(t) => PcOf(s, t).Inside?
  }

  /** `after`, which runs whether or not the event was written. */
  function Closed(c: Config, s: State, t: ThreadId): State {
    if c.expected == [] then s.(pcs := s.pcs[t := Idle])
    else s.(cursor := s.cursor + 1, writing := false, pcs := s.pcs[t := Idle])
  }

  /** An exception out of `before` ends the enclosing `next` too, which drops the monitor. */
  function Abandon(s: State, t: ThreadId): State
    requires PcOf(s, t).AtGate?
  {
    if PcOf(s, t).slot.None? then s.(pcs := s.pcs[t := Idle])
    else s.(pcs := s.pcs[t := Idle], holder := None, lost := s.lost + 1)
  }

  function Apply(c: Config, s: State, e: Event): State
    requires Enabled(c, s, e)
  {
    match e
    case Begin(t, rawType) => s.(pcs := s.pcs[t := AtGate(rawType, None)])
    case Take(t, _) =>
      s.(tapeCursor := s.tapeCursor + 1, holder := Some(t), pcs := s.pcs[t := AtGate("INPUT", Some(s.tapeCursor))])
    case Spoil(_, _) => s.(tapeCursor := s.tapeCursor + 1, lost := s.lost + 1)
    case RunOut(_, _) => s
    case Admit(t) =>
      var pc := PcOf(s, t);
      s.(writing := c.expected != [] || s.writing,
         pcs := s.pcs[t := Inside(pc.rawType, pc.slot)],
         admitted := s.admitted + [Admission(t, Category(pc.rawType))])
    case Refuse(t) => Abandon(s, t)
    case GiveUp(t) => Abandon(s, t)
    case Leave(t) =>
      var slot := PcOf(s, t).slot;
      var left := Closed(c, s, t);
      if slot.None? then left
      else left.(holder := None, delivered := s.delivered + [Delivery(t, slot.value, s.lost, s.dropped)])
    case FailWrite(t) =>
      var left := Closed(c, s, t);
      if PcOf(s, t).slot.None? then left else left.(holder := None, dropped := s.dropped + 1)
  }

  /** The state after a run, or `None` if some step of it was not possible. */
  function Run(c: Config, run: seq<Event>): Option<State> {
    if run == [] then Some(INITIAL)
    else
      var before := Run(c, run[..|run| - 1]);
      var e := run[|run| - 1];
      if before.Some? && Enabled(c, before.value, e) then Some(Apply(c, before.value, e)) else None
  }

  lemma RunSnoc(c: Config, run: seq<Event>, e: Event)
    requires Run(c, run).Some? && Enabled(c, Run(c, run).value, e)
    ensures Run(c, run + [e]) == Some(Apply(c, Run(c, run).value, e))
  {
    assert (run + [e])[..|run|] == run;
  }

  /** Threads of the INPUT admissions, in order. */
  function InputThreads(admitted: seq<Admission>): seq<ThreadId> {
    if admitted == [] then []
    else
      var rest := InputThreads(admitted[..|admitted| - 1]);
      var last := admitted[|admitted| - 1];
      if last.category == "INPUT" then rest + [last.thread] else rest
  }

  /** Keys of the INPUT entries of a schedule, in order. */
  function InputKeys(expected: seq<Entry>): seq<string> {
    if expected == [] then []
    else
      var rest := InputKeys(expected[..|expected| - 1]);
      var last := expected[|expected| - 1];
      if last.category == "INPUT" then rest + [last.threadKey] else rest
  }

  function Announced(c: Config, a: Admission): Entry {
    Entry(a.category, c.keyOf(a.thread))
  }

  // ---------------------------------------------------------------- what every step keeps

  /** Mutual exclusion between `before` and `after`, and the admitted prefix of the schedule. */
  ghost predicate SchedulerInv(c: Config, s: State) {
    && s.cursor <= |c.expected|
    && (s.writing ==> s.cursor < |c.expected| && exists t: ThreadId :: PcOf(s, t).Inside?)
    && (forall t: ThreadId :: PcOf(s, t).Inside? ==> s.writing)
    && (forall t: ThreadId, u: ThreadId :: PcOf(s, t).Inside? && PcOf(s, u).Inside? ==> t == u)
    && |s.admitted| == s.cursor + (if s.writing then 1 else 0)
    && (forall i :: 0 <= i < |s.admitted| ==> Announced(c, s.admitted[i]) == c.expected[i])
    && (forall t: ThreadId :: PcOf(s, t).Inside? ==>
          s.admitted[s.cursor] == Admission(t, Category(PcOf(s, t).rawType)))
  }

  /** A thread is inside `next` exactly while it holds the tape monitor, and only then at INPUT. */
  ghost predicate HolderInv(s: State) {
    && (forall t: ThreadId :: !PcOf(s, t).Idle? ==>
          (PcOf(s, t).slot.Some? <==> s.holder == Some(t)) && (PcOf(s, t).slot.Some? <==> PcOf(s, t).rawType == "INPUT"))
    && (s.holder.Some? ==> !PcOf(s, s.holder.value).Idle?)
    && (forall t: ThreadId :: !PcOf(s, t).Idle? && PcOf(s, t).slot.Some? ==> PcOf(s, t).slot.value + 1 == s.tapeCursor)
  }

  function PendingInput(s: State): nat {
    if s.holder.Some? && PcOf(s, s.holder.value).AtGate? then 1 else 0
  }

  function OpenInput(s: State): nat {
    if s.holder.Some? && PcOf(s, s.holder.value).Inside? then 1 else 0
  }

  /** Every entry behind the tape cursor was announced, was lost, or is the one being held; every
      announced input was delivered, was dropped, or is being written. A delivery belongs to the
      announced input with its own number plus the number of inputs dropped before it. */
  ghost predicate TapeInv(s: State) {
    var inputs := InputThreads(s.admitted);
    && s.tapeCursor == |inputs| + s.lost + PendingInput(s)
    && |inputs| == |s.delivered| + s.dropped + OpenInput(s)
    && (OpenInput(s) == 1 ==> inputs[|inputs| - 1] == s.holder.value)
    && (forall i :: 0 <= i < |s.delivered| ==>
          && s.delivered[i].droppedBefore <= s.dropped
          && s.delivered[i].thread == inputs[i + s.delivered[i].droppedBefore]
          && s.delivered[i].slot == i + s.delivered[i].droppedBefore + s.delivered[i].lostBefore
          && s.delivered[i].lostBefore <= s.lost)
  }

  ghost predicate Inv(c: Config, s: State) {
    (c.expected != [] ==> SchedulerInv(c, s)) && HolderInv(s) && TapeInv(s)
  }

  lemma {:induction false} SchedulerStep(c: Config, s: State, e: Event)
    requires c.expected != [] && SchedulerInv(c, s) && Enabled(c, s, e)
    ensures SchedulerInv(c, Apply(c, s, e))
  {
    var s' := Apply(c, s, e);
    forall t: ThreadId | t != e.t
      ensures PcOf(s', t) == PcOf(s, t)
    {
    }
    if e.Admit? {
      assert PcOf(s', e.t).Inside?;
      assert s'.admitted[s.cursor] == Admission(e.t, Category(PcOf(s, e.t).rawType));
    }
    if s.writing && !e.Leave? && !e.FailWrite? {
      var t :| PcOf(s, t).Inside?;
      assert PcOf(s', t).Inside?;
    }
  }

  lemma {:induction false} HolderStep(c: Config, s: State, e: Event)
    requires HolderInv(s) && Enabled(c, s, e)
    ensures HolderInv(Apply(c, s, e))
  {
    var s' := Apply(c, s, e);
    forall t: ThreadId | t != e.t
      ensures PcOf(s', t) == PcOf(s, t)
    {
    }
  }

  lemma InputThreadsSnoc(admitted: seq<Admission>, a: Admission)
    ensures InputThreads(admitted + [a]) == InputThreads(admitted) + (if a.category == "INPUT" then [a.thread] else [])
  {
    assert (admitted + [a])[..|admitted|] == admitted;
  }

  lemma {:induction false} TapeAdmit(c: Config, s: State, e: Event)
    requires HolderInv(s) && TapeInv(s) && Enabled(c, s, e) && e.Admit?
    ensures TapeInv(Apply(c, s, e))
  {
    var s', pc := Apply(c, s, e), PcOf(s, e.t);
    InputThreadsSnoc(s.admitted, Admission(e.t, Category(pc.rawType)));
    assert Category(pc.rawType) == "INPUT" <==> pc.rawType == "INPUT";
    assert s.holder.Some? && s.holder.value != e.t ==> PcOf(s', s.holder.value) == PcOf(s, s.holder.value);
  }

  lemma {:induction false} TapeClose(c: Config, s: State, e: Event)
    requires HolderInv(s) && TapeInv(s) && Enabled(c, s, e) && (e.Leave? || e.FailWrite?)
    ensures TapeInv(Apply(c, s, e))
  {
    var s', pc := Apply(c, s, e), PcOf(s, e.t);
    assert s'.admitted == s.admitted;
    if pc.slot.Some? {
      assert s.holder == Some(e.t) && OpenInput(s) == 1 && PendingInput(s) == 0;
      assert s'.holder.None?;
    } else {
      assert s'.holder == s.holder && s.holder != Some(e.t);
      assert s.holder.Some? ==> PcOf(s', s.holder.value) == PcOf(s, s.holder.value);
    }
  }

  lemma {:induction false} TapeStep(c: Config, s: State, e: Event)
    requires HolderInv(s) && TapeInv(s) && Enabled(c, s, e)
    ensures TapeInv(Apply(c, s, e))
  {
    var s' := Apply(c, s, e);
    if e.Admit? {
      TapeAdmit(c, s, e);
    } else if e.Leave? || e.FailWrite? {
      TapeClose(c, s, e);
    } else {
      assert s'.admitted == s.admitted && s'.delivered == s.delivered && s'.dropped == s.dropped;
      assert s.holder.Some? && s.holder.value != e.t ==> PcOf(s', s.holder.value) == PcOf(s, s.holder.value);
    }
  }

  lemma {:induction false} RunInv(c: Config, run: seq<Event>)
    requires Run(c, run).Some?
    ensures Inv(c, Run(c, run).value)
  {
    if run != [] {
      var s := Run(c, run[..|run| - 1]).value;
      var e := run[|run| - 1];
      RunInv(c, run[..|run| - 1]);
      if c.expected != [] {
        SchedulerStep(c, s, e);
      }
      HolderStep(c, s, e);
      TapeStep(c, s, e);
    }
  }

  // ---------------------------------------------------------------- whole runs

  /** Schedule safety: in every run, whatever fails in it, at most one thread is between `before`
      and `after`, and what was admitted is the schedule up to the cursor, plus the entry at the
      cursor while a thread is writing. */
  lemma ScheduleSafety(c: Config, run: seq<Event>)
    requires c.expected != [] && Run(c, run).Some?
    ensures
      var s := Run(c, run).value;
      && (forall t: ThreadId, u: ThreadId :: PcOf(s, t).Inside? && PcOf(s, u).Inside? ==> t == u)
      && (s.writing <==> exists t: ThreadId :: PcOf(s, t).Inside?)
      && s.cursor + (if s.writing then 1 else 0) <= |c.expected|
      && seq(|s.admitted|, i requires 0 <= i < |s.admitted| => Announced(c, s.admitted[i]))
         == c.expected[..s.cursor + (if s.writing then 1 else 0)]
  {
    RunInv(c, run);
  }

  /** What happens to a waiting thread, exactly, in every state of every run: it can be admitted only
      at its own recorded event with nobody writing, it is refused only at its own turn for another
      category or after the end of the schedule, and otherwise it goes on waiting. */
  lemma {:induction false} WaitersWaitTheirTurn(c: Config, run: seq<Event>, t: ThreadId)
    requires c.expected != [] && Run(c, run).Some? && PcOf(Run(c, run).value, t).AtGate?
    ensures
      var s := Run(c, run).value;
      var mine := Announced(c, Admission(t, Category(PcOf(s, t).rawType)));
      if s.cursor >= |c.expected| then Enabled(c, s, Refuse(t)) && !Enabled(c, s, Admit(t))
      else if s.writing || c.expected[s.cursor].threadKey != mine.threadKey then
        !Enabled(c, s, Admit(t)) && !Enabled(c, s, Refuse(t))
      else
        && (Enabled(c, s, Admit(t)) <==> c.expected[s.cursor] == mine)
        && (Enabled(c, s, Refuse(t)) <==> c.expected[s.cursor] != mine)
  {
    RunInv(c, run);
  }

  lemma {:induction false} AnnouncedInputs(c: Config, admitted: seq<Admission>)
    requires |admitted| <= |c.expected|
    requires forall i :: 0 <= i < |admitted| ==> Announced(c, admitted[i]) == c.expected[i]
    ensures
      var threads, keys := InputThreads(admitted), InputKeys(c.expected[..|admitted|]);
      |threads| == |keys| && forall i :: 0 <= i < |threads| ==> c.keyOf(threads[i]) == keys[i]
  {
    if admitted != [] {
      var n := |admitted| - 1;
      AnnouncedInputs(c, admitted[..n]);
      assert c.expected[..|admitted|][..n] == c.expected[..n];
      assert Announced(c, admitted[n]) == c.expected[n];
    }
  }

  lemma {:induction false} InputKeysPrefix(expected: seq<Entry>, n: nat)
    requires n <= |expected|
    ensures InputKeys(expected[..n]) <= InputKeys(expected)
  {
    if n < |expected| {
      var m := |expected| - 1;
      InputKeysPrefix(expected[..m], n);
      assert expected[..m][..n] == expected[..n];
    } else {
      assert expected[..n] == expected;
    }
  }

  /** Input alignment, exactly: the i-th finished input read is the one of the schedule's INPUT
      number n, which is i plus the number of announced inputs dropped before it; it belongs to the
      thread the schedule names there, and returns entry n plus the number of entries lost before it.
      So it is the recorded entry precisely when nothing has been lost. */
  lemma {:induction false} InputAlignment(c: Config, run: seq<Event>, i: nat)
    requires c.expected != [] && Run(c, run).Some?
    requires i < |Run(c, run).value.delivered|
    ensures
      var s := Run(c, run).value;
      var n := i + s.delivered[i].droppedBefore;
      && n < |InputKeys(c.expected)|
      && c.keyOf(s.delivered[i].thread) == InputKeys(c.expected)[n]
      && s.delivered[i].slot == n + s.delivered[i].lostBefore
      && s.delivered[i].lostBefore <= s.lost && s.delivered[i].droppedBefore <= s.dropped
      && s.delivered[i].slot < s.tapeCursor
  {
    RunInv(c, run);
    var s := Run(c, run).value;
    AnnouncedInputs(c, s.admitted);
    InputKeysPrefix(c.expected, |s.admitted|);
  }

  /** Entries are returned in tape order, and none twice. */
  ghost predicate OrderInv(s: State) {
    && (forall i, j :: 0 <= i < j < |s.delivered| ==> s.delivered[i].slot < s.delivered[j].slot)
    && (forall i :: 0 <= i < |s.delivered| ==>
          s.delivered[i].slot + (if s.holder.Some? then 1 else 0) < s.tapeCursor)
  }

  lemma {:induction false} OrderStep(c: Config, s: State, e: Event)
    requires HolderInv(s) && OrderInv(s) && Enabled(c, s, e)
    ensures OrderInv(Apply(c, s, e))
  {
    assert e.Leave? && PcOf(s, e.t).slot.Some? ==> s.holder == Some(e.t) && PcOf(s, e.t).slot.value + 1 == s.tapeCursor;
  }

  /** In every run, whatever fails in it, inputs are read back in the order of the tape. */
  lemma {:induction false} InputsInTapeOrder(c: Config, run: seq<Event>)
    requires Run(c, run).Some?
    ensures OrderInv(Run(c, run).value)
  {
    if run != [] {
      var front := run[..|run| - 1];
      InputsInTapeOrder(c, front);
      RunInv(c, front);
      OrderStep(c, Run(c, front).value, run[|run| - 1]);
    }
  }

  function WitnessKey(t: ThreadId): string {
    if t == 0 then "platform:a" else "platform:b"
  }

  const WITNESS := Config(
                     [Entry("INPUT", "platform:a"), Entry("INPUT", "platform:b")],
                     [TapeEntry("time", "eA=="), TapeEntry("time", "eQ==")],
                     WitnessKey)

  lemma WitnessRun() returns (run: seq<Event>)
    ensures Run(WITNESS, run).Some? && Run(WITNESS, run).value.delivered == [Delivery(0, 1, 1, 0)]
  {
    var c := WITNESS;
    run := [];
    RunSnoc(c, run, Take(1, "time"));
    run := run + [Take(1, "time")];
    var s := Run(c, run).value;
    assert s.pcs == map[1 := AtGate("INPUT", Some(0))];
    assert c.keyOf(1)[9] != c.expected[0].threadKey[9];
    RunSnoc(c, run, GiveUp(1));
    run := run + [GiveUp(1)];
    RunSnoc(c, run, Take(0, "time"));
    run := run + [Take(0, "time")];
    RunSnoc(c, run, Admit(0));
    run := run + [Admit(0)];
    RunSnoc(c, run, Leave(0));
    run := run + [Leave(0)];
  }

  /** A lost entry does shift the later ones: two threads recorded one input each; the second
      thread takes the tape first, times out waiting for its turn, and the first thread is then
      handed the second thread's value. */
  lemma LossShiftsInputs()
    ensures exists run ::
              && Run(WITNESS, run).Some?
              && Run(WITNESS, run).value.delivered == [Delivery(0, 1, 1, 0)]
    ensures WITNESS.keyOf(0) != WITNESS.keyOf(1)
    ensures InputKeys(WITNESS.expected) == [WITNESS.keyOf(0), WITNESS.keyOf(1)]
  {
    var run := WitnessRun();
    assert "platform:a"[9] != "platform:b"[9];
    assert WITNESS.expected[..1] == [Entry("INPUT", "platform:a")];
    assert InputKeys(WITNESS.expected[..1]) == ["platform:a"];
  }

  lemma Reached(c: Config, run: seq<Event>, s: State, e: Event)
    requires Run(c, run) == Some(s) && Enabled(c, s, e)
    ensures Run(c, run + [e]) == Some(Apply(c, s, e))
  {
    RunSnoc(c, run, e);
  }

  /** Thread 0 takes the first entry and announces it, but its event cannot be written. */
  lemma DroppedFirst() returns (run: seq<Event>)
    ensures Run(WITNESS, run) == Some(State(1, false, 1, None, map[0 := Idle], [Admission(0, "INPUT")], [], 0, 1))
  {
    var c := WITNESS;
    Reached(c, [], INITIAL, Take(0, "time"));
    var s1 := State(0, false, 1, Some(0), map[0 := AtGate("INPUT", Some(0))], [], [], 0, 0);
    run := [] + [Take(0, "time")];
    assert Apply(c, INITIAL, Take(0, "time")) == s1;
    Reached(c, run, s1, Admit(0));
    run := run + [Admit(0)];
    var s2 := State(0, true, 1, Some(0), map[0 := Inside("INPUT", Some(0))], [Admission(0, "INPUT")], [], 0, 0);
    assert Apply(c, s1, Admit(0)) == s2;
    Reached(c, run, s2, FailWrite(0));
    run := run + [FailWrite(0)];
    assert s2.pcs[0 := Idle] == map[0 := Idle];
  }

  lemma DroppedRun() returns (run: seq<Event>)
    ensures Run(WITNESS, run).Some? && Run(WITNESS, run).value.delivered == [Delivery(1, 1, 0, 1)]
  {
    var c, first := WITNESS, [Admission(0, "INPUT")];
    run := DroppedFirst();
    var s0 := State(1, false, 1, None, map[0 := Idle], first, [], 0, 1);
    Reached(c, run, s0, Take(1, "time"));
    run := run + [Take(1, "time")];
    var s1 := State(1, false, 2, Some(1), map[0 := Idle, 1 := AtGate("INPUT", Some(1))], first, [], 0, 1);
    assert Apply(c, s0, Take(1, "time")) == s1;
    Reached(c, run, s1, Admit(1));
    run := run + [Admit(1)];
    var s2 := Apply(c, s1, Admit(1));
    assert PcOf(s2, 1) == Inside("INPUT", Some(1)) && s2.delivered == [] && s2.lost == 0 && s2.dropped == 1;
    Reached(c, run, s2, Leave(1));
    run := run + [Leave(1)];
  }

  /** A dropped input shifts which read is finished first, not which entry a read returns: the first
      thread's event cannot be written, so its read throws, and the first read that finishes is the
      second thread's, with the second thread's own entry. */
  lemma DropShiftsReads()
    ensures exists run ::
              && Run(WITNESS, run).Some?
              && Run(WITNESS, run).value.delivered == [Delivery(1, 1, 0, 1)]
  {
    var run := DroppedRun();
  }
}
