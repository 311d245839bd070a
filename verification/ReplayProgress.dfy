/** When the scheduler and the tape monitor together cannot deadlock.

    The threads of a faithful replay each run their own part of the recorded plan, in order, but
    start their operations whenever they like. A thread may then take the tape monitor for an input
    whose turn is far away, while the thread whose turn it is needs the monitor. This module proves
    the exact condition on the plan under which that never happens. */
module ReplayProgress {
  import opened ReplayScheduler
  import opened InputTape
  import opened ReplayProtocol
  import opened Options

  /** One recorded operation; `kind` is the input kind and matters for INPUT only. */
  datatype Op = Op(thread: ThreadId, category: string, kind: string)

  predicate IsInput(op: Op) {
    op.category == "INPUT"
  }

  function InputKinds(plan: seq<Op>): seq<string> {
    if plan == [] then []
    else
      var rest := InputKinds(plan[..|plan| - 1]);
      if IsInput(plan[|plan| - 1]) then rest + [plan[|plan| - 1].kind] else rest
  }

  /** The program of one thread: its operations, in plan order. */
  function Program(plan: seq<Op>, t: ThreadId): seq<Op> {
    if plan == [] then []
    else
      var rest := Program(plan[..|plan| - 1], t);
      if plan[|plan| - 1].thread == t then rest + [plan[|plan| - 1]] else rest
  }

  function Count(admitted: seq<Admission>, t: ThreadId): nat {
    if admitted == [] then 0
    else Count(admitted[..|admitted| - 1], t) + (if admitted[|admitted| - 1].thread == t then 1 else 0)
  }

  /** The configuration replays the plan: its schedule and tape are the plan's, thread keys are
      unique, and categories are the ones the agent can announce. */
  ghost predicate Fits(c: Config, plan: seq<Op>) {
    && plan != []
    && |plan| == |c.expected|
    && (forall i :: 0 <= i < |plan| ==> c.expected[i] == Entry(plan[i].category, c.keyOf(plan[i].thread)))
    && (forall i :: 0 <= i < |plan| ==> Category(plan[i].category) == plan[i].category)
    && (forall t: ThreadId, u: ThreadId :: c.keyOf(t) == c.keyOf(u) ==> t == u)
    && |c.tape| == |InputKinds(plan)|
    && (forall i :: 0 <= i < |c.tape| ==> c.tape[i].kind == InputKinds(plan)[i])
  }

  /** The next operation of a thread that has been admitted as often as `s` says. */
  predicate HasNext(plan: seq<Op>, s: State, t: ThreadId) {
    Count(s.admitted, t) < |Program(plan, t)|
  }

  function NextOp(plan: seq<Op>, s: State, t: ThreadId): Op
    requires HasNext(plan, s, t)
  {
    Program(plan, t)[Count(s.admitted, t)]
  }

  /** The step is the thread's own next operation, or the continuation of one. */
  predicate OwnStep(plan: seq<Op>, s: State, e: Event) {
    match e
    case Begin(t, rawType) => HasNext(plan, s, t) && NextOp(plan, s, t).category == Category(rawType)
    case Take(t, kind) => HasNext(plan, s, t) && IsInput(NextOp(plan, s, t)) && NextOp(plan, s, t).kind == kind
    case Spoil(t, kind) => HasNext(plan, s, t) && IsInput(NextOp(plan, s, t)) && NextOp(plan, s, t).kind == kind
    case RunOut(t, kind) => HasNext(plan, s, t) && IsInput(NextOp(plan, s, t)) && NextOp(plan, s, t).kind == kind
    case _ => true
  }

  predicate Failure(e: Event) {
    e.Spoil? || e.RunOut? || e.Refuse? || e.GiveUp? || e.FailWrite?
  }

  predicate Good(c: Config, plan: seq<Op>, s: State, e: Event) {
    Enabled(c, s, e) && OwnStep(plan, s, e) && !Failure(e)
  }

  /** Runs of faithful threads in which nothing has failed so far. */
  predicate Faithful(c: Config, plan: seq<Op>, run: seq<Event>)
    ensures Faithful(c, plan, run) ==> Run(c, run).Some?
  {
    run == [] ||
    (Faithful(c, plan, run[..|run| - 1]) && Good(c, plan, Run(c, run[..|run| - 1]).value, run[|run| - 1]))
  }

  /** No other thread's INPUT lies between an INPUT and its own thread's preceding operation. */
  ghost predicate Window(plan: seq<Op>) {
    forall k, j ::
      0 <= k < j < |plan| && IsInput(plan[k]) && IsInput(plan[j]) && plan[k].thread != plan[j].thread
      ==> exists i :: k < i < j && plan[i].thread == plan[j].thread
  }

  // ---------------------------------------------------------------- plans and positions

  /** The first position at or after n that belongs to t. */
  function First(plan: seq<Op>, n: nat, t: ThreadId): (p: nat)
    requires n <= |plan|
    ensures n <= p <= |plan|
    ensures p < |plan| ==> plan[p].thread == t
    ensures forall i :: n <= i < p ==> plan[i].thread != t
    decreases |plan| - n
  {
    if n == |plan| then n else if plan[n].thread == t then n else First(plan, n + 1, t)
  }

  lemma {:induction false} ProgramPrefix(plan: seq<Op>, n: nat, t: ThreadId)
    requires n <= |plan|
    ensures Program(plan[..n], t) <= Program(plan, t)
  {
    if n < |plan| {
      ProgramPrefix(plan[..|plan| - 1], n, t);
      assert plan[..|plan| - 1][..n] == plan[..n];
    } else {
      assert plan[..n] == plan;
    }
  }

  lemma {:induction false} ProgramAt(plan: seq<Op>, n: nat, t: ThreadId)
    requires n <= |plan|
    ensures
      var done, p := |Program(plan[..n], t)|, First(plan, n, t);
      && (done < |Program(plan, t)| <==> p < |plan|)
      && (p < |plan| ==> Program(plan, t)[done] == plan[p])
    decreases |plan| - n
  {
    if n == |plan| {
      assert plan[..n] == plan;
    } else {
      assert plan[..n + 1][..n] == plan[..n];
      ProgramPrefix(plan, n + 1, t);
      if plan[n].thread != t {
        ProgramAt(plan, n + 1, t);
      }
    }
  }

  lemma {:induction false} InputKindsPrefix(plan: seq<Op>, n: nat)
    requires n <= |plan|
    ensures InputKinds(plan[..n]) <= InputKinds(plan)
  {
    if n < |plan| {
      InputKindsPrefix(plan[..|plan| - 1], n);
      assert plan[..|plan| - 1][..n] == plan[..n];
    } else {
      assert plan[..n] == plan;
    }
  }

  /** The tape entry behind a prefix without further inputs is the next input's. */
  lemma {:induction false} NextInputKind(plan: seq<Op>, n: nat, j: nat)
    requires n <= j < |plan| && IsInput(plan[j])
    requires forall i :: n <= i < j ==> !IsInput(plan[i])
    ensures |InputKinds(plan[..n])| < |InputKinds(plan)|
    ensures InputKinds(plan)[|InputKinds(plan[..n])|] == plan[j].kind
    decreases j - n
  {
    assert plan[..n + 1][..n] == plan[..n];
    if n == j {
      InputKindsPrefix(plan, n + 1);
    } else {
      NextInputKind(plan, n + 1, j);
    }
  }

  ghost predicate FollowsPlan(plan: seq<Op>, admitted: seq<Admission>) {
    && |admitted| <= |plan|
    && forall i :: 0 <= i < |admitted| ==> admitted[i] == Admission(plan[i].thread, plan[i].category)
  }

  lemma {:induction false} CountsOfPlan(plan: seq<Op>, admitted: seq<Admission>, t: ThreadId)
    requires FollowsPlan(plan, admitted)
    ensures Count(admitted, t) == |Program(plan[..|admitted|], t)|
    ensures |InputThreads(admitted)| == |InputKinds(plan[..|admitted|])|
  {
    if admitted != [] {
      var n := |admitted| - 1;
      CountsOfPlan(plan, admitted[..n], t);
      assert plan[..|admitted|][..n] == plan[..n];
      assert admitted[n] == Admission(plan[n].thread, plan[n].category);
    }
  }

  // ---------------------------------------------------------------- what faithful runs keep

  /** A waiting thread waits for its first operation not yet admitted. */
  ghost predicate PlanInv(c: Config, plan: seq<Op>, s: State) {
    && Inv(c, s)
    && s.lost == 0 && s.dropped == 0
    && FollowsPlan(plan, s.admitted)
    && forall t: ThreadId :: PcOf(s, t).AtGate? ==> WaitsFor(plan, |s.admitted|, t, PcOf(s, t).rawType)
  }

  predicate WaitsFor(plan: seq<Op>, n: nat, t: ThreadId, rawType: string)
    requires n <= |plan|
  {
    First(plan, n, t) < |plan| && plan[First(plan, n, t)].category == Category(rawType)
  }

  lemma {:induction false} NextIsFirst(plan: seq<Op>, s: State, t: ThreadId)
    requires FollowsPlan(plan, s.admitted)
    ensures
      var p := First(plan, |s.admitted|, t);
      && (HasNext(plan, s, t) <==> p < |plan|)
      && (p < |plan| ==> NextOp(plan, s, t) == plan[p])
  {
    CountsOfPlan(plan, s.admitted, t);
    ProgramAt(plan, |s.admitted|, t);
  }

  /** A thread that waits after a step waits for its first operation not yet admitted. */
  lemma {:induction false} WaiterStep(c: Config, plan: seq<Op>, s: State, e: Event, t: ThreadId)
    requires Fits(c, plan) && PlanInv(c, plan, s) && Good(c, plan, s, e)
    requires FollowsPlan(plan, Apply(c, s, e).admitted) && PcOf(Apply(c, s, e), t).AtGate?
    ensures WaitsFor(plan, |Apply(c, s, e).admitted|, t, PcOf(Apply(c, s, e), t).rawType)
  {
    var s' := Apply(c, s, e);
    if t == e.t {
      NextIsFirst(plan, s, t);
    } else {
      assert PcOf(s', t) == PcOf(s, t);
      assert WaitsFor(plan, |s.admitted|, t, PcOf(s, t).rawType);
      if e.Admit? {
        var n := |s.admitted|;
        assert s'.admitted[n].thread == e.t && s'.admitted[n].thread == plan[n].thread;
        assert First(plan, n, t) == First(plan, n + 1, t);
      }
    }
  }

  lemma {:induction false} PlanStep(c: Config, plan: seq<Op>, s: State, e: Event)
    requires Fits(c, plan) && PlanInv(c, plan, s) && Good(c, plan, s, e) && Inv(c, Apply(c, s, e))
    ensures PlanInv(c, plan, Apply(c, s, e))
  {
    var s' := Apply(c, s, e);
    if e.Admit? {
      AdmittedFollowsPlan(c, plan, s, s');
    }
    forall t: ThreadId | PcOf(s', t).AtGate?
      ensures WaitsFor(plan, |s'.admitted|, t, PcOf(s', t).rawType)
    {
      WaiterStep(c, plan, s, e, t);
    }
  }

  lemma {:induction false} AdmittedFollowsPlan(c: Config, plan: seq<Op>, s: State, s': State)
    requires Fits(c, plan) && FollowsPlan(plan, s.admitted) && SchedulerInv(c, s')
    requires |s'.admitted| == |s.admitted| + 1 && s'.admitted[..|s.admitted|] == s.admitted
    ensures FollowsPlan(plan, s'.admitted)
  {
    var n := |s.admitted|;
    assert Announced(c, s'.admitted[n]) == c.expected[n];
    forall i | 0 <= i < n
      ensures s'.admitted[i] == Admission(plan[i].thread, plan[i].category)
    {
      assert s'.admitted[i] == s'.admitted[..n][i];
    }
  }

  lemma {:induction false} FaithfulInv(c: Config, plan: seq<Op>, run: seq<Event>)
    requires Fits(c, plan) && Faithful(c, plan, run)
    ensures PlanInv(c, plan, Run(c, run).value)
  {
    RunInv(c, run);
    if run != [] {
      FaithfulInv(c, plan, run[..|run| - 1]);
      PlanStep(c, plan, Run(c, run[..|run| - 1]).value, run[|run| - 1]);
    }
  }

  /** Nobody is turned away: in every state of every faithful run no waiting thread can be refused, one
      whose turn it is not can only wait, and the one named at the cursor passes as soon as nobody is
      writing. */
  lemma {:induction false} NobodyIsRefused(c: Config, plan: seq<Op>, run: seq<Event>, t: ThreadId)
    requires Fits(c, plan) && Faithful(c, plan, run) && PcOf(Run(c, run).value, t).AtGate?
    ensures
      var s := Run(c, run).value;
      && !Enabled(c, s, Refuse(t))
      && s.cursor < |plan|
      && (Enabled(c, s, Admit(t)) <==> plan[s.cursor].thread == t && !s.writing)
  {
    FaithfulInv(c, plan, run);
    WaitersWaitTheirTurn(c, run, t);
    var s := Run(c, run).value;
    assert WaitsFor(plan, |s.admitted|, t, PcOf(s, t).rawType);
    assert c.expected[s.cursor] == Entry(plan[s.cursor].category, c.keyOf(plan[s.cursor].thread));
  }

  // ---------------------------------------------------------------- the window suffices

  /** The thread named at the cursor can take a step that is not a failure. */
  ghost predicate CanStep(c: Config, plan: seq<Op>, s: State) {
    s.cursor < |plan| && exists e: Event :: e.t == plan[s.cursor].thread && Good(c, plan, s, e)
  }

  /** Some faithful thread would now be handed an entry of another kind, or find the tape ended. */
  ghost predicate Misreads(c: Config, plan: seq<Op>, s: State) {
    exists e: Event :: (e.Spoil? || e.RunOut?) && Enabled(c, s, e) && OwnStep(plan, s, e)
  }

  /** Under the window, the input a thread is about to read is the next one of the whole plan. */
  lemma NextInputIsFirst(plan: seq<Op>, n: nat, t: ThreadId)
    requires Window(plan) && n <= |plan|
    requires First(plan, n, t) < |plan| && IsInput(plan[First(plan, n, t)])
    ensures forall k :: n <= k < First(plan, n, t) ==> !IsInput(plan[k])
  {
    var j := First(plan, n, t);
    assert forall k, i :: n <= k < i < j ==> plan[k].thread != plan[j].thread && plan[i].thread != plan[j].thread;
  }

  lemma {:induction false} TapeAligned(c: Config, plan: seq<Op>, s: State, t: ThreadId)
    requires Fits(c, plan) && Window(plan) && PlanInv(c, plan, s)
    requires s.holder.None? && HasNext(plan, s, t) && IsInput(NextOp(plan, s, t))
    ensures Consult(c.tape, s.tapeCursor, NextOp(plan, s, t).kind).Taken?
  {
    var n := |s.admitted|;
    NextIsFirst(plan, s, t);
    CountsOfPlan(plan, s.admitted, t);
    NextInputIsFirst(plan, n, t);
    NextInputKind(plan, n, First(plan, n, t));
  }

  lemma {:induction false} WindowGivesStep(c: Config, plan: seq<Op>, s: State)
    requires Fits(c, plan) && Window(plan) && PlanInv(c, plan, s)
    requires s.cursor < |plan|
    ensures CanStep(c, plan, s)
  {
    StuckIsDeadlock(c, plan, s);
    forall b: ThreadId | b != plan[s.cursor].thread && PcOf(s, b).AtGate? && PcOf(s, b).rawType == "INPUT" && !s.writing
      ensures !IsInput(plan[s.cursor])
    {
      assert WaitsFor(plan, s.cursor, b, "INPUT");
      NextInputIsFirst(plan, s.cursor, b);
    }
  }

  lemma WindowPreventsMisreads(c: Config, plan: seq<Op>, s: State)
    requires Fits(c, plan) && Window(plan) && PlanInv(c, plan, s)
    ensures !Misreads(c, plan, s)
  {
    forall e: Event | (e.Spoil? || e.RunOut?) && Enabled(c, s, e) && OwnStep(plan, s, e)
      ensures false
    {
      TapeAligned(c, plan, s, e.t);
    }
  }

  // ---------------------------------------------------------------- the window is necessary

  /** The state in which the first n operations have run and every thread is idle. */
  ghost predicate Quiet(s: State, n: nat) {
    s.cursor == n && !s.writing && s.holder.None? && forall t: ThreadId :: PcOf(s, t).Idle?
  }

  lemma FaithfulSnoc(c: Config, plan: seq<Op>, run: seq<Event>, e: Event)
    requires Faithful(c, plan, run) && Good(c, plan, Run(c, run).value, e)
    ensures Faithful(c, plan, run + [e])
    ensures Run(c, run + [e]) == Some(Apply(c, Run(c, run).value, e))
  {
    assert (run + [e])[..|run|] == run;
  }

  function StartOf(op: Op): Event {
    if IsInput(op) then Take(op.thread, op.kind) else Begin(op.thread, op.category)
  }

  /** One operation, run to its end while every other thread is idle. */
  lemma {:induction false} SequentialOp(c: Config, plan: seq<Op>, before: seq<Event>, n: nat) returns (run: seq<Event>)
    requires Fits(c, plan) && Faithful(c, plan, before) && n < |plan|
    requires Quiet(Run(c, before).value, n)
    ensures Faithful(c, plan, run) && Quiet(Run(c, run).value, n + 1)
  {
    run := before;
    var s, t := Run(c, run).value, plan[n].thread;
    FaithfulInv(c, plan, run);
    IdleStarts(c, plan, s);
    FaithfulSnoc(c, plan, run, StartOf(plan[n]));
    run := run + [StartOf(plan[n])];
    OneThreadFinishes(c, plan, s, n);
    FaithfulSnoc(c, plan, run, Admit(t));
    run := run + [Admit(t)];
    FaithfulSnoc(c, plan, run, Leave(t));
    run := run + [Leave(t)];
  }

  lemma {:induction false} OneThreadFinishes(c: Config, plan: seq<Op>, s: State, n: nat)
    requires Fits(c, plan) && n < |plan| && Quiet(s, n) && Enabled(c, s, StartOf(plan[n]))
    ensures
      var t := plan[n].thread;
      var started := Apply(c, s, StartOf(plan[n]));
      && Good(c, plan, started, Admit(t))
      && Good(c, plan, Apply(c, started, Admit(t)), Leave(t))
      && Quiet(Apply(c, Apply(c, started, Admit(t)), Leave(t)), n + 1)
  {
    var t := plan[n].thread;
    var started := Apply(c, s, StartOf(plan[n]));
    assert c.expected[n] == Entry(plan[n].category, c.keyOf(t));
    assert PcOf(started, t).rawType == plan[n].category;
    var last := Apply(c, Apply(c, started, Admit(t)), Leave(t));
    forall u: ThreadId
      ensures PcOf(last, u).Idle?
    {
      assert PcOf(s, u).Idle?;
    }
  }

  lemma {:induction false} SequentialRun(c: Config, plan: seq<Op>, n: nat) returns (run: seq<Event>)
    requires Fits(c, plan) && n <= |plan|
    ensures Faithful(c, plan, run) && Quiet(Run(c, run).value, n)
  {
    if n == 0 {
      run := [];
    } else {
      run := SequentialRun(c, plan, n - 1);
      run := SequentialOp(c, plan, run, n - 1);
    }
  }

  /** Where the window is broken at k and j: run the plan up to k, then let the thread of j take the
      tape. Either it is handed the wrong kind of entry, or the thread of k can no longer move. */
  lemma {:induction false} BrokenWindowHurts(c: Config, plan: seq<Op>, k: nat, j: nat) returns (run: seq<Event>)
    requires Fits(c, plan) && k < j < |plan|
    requires IsInput(plan[k]) && IsInput(plan[j]) && plan[k].thread != plan[j].thread
    requires forall i :: k < i < j ==> plan[i].thread != plan[j].thread
    ensures Faithful(c, plan, run) && Run(c, run).value.cursor == k
    ensures Misreads(c, plan, Run(c, run).value) || !CanStep(c, plan, Run(c, run).value)
  {
    run := SequentialRun(c, plan, k);
    FaithfulInv(c, plan, run);
    var s := Run(c, run).value;
    if plan[j].kind != plan[k].kind {
      OvertakerMisreads(c, plan, s, k, j);
    } else {
      OvertakerBlocks(c, plan, s, k, j);
      var take := Take(plan[j].thread, plan[j].kind);
      FaithfulSnoc(c, plan, run, take);
      run := run + [take];
    }
  }

  lemma {:induction false} OvertakerMisreads(c: Config, plan: seq<Op>, s: State, k: nat, j: nat)
    requires Fits(c, plan) && PlanInv(c, plan, s) && k < j < |plan| && Quiet(s, k)
    requires IsInput(plan[k]) && IsInput(plan[j]) && plan[k].thread != plan[j].thread && plan[k].kind != plan[j].kind
    requires forall i :: k < i < j ==> plan[i].thread != plan[j].thread
    ensures Misreads(c, plan, s)
  {
    OvertakerReadsFirst(c, plan, s, k, j);
    var e := Spoil(plan[j].thread, plan[j].kind);
    assert Enabled(c, s, e) && OwnStep(plan, s, e);
  }

  lemma {:induction false} OvertakerBlocks(c: Config, plan: seq<Op>, s: State, k: nat, j: nat)
    requires Fits(c, plan) && PlanInv(c, plan, s) && k < j < |plan| && Quiet(s, k)
    requires IsInput(plan[k]) && IsInput(plan[j]) && plan[k].thread != plan[j].thread && plan[k].kind == plan[j].kind
    requires forall i :: k < i < j ==> plan[i].thread != plan[j].thread
    ensures
      var take := Take(plan[j].thread, plan[j].kind);
      Good(c, plan, s, take) && Apply(c, s, take).cursor == k && !CanStep(c, plan, Apply(c, s, take))
  {
    OvertakerReadsFirst(c, plan, s, k, j);
    var take := Take(plan[j].thread, plan[j].kind);
    assert Good(c, plan, s, take);
    var s' := Apply(c, s, take);
    assert PcOf(s', plan[k].thread) == PcOf(s, plan[k].thread);
    WaitingForTape(c, plan, s', plan[k].thread);
  }

  /** With k operations done, the thread of j has input j next, but the tape stands at the entry of k. */
  lemma {:induction false} OvertakerReadsFirst(c: Config, plan: seq<Op>, s: State, k: nat, j: nat)
    requires Fits(c, plan) && PlanInv(c, plan, s) && k < j < |plan| && Quiet(s, k)
    requires IsInput(plan[k]) && plan[k].thread != plan[j].thread
    requires forall i :: k < i < j ==> plan[i].thread != plan[j].thread
    ensures HasNext(plan, s, plan[j].thread) && NextOp(plan, s, plan[j].thread) == plan[j]
    ensures s.tapeCursor < |c.tape| && c.tape[s.tapeCursor].kind == plan[k].kind
  {
    var b := plan[j].thread;
    assert First(plan, k, b) == j;
    NextIsFirst(plan, s, b);
    CountsOfPlan(plan, s.admitted, b);
    NextInputKind(plan, k, k);
  }

  /** An idle thread whose next operation is an input cannot move while another holds the tape. */
  lemma {:induction false} WaitingForTape(c: Config, plan: seq<Op>, s: State, a: ThreadId)
    requires FollowsPlan(plan, s.admitted) && |s.admitted| == s.cursor < |plan|
    requires plan[s.cursor].thread == a && IsInput(plan[s.cursor])
    requires PcOf(s, a).Idle? && s.holder.Some?
    ensures !CanStep(c, plan, s)
  {
    NextIsFirst(plan, s, a);
    assert forall rawType :: Category(rawType) == "INPUT" ==> rawType == "INPUT" by {
      assert "CALL" != "INPUT";
    }
  }

  // ---------------------------------------------------------------- theorems

  /** Replay progress, exactly: for every plan, every state of every faithful run lets the thread
      named at the cursor step, and never hands a thread an entry of another kind, if and only if
      the plan has the window property. */
  lemma {:induction false} ProgressIffWindow(c: Config, plan: seq<Op>)
    requires Fits(c, plan)
    ensures Window(plan) <==>
            forall run :: Faithful(c, plan, run) && Run(c, run).value.cursor < |plan|
                          ==> CanStep(c, plan, Run(c, run).value) && !Misreads(c, plan, Run(c, run).value)
  {
    if Window(plan) {
      forall run | Faithful(c, plan, run) && Run(c, run).value.cursor < |plan|
        ensures CanStep(c, plan, Run(c, run).value) && !Misreads(c, plan, Run(c, run).value)
      {
        FaithfulInv(c, plan, run);
        WindowGivesStep(c, plan, Run(c, run).value);
        WindowPreventsMisreads(c, plan, Run(c, run).value);
      }
    } else {
      var k: nat, j: nat :|
        k < j < |plan| && IsInput(plan[k]) && IsInput(plan[j]) && plan[k].thread != plan[j].thread
        && forall i :: k < i < j ==> plan[i].thread != plan[j].thread;
      var run := BrokenWindowHurts(c, plan, k, j);
    }
  }

  /** The thread at the cursor, which cannot step, wants the tape, and another thread holds it while
      waiting for a later turn. */
  ghost predicate Deadlock(plan: seq<Op>, s: State) {
    && s.cursor < |plan| && !s.writing
    && IsInput(plan[s.cursor]) && PcOf(s, plan[s.cursor].thread).Idle?
    && s.holder.Some? && s.holder.value != plan[s.cursor].thread && PcOf(s, s.holder.value).AtGate?
  }

  lemma {:induction false} WriterLeaves(c: Config, plan: seq<Op>, s: State)
    requires Fits(c, plan) && PlanInv(c, plan, s) && s.cursor < |plan| && s.writing
    ensures Good(c, plan, s, Leave(plan[s.cursor].thread))
  {
    var t: ThreadId :| PcOf(s, t).Inside?;
    assert Announced(c, s.admitted[s.cursor]) == c.expected[s.cursor];
  }

  lemma {:induction false} IdleReads(c: Config, plan: seq<Op>, s: State)
    requires Fits(c, plan) && PlanInv(c, plan, s) && s.cursor < |plan| && !s.writing
    requires IsInput(plan[s.cursor]) && s.holder.None?
    ensures Consult(c.tape, s.tapeCursor, plan[s.cursor].kind).Taken?
  {
    CountsOfPlan(plan, s.admitted, plan[s.cursor].thread);
    NextInputKind(plan, s.cursor, s.cursor);
  }

  lemma {:induction false} IdleStarts(c: Config, plan: seq<Op>, s: State)
    requires Fits(c, plan) && PlanInv(c, plan, s) && s.cursor < |plan| && !s.writing
    requires PcOf(s, plan[s.cursor].thread).Idle? && (IsInput(plan[s.cursor]) ==> s.holder.None?)
    ensures Good(c, plan, s, StartOf(plan[s.cursor]))
  {
    NextIsFirst(plan, s, plan[s.cursor].thread);
    if IsInput(plan[s.cursor]) {
      IdleReads(c, plan, s);
    }
  }

  /** Deadlock is the only way to be stuck. */
  lemma {:induction false} StuckIsDeadlock(c: Config, plan: seq<Op>, s: State)
    requires Fits(c, plan) && PlanInv(c, plan, s) && s.cursor < |plan|
    ensures CanStep(c, plan, s) || Deadlock(plan, s)
  {
    var a := plan[s.cursor].thread;
    if s.writing {
      WriterLeaves(c, plan, s);
    } else if PcOf(s, a).AtGate? {
      assert WaitsFor(plan, s.cursor, a, PcOf(s, a).rawType);
      assert Good(c, plan, s, Admit(a));
    } else if !IsInput(plan[s.cursor]) || s.holder.None? {
      IdleStarts(c, plan, s);
    }
  }

  lemma {:induction false} DeadlockStep(c: Config, plan: seq<Op>, s: State, e: Event)
    requires Fits(c, plan) && PlanInv(c, plan, s) && Deadlock(plan, s) && Good(c, plan, s, e)
    ensures Apply(c, s, e).cursor == s.cursor && Deadlock(plan, Apply(c, s, e))
  {
    var a := plan[s.cursor].thread;
    WaitingForTape(c, plan, s, a);
    assert c.expected[s.cursor].threadKey == c.keyOf(a);
    var s' := Apply(c, s, e);
    assert PcOf(s', a) == PcOf(s, a);
  }

  lemma {:induction false} DeadlockLasts(c: Config, plan: seq<Op>, whole: seq<Event>, n: nat)
    requires Fits(c, plan) && Faithful(c, plan, whole) && n <= |whole|
    requires Faithful(c, plan, whole[..n]) && Deadlock(plan, Run(c, whole[..n]).value)
    ensures Deadlock(plan, Run(c, whole).value)
    ensures Run(c, whole).value.cursor == Run(c, whole[..n]).value.cursor
  {
    if n == |whole| {
      assert whole[..n] == whole;
    } else {
      var front := whole[..|whole| - 1];
      assert front[..n] == whole[..n];
      DeadlockLasts(c, plan, front, n);
      FaithfulInv(c, plan, front);
      DeadlockStep(c, plan, Run(c, front).value, whole[|whole| - 1]);
    }
  }

  /** A deadlock lasts: however the faithful threads go on, the cursor stays where it is and its
      thread cannot step. Only the time-out of `before` ends it. */
  lemma {:induction false} DeadlockForever(c: Config, plan: seq<Op>, run: seq<Event>, more: seq<Event>)
    requires Fits(c, plan) && Faithful(c, plan, run) && Faithful(c, plan, run + more)
    requires Deadlock(plan, Run(c, run).value)
    ensures
      var s := Run(c, run + more).value;
      s.cursor == Run(c, run).value.cursor && Deadlock(plan, s) && !CanStep(c, plan, s)
  {
    assert (run + more)[..|run|] == run;
    DeadlockLasts(c, plan, run + more, |run|);
    FaithfulInv(c, plan, run + more);
    var s := Run(c, run + more).value;
    WaitingForTape(c, plan, s, plan[s.cursor].thread);
  }

  function Phase(pc: Pc): nat {
    match pc
    case Idle => 0
    case AtGate(_, _) => 1
    case Inside(_, _) => 2
  }

  /** Once the whole plan has been admitted nobody waits, and every tape entry has been handed out. */
  lemma {:induction false} AllDelivered(c: Config, plan: seq<Op>, s: State)
    requires Fits(c, plan) && PlanInv(c, plan, s) && s.cursor == |plan|
    ensures |s.delivered| == |c.tape|
  {
    CountsOfPlan(plan, s.admitted, 0);
    assert plan[..|plan|] == plan;
    assert forall t: ThreadId :: !PcOf(s, t).AtGate?;
  }

  /** How much of the plan is left. */
  function Remaining(plan: seq<Op>, s: State): int {
    if s.cursor < |plan| then 3 * (|plan| - s.cursor) - Phase(PcOf(s, plan[s.cursor].thread)) else 0
  }

  lemma {:induction false} CursorThreadSteps(c: Config, plan: seq<Op>, s: State) returns (e: Event)
    requires Fits(c, plan) && Window(plan) && PlanInv(c, plan, s) && s.cursor < |plan|
    ensures Good(c, plan, s, e) && 0 <= Remaining(plan, Apply(c, s, e)) < Remaining(plan, s)
  {
    WindowGivesStep(c, plan, s);
    e :| e.t == plan[s.cursor].thread && Good(c, plan, s, e);
  }

  /** With the window, every faithful run, wherever it is, extends to one that replays the whole
      plan and delivers every recorded input. */
  lemma {:induction false} ReplayCompletes(c: Config, plan: seq<Op>, run: seq<Event>) returns (whole: seq<Event>)
    requires Fits(c, plan) && Window(plan) && Faithful(c, plan, run)
    ensures run <= whole && Faithful(c, plan, whole)
    ensures Run(c, whole).value.cursor == |plan|
    ensures |Run(c, whole).value.delivered| == |c.tape|
    decreases Remaining(plan, Run(c, run).value)
  {
    var s := Run(c, run).value;
    FaithfulInv(c, plan, run);
    if s.cursor == |plan| {
      whole := run;
      AllDelivered(c, plan, s);
    } else {
      var e := CursorThreadSteps(c, plan, s);
      FaithfulSnoc(c, plan, run, e);
      whole := ReplayCompletes(c, plan, run + [e]);
    }
  }
}
