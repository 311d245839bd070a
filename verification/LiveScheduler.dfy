/** The editor's live scheduler: debounce, abort, pause and dispose around asynchronous runs.

    JavaScript runs each method up to its next `await` without interruption, so a state change is a
    method call here, and the continuation of `start` after its `await` is the method `Settle`. */
module LiveScheduler {
  import opened Options

  /** An editor snapshot, told apart by its number. */
  type Snapshot = nat

  datatype Pending = Pending(generation: nat, snapshot: Snapshot)

  /** One call of `run`: its abort signal, and whether its promise has settled. */
  datatype Flight = Flight(generation: nat, snapshot: Snapshot, aborted: bool, settled: bool)

  /** Whether the callbacks for a result return, or throw an error, which may be an AbortError. */
  datatype Callbacks = Return | Throw(abortError: bool)

  /** How a run's promise settles. */
  datatype Ending = Resolved(callbacks: Callbacks) | Threw(abortError: bool)

  predicate Live(f: Flight) {
    !f.aborted && !f.settled
  }

  /** At most one run is in flight without having been aborted. */
  ghost predicate OneLive(fs: seq<Flight>) {
    forall i, j :: 0 <= i < |fs| && 0 <= j < |fs| && Live(fs[i]) && Live(fs[j]) ==> i == j
  }

  ghost predicate SomeLive(fs: seq<Flight>) {
    exists i :: 0 <= i < |fs| && Live(fs[i])
  }

  /** Unsettled runs have different generations, none newer than the scheduler's, and only the active
      one can be live. */
  ghost predicate CoherentFlights(fs: seq<Flight>, active: Option<nat>, generation: nat) {
    && (forall i, j :: 0 <= i < j < |fs| && !fs[i].settled && !fs[j].settled ==> fs[i].generation != fs[j].generation)
    && (forall i :: 0 <= i < |fs| ==> fs[i].generation <= generation)
    && (active.Some? ==> active.value < |fs| && !fs[active.value].settled)
    && (forall i :: 0 <= i < |fs| && Live(fs[i]) ==> active == Some(i))
  }

  /** A live run runs the pending snapshot; a run of the current generation was aborted by a pause or
      a disposal, if at all. */
  ghost predicate LatestFlights(fs: seq<Flight>, pending: Option<Pending>, generation: nat, stopped: bool) {
    && (forall i :: 0 <= i < |fs| && Live(fs[i]) ==>
          pending == Some(Pending(fs[i].generation, fs[i].snapshot)) && !stopped)
    && (forall i :: 0 <= i < |fs| && !fs[i].settled && fs[i].generation == generation ==>
          pending.Some? && (fs[i].aborted ==> stopped))
  }

  function Settled(fs: seq<Flight>, i: nat): seq<Flight>
    requires i < |fs|
  {
    fs[i := fs[i].(settled := true)]
  }

  lemma SettlingIsCoherent(fs: seq<Flight>, active: Option<nat>, generation: nat, i: nat)
    requires CoherentFlights(fs, active, generation) && i < |fs| && !fs[i].settled
    ensures
      var cleared := active.Some? && Settled(fs, i)[active.value].generation == fs[i].generation;
      CoherentFlights(Settled(fs, i), if cleared then None else active, generation)
  {
  }

  /** Settling the live run leaves nothing of the current generation in flight; settling another run
      changes nothing about the pending snapshot. */
  lemma SettlingKeepsLatest(
    fs: seq<Flight>, active: Option<nat>, pending: Option<Pending>, generation: nat, stopped: bool, i: nat)
    requires CoherentFlights(fs, active, generation) && LatestFlights(fs, pending, generation, stopped)
    requires i < |fs| && !fs[i].settled && (pending.Some? ==> pending.value.generation == generation)
    ensures LatestFlights(Settled(fs, i), pending, generation, stopped)
    ensures Live(fs[i]) ==> LatestFlights(Settled(fs, i), None, generation, stopped)
    ensures Live(fs[i]) ==> fs[i].generation == generation && !stopped
  {
  }

  lemma SettlingKeepsTheRest(fs: seq<Flight>, i: nat)
    requires i < |fs| && OneLive(fs)
    ensures SomeLive(Settled(fs, i)) <==> SomeLive(fs) && !Live(fs[i])
  {
    var rest := Settled(fs, i);
    if j :| 0 <= j < |fs| && j != i && Live(fs[j]) {
      assert Live(rest[j]);
    }
  }

  class Scheduler {
    var generation: nat
    var timer: Option<nat>
    var active: Option<nat>             // index of the flight whose controller is the active one
    var pending: Option<Pending>
    var paused: bool
    var disposed: bool
    var flights: seq<Flight>
    ghost var gaveUp: bool              // the latest run ended in an AbortError of its own

    constructor ()
      ensures Valid() && !paused && !disposed && pending.None? && flights == [] && !gaveUp
    {
      generation, timer, active, pending := 0, None, None, None;
      paused, disposed, flights, gaveUp := false, false, [], false;
    }

    ghost predicate Coherent()
      reads this
    {
      CoherentFlights(flights, active, generation)
    }

    ghost predicate FlightsInv()
      reads this
    {
      Coherent() && LatestFlights(flights, pending, generation, paused || disposed)
    }

    ghost predicate QueueInv()
      reads this
    {
      && (pending.Some? ==> pending.value.generation == generation)
      && (timer.Some? ==>
            timer.value == generation && pending.Some? && !paused && !disposed && !SomeLive(flights))
      // An unpublished latest snapshot is not forgotten.
      && (pending.Some? ==> timer.Some? || SomeLive(flights) || paused || disposed || gaveUp)
    }

    ghost predicate Valid()
      reads this
    {
      FlightsInv() && QueueInv()
    }

    /** `this.active?.controller.abort()`. */
    method AbortActive()
      requires active.Some? ==> active.value < |flights|
      modifies this`flights
      ensures |flights| == |old(flights)|
      ensures forall i :: 0 <= i < |flights| ==>
        flights[i] == if active == Some(i) then old(flights)[i].(aborted := true) else old(flights)[i]
    {
      if active.Some? {
        flights := flights[active.value := flights[active.value].(aborted := true)];
      }
    }

    method Schedule(snapshot: Snapshot)
      requires Coherent() && (disposed ==> Valid())
      modifies this
      ensures Valid()
      ensures paused == old(paused) && disposed == old(disposed) && |flights| == |old(flights)|
      ensures disposed ==> pending == old(pending) && flights == old(flights) && gaveUp == old(gaveUp)
      ensures !disposed ==>
        && generation == old(generation) + 1 && pending == Some(Pending(generation, snapshot))
        && !SomeLive(flights) && (paused || timer == Some(generation)) && !gaveUp
    {
      if disposed {
        return;
      }
      generation := generation + 1;
      pending := Some(Pending(generation, snapshot));
      timer, gaveUp := None, false;
      AbortActive();
      if paused {
        return;
      }
      timer := Some(generation);
    }

    /** Starting the pending snapshot at once keeps the scheduler's invariant exactly when no run is
        live, as right after `Schedule`; otherwise it puts two runs in flight. */
    method Flush()
      requires Valid()
      modifies this
      ensures paused == old(paused) && disposed == old(disposed) && pending == old(pending) && gaveUp == old(gaveUp)
      ensures !old(SomeLive(flights)) ==> Valid()
      ensures old(SomeLive(flights)) <==> !OneLive(flights)
      ensures !old(SomeLive(flights)) && pending.Some? && !paused && !disposed ==> SomeLive(flights)
    {
      if pending.None? || paused || disposed {
        return;
      }
      timer := None;
      Start(pending.value.generation);
      assert Live(flights[|old(flights)|]);
      assert forall i :: 0 <= i < |old(flights)| ==> flights[i] == old(flights)[i];
    }

    method Pause()
      requires Valid()
      modifies this
      ensures Valid()
      ensures paused && disposed == old(disposed) && pending == old(pending) && !SomeLive(flights)
      ensures gaveUp == old(gaveUp)
    {
      paused, timer := true, None;
      AbortActive();
    }

    method Resume()
      requires Valid()
      modifies this
      ensures Valid()
      ensures !paused && disposed == old(disposed)
      ensures pending.Some? == old(pending).Some? && (pending.Some? ==> pending.value.snapshot == old(pending).value.snapshot)
      ensures gaveUp ==> old(gaveUp)
    {
      if !paused {
        return;
      }
      paused := false;
      if pending.Some? {
        Schedule(pending.value.snapshot);
      }
    }

    method Dispose()
      requires Valid()
      modifies this
      ensures Valid()
      ensures disposed && paused == old(paused) && pending == old(pending) && !SomeLive(flights)
      ensures gaveUp == old(gaveUp)
    {
      disposed, timer := true, None;
      AbortActive();
    }

    method FireTimer()
      requires Valid()
      modifies this
      ensures Valid()
      ensures paused == old(paused) && disposed == old(disposed) && pending == old(pending) && gaveUp == old(gaveUp)
      ensures old(timer).Some? ==> SomeLive(flights)
    {
      if timer.Some? {
        var due := timer.value;
        timer := None;
        Start(due);
        assert Live(flights[|old(flights)|]);
        assert forall i :: 0 <= i < |old(flights)| ==> flights[i] == old(flights)[i];
      }
    }

    /** `start` up to its `await`. */
    method Start(due: nat)
      requires Coherent()
      modifies this`flights, this`active
      ensures
        if disposed || paused || pending.None? || due != generation || due != pending.value.generation then
          flights == old(flights) && active == old(active)
        else
          && flights == old(flights) + [Flight(due, pending.value.snapshot, false, false)]
          && active == Some(|old(flights)|)
    {
      if disposed || paused || pending.None? || due != generation || due != pending.value.generation {
        return;
      }
      active := Some(|flights|);
      flights := flights + [Flight(due, pending.value.snapshot, false, false)];
    }

    /** `start` after its `await`: a run's outcome is shown exactly when the run is still live and did
        not end in an AbortError. A result whose callbacks throw is caught like an error of the run
        and reported again, as an error. */
    method Settle(i: nat, ending: Ending) returns (shown: Option<Snapshot>, again: bool)
      requires Valid() && i < |flights| && !flights[i].settled
      modifies this
      ensures Valid()
      ensures paused == old(paused) && disposed == old(disposed)
      ensures shown == if Live(old(flights)[i]) && ending != Threw(true) then Some(old(flights)[i].snapshot) else None
      ensures again <==> shown.Some? && ending == Resolved(Throw(false))
      ensures pending == if shown.Some? then None else old(pending)
      ensures shown.Some? ==> !paused && !disposed && old(pending).Some? && shown.value == old(pending).value.snapshot
      ensures gaveUp == (old(gaveUp) || (Live(old(flights)[i]) && ending == Threw(true)))
    {
      var run := flights[i];
      SettlingKeepsTheRest(flights, i);
      SettlingIsCoherent(flights, active, generation, i);
      SettlingKeepsLatest(flights, active, pending, generation, paused || disposed, i);
      assert Live(run) <==> run.generation == generation && !run.aborted && !disposed;
      shown, again := Report(run, ending);
      assert shown.Some? <==> Live(run) && ending != Threw(true);
      gaveUp := gaveUp || (Live(run) && ending == Threw(true));
      Finish(i, shown.Some?);
    }

    /** The callbacks: `onResult`, `onError`, or one after the other. */
    method Report(run: Flight, ending: Ending) returns (shown: Option<Snapshot>, again: bool)
      ensures shown ==
        if run.generation == generation && !run.aborted && (ending.Resolved? ==> !disposed) && ending != Threw(true)
        then Some(run.snapshot) else None
      ensures again <==> shown.Some? && ending == Resolved(Throw(false))
    {
      shown, again := None, false;
      match ending {
        case Resolved(callbacks) =>
          if !(run.generation != generation || run.aborted || disposed) {
            shown := Some(run.snapshot);
            again := callbacks == Throw(false);
          }
        case Threw(abortError) =>
          if !(run.generation != generation || run.aborted || abortError) {
            shown := Some(run.snapshot);
          }
      }
    }

    /** The end of `start`: an outcome that was shown leaves nothing pending, and the run is no longer
        the active one. */
    method Finish(i: nat, answered: bool)
      requires i < |flights| && !flights[i].settled && (answered ==> Live(flights[i]))
      modifies this`flights, this`pending, this`active
      ensures flights == Settled(old(flights), i)
      ensures pending == if answered then None else old(pending)
      ensures active == if old(active).Some? && old(active).value < |flights|
                           && flights[old(active).value].generation == flights[i].generation then None else old(active)
    {
      if answered {
        pending := None;
      }
      flights := Settled(flights, i);
      if active.Some? && active.value < |flights| && flights[active.value].generation == flights[i].generation {
        active := None;
      }
    }
  }

  /** What happens to a scheduler: calls of the extension, the timer, and runs that settle. The
      extension flushes only together with a schedule. */
  datatype Input =
    | Edit(snapshot: Snapshot, flush: bool)
    | PauseLive
    | ResumeLive
    | DisposeLive
    | TimerFires
    | RunSettles(run: nat, ending: Ending)

  predicate DisposedAfter(inputs: seq<Input>, k: nat)
    requires k <= |inputs|
  {
    exists i :: 0 <= i < k && inputs[i].DisposeLive?
  }

  predicate PausedAfter(inputs: seq<Input>, k: nat)
    requires k <= |inputs|
  {
    k > 0 && !inputs[k - 1].ResumeLive? && (inputs[k - 1].PauseLive? || PausedAfter(inputs, k - 1))
  }

  /** The last edit among the first `k` inputs that came before any disposal. */
  function LastEdit(inputs: seq<Input>, k: nat): (r: Option<nat>)
    requires k <= |inputs|
    ensures r.Some? ==> r.value < k && inputs[r.value].Edit?
  {
    if k == 0 then None
    else if inputs[k - 1].Edit? && !DisposedAfter(inputs, k - 1) then Some(k - 1)
    else LastEdit(inputs, k - 1)
  }

  /** A shown outcome: the input that caused it, the snapshot it belongs to, and whether it was
      reported again as an error. */
  datatype Shown = Shown(at: nat, snapshot: Snapshot, again: bool)

  /** The latest edit has not been answered yet. */
  ghost predicate Unanswered(inputs: seq<Input>, k: nat, shown: seq<Shown>)
    requires k <= |inputs| && forall s :: s in shown ==> s.at <= k
  {
    var last := LastEdit(inputs, k);
    last.Some? && (shown == [] || LastEdit(inputs, shown[|shown| - 1].at) != last)
  }

  /** A run ended in an AbortError of its own after the latest edit. */
  ghost predicate SelfAborted(inputs: seq<Input>, k: nat)
    requires k <= |inputs|
  {
    exists i :: 0 <= i < k && inputs[i].RunSettles? && inputs[i].ending == Threw(true)
                && LastEdit(inputs, i) == LastEdit(inputs, k)
  }

  lemma InputsAdvance(inputs: seq<Input>, k: nat)
    requires k < |inputs|
    ensures DisposedAfter(inputs, k + 1) <==> DisposedAfter(inputs, k) || inputs[k].DisposeLive?
    ensures SelfAborted(inputs, k) && LastEdit(inputs, k + 1) == LastEdit(inputs, k) ==> SelfAborted(inputs, k + 1)
    ensures inputs[k].RunSettles? && inputs[k].ending == Threw(true) ==> SelfAborted(inputs, k + 1)
  {
  }

  /** An outcome comes from a settling run and belongs to the edit that is then the latest one. */
  ghost predicate Answers(inputs: seq<Input>, k: nat, s: Shown)
    requires k <= |inputs|
  {
    && s.at < k && inputs[s.at].RunSettles?
    && !PausedAfter(inputs, s.at) && !DisposedAfter(inputs, s.at)
    && LastEdit(inputs, s.at).Some? && s.snapshot == inputs[LastEdit(inputs, s.at).value].snapshot
    && (s.again <==> inputs[s.at].ending == Resolved(Throw(false)))
  }

  /** The edit an outcome belongs to. */
  function Answered(inputs: seq<Input>, s: Shown): int
    requires s.at <= |inputs|
  {
    var last := LastEdit(inputs, s.at);
    if last.Some? then last.value else -1
  }

  /** Every outcome belongs to the edit that was the latest one, and no edit has two. */
  ghost predicate ShownInv(inputs: seq<Input>, k: nat, shown: seq<Shown>)
    requires k <= |inputs|
  {
    && (forall i :: 0 <= i < |shown| ==> Answers(inputs, k, shown[i]))
    && (forall i, j :: 0 <= i < j < |shown| ==> Answered(inputs, shown[i]) < Answered(inputs, shown[j]))
  }

  lemma {:induction false} LastEditGrows(inputs: seq<Input>, j: nat, k: nat)
    requires j <= k <= |inputs| && LastEdit(inputs, j).Some?
    ensures LastEdit(inputs, k).Some? && LastEdit(inputs, j).value <= LastEdit(inputs, k).value
    decreases k - j
  {
    if j < k {
      LastEditGrows(inputs, j, k - 1);
    }
  }

  /** The scheduler's fields agree with what the inputs so far say. */
  ghost predicate Tracks(s: Scheduler, inputs: seq<Input>, k: nat, shown: seq<Shown>)
    requires k <= |inputs|
    reads s
  {
    && s.Valid() && ShownInv(inputs, k, shown)
    && s.paused == PausedAfter(inputs, k) && s.disposed == DisposedAfter(inputs, k)
    && (s.pending.Some? <==> Unanswered(inputs, k, shown))
    && (s.pending.Some? ==> s.pending.value.snapshot == inputs[LastEdit(inputs, k).value].snapshot)
    && (s.pending.Some? && s.gaveUp ==> SelfAborted(inputs, k))
  }

  method Command(s: Scheduler, inputs: seq<Input>, k: nat, ghost shown: seq<Shown>)
    requires k < |inputs| && !inputs[k].RunSettles? && Tracks(s, inputs, k, shown)
    modifies s
    ensures Tracks(s, inputs, k + 1, shown)
  {
    InputsAdvance(inputs, k);
    match inputs[k] {
      case Edit(snapshot, flush) =>
        s.Schedule(snapshot);
        if flush {
          s.Flush();
        }
      case PauseLive => s.Pause();
      case ResumeLive => s.Resume();
      case DisposeLive => s.Dispose();
      case TimerFires => s.FireTimer();
    }
  }

  lemma {:induction false} ShownExtends(inputs: seq<Input>, k: nat, shown: seq<Shown>, answer: Shown)
    requires k < |inputs| && inputs[k].RunSettles? && ShownInv(inputs, k, shown) && Unanswered(inputs, k, shown)
    requires !PausedAfter(inputs, k) && !DisposedAfter(inputs, k)
    requires answer.at == k && answer.snapshot == inputs[LastEdit(inputs, k).value].snapshot
    requires answer.again <==> inputs[k].ending == Resolved(Throw(false))
    ensures ShownInv(inputs, k + 1, shown + [answer])
    ensures !Unanswered(inputs, k + 1, shown + [answer])
  {
    assert Answers(inputs, k + 1, answer);
    assert forall s :: s in shown && Answers(inputs, k, s) ==> Answers(inputs, k + 1, s);
    if shown != [] {
      var newest := shown[|shown| - 1];
      assert Answers(inputs, k, newest);
      LastEditGrows(inputs, newest.at, k);
      assert Answered(inputs, newest) < Answered(inputs, answer);
    }
  }

  method Settlement(s: Scheduler, inputs: seq<Input>, k: nat, shown: seq<Shown>) returns (more: seq<Shown>)
    requires k < |inputs| && inputs[k].RunSettles? && Tracks(s, inputs, k, shown)
    modifies s
    ensures Tracks(s, inputs, k + 1, more)
  {
    InputsAdvance(inputs, k);
    more := shown;
    var run := inputs[k].run;
    if run < |s.flights| && !s.flights[run].settled {
      var outcome, again := s.Settle(run, inputs[k].ending);
      if outcome.Some? {
        var answer := Shown(k, outcome.value, again);
        more := shown + [answer];
        ShownExtends(inputs, k, shown, answer);
      }
    }
  }

  /** Every history: at most one run is live at any time; every outcome shown belongs to the latest
      edit, is its only one, and is shown neither while paused nor after disposal; it is reported
      twice, as a result and as an error, exactly when the callbacks for the result threw; and a
      latest edit without an outcome has a timer, a live run, a pause, a disposal or a self-aborted
      run. */
  method LiveHistory(inputs: seq<Input>) returns (shown: seq<Shown>, trace: seq<seq<Flight>>, timerSet: bool)
    ensures |trace| == |inputs| + 1 && forall k :: 0 <= k < |trace| ==> OneLive(trace[k])
    ensures ShownInv(inputs, |inputs|, shown)
    ensures Unanswered(inputs, |inputs|, shown) ==>
      || timerSet || SomeLive(trace[|inputs|]) || PausedAfter(inputs, |inputs|)
      || DisposedAfter(inputs, |inputs|) || SelfAborted(inputs, |inputs|)
  {
    var s := new Scheduler();
    shown, trace := [], [s.flights];
    for k := 0 to |inputs|
      invariant fresh(s) && Tracks(s, inputs, k, shown)
      invariant |trace| == k + 1 && trace[k] == s.flights
      invariant forall j :: 0 <= j <= k ==> OneLive(trace[j])
    {
      if inputs[k].RunSettles? {
        shown := Settlement(s, inputs, k, shown);
      } else {
        Command(s, inputs, k, shown);
      }
      trace := trace + [s.flights];
    }
    timerSet := s.timer.Some?;
  }
}
