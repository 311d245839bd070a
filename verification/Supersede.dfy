/** The daemon's supersede and cancel protocol.

    Requests share an atomic generation counter, the verification gate, and the slot that names the
    active verification's cancellation token. A superseding request bumps the generation and then
    cancels whatever the slot holds, as two separate steps; the verification it replaces rechecks
    the generation on entering the gate, after installing its token, and before replying. */
module Supersede {
  import opened Options

  type Request = nat

  datatype Verdict = Real | Superseded | Failed

  /** `gen` is the generation the request read or created when it started. */
  datatype Pc =
    | Fresh
    | Bumped(gen: nat, verifies: bool)     // counter incremented, active token not yet cancelled
    | AtGate(gen: nat)
    | Entered(gen: nat)                    // holds the gate
    | Admitted(gen: nat)                   // first recheck passed
    | Installed(gen: nat)                  // its token is in the slot
    | Running(gen: nat)                    // second recheck done
    | Returned(gen: nat)                   // the verifier returned an outcome
    | TokenRead(gen: nat)                  // final check: token was not cancelled
    | Closing(gen: nat, verdict: Verdict)  // verdict fixed, slot not yet cleared
    | Leaving(verdict: Verdict)            // gate about to be dropped
    | Done(verdict: Verdict)
    | CancelDone

  /** `slot` names the request whose token is installed; `clean` collects the requests that
      installed their token while no bumper was between its two steps. */
  datatype State = State(
    generation: nat,
    gate: Option<Request>,
    slot: Option<Request>,
    cancelled: set<Request>,
    pcs: map<Request, Pc>,
    clean: set<Request>)

  const INITIAL := State(0, None, None, {}, map[], {})

  function PcOf(s: State, r: Request): Pc {
    if r in s.pcs then s.pcs[r] else Fresh
  }

  ghost predicate Bumping(s: State) {
    exists b: Request :: PcOf(s, b).Bumped?
  }

  datatype Event =
    | Load(r: Request)                     // verify without supersede
    | Bump(r: Request, verifies: bool)     // verify with supersede, or cancel
    | CancelSlot(r: Request)
    | Enter(r: Request)
    | Recheck(r: Request)
    | Install(r: Request)
    | RecheckInstalled(r: Request)
    | Finish(r: Request)                   // Ok(outcome), after at most one requeue
    | FinishCancelled(r: Request)          // Err(Cancelled)
    | FinishError(r: Request)              // any other error of the verifier
    | DropOut(r: Request)                  // artifact discovery fails before the requeue
    | ReadToken(r: Request)
    | ReadGeneration(r: Request)
    | ClearSlot(r: Request)
    | Leave(r: Request)

  predicate Enabled(s: State, e: Event) {
    var pc := PcOf(s, e.r);
    match e
    case Load(_) => pc.Fresh?
    case Bump(_, _) => pc.Fresh?
    case CancelSlot(_) => pc.Bumped?
    case Enter(_) => pc.AtGate? && s.gate.None?
    case Recheck(_) => pc.Entered?
    case Install(_) => pc.Admitted?
    case RecheckInstalled(_) => pc.Installed?
    case Finish(_) => pc.Running?
    case FinishCancelled(r) => pc.Running? && r in s.cancelled
    case FinishError(_) => pc.Running?
    case DropOut(_) => pc.Running?
    case ReadToken(_) => pc.Returned?
    case ReadGeneration(_) => pc.TokenRead?
    case ClearSlot(_) => pc.Closing?
    case Leave(_) => pc.Leaving?
  }

  ghost function Apply(s: State, e: Event): State
    requires Enabled(s, e)
  {
    var pc := PcOf(s, e.r);
    match e
    case Load(r) => s.(pcs := s.pcs[r := AtGate(s.generation)])
    case Bump(r, verifies) =>
      s.(generation := s.generation + 1, pcs := s.pcs[r := Bumped(s.generation + 1, verifies)])
    case CancelSlot(r) =>
      s.(cancelled := s.cancelled + (if s.slot.Some? then {s.slot.value} else {}),
         pcs := s.pcs[r := if pc.verifies then AtGate(pc.gen) else CancelDone])
    case Enter(r) => s.(gate := Some(r), pcs := s.pcs[r := Entered(pc.gen)])
    case Recheck(r) =>
      s.(pcs := s.pcs[r := if pc.gen == s.generation then Admitted(pc.gen) else Leaving(Superseded)])
    case Install(r) =>
      s.(slot := Some(r), pcs := s.pcs[r := Installed(pc.gen)],
         clean := if Bumping(s) then s.clean else s.clean + {r})
    case RecheckInstalled(r) =>
      s.(cancelled := if pc.gen == s.generation then s.cancelled else s.cancelled + {r},
         pcs := s.pcs[r := Running(pc.gen)])
    case Finish(r) => s.(pcs := s.pcs[r := Returned(pc.gen)])
    case FinishCancelled(r) => s.(pcs := s.pcs[r := Closing(pc.gen, Superseded)])
    case FinishError(r) => s.(pcs := s.pcs[r := Closing(pc.gen, Failed)])
    case DropOut(r) => s.(gate := None, pcs := s.pcs[r := Done(Failed)])
    case ReadToken(r) =>
      s.(pcs := s.pcs[r := if r in s.cancelled then Closing(pc.gen, Superseded) else TokenRead(pc.gen)])
    case ReadGeneration(r) =>
      s.(pcs := s.pcs[r := Closing(pc.gen, if pc.gen == s.generation then Real else Superseded)])
    case ClearSlot(r) =>
      s.(slot := if s.slot == Some(r) then None else s.slot, pcs := s.pcs[r := Leaving(pc.verdict)])
    case Leave(r) => s.(gate := None, pcs := s.pcs[r := Done(pc.verdict)])
  }

  ghost function Run(run: seq<Event>): Option<State> {
    if run == [] then Some(INITIAL)
    else
      var before := Run(run[..|run| - 1]);
      var e := run[|run| - 1];
      if before.Some? && Enabled(before.value, e) then Some(Apply(before.value, e)) else None
  }

  // ---------------------------------------------------------------- what every step keeps

  predicate InGate(pc: Pc) {
    pc.Entered? || pc.Admitted? || Owns(pc) || pc.Leaving?
  }

  /** From installing the token to clearing the slot. */
  predicate Owns(pc: Pc) {
    pc.Installed? || pc.Running? || pc.Returned? || pc.TokenRead? || pc.Closing?
  }

  /** Past the second recheck, verdict still open. */
  predicate Active(pc: Pc) {
    pc.Running? || pc.Returned? || pc.TokenRead?
  }

  predicate HasGen(pc: Pc) {
    !pc.Fresh? && !pc.Leaving? && !pc.Done? && !pc.CancelDone?
  }

  /** The gate has one holder, whose token is the one in the slot. */
  ghost predicate GateInv(s: State) {
    && (forall r: Request :: InGate(PcOf(s, r)) <==> s.gate == Some(r))
    && (forall r: Request :: Owns(PcOf(s, r)) ==> s.slot == Some(r))
    && (forall r: Request :: HasGen(PcOf(s, r)) ==> PcOf(s, r).gen <= s.generation)
  }

  ghost predicate CancelInv(s: State) {
    forall r: Request :: Active(PcOf(s, r)) && PcOf(s, r).gen != s.generation ==> r in s.cancelled || Bumping(s)
  }

  /** Only a request that has installed its token can be cancelled or clean. */
  ghost predicate StartedInv(s: State) {
    forall r: Request :: r in s.cancelled || r in s.clean || s.slot == Some(r) ==> Started(PcOf(s, r))
  }

  predicate Started(pc: Pc) {
    Owns(pc) || pc.Leaving? || pc.Done?
  }

  /** A clean request that is up to date is not cancelled, and nobody is about to cancel it. */
  ghost predicate CleanInv(s: State) {
    forall r: Request :: r in s.clean && Owns(PcOf(s, r)) && PcOf(s, r).gen == s.generation ==>
                           r !in s.cancelled && !Bumping(s)
  }

  /** A slot that is not empty names the verification that runs, or one that dropped out in an error. */
  ghost predicate SlotInv(s: State) {
    s.slot.Some? ==> Owns(PcOf(s, s.slot.value)) || PcOf(s, s.slot.value) == Done(Failed)
  }

  ghost predicate Inv(s: State) {
    GateInv(s) && CancelInv(s) && StartedInv(s) && CleanInv(s) && SlotInv(s)
  }

  lemma GateStep(s: State, e: Event)
    requires GateInv(s) && Enabled(s, e)
    ensures GateInv(Apply(s, e))
  {
    var s' := Apply(s, e);
    forall r: Request | r != e.r
      ensures PcOf(s', r) == PcOf(s, r)
    {
    }
  }

  lemma BumpersStep(s: State, e: Event)
    requires Enabled(s, e)
    ensures e.Bump? ==> Bumping(Apply(s, e))
    ensures Bumping(s) && !e.CancelSlot? ==> Bumping(Apply(s, e))
    ensures Bumping(Apply(s, e)) && !e.Bump? ==> Bumping(s)
  {
    var s' := Apply(s, e);
    forall r: Request | r != e.r
      ensures PcOf(s', r) == PcOf(s, r)
    {
    }
    if e.Bump? {
      assert PcOf(s', e.r).Bumped?;
    }
    if Bumping(s) && !e.CancelSlot? {
      var b: Request :| PcOf(s, b).Bumped?;
      assert PcOf(s', b).Bumped?;
    }
  }

  lemma CancelStep(s: State, e: Event)
    requires GateInv(s) && CancelInv(s) && Enabled(s, e)
    ensures CancelInv(Apply(s, e))
  {
    var s' := Apply(s, e);
    BumpersStep(s, e);
    forall r: Request | Active(PcOf(s', r)) && PcOf(s', r).gen != s'.generation
      ensures r in s'.cancelled || Bumping(s')
    {
      if r != e.r {
        assert PcOf(s', r) == PcOf(s, r);
      }
    }
  }

  lemma StartedStep(s: State, e: Event)
    requires GateInv(s) && StartedInv(s) && Enabled(s, e)
    ensures StartedInv(Apply(s, e))
  {
    var s' := Apply(s, e);
    forall r: Request | r in s'.cancelled || r in s'.clean || s'.slot == Some(r)
      ensures Started(PcOf(s', r))
    {
      if r != e.r {
        assert PcOf(s', r) == PcOf(s, r);
      }
    }
  }

  lemma CleanStep(s: State, e: Event)
    requires GateInv(s) && StartedInv(s) && CleanInv(s) && Enabled(s, e)
    ensures CleanInv(Apply(s, e))
  {
    var s' := Apply(s, e);
    BumpersStep(s, e);
    forall r: Request | r in s'.clean && Owns(PcOf(s', r)) && PcOf(s', r).gen == s'.generation
      ensures r !in s'.cancelled && !Bumping(s')
    {
      if r != e.r {
        assert PcOf(s', r) == PcOf(s, r);
      }
    }
  }

  lemma SlotStep(s: State, e: Event)
    requires GateInv(s) && SlotInv(s) && Enabled(s, e)
    ensures SlotInv(Apply(s, e))
  {
    assert s.slot.Some? && s.slot.value != e.r ==> PcOf(Apply(s, e), s.slot.value) == PcOf(s, s.slot.value);
  }

  lemma StepInv(s: State, e: Event)
    requires Inv(s) && Enabled(s, e)
    ensures Inv(Apply(s, e))
  {
    GateStep(s, e);
    CancelStep(s, e);
    StartedStep(s, e);
    CleanStep(s, e);
    SlotStep(s, e);
  }

  lemma {:induction false} RunInv(run: seq<Event>)
    requires Run(run).Some?
    ensures Inv(Run(run).value)
  {
    if run != [] {
      RunInv(run[..|run| - 1]);
      StepInv(Run(run[..|run| - 1]).value, run[|run| - 1]);
    }
  }

  /** No lost cancellation: in every reachable state, a verification past its recheck whose
      generation is out of date has a cancelled token, or some bumper is still between its
      increment and its cancel step. */
  lemma NoLostCancellation(run: seq<Event>, r: Request)
    requires Run(run).Some?
    requires
      var s := Run(run).value;
      Active(PcOf(s, r)) && PcOf(s, r).gen != s.generation
    ensures r in Run(run).value.cancelled || Bumping(Run(run).value)
  {
    RunInv(run);
  }

  /** One verification at a time holds the gate, and the slot names it while it runs and nobody else,
      unless a verification dropped out in an error without clearing it. */
  lemma OneAtATime(run: seq<Event>, r: Request, q: Request)
    requires Run(run).Some?
    requires InGate(PcOf(Run(run).value, r)) && InGate(PcOf(Run(run).value, q))
    ensures r == q && (Owns(PcOf(Run(run).value, r)) ==> Run(run).value.slot == Some(r))
    ensures
      var s := Run(run).value;
      !Owns(PcOf(s, r)) ==> s.slot.None? || PcOf(s, s.slot.value) == Done(Failed)
  {
    RunInv(run);
  }

  // ---------------------------------------------------------------- real outcomes

  predicate StartsAt(run: seq<Event>, i: nat, r: Request) {
    i < |run| && (run[i] == Load(r) || (run[i].Bump? && run[i].r == r))
  }

  /** r read its generation at i, made its final check at j, and nobody bumped in between. */
  ghost predicate Undisturbed(run: seq<Event>, i: nat, j: nat, r: Request) {
    && StartsAt(run, i, r) && i < j < |run| && run[j] == ReadGeneration(r)
    && forall k :: i < k < j ==> !run[k].Bump?
  }

  function Bumps(run: seq<Event>): nat {
    if run == [] then 0 else Bumps(run[..|run| - 1]) + (if run[|run| - 1].Bump? then 1 else 0)
  }

  lemma {:induction false} BumpsBetween(run: seq<Event>, i: nat)
    requires i <= |run|
    ensures Bumps(run[..i]) <= Bumps(run)
    ensures Bumps(run[..i]) == Bumps(run) <==> forall k :: i <= k < |run| ==> !run[k].Bump?
  {
    if i < |run| {
      var n := |run| - 1;
      BumpsBetween(run[..n], i);
      assert run[..n][..i] == run[..i];
      assert forall k :: 0 <= k < n ==> run[..n][k] == run[k];
    } else {
      assert run[..i] == run;
    }
  }

  function VerdictOf(pc: Pc): Option<Verdict> {
    if pc.Closing? || pc.Leaving? || pc.Done? then Some(pc.verdict) else None
  }

  /** The generation a request carries is the number of bumps when it started. */
  lemma {:induction false} GenerationsCountBumps(run: seq<Event>, r: Request)
    requires Run(run).Some?
    ensures Run(run).value.generation == Bumps(run)
    ensures HasGen(PcOf(Run(run).value, r)) ==>
              exists i: nat :: StartsAt(run, i, r) && Bumps(run[..i + 1]) == PcOf(Run(run).value, r).gen
  {
    if run != [] {
      var n := |run| - 1;
      var s, s', e := Run(run[..n]).value, Run(run).value, run[n];
      GenerationsCountBumps(run[..n], r);
      assert run[..n + 1] == run;
      if HasGen(PcOf(s, r)) {
        var i: nat :| StartsAt(run[..n], i, r) && Bumps(run[..n][..i + 1]) == PcOf(s, r).gen;
        assert run[..n][..i + 1] == run[..i + 1] && StartsAt(run, i, r);
      } else if e.r == r && (e.Load? || e.Bump?) {
        assert StartsAt(run, n, r);
      }
    }
  }

  /** A reply that carries a real outcome was not disturbed: no bump, superseding request or cancel,
      fell between reading its generation and its final check. */
  lemma {:induction false} RealMeansUndisturbed(run: seq<Event>, r: Request)
    requires Run(run).Some? && VerdictOf(PcOf(Run(run).value, r)) == Some(Real)
    ensures exists i: nat, j: nat :: Undisturbed(run, i, j, r)
  {
    if run != [] {
      var n := |run| - 1;
      var s, e := Run(run[..n]).value, run[n];
      assert run[..n + 1] == run;
      if VerdictOf(PcOf(s, r)) == Some(Real) {
        RealMeansUndisturbed(run[..n], r);
        var i: nat, j: nat :| Undisturbed(run[..n], i, j, r);
        assert Undisturbed(run, i, j, r);
      } else {
        assert e == ReadGeneration(r);
        GenerationsCountBumps(run[..n], r);
        var i: nat :| StartsAt(run[..n], i, r) && Bumps(run[..n][..i + 1]) == PcOf(s, r).gen;
        assert StartsAt(run, i, r);
        RealIffUndisturbed(run, r, i);
        assert Undisturbed(run, i, n, r);
      }
    }
  }

  // ---------------------------------------------------------------- when an outcome is real, exactly

  /** A verdict is final. */
  lemma {:induction false} VerdictStays(run: seq<Event>, n: nat, r: Request)
    requires Run(run).Some? && n <= |run|
    ensures Run(run[..n]).Some?
    ensures VerdictOf(PcOf(Run(run[..n]).value, r)).Some? ==>
              VerdictOf(PcOf(Run(run).value, r)) == VerdictOf(PcOf(Run(run[..n]).value, r))
  {
    if n == |run| {
      assert run[..n] == run;
    } else {
      var front := run[..|run| - 1];
      VerdictStays(front, n, r);
      assert front[..n] == run[..n];
      VerdictStep(Run(front).value, run[|run| - 1], r);
    }
  }

  lemma VerdictStep(s: State, e: Event, r: Request)
    requires Enabled(s, e)
    ensures VerdictOf(PcOf(s, r)).Some? ==> VerdictOf(PcOf(Apply(s, e), r)) == VerdictOf(PcOf(s, r))
  {
  }

  /** The final check, exactly: it gives a real outcome if and only if nobody has bumped the generation
      since the request started. */
  lemma {:induction false} RealIffUndisturbed(run: seq<Event>, r: Request, i: nat)
    requires Run(run).Some? && run != [] && run[|run| - 1] == ReadGeneration(r) && StartsAt(run, i, r)
    ensures
      var verdict := VerdictOf(PcOf(Run(run).value, r));
      verdict == if forall k :: i < k < |run| ==> !run[k].Bump? then Some(Real) else Some(Superseded)
  {
    var n := |run| - 1;
    var front := run[..n];
    assert StartsAt(front, i, r);
    CarriedGeneration(front, r, i);
    BumpsBetween(front, i + 1);
    assert forall k :: 0 <= k < n ==> front[k] == run[k];
  }

  /** The two earlier checks, exactly: on entering the gate a request goes on if and only if nobody has
      bumped the generation since it started, so an outdated one never starts a verification; and once
      its token is installed, a bump in between cancels it. */
  lemma {:induction false} ChecksCatchBumps(run: seq<Event>, r: Request, i: nat)
    requires Run(run).Some? && run != [] && StartsAt(run, i, r)
    ensures
      var s, bumped := Run(run).value, exists k :: i < k < |run| && run[k].Bump?;
      && (run[|run| - 1] == Recheck(r) ==>
            (PcOf(s, r).Admitted? <==> !bumped) && (VerdictOf(PcOf(s, r)) == Some(Superseded) <==> bumped))
      && (run[|run| - 1] == RecheckInstalled(r) && bumped ==> r in s.cancelled)
  {
    var n := |run| - 1;
    var front := run[..n];
    if run[n] == Recheck(r) || run[n] == RecheckInstalled(r) {
      assert StartsAt(front, i, r);
      CarriedGeneration(front, r, i);
      BumpsBetween(front, i + 1);
      assert forall k :: 0 <= k < n ==> front[k] == run[k];
    }
  }

  /** A request carries the number of bumps up to its own start. */
  lemma {:induction false} CarriedGeneration(run: seq<Event>, r: Request, i: nat)
    requires Run(run).Some? && StartsAt(run, i, r) && HasGen(PcOf(Run(run).value, r))
    ensures PcOf(Run(run).value, r).gen == Bumps(run[..i + 1]) && Run(run).value.generation == Bumps(run)
  {
    GenerationsCountBumps(run, r);
    var k: nat :| StartsAt(run, k, r) && Bumps(run[..k + 1]) == PcOf(Run(run).value, r).gen;
    StartsOnce(run, r, i, k);
  }

  /** Reading the token leads on to the final check exactly when the token is not cancelled then; if it
      is, the reply is that the verification was superseded, whatever happens later. */
  lemma {:induction false} TokenDecides(run: seq<Event>, n: nat, r: Request)
    requires Run(run).Some? && n < |run| && run[n] == ReadToken(r)
    ensures Run(run[..n]).Some? && Run(run[..n + 1]).Some?
    ensures PcOf(Run(run[..n + 1]).value, r).TokenRead? <==> r !in Run(run[..n]).value.cancelled
    ensures r in Run(run[..n]).value.cancelled ==> VerdictOf(PcOf(Run(run).value, r)) == Some(Superseded)
  {
    VerdictStays(run, n, r);
    VerdictStays(run, n + 1, r);
    assert run[..n + 1][..n] == run[..n];
  }

  /** A returned verification whose token is cancelled stays where it is or is superseded. */
  lemma {:induction false} CancelledIsDoomed(run: seq<Event>, n: nat, r: Request)
    requires Run(run).Some? && n <= |run|
    ensures Run(run[..n]).Some?
    ensures PcOf(Run(run[..n]).value, r).Returned? && r in Run(run[..n]).value.cancelled ==>
              && r in Run(run).value.cancelled
              && (PcOf(Run(run).value, r).Returned? || VerdictOf(PcOf(Run(run).value, r)) == Some(Superseded))
  {
    if n == |run| {
      assert run[..n] == run;
    } else {
      var front := run[..|run| - 1];
      CancelledIsDoomed(front, n, r);
      assert front[..n] == run[..n];
      CancelledStep(Run(front).value, run[|run| - 1], r);
    }
  }

  lemma CancelledStep(s: State, e: Event, r: Request)
    requires Enabled(s, e)
    ensures
      var pc, pc' := PcOf(s, r), PcOf(Apply(s, e), r);
      r in s.cancelled ==>
      && r in Apply(s, e).cancelled
      && (pc.Returned? ==> pc'.Returned? || VerdictOf(pc') == Some(Superseded))
      && (VerdictOf(pc).Some? ==> VerdictOf(pc') == VerdictOf(pc))
  {
  }

  /** No final check has been made before the outcome's token is read. */
  lemma {:induction false} CheckedHasVerdict(run: seq<Event>, j: nat, r: Request)
    requires Run(run).Some? && j < |run| && run[j] == ReadGeneration(r)
    ensures VerdictOf(PcOf(Run(run).value, r)).Some?
  {
    VerdictStays(run, j, r);
    VerdictStays(run, j + 1, r);
    assert run[..j + 1][..j] == run[..j];
  }

  ghost predicate EndsReal(run: seq<Event>, whole: seq<Event>, r: Request) {
    run <= whole && Run(whole).Some? && PcOf(Run(whole).value, r) == Done(Real)
  }

  lemma {:induction false} ReturnsReal(run: seq<Event>, r: Request, i: nat) returns (whole: seq<Event>)
    requires Run(run).Some? && PcOf(Run(run).value, r).Returned? && StartsAt(run, i, r)
    requires r !in Run(run).value.cancelled && forall k :: i < k < |run| ==> !run[k].Bump?
    ensures EndsReal(run, whole, r)
  {
    CarriedGeneration(run, r, i);
    BumpsBetween(run, i + 1);
    whole := Extend(run, ReadToken(r));
    whole := Extend(whole, ReadGeneration(r));
    whole := Extend(whole, ClearSlot(r));
    whole := Extend(whole, Leave(r));
  }

  /** A verification that has returned an outcome can still be answered with it if and only if its token
      is not cancelled and nobody has bumped the generation since it started. */
  lemma {:induction false} CanStillBeReal(run: seq<Event>, r: Request, i: nat)
    requires Run(run).Some? && PcOf(Run(run).value, r).Returned? && StartsAt(run, i, r)
    ensures (exists whole :: EndsReal(run, whole, r)) <==>
            r !in Run(run).value.cancelled && forall k :: i < k < |run| ==> !run[k].Bump?
  {
    forall whole | EndsReal(run, whole, r)
      ensures r !in Run(run).value.cancelled && forall k :: i < k < |run| ==> !run[k].Bump?
    {
      assert whole[..|run|] == run;
      CancelledIsDoomed(whole, |run|, r);
      assert StartsAt(whole, i, r);
      var j := FinalCheck(whole, r, i);
      if j < |run| {
        CheckedHasVerdict(run, j, r);
      }
    }
    if r !in Run(run).value.cancelled && forall k :: i < k < |run| ==> !run[k].Bump? {
      var whole := ReturnsReal(run, r, i);
    }
  }

  /** From the gate to the outcome, with nobody in between. */
  lemma {:induction false} RunsAlone(run: seq<Event>, r: Request) returns (longer: seq<Event>)
    requires Run(run).Some? && Run(run).value.gate.None? && PcOf(Run(run).value, r) == AtGate(Run(run).value.generation)
    requires r !in Run(run).value.cancelled
    ensures run <= longer && Run(longer).Some? && PcOf(Run(longer).value, r).Returned?
    ensures r !in Run(longer).value.cancelled && forall k :: |run| <= k < |longer| ==> !longer[k].Bump?
  {
    longer := Extend(run, Enter(r));
    longer := Extend(longer, Recheck(r));
    longer := Extend(longer, Install(r));
    longer := Extend(longer, RecheckInstalled(r));
    longer := Extend(longer, Finish(r));
  }

  lemma {:induction false} ReachesGate(run: seq<Event>, r: Request, supersedes: bool) returns (longer: seq<Event>)
    requires Run(run).Some? && PcOf(Run(run).value, r).Fresh? && Run(run).value.gate.None?
    ensures run <= longer && Run(longer).Some? && Run(longer).value.gate.None?
    ensures PcOf(Run(longer).value, r) == AtGate(Run(longer).value.generation) && r !in Run(longer).value.cancelled
    ensures StartsAt(longer, |run|, r) && forall k :: |run| < k < |longer| ==> !longer[k].Bump?
  {
    RunInv(run);
    if supersedes {
      longer := Extend(run, Bump(r, true));
      longer := Extend(longer, CancelSlot(r));
    } else {
      longer := Extend(run, Load(r));
    }
  }

  /** A new request gets through from every reachable state with a free gate, superseding or not: with
      nobody disturbing it, it is answered with its outcome. */
  lemma {:induction false} NewRequestGetsThrough(run: seq<Event>, r: Request, supersedes: bool) returns (whole: seq<Event>)
    requires Run(run).Some? && PcOf(Run(run).value, r).Fresh? && Run(run).value.gate.None?
    ensures EndsReal(run, whole, r)
  {
    var waiting := ReachesGate(run, r, supersedes);
    var returned := RunsAlone(waiting, r);
    whole := ReturnsReal(returned, r, |run|);
  }

  /** Errors are reported as errors: a request fails if and only if its verification did. */
  lemma {:induction false} FailedExactly(run: seq<Event>, r: Request)
    requires Run(run).Some?
    ensures VerdictOf(PcOf(Run(run).value, r)) == Some(Failed) <==>
            exists k :: 0 <= k < |run| && (run[k] == FinishError(r) || run[k] == DropOut(r))
  {
    if run != [] {
      var front := run[..|run| - 1];
      FailedExactly(front, r);
      assert forall k :: 0 <= k < |front| ==> front[k] == run[k];
      FailureIsFinal(front, r);
    }
  }

  /** A verification that ended in an error is past every step that could end it again. */
  lemma {:induction false} FailureIsFinal(run: seq<Event>, r: Request)
    requires Run(run).Some?
    ensures (exists k :: 0 <= k < |run| && (run[k] == FinishError(r) || run[k] == DropOut(r))) ==>
              VerdictOf(PcOf(Run(run).value, r)) == Some(Failed)
  {
    if k :| 0 <= k < |run| && (run[k] == FinishError(r) || run[k] == DropOut(r)) {
      VerdictStays(run, k, r);
      VerdictStays(run, k + 1, r);
      assert run[..k + 1][..k] == run[..k];
    }
  }

  /** A request is told that it was superseded only if its token was cancelled or somebody bumped the
      generation after it started. */
  lemma {:induction false} SupersededMeansDisturbed(run: seq<Event>, r: Request, i: nat)
    requires Run(run).Some? && StartsAt(run, i, r) && VerdictOf(PcOf(Run(run).value, r)) == Some(Superseded)
    ensures r in Run(run).value.cancelled || exists k :: i < k < |run| && run[k].Bump?
  {
    var n := |run| - 1;
    var front := run[..n];
    assert StartsAt(front, i, r);
    assert forall k :: 0 <= k < n ==> front[k] == run[k];
    if VerdictOf(PcOf(Run(front).value, r)) == Some(Superseded) {
      SupersededMeansDisturbed(front, r, i);
    } else if HasGen(PcOf(Run(front).value, r)) {
      CarriedGeneration(front, r, i);
      BumpsBetween(front, i + 1);
    }
  }

  /** That nobody bumps any more is not enough: in the run of `NewestCanBeCancelled` the newest request
      returns its outcome with no bump since it started and no bumper under way, and it can only be told
      that it was superseded. */
  lemma {:induction false} QuietButCancelled() returns (run: seq<Event>)
    ensures Run(run).Some? && PcOf(Run(run).value, 2).Returned? && StartsAt(run, 1, 2)
    ensures (forall k :: 1 < k < |run| ==> !run[k].Bump?) && !Bumping(Run(run).value)
    ensures !exists whole :: EndsReal(run, whole, 2)
  {
    run := NewestCanBeCancelled();
    BumpersStep(Run(run).value, Finish(2));
    run := Extend(run, Finish(2));
    CanStillBeReal(run, 2, 1);
  }

  lemma {:induction false} StartedIsNotFresh(run: seq<Event>, r: Request, i: nat)
    requires Run(run).Some? && StartsAt(run, i, r)
    ensures !PcOf(Run(run).value, r).Fresh?
  {
    var n := |run| - 1;
    if i < n {
      StartedIsNotFresh(run[..n], r, i);
    }
  }

  /** A request starts once. */
  lemma {:induction false} StartsOnce(run: seq<Event>, r: Request, i: nat, k: nat)
    requires Run(run).Some? && StartsAt(run, i, r) && StartsAt(run, k, r)
    ensures i == k
  {
    var n := |run| - 1;
    if i < n && k < n {
      StartsOnce(run[..n], r, i, k);
    } else if i < n {
      StartedIsNotFresh(run[..n], r, i);
    } else if k < n {
      StartedIsNotFresh(run[..n], r, k);
    }
  }

  /** Real outcomes are never interleaved: of two superseding requests with real replies, one made
      its final check before the other bumped the generation. */
  lemma {:induction false} RealOutcomesAreOrdered(run: seq<Event>, r: Request, q: Request, i: nat, k: nat)
    requires Run(run).Some? && r != q
    requires VerdictOf(PcOf(Run(run).value, r)) == Some(Real) && VerdictOf(PcOf(Run(run).value, q)) == Some(Real)
    requires i < |run| && run[i] == Bump(r, true) && k < |run| && run[k] == Bump(q, true)
    ensures exists j: nat :: j < |run| && ((run[j] == ReadGeneration(r) && j < k) || (run[j] == ReadGeneration(q) && j < i))
  {
    var j := FinalCheck(run, r, i);
    var l := FinalCheck(run, q, k);
    if i < k {
      assert j < k;
    } else {
      assert l < i;
    }
  }

  lemma {:induction false} FinalCheck(run: seq<Event>, r: Request, i: nat) returns (j: nat)
    requires Run(run).Some? && VerdictOf(PcOf(Run(run).value, r)) == Some(Real) && StartsAt(run, i, r)
    ensures Undisturbed(run, i, j, r)
  {
    RealMeansUndisturbed(run, r);
    var start: nat;
    start, j :| Undisturbed(run, start, j, r);
    StartsOnce(run, r, i, start);
  }

  // ---------------------------------------------------------------- who survives

  /** The newest request need not survive. The cancel step carries no generation, so an older
      superseder that is delayed between its two steps cancels the newest verification. */
  lemma NewestCanBeCancelled() returns (run: seq<Event>)
    ensures Run(run).Some? && |run| > 1 && run[1] == Bump(2, true) && forall k :: 1 < k < |run| ==> !run[k].Bump?
    ensures
      var s := Run(run).value;
      PcOf(s, 2) == Running(s.generation) && 2 in s.cancelled && !Bumping(s)
  {
    run := [];
    run := Extend(run, Bump(1, true));
    run := Extend(run, Bump(2, true));
    run := Extend(run, CancelSlot(2));
    run := Extend(run, Enter(2));
    run := Extend(run, Recheck(2));
    run := Extend(run, Install(2));
    run := Extend(run, RecheckInstalled(2));
    run := Extend(run, CancelSlot(1));
  }

  lemma Extend(run: seq<Event>, e: Event) returns (longer: seq<Event>)
    requires Run(run).Some? && Enabled(Run(run).value, e)
    ensures longer == run + [e] && Run(longer) == Some(Apply(Run(run).value, e))
  {
    longer := run + [e];
    assert longer[..|run|] == run;
  }

  /** The request's token is cancelled although no newer request has come: it is the newest one. */
  ghost predicate CancelledUpToDate(s: State, r: Request) {
    r in s.cancelled && Owns(PcOf(s, r)) && PcOf(s, r).gen == s.generation
  }

  lemma {:induction false} CleanStays(whole: seq<Event>, n: nat, r: Request)
    requires Run(whole).Some? && n <= |whole|
    ensures Run(whole[..n]).Some?
    ensures r in Run(whole[..n]).value.clean ==> r in Run(whole).value.clean
  {
    if n == |whole| {
      assert whole[..n] == whole;
    } else {
      CleanStays(whole[..|whole| - 1], n, r);
      assert whole[..|whole| - 1][..n] == whole[..n];
    }
  }

  lemma {:induction false} PendingBumperCancels(run: seq<Event>, r: Request, b: Request) returns (whole: seq<Event>)
    requires Run(run).Some? && PcOf(Run(run).value, r) == Admitted(Run(run).value.generation)
    requires PcOf(Run(run).value, b).Bumped?
    ensures run + [Install(r)] <= whole && Run(whole).Some? && CancelledUpToDate(Run(whole).value, r)
  {
    whole := Extend(run, Install(r));
    assert PcOf(Run(whole).value, b) == PcOf(Run(run).value, b);
    whole := Extend(whole, CancelSlot(b));
  }

  /** Who survives, exactly. Let a request that is up to date be about to install its token. It can go
      on to be cancelled while still the newest if and only if some bumper is at that moment between
      its increment and its cancel step. */
  lemma {:induction false} NewestSurvivesExactly(run: seq<Event>, r: Request)
    requires Run(run).Some? && PcOf(Run(run).value, r) == Admitted(Run(run).value.generation)
    ensures Bumping(Run(run).value) <==>
            exists whole :: run + [Install(r)] <= whole && Run(whole).Some? && CancelledUpToDate(Run(whole).value, r)
  {
    if Bumping(Run(run).value) {
      var b: Request :| PcOf(Run(run).value, b).Bumped?;
      var whole := PendingBumperCancels(run, r, b);
    } else {
      var installed := Extend(run, Install(r));
      forall whole | installed <= whole && Run(whole).Some?
        ensures !CancelledUpToDate(Run(whole).value, r)
      {
        assert whole[..|installed|] == installed;
        CleanStays(whole, |installed|, r);
        RunInv(whole);
      }
    }
  }
}
