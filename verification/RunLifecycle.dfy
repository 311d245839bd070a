/** The control flow of a verification between `begin_run` and its return, interleaved with other
    verifications, retention and crashes.

    Once a run row is Running, five things can go wrong before the verification knows its outcome: the
    worker, a cancellation, copying the event file, ingesting it, and capturing the revision again.
    Each exit has to close the run before it returns. The program counters below are the points
    between those calls; a step is one call, so that anything may happen between two of them. */
module RunLifecycle {
  import opened Options
  import opened Store

  /** What the verification returns: an outcome with a status, or an error. */
  datatype Reply = Answered(status: Status) | Erred

  datatype Pc =
    | Launched                  // begin_run done, the worker runs
    | Supervised                // the worker ended
    | Checked                   // not cancelled
    | Copied                    // the event file is in place and being ingested
    | Ingested
    | Captured(current: nat)    // the revision after the run
    | Failing                   // an early exit that has not closed the run yet
    | Finished(status: Status)  // finish_run replied
    | Cached                    // the cache row is saved
    | Kept                      // the revision manifest is saved
    | Leaving(reply: Reply)     // about to return
    | Returned(reply: Reply)
    | Killed                    // the process died

  /** `captured` is the revision found after the run, once the run is closed with an outcome. */
  datatype Call = Call(revision: nat, cacheable: bool, pc: Pc, captured: Option<nat>)

  /** All verifications ever begun, by their run. */
  datatype State = State(db: Db, calls: map<nat, Call>)

  datatype Step =
    | Begin(id: nat, revision: nat, cacheable: bool, at: nat)
    | Proceed(id: nat, succeeds: bool, current: nat)   // worker, check, copy, ingest or capture
    | Append(id: nat, size: nat)                       // one ingested event
    | CloseFailed(id: nat)                             // finish_run(Error), its result ignored
    | Close(id: nat, desired: Status)                  // finish_run with the outcome
    | SaveCache(id: nat, at: nat, size: nat)
    | SaveManifest(id: nat, at: nat, size: nat)
    | PruneAfter(id: nat, cutoff: nat, maxBytes: nat)  // the verification's own pruning
    | Return(id: nat)
    | SaveRecording(recording: nat, at: nat, size: nat)
    | Prune(cutoff: nat, maxBytes: nat)
    | Reopen                                           // crash, then `open`

  /** Where the next of the five calls leads. */
  function Onward(pc: Pc, succeeds: bool, current: nat): Pc {
    if !succeeds then Failing
    else
      match pc
      case Launched => Supervised
      case Supervised => Checked
      case Checked => Copied
      case Copied => Ingested
      case Ingested => Captured(current)
      case _ => pc
  }

  /** Before one of the five calls that can end the verification early. */
  predicate Underway(pc: Pc) {
    pc.Launched? || pc.Supervised? || pc.Checked? || pc.Copied? || pc.Ingested?
  }

  predicate Possible(s: State, e: Step) {
    match e
    case Begin(id, _, _, _) => id !in s.calls && !HasRun(s.db, id)
    case Proceed(id, _, _) => id in s.calls && Underway(s.calls[id].pc)
    case Append(id, _) => id in s.calls && s.calls[id].pc.Copied? && HasRun(s.db, id)
    case CloseFailed(id) => id in s.calls && s.calls[id].pc.Failing?
    case Close(id, desired) => id in s.calls && s.calls[id].pc.Captured? && !desired.Running? && !desired.Stale?
    case SaveCache(id, _, _) => id in s.calls && s.calls[id].cacheable && s.calls[id].pc == Finished(Passed)
    case SaveManifest(id, _, _) => id in s.calls && s.calls[id].pc.Cached?
    case PruneAfter(id, _, _) =>
      id in s.calls &&
      var call := s.calls[id];
      call.pc.Kept? || (call.pc.Finished? && !(call.cacheable && call.pc.status.Passed?))
    case Return(id) => id in s.calls && s.calls[id].pc.Leaving?
    case _ => true
  }

  function Move(s: State, id: nat, pc: Pc): State
    requires id in s.calls
  {
    s.(calls := s.calls[id := s.calls[id].(pc := pc)])
  }

  function Note(s: State, id: nat, current: nat): State
    requires id in s.calls
  {
    s.(calls := s.calls[id := s.calls[id].(captured := Some(current))])
  }

  function Perform(s: State, e: Step): State
    requires Possible(s, e)
  {
    match e
    case Begin(id, revision, cacheable, at) =>
      State(s.db.(runs := s.db.runs + [Run(id, revision, Running, at)]),
            s.calls[id := Call(revision, cacheable, Launched, None)])
    case Proceed(id, succeeds, current) => Move(s, id, Onward(s.calls[id].pc, succeeds, current))
    case Append(id, size) => s.(db := s.db.(events := s.db.events + [EventRow(id, size)]))
    case CloseFailed(id) =>
      // the result is ignored, also when retention has already deleted the run
      Move(s.(db := s.db.(runs := Finish(s.db.runs, id, Error, s.calls[id].revision))), id, Leaving(Erred))
    case Close(id, desired) =>
      var current := s.calls[id].pc.current;
      if !HasRun(s.db, id) then Move(s, id, Leaving(Erred))
      else
        var closed := Note(s, id, current);
        Move(closed.(db := s.db.(runs := Finish(s.db.runs, id, desired, current))), id,
             Finished(Ended(s.db, id, desired, current)))
    case SaveCache(id, at, size) =>
      // the foreign key refuses a row for a run that retention has deleted
      if !HasRun(s.db, id) then Move(s, id, Leaving(Erred))
      else Move(s.(db := SaveCacheRow(s.db, CacheRow(s.calls[id].revision, id, at, size))), id, Cached)
    case SaveManifest(id, at, size) =>
      Move(s.(db := SaveManifestRow(s.db, ManifestRow(s.calls[id].revision, at, size))), id, Kept)
    case PruneAfter(id, cutoff, maxBytes) =>
      var status := if s.calls[id].pc.Finished? then s.calls[id].pc.status else Passed;
      Move(s.(db := SizePass(AgePass(s.db, cutoff), maxBytes)), id, Leaving(Answered(status)))
    case Return(id) => Move(s, id, Returned(s.calls[id].pc.reply))
    case SaveRecording(recording, at, size) => s.(db := SaveRecordingRow(s.db, RecordingRow(recording, at, size)))
    case Prune(cutoff, maxBytes) => s.(db := SizePass(AgePass(s.db, cutoff), maxBytes))
    case Reopen =>
      State(s.db.(runs := Recover(s.db.runs)),
            map id | id in s.calls :: if s.calls[id].pc.Returned? then s.calls[id] else s.calls[id].(pc := Killed))
  }

  /** Steps that are not possible where they stand are skipped. */
  function Execute(history: seq<Step>): State {
    if history == [] then State(EMPTY, map[])
    else
      var before := Execute(history[..|history| - 1]);
      var e := history[|history| - 1];
      if Possible(before, e) then Perform(before, e) else before
  }

  // ---------------------------------------------------------------- what every history keeps

  /** The status a run can have while its verification is at a point. */
  predicate Fits(pc: Pc, status: Status) {
    match pc
    case Finished(finished) => status == finished && !status.Running?
    case Cached => status.Passed?
    case Kept => status.Passed?
    case Leaving(reply) => Told(reply, status)
    case Returned(reply) => Told(reply, status)
    case Killed => !status.Running?
    case _ => status.Running?
  }

  /** The stored status is the one the reply tells. */
  predicate Told(reply: Reply, status: Status) {
    if reply.Erred? then status == Error else status == reply.status && !status.Running?
  }

  /** What the final status says about the revision found after the run. */
  predicate Evident(call: Call, status: Status) {
    && (status.Passed? || status.Failed? ==> call.captured == Some(call.revision))
    && (status.Stale? ==> call.captured.Some? && call.captured != Some(call.revision))
  }

  /** The status is right for the verification, and for the point it reaches by closing its run. */
  predicate Closes(call: Call, pc: Pc, status: Status) {
    Fits(pc, status) && Evident(call, status)
  }

  ghost predicate RunsInv(db: Db, calls: map<nat, Call>) {
    && UniqueIds(db)
    && (forall r :: r in db.runs ==>
          && r.id in calls && r.revision == calls[r.id].revision
          && Fits(calls[r.id].pc, r.status) && Evident(calls[r.id], r.status))
  }

  /** A cached row is backed by a run that passed at its revision. */
  ghost predicate CacheInv(db: Db) {
    forall c, r :: c in db.cache && r in db.runs && r.id == c.run ==> r.status.Passed? && r.revision == c.revision
  }

  ghost predicate Lifecycle(s: State) {
    ForeignKeys(s.db) && RunsInv(s.db, s.calls) && CacheInv(s.db)
  }

  /** A step within one verification that leaves the tables alone. */
  lemma {:induction false} MoveKeeps(s: State, id: nat, pc: Pc)
    requires Lifecycle(s) && id in s.calls
    requires forall status :: Fits(s.calls[id].pc, status) ==> Fits(pc, status)
    ensures Lifecycle(Move(s, id, pc))
  {
  }

  lemma {:induction false} ShrunkKeeps(s: State, db: Db)
    requires Lifecycle(s) && Shrunk(db, s.db)
    ensures Lifecycle(s.(db := db))
  {
  }

  lemma {:induction false} PruneKeeps(s: State, cutoff: nat, maxBytes: nat)
    requires Lifecycle(s)
    ensures Lifecycle(s.(db := SizePass(AgePass(s.db, cutoff), maxBytes)))
  {
    PruneShrunk(s.db, cutoff, maxBytes);
    ShrunkKeeps(s, SizePass(AgePass(s.db, cutoff), maxBytes));
  }

  /** A closed table holds the other runs as they were and the one run with its final status. */
  lemma {:induction false} Closed(runs: seq<Run>, id: nat, desired: Status, current: nat, q: Run) returns (r: Run)
    requires q in Finish(runs, id, desired, current)
    ensures r in runs && r.id == q.id && r.revision == q.revision && r.startedAt == q.startedAt
    ensures q.status == if q.id == id then FinalStatus(q.revision, desired, current) else r.status
  {
    var i :| 0 <= i < |runs| && Finish(runs, id, desired, current)[i] == q;
    r := runs[i];
  }

  lemma {:induction false} CloseKeepsRuns(s: State, id: nat, desired: Status, current: nat, pc: Pc)
    requires RunsInv(s.db, s.calls) && id in s.calls
    requires HasRun(s.db, id) ==> Closes(s.calls[id], pc, FinalStatus(s.calls[id].revision, desired, current))
    ensures
      var done := Move(s.(db := s.db.(runs := Finish(s.db.runs, id, desired, current))), id, pc);
      RunsInv(done.db, done.calls)
  {
    var done := Move(s.(db := s.db.(runs := Finish(s.db.runs, id, desired, current))), id, pc);
    forall q | q in done.db.runs
      ensures q.id in done.calls && q.revision == done.calls[q.id].revision
      ensures Closes(done.calls[q.id], done.calls[q.id].pc, q.status)
    {
      var r := Closed(s.db.runs, id, desired, current, q);
    }
    forall p, q | p in done.db.runs && q in done.db.runs && p.id == q.id
      ensures p == q
    {
      var r := Closed(s.db.runs, id, desired, current, p);
      var r' := Closed(s.db.runs, id, desired, current, q);
    }
  }

  lemma {:induction false} CloseKeepsCache(s: State, id: nat, desired: Status, current: nat)
    requires Lifecycle(s) && id in s.calls
    requires forall status :: Fits(s.calls[id].pc, status) ==> status.Running?
    ensures CacheInv(s.db.(runs := Finish(s.db.runs, id, desired, current)))
  {
    forall c, q | c in s.db.cache && q in Finish(s.db.runs, id, desired, current) && q.id == c.run
      ensures q.status.Passed? && q.revision == c.revision
    {
      var r := Closed(s.db.runs, id, desired, current, q);
      assert r.status.Passed? && Fits(s.calls[r.id].pc, r.status);
    }
  }

  /** Closing the Running run of a verification with the status its next point expects. */
  lemma {:induction false} CloseKeeps(s: State, id: nat, desired: Status, current: nat, pc: Pc)
    requires Lifecycle(s) && id in s.calls
    requires forall status :: Fits(s.calls[id].pc, status) ==> status.Running?
    requires HasRun(s.db, id) ==> Closes(s.calls[id], pc, FinalStatus(s.calls[id].revision, desired, current))
    ensures Lifecycle(Move(s.(db := s.db.(runs := Finish(s.db.runs, id, desired, current))), id, pc))
  {
    FinishKeepsForeignKeys(s.db, id, desired, current);
    CloseKeepsRuns(s, id, desired, current, pc);
    CloseKeepsCache(s, id, desired, current);
  }

  /** A verification whose run is still open may note the revision it found. */
  lemma {:induction false} NoteKeeps(s: State, id: nat, current: nat)
    requires Lifecycle(s) && id in s.calls
    requires forall status :: Fits(s.calls[id].pc, status) ==> status.Running?
    ensures Lifecycle(Note(s, id, current))
  {
  }

  lemma {:induction false} BeginKeeps(s: State, e: Step)
    requires Lifecycle(s) && Possible(s, e) && e.Begin?
    ensures Lifecycle(Perform(s, e))
  {
    var s' := Perform(s, e);
    assert forall r :: r in s.db.runs ==> r.id != e.id && r in s'.db.runs;
    assert forall i :: HasRun(s.db, i) ==> HasRun(s'.db, i);
    assert forall c :: c in s.db.cache ==> c.run != e.id;
  }

  lemma {:induction false} RecoverKeepsForeignKeys(db: Db)
    requires ForeignKeys(db)
    ensures ForeignKeys(db.(runs := Recover(db.runs)))
  {
    SameRunIds(db, Recover(db.runs));
  }

  lemma {:induction false} ReopenKeeps(s: State)
    requires Lifecycle(s)
    ensures Lifecycle(Perform(s, Reopen))
  {
    var s' := Perform(s, Reopen);
    RecoverKeepsForeignKeys(s.db);
    forall q | q in s'.db.runs
      ensures exists r :: r in s.db.runs && q == if r.status.Running? then r.(status := Error) else r
    {
      var i :| 0 <= i < |s'.db.runs| && s'.db.runs[i] == q;
      assert s.db.runs[i] in s.db.runs;
    }
  }

  lemma {:induction false} SaveCacheKeeps(s: State, e: Step)
    requires Lifecycle(s) && Possible(s, e) && e.SaveCache?
    ensures Lifecycle(Perform(s, e))
  {
    var s' := Perform(s, e);
    assert forall i :: HasRun(s.db, i) ==> HasRun(s'.db, i);
  }

  /** Other rows: events of a run that exists, manifests and recordings. */
  lemma {:induction false} RowsKeep(s: State, db: Db)
    requires Lifecycle(s) && db.runs == s.db.runs && db.cache == s.db.cache
    requires forall e :: e in db.events ==> e in s.db.events || HasRun(s.db, e.run)
    ensures Lifecycle(s.(db := db))
  {
    assert forall i :: HasRun(s.db, i) ==> HasRun(db, i);
  }

  lemma {:induction false} EndKeeps(s: State, e: Step)
    requires Lifecycle(s) && Possible(s, e) && (e.CloseFailed? || e.Close?)
    ensures Lifecycle(Perform(s, e))
  {
    var call := s.calls[e.id];
    if e.CloseFailed? {
      CloseKeeps(s, e.id, Error, call.revision, Leaving(Erred));
    } else if HasRun(s.db, e.id) {
      var r := RevisionOfRun(s.db.runs, e.id);
      NoteKeeps(s, e.id, call.pc.current);
      CloseKeeps(Note(s, e.id, call.pc.current), e.id, e.desired, call.pc.current, Finished(Ended(s.db, e.id, e.desired, call.pc.current)));
    }
  }

  lemma {:induction false} ProceedKeeps(s: State, e: Step)
    requires Lifecycle(s) && Possible(s, e) && e.Proceed?
    ensures Lifecycle(Perform(s, e))
  {
    MoveKeeps(s, e.id, Onward(s.calls[e.id].pc, e.succeeds, e.current));
  }

  lemma {:induction false} SaveManifestKeeps(s: State, e: Step)
    requires Lifecycle(s) && Possible(s, e) && e.SaveManifest?
    ensures Lifecycle(Perform(s, e))
  {
    var db := SaveManifestRow(s.db, ManifestRow(s.calls[e.id].revision, e.at, e.size));
    RowsKeep(s, db);
    MoveKeeps(s.(db := db), e.id, Kept);
  }

  lemma {:induction false} PruneAfterKeeps(s: State, e: Step)
    requires Lifecycle(s) && Possible(s, e) && e.PruneAfter?
    ensures Lifecycle(Perform(s, e))
  {
    PruneKeeps(s, e.cutoff, e.maxBytes);
    MoveKeeps(s.(db := SizePass(AgePass(s.db, e.cutoff), e.maxBytes)), e.id, Perform(s, e).calls[e.id].pc);
  }

  lemma {:induction false} OtherRowsKeep(s: State, e: Step)
    requires Lifecycle(s) && Possible(s, e) && (e.Append? || e.SaveRecording?)
    ensures Lifecycle(Perform(s, e))
  {
    RowsKeep(s, Perform(s, e).db);
  }

  lemma {:induction false} StepKeeps(s: State, e: Step)
    requires Lifecycle(s) && Possible(s, e)
    ensures Lifecycle(Perform(s, e))
  {
    match e {
      case Begin(_, _, _, _) => BeginKeeps(s, e);
      case Proceed(_, _, _) => ProceedKeeps(s, e);
      case Append(_, _) => OtherRowsKeep(s, e);
      case CloseFailed(_) => EndKeeps(s, e);
      case Close(_, _) => EndKeeps(s, e);
      case SaveCache(_, _, _) => SaveCacheKeeps(s, e);
      case SaveManifest(_, _, _) => SaveManifestKeeps(s, e);
      case PruneAfter(_, _, _) => PruneAfterKeeps(s, e);
      case Return(id) => MoveKeeps(s, id, Returned(s.calls[id].pc.reply));
      case SaveRecording(_, _, _) => OtherRowsKeep(s, e);
      case Prune(cutoff, maxBytes) => PruneKeeps(s, cutoff, maxBytes);
      case Reopen => ReopenKeeps(s);
    }
  }

  lemma {:induction false} HistoryKeeps(history: seq<Step>)
    ensures Lifecycle(Execute(history))
  {
    if history != [] {
      var before, e := Execute(history[..|history| - 1]), history[|history| - 1];
      HistoryKeeps(history[..|history| - 1]);
      if Possible(before, e) {
        StepKeeps(before, e);
      }
    }
  }

  /** The points at which a verification has an open run: up to the call that closes it. */
  predicate Open(pc: Pc) {
    Underway(pc) || pc.Captured? || pc.Failing?
  }

  /** Over every history of verifications with all their exits, other writes, pruning and crashes:
      the run of a verification that has returned is gone or has the status the reply told, Error for
      every early exit, and is never Running; a Running run belongs to a verification that has not
      closed it yet; a run passed or failed only if the revision found after it is the one it started
      from, and is Stale only if it is another; and every cached row names an existing run that passed
      at the row's revision, before and after. */
  lemma {:induction false} StoreHistories(history: seq<Step>)
    ensures
      var s := Execute(history);
      && (forall id, r :: id in s.calls && s.calls[id].pc.Returned? && r in s.db.runs && r.id == id ==>
            Told(s.calls[id].pc.reply, r.status) && !r.status.Running?)
      && (forall r :: r in s.db.runs ==> r.id in s.calls && (r.status.Running? <==> Open(s.calls[r.id].pc)))
      && (forall r :: r in s.db.runs && (r.status.Passed? || r.status.Failed?) ==>
            s.calls[r.id].captured == Some(r.revision))
      && (forall r :: r in s.db.runs && r.status.Stale? ==>
            s.calls[r.id].captured.Some? && s.calls[r.id].captured.value != r.revision)
      && (forall c :: c in s.db.cache ==>
            exists r :: r in s.db.runs && r.id == c.run && r.status.Passed? && r.revision == c.revision
                        && s.calls[r.id].captured == Some(c.revision))
  {
    HistoryKeeps(history);
    var s := Execute(history);
    forall c | c in s.db.cache
      ensures exists r :: r in s.db.runs && r.id == c.run && r.status.Passed? && r.revision == c.revision
                          && s.calls[r.id].captured == Some(c.revision)
    {
      assert HasRun(s.db, c.run);
    }
  }

  // ---------------------------------------------------------------- what gets into the cache

  /** Past a pass: the verification may have left a cache row or a manifest. */
  predicate Passing(pc: Pc) {
    pc == Finished(Passed) || pc.Cached? || pc.Kept?
  }

  /** A verification of default requests that found its own revision again after the run. */
  predicate Vouches(call: Call, revision: nat) {
    call.cacheable && call.revision == revision && call.captured == Some(revision)
  }

  ghost predicate VouchedInv(s: State) {
    && (forall id :: id in s.calls && Passing(s.calls[id].pc) ==> s.calls[id].captured == Some(s.calls[id].revision))
    && (forall id :: id in s.calls && (s.calls[id].pc.Cached? || s.calls[id].pc.Kept?) ==> s.calls[id].cacheable)
    && (forall c :: c in s.db.cache ==> c.run in s.calls && Vouches(s.calls[c.run], c.revision))
    && (forall m :: m in s.db.manifests ==> exists id :: id in s.calls && Vouches(s.calls[id], m.revision))
  }

  lemma {:induction false} CallsVouchOn(s: State, e: Step, id: nat, revision: nat)
    requires Possible(s, e) && id in s.calls && Vouches(s.calls[id], revision)
    requires forall k :: k in s.calls && s.calls[k].pc.Captured? ==> s.calls[k].captured.None?
    ensures id in Perform(s, e).calls && Vouches(Perform(s, e).calls[id], revision)
  {
  }

  /** The captured revision is noted once, when the run is closed. */
  ghost predicate NotedInv(s: State) {
    forall id :: id in s.calls && Open(s.calls[id].pc) ==> s.calls[id].captured.None?
  }

  lemma {:induction false} NotedStep(s: State, e: Step)
    requires NotedInv(s) && Possible(s, e)
    ensures NotedInv(Perform(s, e))
  {
  }

  lemma {:induction false} PassesVouch(s: State, e: Step, id: nat)
    requires Lifecycle(s) && VouchedInv(s) && Possible(s, e)
    requires id in Perform(s, e).calls && Passing(Perform(s, e).calls[id].pc)
    ensures Perform(s, e).calls[id].captured == Some(Perform(s, e).calls[id].revision)
  {
    if e.Close? && e.id == id && HasRun(s.db, id) {
      var r := RevisionOfRun(s.db.runs, id);
    }
  }

  lemma {:induction false} RowsOfPruned(db: Db, cutoff: nat, maxBytes: nat)
    requires ForeignKeys(db)
    ensures forall c :: c in SizePass(AgePass(db, cutoff), maxBytes).cache ==> c in db.cache
    ensures forall m :: m in SizePass(AgePass(db, cutoff), maxBytes).manifests ==> m in db.manifests
  {
    PruneShrunk(db, cutoff, maxBytes);
    SizePassManifests(AgePass(db, cutoff), maxBytes);
  }

  lemma {:induction false} SizePassManifests(db: Db, maxBytes: nat)
    ensures forall m :: m in SizePass(db, maxBytes).manifests ==> m in db.manifests
    decreases Removable(db)
  {
    if Payload(db) > maxBytes && Items(db) != [] {
      RemoveShrinks(db, Oldest(Items(db)));
      SizePassManifests(Remove(db, Oldest(Items(db))), maxBytes);
    }
  }

  lemma {:induction false} RowsVouched(s: State, e: Step)
    requires Lifecycle(s) && VouchedInv(s) && NotedInv(s) && Possible(s, e)
    ensures
      var s' := Perform(s, e);
      && (forall c :: c in s'.db.cache ==> c.run in s'.calls && Vouches(s'.calls[c.run], c.revision))
      && (forall m :: m in s'.db.manifests ==> exists id :: id in s'.calls && Vouches(s'.calls[id], m.revision))
  {
    var s' := Perform(s, e);
    if e.Prune? || e.PruneAfter? {
      RowsOfPruned(s.db, e.cutoff, e.maxBytes);
    }
    forall c | c in s'.db.cache
      ensures c.run in s'.calls && Vouches(s'.calls[c.run], c.revision)
    {
      if c in s.db.cache {
        CallsVouchOn(s, e, c.run, c.revision);
      }
    }
    forall m | m in s'.db.manifests
      ensures exists id :: id in s'.calls && Vouches(s'.calls[id], m.revision)
    {
      if m in s.db.manifests {
        var id :| id in s.calls && Vouches(s.calls[id], m.revision);
        CallsVouchOn(s, e, id, m.revision);
      } else {
        assert Vouches(s'.calls[e.id], m.revision);
      }
    }
  }

  lemma {:induction false} VouchedHistory(history: seq<Step>)
    ensures VouchedInv(Execute(history)) && NotedInv(Execute(history))
  {
    if history != [] {
      var before, e := Execute(history[..|history| - 1]), history[|history| - 1];
      VouchedHistory(history[..|history| - 1]);
      HistoryKeeps(history[..|history| - 1]);
      if Possible(before, e) {
        NotedStep(before, e);
        RowsVouched(before, e);
        forall id | id in Perform(before, e).calls && Passing(Perform(before, e).calls[id].pc)
          ensures Perform(before, e).calls[id].captured == Some(Perform(before, e).calls[id].revision)
        {
          PassesVouch(before, e, id);
        }
      }
    }
  }

  /** Only default verifications that passed feed the impact selection: over every history each cached
      row and each revision manifest was saved by a verification of default requests, for the revision
      it started from and found again after the run. */
  lemma {:induction false} OnlyDefaultsAreCached(history: seq<Step>)
    ensures
      var s := Execute(history);
      && (forall c :: c in s.db.cache ==> c.run in s.calls && Vouches(s.calls[c.run], c.revision))
      && (forall m :: m in s.db.manifests ==> exists id :: id in s.calls && Vouches(s.calls[id], m.revision))
  {
    VouchedHistory(history);
  }

  /** After a crash and a reopen nothing is Running: every run that was open at the crash is an Error, and
      every other one is as it was. */
  lemma {:induction false} ReopenedMeansClosed(history: seq<Step>)
    ensures forall r :: r in Execute(history + [Reopen]).db.runs ==> !r.status.Running?
    ensures forall r :: r in Execute(history).db.runs ==>
      && r.id in Execute(history).calls
      && r.(status := if Open(Execute(history).calls[r.id].pc) then Error else r.status) in Execute(history + [Reopen]).db.runs
  {
    assert (history + [Reopen])[..|history|] == history;
    HistoryKeeps(history + [Reopen]);
    StoreHistories(history);
    var runs := Execute(history).db.runs;
    forall r | r in runs
      ensures r.(status := if r.status.Running? then Error else r.status) in Recover(runs)
    {
      var i :| 0 <= i < |runs| && runs[i] == r;
      assert Recover(runs)[i] == r.(status := if r.status.Running? then Error else r.status);
    }
  }
}
