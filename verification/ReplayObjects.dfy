/** The two monitors, driven by a run of the protocol.

    The transition system and the classes use the same decisions; this module shows that they also
    keep the same fields: whatever the threads do, calling the objects in the order of the run's
    steps gives the replies and leaves the fields that the protocol predicts. */
module ReplayObjects {
  import opened ReplayScheduler
  import opened InputTape
  import opened ReplayProtocol

  /** The objects' fields are the protocol's, and each waiting thread's raw type is known. */
  ghost predicate Mirrors(c: Config, s: State, scheduler: Scheduler, tape: Tape, rawTypes: map<ThreadId, string>)
    reads scheduler, tape
  {
    && scheduler.expected == c.expected && scheduler.cursor == s.cursor && scheduler.writing == s.writing
    && tape.entries == c.tape && tape.cursor == s.tapeCursor
    && forall t: ThreadId :: PcOf(s, t).AtGate? ==> t in rawTypes && rawTypes[t] == PcOf(s, t).rawType
  }

  datatype Reply = Silent | FromTape(taking: Taking) | FromScheduler(verdict: Verdict)

  /** What the monitor called by a step replies; an input that is taken is the entry at the cursor. */
  predicate Replies(c: Config, s: State, e: Event, reply: Reply) {
    match e
    case Begin(_, _) => reply.Silent?
    case Take(_, kind) =>
      && reply.FromTape? && reply.taking.Taken?
      && s.tapeCursor < |c.tape| && c.tape[s.tapeCursor] == TapeEntry(kind, reply.taking.encoded)
    case Spoil(_, _) => reply == FromTape(WrongKind)
    case RunOut(_, _) => reply == FromTape(Ended)
    case Admit(_) => reply == FromScheduler(Pass)
    case Refuse(_) => reply == FromScheduler(Exceeded) || reply == FromScheduler(Mismatch)
    case GiveUp(_) => reply.Silent?         // the wait throws; the fields are not read again
    case Leave(_) => reply.Silent?
    case FailWrite(_) => reply.Silent?
  }

  method DriveStep(
    ghost c: Config, ghost s: State, e: Event, key: string,
    scheduler: Scheduler, tape: Tape, rawTypes: map<ThreadId, string>)
    returns (known: map<ThreadId, string>, reply: Reply)
    requires Mirrors(c, s, scheduler, tape, rawTypes) && Enabled(c, s, e) && key == c.keyOf(e.t)
    modifies scheduler, tape
    ensures Mirrors(c, Apply(c, s, e), scheduler, tape, known)
    ensures Replies(c, s, e, reply)
  {
    known, reply := rawTypes, Silent;
    if e.Begin? {
      known := rawTypes[e.t := e.rawType];
    } else if e.Leave? || e.FailWrite? {
      scheduler.After();
    } else if e.GiveUp? {
      reply := Silent;
    } else if e.Take? || e.Spoil? || e.RunOut? {
      var taking := tape.Take(e.kind);
      reply := FromTape(taking);
      if e.Take? {
        known := rawTypes[e.t := "INPUT"];
      }
    } else {
      var verdict := scheduler.Before(rawTypes[e.t], key);
      reply := FromScheduler(verdict);
    }
  }

  /** Driving the objects through any run of the protocol gives the replies the run's steps stand for
      and leaves the protocol's final fields. */
  method Drive(c: Config, run: seq<Event>, scheduler: Scheduler, tape: Tape)
    returns (rawTypes: map<ThreadId, string>, replies: seq<Reply>)
    requires Run(c, run).Some? && Mirrors(c, INITIAL, scheduler, tape, map[])
    modifies scheduler, tape
    ensures Mirrors(c, Run(c, run).value, scheduler, tape, rawTypes)
    ensures |replies| == |run|
    ensures forall i :: 0 <= i < |run| ==> Run(c, run[..i]).Some? && Replies(c, Run(c, run[..i]).value, run[i], replies[i])
    decreases |run|
  {
    if run == [] {
      return map[], [];
    }
    var front, e := run[..|run| - 1], run[|run| - 1];
    rawTypes, replies := Drive(c, front, scheduler, tape);
    assert forall i :: 0 <= i < |front| ==> front[..i] == run[..i];
    var reply;
    rawTypes, reply := DriveStep(c, Run(c, front).value, e, c.keyOf(e.t), scheduler, tape, rawTypes);
    replies := replies + [reply];
  }
}
