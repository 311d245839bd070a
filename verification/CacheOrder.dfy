/** Retention and the success cache: pruning drops the oldest cached revisions.

    The impact selection takes the newest cached revision as its baseline, so it matters that pruning,
    which removes runs and cascades to their cache rows, never removes a row and keeps an older one. */
module CacheOrder {
  import opened Tables
  import opened Store
  import L = RunLifecycle

  function RunItem(r: Run): Item {
    Item(RunKind, r.id, r.startedAt)
  }

  /** The runs as the size pass sees them. */
  function Starts(runs: seq<Run>): set<Item> {
    set r | r in runs :: RunItem(r)
  }

  /** The run of the earlier of two cache rows is not removed after the other's. */
  ghost predicate Ordered(db: Db) {
    forall i, j, x, y ::
      0 <= i < j < |db.cache| && x in Starts(db.runs) && y in Starts(db.runs)
      && x.id == db.cache[i].run && y.id == db.cache[j].run
      ==> NotAfter(x, y)
  }

  /** Deleting runs from the old end drops a prefix of the cache rows. */
  lemma {:induction false} DeletingOldRuns(db: Db, gone: Run -> bool) returns (k: nat)
    requires ForeignKeys(db) && Ordered(db)
    requires forall r, q :: r in db.runs && q in db.runs && NotAfter(RunItem(r), RunItem(q)) && gone(q) ==> gone(r)
    ensures k <= |db.cache| && DeleteRuns(db, gone).cache == db.cache[k..]
  {
    var kept := db.(runs := Filter(db.runs, (r: Run) => !gone(r)));
    var keep := (c: CacheRow) => HasRun(kept, c.run);
    forall i, j | 0 <= i < j < |db.cache| && keep(db.cache[i])
      ensures keep(db.cache[j])
    {
      var r :| r in kept.runs && r.id == db.cache[i].run;
      assert db.cache[j] in db.cache;
      var q :| q in db.runs && q.id == db.cache[j].run;
      assert RunItem(r) in Starts(db.runs) && RunItem(q) in Starts(db.runs);
      assert NotAfter(RunItem(r), RunItem(q));
      assert q in kept.runs;
    }
    k := FilterSuffix(db.cache, keep);
  }

  lemma {:induction false} SuffixOrdered(db: Db, from: Db, k: nat)
    requires Ordered(from) && k <= |from.cache| && db.cache == from.cache[k..]
    requires Starts(db.runs) <= Starts(from.runs)
    ensures Ordered(db)
  {
  }

  lemma {:induction false} OldestDropsPrefix(db: Db) returns (k: nat)
    requires ForeignKeys(db) && UniqueIds(db) && Ordered(db) && Items(db) != []
    ensures k <= |db.cache| && Remove(db, Oldest(Items(db))).cache == db.cache[k..]
  {
    var item := Oldest(Items(db));
    if item.kind.RunKind? {
      var at :| 0 <= at < |Items(db)| && Items(db)[at] == item;
      var oldest := db.runs[at];
      assert oldest in db.runs && RunItem(oldest) == item;
      forall r, q | r in db.runs && q in db.runs && NotAfter(RunItem(r), RunItem(q)) && q.id == item.id
        ensures r.id == item.id
      {
        assert q == oldest;
        var n :| 0 <= n < |db.runs| && db.runs[n] == r;
        assert Items(db)[n] == RunItem(r) && RunItem(r) in Items(db);
        assert NotAfter(item, RunItem(r)) && NotAfter(RunItem(r), item);
      }
      k := DeletingOldRuns(db, (r: Run) => r.id == item.id);
    } else {
      k := 0;
    }
  }

  lemma {:induction false} SizePassDropsPrefix(db: Db, maxBytes: nat) returns (k: nat)
    requires ForeignKeys(db) && UniqueIds(db) && Ordered(db)
    ensures k <= |db.cache| && SizePass(db, maxBytes).cache == db.cache[k..]
    decreases Removable(db)
  {
    if Payload(db) <= maxBytes || Items(db) == [] {
      k := 0;
    } else {
      var item := Oldest(Items(db));
      var left := Remove(db, item);
      var first := OldestDropsPrefix(db);
      RemoveShrinks(db, item);
      RemoveShrunk(db, item);
      SuffixOrdered(left, db, first);
      var more := SizePassDropsPrefix(left, maxBytes);
      k := first + more;
      assert db.cache[first..][more..] == db.cache[k..];
    }
  }

  /** Pruning by age and by size drops a prefix of the cache rows: the oldest ones. */
  lemma {:induction false} PruneDropsOldest(db: Db, cutoff: nat, maxBytes: nat) returns (k: nat)
    requires ForeignKeys(db) && UniqueIds(db) && Ordered(db)
    ensures k <= |db.cache| && SizePass(AgePass(db, cutoff), maxBytes).cache == db.cache[k..]
    ensures Ordered(SizePass(AgePass(db, cutoff), maxBytes))
  {
    var aged := AgePass(db, cutoff);
    var first := DeletingOldRuns(db, (r: Run) => r.startedAt < cutoff);
    assert aged.cache == db.cache[first..];
    AgePassShrunk(db, cutoff);
    SuffixOrdered(aged, db, first);
    var more := SizePassDropsPrefix(aged, maxBytes);
    k := first + more;
    assert db.cache[first..][more..] == db.cache[k..];
    PruneShrunk(db, cutoff, maxBytes);
    SuffixOrdered(SizePass(aged, maxBytes), db, k);
  }

  // ---------------------------------------------------------------- histories in turn

  /** A verification saves its cache row only after those whose runs started before its own. */
  ghost predicate InTurn(s: L.State, e: L.Step) {
    e.SaveCache? && L.Possible(s, e) ==> LastStarted(s.db, e.id)
  }

  /** No run is removed after the run of this verification. */
  ghost predicate LastStarted(db: Db, id: nat) {
    forall x, y :: x in Starts(db.runs) && y in Starts(db.runs) && y.id == id ==> NotAfter(x, y)
  }

  lemma {:induction false} RewrittenRuns(runs: seq<Run>, from: seq<Run>)
    requires |runs| == |from| && forall i :: 0 <= i < |runs| ==> RunItem(runs[i]) == RunItem(from[i])
    ensures Starts(runs) == Starts(from)
  {
    forall q | q in runs
      ensures RunItem(q) in Starts(from)
    {
      var i :| 0 <= i < |runs| && runs[i] == q;
      assert from[i] in from;
    }
    forall r | r in from
      ensures RunItem(r) in Starts(runs)
    {
      var i :| 0 <= i < |from| && from[i] == r;
      assert runs[i] in runs;
    }
  }

  /** Apart from beginning a run, no step adds one or changes when one started. */
  lemma {:induction false} StartsShrink(s: L.State, e: L.Step)
    requires L.Lifecycle(s) && L.Possible(s, e) && !e.Begin?
    ensures Starts(L.Perform(s, e).db.runs) <= Starts(s.db.runs)
  {
    var s' := L.Perform(s, e);
    if e.Prune? || e.PruneAfter? {
      PruneShrunk(s.db, e.cutoff, e.maxBytes);
    } else {
      RewrittenRuns(s'.db.runs, s.db.runs);
    }
  }

  lemma {:induction false} BeginOrdered(s: L.State, e: L.Step)
    requires L.Lifecycle(s) && Ordered(s.db) && L.Possible(s, e) && e.Begin?
    ensures Ordered(L.Perform(s, e).db)
  {
    var s' := L.Perform(s, e);
    forall i, x | 0 <= i < |s.db.cache| && x in Starts(s'.db.runs) && x.id == s.db.cache[i].run
      ensures x in Starts(s.db.runs)
    {
      assert s.db.cache[i] in s.db.cache && HasRun(s.db, s.db.cache[i].run);
    }
  }

  lemma {:induction false} SaveCacheOrdered(db: Db, row: CacheRow)
    requires Ordered(db) && LastStarted(db, row.run)
    ensures Ordered(SaveCacheRow(db, row))
  {
    var done := SaveCacheRow(db, row);
    var keep := (c: CacheRow) => c.revision != row.revision;
    var others := Filter(db.cache, keep);
    assert done.cache == others + [row];
    forall i, j, x, y | 0 <= i < j < |done.cache| && x in Starts(db.runs) && y in Starts(db.runs)
                        && x.id == done.cache[i].run && y.id == done.cache[j].run
      ensures NotAfter(x, y)
    {
      if j < |others| {
        var m, n := FilterInOrder(db.cache, keep, i, j);
      }
    }
  }

  lemma {:induction false} StepOrdered(s: L.State, e: L.Step)
    requires L.Lifecycle(s) && Ordered(s.db) && L.Possible(s, e) && InTurn(s, e)
    ensures Ordered(L.Perform(s, e).db)
  {
    if e.Prune? || e.PruneAfter? {
      var k := PruneDropsOldest(s.db, e.cutoff, e.maxBytes);
    } else if e.SaveCache? {
      if HasRun(s.db, e.id) {
        SaveCacheOrdered(s.db, CacheRow(s.calls[e.id].revision, e.id, e.at, e.size));
      }
    } else if e.Begin? {
      BeginOrdered(s, e);
    } else {
      StartsShrink(s, e);
      assert L.Perform(s, e).db.cache == s.db.cache[0..];
      SuffixOrdered(L.Perform(s, e).db, s.db, 0);
    }
  }

  /** Over every history in which verifications cache in the order in which their runs started, each
      pruning drops the oldest cached revisions and no others. */
  lemma {:induction false} HistoriesInTurn(history: seq<L.Step>, cutoff: nat, maxBytes: nat) returns (k: nat)
    requires forall i {:trigger history[i]} :: 0 <= i < |history| ==> InTurn(L.Execute(history[..i]), history[i])
    ensures
      var db := L.Execute(history).db;
      Ordered(db) && k <= |db.cache| && SizePass(AgePass(db, cutoff), maxBytes).cache == db.cache[k..]
  {
    if history != [] {
      var n := |history| - 1;
      var front := history[..n];
      forall i {:trigger front[i]} | 0 <= i < n
        ensures InTurn(L.Execute(front[..i]), front[i])
      {
        assert front[..i] == history[..i] && front[i] == history[i];
      }
      var _ := HistoriesInTurn(front, cutoff, maxBytes);
      L.HistoryKeeps(front);
      assert InTurn(L.Execute(front), history[n]);
      if L.Possible(L.Execute(front), history[n]) {
        StepOrdered(L.Execute(front), history[n]);
      }
    }
    L.HistoryKeeps(history);
    k := PruneDropsOldest(L.Execute(history).db, cutoff, maxBytes);
  }

  // ---------------------------------------------------------------- one verification at a time

  predicate Over(pc: L.Pc) {
    pc.Returned? || pc.Killed?
  }

  /** A run begins only when every earlier verification is over, and is not removed before theirs. */
  ghost predicate Alone(s: L.State, e: L.Step) {
    e.Begin? && L.Possible(s, e) ==>
      && (forall id :: id in s.calls ==> Over(s.calls[id].pc))
      && (forall x :: x in Starts(s.db.runs) ==> x.createdAt < e.at || (x.createdAt == e.at && x.id <= e.id))
  }

  ghost predicate OneAtATime(history: seq<L.Step>) {
    forall i {:trigger history[i]} :: 0 <= i < |history| ==> Alone(L.Execute(history[..i]), history[i])
  }

  /** A verification that is not over has the run that started last. */
  ghost predicate Serial(s: L.State) {
    forall id :: id in s.calls && !Over(s.calls[id].pc) ==> LastStarted(s.db, id)
  }

  lemma {:induction false} StepSerial(s: L.State, e: L.Step)
    requires L.Lifecycle(s) && Serial(s) && L.Possible(s, e) && Alone(s, e)
    ensures Serial(L.Perform(s, e))
  {
    var s' := L.Perform(s, e);
    if e.Begin? {
      BeginSerial(s, e);
    } else {
      StartsShrink(s, e);
      forall id | id in s'.calls && !Over(s'.calls[id].pc)
        ensures LastStarted(s'.db, id)
      {
        assert id in s.calls && !Over(s.calls[id].pc);
        assert LastStarted(s.db, id);
      }
    }
  }

  lemma {:induction false} BeginSerial(s: L.State, e: L.Step)
    requires L.Lifecycle(s) && L.Possible(s, e) && Alone(s, e) && e.Begin?
    ensures Serial(L.Perform(s, e))
  {
    var s', added := L.Perform(s, e), Item(RunKind, e.id, e.at);
    forall x | x in Starts(s'.db.runs)
      ensures NotAfter(x, added) && (x.id == e.id ==> x == added)
    {
      var r :| r in s'.db.runs && RunItem(r) == x;
      assert r in s.db.runs ==> x in Starts(s.db.runs) && r.id != e.id;
    }
  }

  lemma {:induction false} SerialHistory(history: seq<L.Step>)
    requires OneAtATime(history)
    ensures Serial(L.Execute(history))
  {
    if history != [] {
      var n := |history| - 1;
      OneAtATimePrefix(history, n);
      SerialHistory(history[..n]);
      L.HistoryKeeps(history[..n]);
      assert Alone(L.Execute(history[..n]), history[n]);
      if L.Possible(L.Execute(history[..n]), history[n]) {
        StepSerial(L.Execute(history[..n]), history[n]);
      }
    }
  }

  lemma {:induction false} OneAtATimePrefix(history: seq<L.Step>, n: nat)
    requires OneAtATime(history) && n <= |history|
    ensures OneAtATime(history[..n])
  {
    var front := history[..n];
    forall i {:trigger front[i]} | 0 <= i < n
      ensures Alone(L.Execute(front[..i]), front[i])
    {
      assert front[..i] == history[..i] && front[i] == history[i];
    }
  }

  /** Verifications that run one at a time cache in turn, so each pruning after them drops the oldest
      cached revisions and no others. */
  lemma {:induction false} OneAtATimeDropsOldest(history: seq<L.Step>, cutoff: nat, maxBytes: nat) returns (k: nat)
    requires OneAtATime(history)
    ensures
      var db := L.Execute(history).db;
      k <= |db.cache| && SizePass(AgePass(db, cutoff), maxBytes).cache == db.cache[k..]
  {
    forall i {:trigger history[i]} | 0 <= i < |history|
      ensures InTurn(L.Execute(history[..i]), history[i])
    {
      OneAtATimePrefix(history, i);
      SerialHistory(history[..i]);
    }
    k := HistoriesInTurn(history, cutoff, maxBytes);
  }
}
