/** The daemon's store: runs, success cache and retention, over tables of rows.

    Run, recording and revision identifiers are numbers in the order SQLite collates them, and times
    are numbers; a payload is its compressed size. */
module Store {
  import opened Tables

  datatype Status = Running | Passed | Failed | Stale | Error

  datatype Run = Run(id: nat, revision: nat, status: Status, startedAt: nat)
  datatype EventRow = EventRow(run: nat, size: nat)
  datatype RecordingRow = RecordingRow(id: nat, createdAt: nat, size: nat)
  datatype CacheRow = CacheRow(revision: nat, run: nat, createdAt: nat, size: nat)
  datatype ManifestRow = ManifestRow(revision: nat, createdAt: nat, size: nat)

  datatype Db = Db(
    runs: seq<Run>,
    events: seq<EventRow>,
    recordings: seq<RecordingRow>,
    cache: seq<CacheRow>,
    manifests: seq<ManifestRow>)

  const EMPTY := Db([], [], [], [], [])

  predicate HasRun(db: Db, id: nat) {
    exists r :: r in db.runs && r.id == id
  }

  ghost predicate UniqueIds(db: Db) {
    forall r, q :: r in db.runs && q in db.runs && r.id == q.id ==> r == q
  }

  ghost predicate ForeignKeys(db: Db) {
    && (forall e :: e in db.events ==> HasRun(db, e.run))
    && (forall c :: c in db.cache ==> HasRun(db, c.run))
  }

  function Payload(db: Db): nat {
    Sum(db.events, (e: EventRow) => e.size) + Sum(db.recordings, (r: RecordingRow) => r.size)
    + Sum(db.cache, (c: CacheRow) => c.size) + Sum(db.manifests, (m: ManifestRow) => m.size)
  }

  /** Every stored byte counts: of events, recordings, cached outcomes and manifests alike. */
  lemma {:induction false} PayloadCountsRows(db: Db, e: EventRow, r: RecordingRow, c: CacheRow, m: ManifestRow)
    ensures Payload(EMPTY) == 0
    ensures Payload(db.(events := db.events + [e])) == Payload(db) + e.size
    ensures Payload(db.(recordings := db.recordings + [r])) == Payload(db) + r.size
    ensures Payload(db.(cache := db.cache + [c])) == Payload(db) + c.size
    ensures Payload(db.(manifests := db.manifests + [m])) == Payload(db) + m.size
  {
    SumSnoc(db.events, (e: EventRow) => e.size, e);
    SumSnoc(db.recordings, (r: RecordingRow) => r.size, r);
    SumSnoc(db.cache, (c: CacheRow) => c.size, c);
    SumSnoc(db.manifests, (m: ManifestRow) => m.size, m);
  }

  // ---------------------------------------------------------------- retention

  /** Deleting runs cascades to their events and cache rows. */
  function DeleteRuns(db: Db, gone: Run -> bool): Db {
    var kept := db.(runs := Filter(db.runs, (r: Run) => !gone(r)));
    kept.(events := Filter(db.events, (e: EventRow) => HasRun(kept, e.run)),
          cache := Filter(db.cache, (c: CacheRow) => HasRun(kept, c.run)))
  }

  function AgePass(db: Db, cutoff: nat): Db {
    DeleteRuns(db, (r: Run) => r.startedAt < cutoff).(
    recordings := Filter(db.recordings, (r: RecordingRow) => r.createdAt >= cutoff),
    manifests := Filter(db.manifests, (m: ManifestRow) => m.createdAt >= cutoff))
  }

  /** What the size pass may remove, in the order of the kind names. */
  datatype Kind = ManifestKind | RecordingKind | RunKind

  datatype Item = Item(kind: Kind, id: nat, createdAt: nat)

  function KindRank(kind: Kind): nat {
    match kind
    case ManifestKind => 0
    case RecordingKind => 1
    case RunKind => 2
  }

  /** ORDER BY created_at, kind, id. */
  predicate NotAfter(a: Item, b: Item) {
    || a.createdAt < b.createdAt
    || (a.createdAt == b.createdAt && KindRank(a.kind) < KindRank(b.kind))
    || (a.createdAt == b.createdAt && a.kind == b.kind && a.id <= b.id)
  }

  function Items(db: Db): seq<Item> {
    seq(|db.runs|, i requires 0 <= i < |db.runs| => Item(RunKind, db.runs[i].id, db.runs[i].startedAt))
    + seq(|db.recordings|, i requires 0 <= i < |db.recordings| =>
      Item(RecordingKind, db.recordings[i].id, db.recordings[i].createdAt))
    + seq(|db.manifests|, i requires 0 <= i < |db.manifests| =>
      Item(ManifestKind, db.manifests[i].revision, db.manifests[i].createdAt))
  }

  function Oldest(items: seq<Item>): (oldest: Item)
    requires items != []
    ensures oldest in items
    ensures forall i :: i in items ==> oldest.createdAt <= i.createdAt
    ensures forall i :: i in items && i.createdAt == oldest.createdAt ==>
      (oldest.kind.RunKind? ==> i.kind.RunKind?) && (i.kind.ManifestKind? ==> oldest.kind.ManifestKind?)
    ensures forall i :: i in items && i.createdAt == oldest.createdAt && i.kind == oldest.kind ==> oldest.id <= i.id
    ensures forall i :: i in items ==> NotAfter(oldest, i)
  {
    if |items| == 1 then items[0]
    else
      var rest := Oldest(items[1..]);
      assert forall i :: i in items ==> i == items[0] || i in items[1..];
      if NotAfter(items[0], rest) then items[0] else rest
  }

  function Remove(db: Db, item: Item): Db {
    match item.kind
    case RunKind => DeleteRuns(db, (r: Run) => r.id == item.id)
    case RecordingKind => db.(recordings := Filter(db.recordings, (r: RecordingRow) => r.id != item.id))
    case ManifestKind => db.(manifests := Filter(db.manifests, (m: ManifestRow) => m.revision != item.id))
  }

  function Removable(db: Db): nat {
    |db.runs| + |db.recordings| + |db.manifests|
  }

  lemma RemoveShrinks(db: Db, item: Item)
    requires item in Items(db)
    ensures Removable(Remove(db, item)) < Removable(db)
  {
    var i :| 0 <= i < |Items(db)| && Items(db)[i] == item;
    match item.kind {
      case RunKind =>
        FilterShrinks(db.runs, (r: Run) => !(r.id == item.id), db.runs[i]);
        var gone := (r: Run) => r.id == item.id;
        assert Remove(db, item).runs == Filter(db.runs, (r: Run) => !gone(r));
        FilterShrinks(db.runs, (r: Run) => !gone(r), db.runs[i]);
      case RecordingKind =>
        FilterShrinks(db.recordings, (r: RecordingRow) => r.id != item.id, db.recordings[i - |db.runs|]);
      case ManifestKind =>
        FilterShrinks(db.manifests, (m: ManifestRow) => m.revision != item.id,
                      db.manifests[i - |db.runs| - |db.recordings|]);
    }
  }

  /** The size pass: remove the oldest item until the payload fits. */
  function SizePass(db: Db, maxBytes: nat): Db
    decreases Removable(db)
  {
    if Payload(db) <= maxBytes || Items(db) == [] then db
    else
      RemoveShrinks(db, Oldest(Items(db)));
      SizePass(Remove(db, Oldest(Items(db))), maxBytes)
  }

  lemma {:induction false} SizePassStep(db: Db, maxBytes: nat)
    requires ForeignKeys(db) && Payload(db) > maxBytes && Items(db) != []
    ensures
      var left := Remove(db, Oldest(Items(db)));
      ForeignKeys(left) && Removable(left) < Removable(db) && SizePass(db, maxBytes) == SizePass(left, maxBytes)
  {
    RemoveShrinks(db, Oldest(Items(db)));
    RemoveKeepsForeignKeys(db, Oldest(Items(db)));
  }

  lemma DeleteRunsKeepsForeignKeys(db: Db, gone: Run -> bool)
    ensures ForeignKeys(DeleteRuns(db, gone))
  {
    var kept := db.(runs := Filter(db.runs, (r: Run) => !gone(r)));
    var done := DeleteRuns(db, gone);
    forall id | HasRun(kept, id)
      ensures HasRun(done, id)
    {
      var r :| r in kept.runs && r.id == id;
      assert r in done.runs;
    }
  }

  lemma RemoveKeepsForeignKeys(db: Db, item: Item)
    requires ForeignKeys(db)
    ensures ForeignKeys(Remove(db, item))
  {
    var done := Remove(db, item);
    if item.kind.RunKind? {
      DeleteRunsKeepsForeignKeys(db, (r: Run) => r.id == item.id);
    } else {
      assert done.runs == db.runs;
      assert forall id :: HasRun(db, id) ==> HasRun(done, id);
    }
  }

  /** The row belongs to the removed item: it is the item, or it hangs on the removed run. */
  predicate OfRun(item: Item, run: nat) {
    item.kind.RunKind? && item.id == run
  }

  /** Removing an item removes its own rows, cascades to what hangs on a removed run, and touches
      nothing else. */
  lemma {:induction false} RemoveIsExact(db: Db, item: Item)
    requires ForeignKeys(db)
    ensures
      var done := Remove(db, item);
      && (forall r :: r in done.runs <==> r in db.runs && !OfRun(item, r.id))
      && (forall e :: e in done.events <==> e in db.events && !OfRun(item, e.run))
      && (forall c :: c in done.cache <==> c in db.cache && !OfRun(item, c.run))
      && (forall r :: r in done.recordings <==> r in db.recordings && !(item.kind.RecordingKind? && r.id == item.id))
      && (forall m :: m in done.manifests <==> m in db.manifests && !(item.kind.ManifestKind? && m.revision == item.id))
  {
    if item.kind.RunKind? {
      RunsLeft(db, (r: Run) => r.id == item.id);
    }
  }

  /** After deleting runs by a property, a run id is still there if a run with it was kept. */
  lemma {:induction false} RunsLeft(db: Db, gone: Run -> bool)
    ensures
      var kept := db.(runs := Filter(db.runs, (r: Run) => !gone(r)));
      forall id :: HasRun(kept, id) <==> exists r :: r in db.runs && r.id == id && !gone(r)
  {
  }

  /** The age pass keeps exactly what is not older than the cutoff; events and cache rows live and
      die with their run. */
  lemma {:induction false} AgePassIsExact(db: Db, cutoff: nat)
    requires ForeignKeys(db)
    ensures
      var done := AgePass(db, cutoff);
      && (forall r :: r in done.runs <==> r in db.runs && r.startedAt >= cutoff)
      && (forall e :: e in done.events <==> e in db.events && exists r :: r in done.runs && r.id == e.run)
      && (forall c :: c in done.cache <==> c in db.cache && exists r :: r in done.runs && r.id == c.run)
      && (forall r :: r in done.recordings <==> r in db.recordings && r.createdAt >= cutoff)
      && (forall m :: m in done.manifests <==> m in db.manifests && m.createdAt >= cutoff)
  {
    RunsLeft(db, (r: Run) => r.startedAt < cutoff);
  }

  lemma NoItemsNoPayload(db: Db)
    requires ForeignKeys(db)
    ensures Payload(db) == 0 || Items(db) != []
  {
    assert |Items(db)| == Removable(db);
    if db.events != [] {
      assert HasRun(db, db.events[0].run);
    } else if db.cache != [] {
      assert HasRun(db, db.cache[0].run);
    }
  }

  /** On every store that satisfies its foreign keys, pruning for size ends within the bound. */
  lemma {:induction false} SizePassFits(db: Db, maxBytes: nat)
    requires ForeignKeys(db)
    ensures Payload(SizePass(db, maxBytes)) <= maxBytes && ForeignKeys(SizePass(db, maxBytes))
    decreases Removable(db)
  {
    if Payload(db) > maxBytes {
      if Items(db) == [] {
        NoItemsNoPayload(db);
      } else {
        var item := Oldest(Items(db));
        RemoveShrinks(db, item);
        RemoveKeepsForeignKeys(db, item);
        SizePassFits(Remove(db, item), maxBytes);
      }
    }
  }

  /** `order` removes the oldest remaining item each time. */
  predicate OldestFirst(db: Db, order: seq<Item>)
    decreases |order|
  {
    order == [] ||
    (Items(db) != [] && order[0] == Oldest(Items(db)) && OldestFirst(Remove(db, order[0]), order[1..]))
  }

  function RemoveAll(db: Db, order: seq<Item>): Db
    decreases |order|
  {
    if order == [] then db else RemoveAll(Remove(db, order[0]), order[1..])
  }

  /** The items the size pass removes, in order. */
  function SizeOrder(db: Db, maxBytes: nat): seq<Item>
    decreases Removable(db)
  {
    if Payload(db) <= maxBytes || Items(db) == [] then []
    else
      RemoveShrinks(db, Oldest(Items(db)));
      [Oldest(Items(db))] + SizeOrder(Remove(db, Oldest(Items(db))), maxBytes)
  }

  lemma {:induction false} SizePassRemovesOrder(db: Db, maxBytes: nat)
    ensures OldestFirst(db, SizeOrder(db, maxBytes))
    ensures SizePass(db, maxBytes) == RemoveAll(db, SizeOrder(db, maxBytes))
    decreases Removable(db)
  {
    if Payload(db) > maxBytes && Items(db) != [] {
      var item := Oldest(Items(db));
      RemoveShrinks(db, item);
      SizePassRemovesOrder(Remove(db, item), maxBytes);
      assert SizeOrder(db, maxBytes)[1..] == SizeOrder(Remove(db, item), maxBytes);
    }
  }

  lemma {:induction false} SizeOrderBegins(db: Db, maxBytes: nat)
    requires Payload(db) > maxBytes && Items(db) != []
    ensures Removable(Remove(db, Oldest(Items(db)))) < Removable(db)
    ensures SizeOrder(db, maxBytes) == [Oldest(Items(db))] + SizeOrder(Remove(db, Oldest(Items(db))), maxBytes)
  {
    RemoveShrinks(db, Oldest(Items(db)));
  }

  lemma {:induction false} ShorterOrdersDoNotFit(db: Db, maxBytes: nat, other: seq<Item>)
    requires ForeignKeys(db) && OldestFirst(db, other) && Payload(RemoveAll(db, other)) <= maxBytes
    ensures SizeOrder(db, maxBytes) <= other
    decreases |other|
  {
    if Payload(db) > maxBytes {
      NoItemsNoPayload(db);
      assert other != [];
      var item := Oldest(Items(db));
      var smaller := Remove(db, item);
      assert other == [item] + other[1..];
      SizeOrderBegins(db, maxBytes);
      RemoveKeepsForeignKeys(db, item);
      ShorterOrdersDoNotFit(smaller, maxBytes, other[1..]);
      var order := SizeOrder(smaller, maxBytes);
      assert SizeOrder(db, maxBytes) == [item] + order && order <= other[1..];
    }
  }

  /** The size pass removes the shortest oldest-first prefix of runs, recordings and manifests that
      brings the payload within the bound: it does remove an oldest-first prefix, and every
      oldest-first prefix that is enough extends it. */
  lemma SizePassIsShortest(db: Db, maxBytes: nat)
    requires ForeignKeys(db)
    ensures
      var order := SizeOrder(db, maxBytes);
      && OldestFirst(db, order)
      && SizePass(db, maxBytes) == RemoveAll(db, order)
      && Payload(RemoveAll(db, order)) <= maxBytes
      && forall other :: OldestFirst(db, other) && Payload(RemoveAll(db, other)) <= maxBytes ==> order <= other
  {
    SizePassRemovesOrder(db, maxBytes);
    SizePassFits(db, maxBytes);
    forall other | OldestFirst(db, other) && Payload(RemoveAll(db, other)) <= maxBytes
      ensures SizeOrder(db, maxBytes) <= other
    {
      ShorterOrdersDoNotFit(db, maxBytes, other);
    }
  }

  // ---------------------------------------------------------------- rows of runs

  /** What `finish_run` stores: a run whose revision changed meanwhile is stale whatever happened. */
  function FinalStatus(started: nat, desired: Status, current: nat): Status {
    if started == current then desired else Stale
  }

  function Finish(runs: seq<Run>, id: nat, desired: Status, current: nat): seq<Run> {
    seq(|runs|, i requires 0 <= i < |runs| =>
      if runs[i].id == id then runs[i].(status := FinalStatus(runs[i].revision, desired, current)) else runs[i])
  }

  function Recover(runs: seq<Run>): seq<Run> {
    seq(|runs|, i requires 0 <= i < |runs| =>
      if runs[i].status.Running? then runs[i].(status := Error) else runs[i])
  }

  function SaveCacheRow(db: Db, row: CacheRow): Db {
    db.(cache := Filter(db.cache, (c: CacheRow) => c.revision != row.revision) + [row])
  }

  function SaveManifestRow(db: Db, row: ManifestRow): Db {
    db.(manifests := Filter(db.manifests, (m: ManifestRow) => m.revision != row.revision) + [row])
  }

  function SaveRecordingRow(db: Db, row: RecordingRow): Db {
    db.(recordings := Filter(db.recordings, (r: RecordingRow) => r.id != row.id) + [row])
  }

  /** The status `finish_run` returns. */
  function Ended(db: Db, id: nat, desired: Status, current: nat): Status
    requires HasRun(db, id)
  {
    FinalStatus(RevisionOf(db.runs, id), desired, current)
  }

  function RevisionOf(runs: seq<Run>, id: nat): nat
    requires exists r :: r in runs && r.id == id
  {
    if runs[0].id == id then runs[0].revision else RevisionOf(runs[1..], id)
  }

  ghost predicate Shrunk(db: Db, from: Db) {
    && ForeignKeys(db)
    && (forall r :: r in db.runs ==> r in from.runs)
    && (forall c :: c in db.cache ==> c in from.cache)
  }

  lemma RemoveShrunk(db: Db, item: Item)
    requires ForeignKeys(db)
    ensures Shrunk(Remove(db, item), db)
  {
    RemoveKeepsForeignKeys(db, item);
  }

  lemma {:induction false} SizePassShrunk(db: Db, maxBytes: nat)
    requires ForeignKeys(db)
    ensures Shrunk(SizePass(db, maxBytes), db)
    decreases Removable(db)
  {
    if Payload(db) > maxBytes && Items(db) != [] {
      var item := Oldest(Items(db));
      RemoveShrinks(db, item);
      RemoveShrunk(db, item);
      SizePassShrunk(Remove(db, item), maxBytes);
    }
  }

  lemma AgePassShrunk(db: Db, cutoff: nat)
    ensures Shrunk(AgePass(db, cutoff), db)
  {
    var gone := (r: Run) => r.startedAt < cutoff;
    var deleted, done := DeleteRuns(db, gone), AgePass(db, cutoff);
    DeleteRunsKeepsForeignKeys(db, gone);
    assert done.runs == deleted.runs && done.events == deleted.events && done.cache == deleted.cache;
    assert forall id :: HasRun(deleted, id) ==> HasRun(done, id);
  }

  lemma {:induction false} ShrunkTwice(db: Db, mid: Db, from: Db)
    requires Shrunk(db, mid) && Shrunk(mid, from)
    ensures Shrunk(db, from)
  {
  }

  lemma {:induction false} PruneShrunk(db: Db, cutoff: nat, maxBytes: nat)
    requires ForeignKeys(db)
    ensures Shrunk(SizePass(AgePass(db, cutoff), maxBytes), db)
  {
    var aged := AgePass(db, cutoff);
    AgePassShrunk(db, cutoff);
    SizePassShrunk(aged, maxBytes);
    ShrunkTwice(SizePass(aged, maxBytes), aged, db);
  }

  lemma {:induction false} RevisionOfRun(runs: seq<Run>, id: nat) returns (r: Run)
    requires exists r :: r in runs && r.id == id
    ensures r in runs && r.id == id && r.revision == RevisionOf(runs, id)
  {
    if runs[0].id == id {
      r := runs[0];
    } else {
      r := RevisionOfRun(runs[1..], id);
    }
  }

  /** Rewriting statuses changes no run's id, so foreign keys survive. */
  lemma SameRunIds(db: Db, runs: seq<Run>)
    requires |runs| == |db.runs| && forall i :: 0 <= i < |runs| ==> runs[i].id == db.runs[i].id
    ensures forall id :: HasRun(db, id) ==> HasRun(db.(runs := runs), id)
  {
    forall id | HasRun(db, id)
      ensures HasRun(db.(runs := runs), id)
    {
      var r :| r in db.runs && r.id == id;
      var i :| 0 <= i < |db.runs| && db.runs[i] == r;
      assert runs[i] in runs;
    }
  }

  lemma {:induction false} FinishKeepsForeignKeys(db: Db, id: nat, desired: Status, current: nat)
    requires ForeignKeys(db)
    ensures ForeignKeys(db.(runs := Finish(db.runs, id, desired, current)))
  {
    SameRunIds(db, Finish(db.runs, id, desired, current));
  }

  // ---------------------------------------------------------------- the store object

  class Database {
    var db: Db

    constructor ()
      ensures db == EMPTY
    {
      db := EMPTY;
    }

    /** `open` on existing tables: runs left Running by a crash become errors. */
    method Open()
      modifies this
      ensures db == old(db).(runs := Recover(old(db).runs))
      ensures forall r :: r in db.runs ==> !r.status.Running?
      ensures forall r :: r in old(db).runs ==> (if r.status.Running? then r.(status := Error) else r) in db.runs
    {
      var runs := db.runs;
      for i := 0 to |runs|
        invariant |runs| == |db.runs|
        invariant forall k :: i <= k < |runs| ==> runs[k] == db.runs[k]
        invariant forall k :: 0 <= k < i ==>
          runs[k] == if db.runs[k].status.Running? then db.runs[k].(status := Error) else db.runs[k]
      {
        if runs[i].status.Running? {
          runs := runs[i := runs[i].(status := Error)];
        }
      }
      assert runs == Recover(db.runs);
      forall r | r in db.runs
        ensures (if r.status.Running? then r.(status := Error) else r) in runs
      {
        var i :| 0 <= i < |db.runs| && db.runs[i] == r;
        assert runs[i] in runs;
      }
      db := db.(runs := runs);
    }

    method BeginRun(id: nat, revision: nat, at: nat) returns (inserted: bool)
      modifies this
      ensures inserted <==> !HasRun(old(db), id)
      ensures db == if inserted then old(db).(runs := old(db).runs + [Run(id, revision, Running, at)]) else old(db)
    {
      inserted := !HasRun(db, id);
      if inserted {
        db := db.(runs := db.runs + [Run(id, revision, Running, at)]);
      }
    }

    /** A run ends as desired if the revision is still the one it started from, and Stale otherwise,
        whatever was desired. Fails, changing nothing, when the run no longer exists. */
    method FinishRun(id: nat, desired: Status, current: nat) returns (found: bool, actual: Status)
      modifies this
      ensures found <==> HasRun(old(db), id)
      ensures found ==> actual == Ended(old(db), id, desired, current)
      ensures found && UniqueIds(old(db)) ==>
        db == old(db).(runs := Finish(old(db).runs, id, desired, current))
      ensures !found ==> db == old(db)
      ensures found && UniqueIds(old(db)) ==>
        forall r :: r in old(db).runs && r.id == id ==>
          && (r.revision == current ==> actual == desired)
          && (r.revision != current ==> actual == Stale)
          && r.(status := actual) in db.runs
      ensures found && UniqueIds(old(db)) ==> forall r :: r in old(db).runs && r.id != id ==> r in db.runs
    {
      actual := Error;
      found := HasRun(db, id);
      if found {
        actual := Ended(db, id, desired, current);
        ghost var starting := RevisionOfRun(db.runs, id);
        var runs := seq(|db.runs|, i requires 0 <= i < |db.runs| reads this =>
          if db.runs[i].id == id then db.runs[i].(status := actual) else db.runs[i]);
        if UniqueIds(db) {
          assert runs == Finish(db.runs, id, desired, current);
          forall r | r in db.runs
            ensures (if r.id == id then r.(status := actual) else r) in runs
          {
            var i :| 0 <= i < |db.runs| && db.runs[i] == r;
            assert runs[i] in runs;
          }
        }
        db := db.(runs := runs);
      }
    }

    /** Age bounds first, then oldest-first removal until the payload fits. */
    method Prune(cutoff: nat, maxBytes: nat) returns (runsRemoved: nat, recordingsRemoved: nat)
      modifies this
      ensures db == SizePass(AgePass(old(db), cutoff), maxBytes)
      ensures Payload(db) <= maxBytes && ForeignKeys(db)
      ensures runsRemoved == |old(db).runs| - |db.runs|
      ensures recordingsRemoved == |old(db).recordings| - |db.recordings|
    {
      var before := db;
      var aged := AgePass(before, cutoff);
      AgePassShrunk(before, cutoff);
      var left, runs, recordings := RemoveOldest(aged, maxBytes);
      runsRemoved := |before.runs| - |aged.runs| + runs;
      recordingsRemoved := |before.recordings| - |aged.recordings| + recordings;
      db := left;
    }
  }

  /** The loop of the size pass, with its counters. */
  method RemoveOldest(db: Db, maxBytes: nat) returns (left: Db, runsRemoved: nat, recordingsRemoved: nat)
    requires ForeignKeys(db)
    ensures left == SizePass(db, maxBytes) && ForeignKeys(left) && Payload(left) <= maxBytes
    ensures runsRemoved == |db.runs| - |left.runs|
    ensures recordingsRemoved == |db.recordings| - |left.recordings|
  {
    left, runsRemoved, recordingsRemoved := db, 0, 0;
    while Payload(left) > maxBytes
      invariant ForeignKeys(left) && SizePass(left, maxBytes) == SizePass(db, maxBytes)
      invariant runsRemoved == |db.runs| - |left.runs|
      invariant recordingsRemoved == |db.recordings| - |left.recordings|
      decreases Removable(left)
    {
      NoItemsNoPayload(left);
      if Items(left) == [] {
        break;
      }
      SizePassStep(left, maxBytes);
      RemoveNeverAdds(left, Oldest(Items(left)));
      var next := Remove(left, Oldest(Items(left)));
      runsRemoved := runsRemoved + |left.runs| - |next.runs|;
      recordingsRemoved := recordingsRemoved + |left.recordings| - |next.recordings|;
      left := next;
    }
  }

  lemma {:induction false} RemoveNeverAdds(db: Db, item: Item)
    ensures |Remove(db, item).runs| <= |db.runs| && |Remove(db, item).recordings| <= |db.recordings|
  {
  }
}
