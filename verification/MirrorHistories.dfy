/** What preparations leave behind over whole histories of a mirror, said without its manifest.

    A full copy "over the generated files" takes for generated whatever the manifest does not name. The
    theorems below say which files those are: nothing that was an input or a document stays once it is
    neither, what workers generate stays as long as preparations succeed, and an unchanged input is
    not copied again. */
module MirrorHistories {
  import opened OverlayMirror

  /** Disks and replies of a history from an empty session, as `MirrorHistory` gives them. */
  ghost predicate IsHistory(history: seq<Move>, disks: seq<Disk>, replies: seq<bool>) {
    && |disks| == |history| + 1 && |replies| == |history|
    && disks[0] == Disk(map[], Missing, false)
    && forall k :: 0 <= k < |history| ==> Legal(history[k]) && Effect(history[k], disks[k], disks[k + 1], replies[k])
  }

  predicate Prepared(history: seq<Move>, replies: seq<bool>, k: nat) {
    k < |history| && k < |replies| && history[k].Preparing? && replies[k]
  }

  /** The preparation puts something at the file: an input or a document. */
  predicate Supplies(move: Move, p: Path) {
    move.Preparing? && (p in move.src || p in DocumentFiles(move.docs))
  }

  lemma {:induction false} ManifestNamesSupplied(src: Source, docs: seq<Document>, p: Path)
    requires PlainSource(src)
    ensures p in Files(ManifestOf(src, docs).paths) <==> p in src || p in DocumentFiles(docs)
  {
    forall n | n in src
      ensures FileOf(n) == n
    {
      DotFree(n);
    }
    if p in src {
      assert p in ManifestOf(src, docs).paths;
    }
    if i :| 0 <= i < |docs| && FileOf(docs[i].name) == p {
      assert docs[i].name in DocumentNames(docs);
    }
  }

  // ---------------------------------------------------------------- nothing is left behind

  /** A file of the mirror that the next preparation has to remove. */
  ghost predicate Owed(disk: Disk, p: Path) {
    p in disk.mirror && Usable(disk.manifest, disk.marker).Stored? ==> p in Files(disk.manifest.m.paths)
  }

  lemma {:induction false} SuccessOwes(move: Move, before: Disk, after: Disk, p: Path)
    requires Legal(move) && move.Preparing? && Effect(move, before, after, true)
    requires Owed(before, p) || Supplies(move, p)
    ensures Owed(after, p)
    ensures !Supplies(move, p) ==> p !in after.mirror
  {
    var previous, start := Before(before.manifest, before.marker), Start(before.mirror, before.manifest, before.marker);
    ManifestNamesSupplied(move.src, move.docs, p);
    assert PreparedAt(after.mirror, start, previous, move.src, move.docs, p);
    if !Supplies(move, p) && p !in Files(Stale(previous, move.src, move.docs)) {
      UntouchedIsGenerated(start, previous, move.src, move.docs, p);
      assert p !in start;
    }
  }

  lemma {:induction false} StaysOwed(move: Move, before: Disk, after: Disk, reply: bool, p: Path)
    requires Legal(move) && Effect(move, before, after, reply) && Owed(before, p)
    requires move.Working? ==> p !in move.writes
    ensures Owed(after, p)
  {
    if move.Preparing? && reply {
      SuccessOwes(move, before, after, p);
    }
  }

  lemma {:induction false} OwedUntil(
    history: seq<Move>, disks: seq<Disk>, replies: seq<bool>, i: nat, j: nat, p: Path)
    requires IsHistory(history, disks, replies) && i < j <= |history|
    requires Prepared(history, replies, i) && Supplies(history[i], p)
    requires forall k :: i < k < j && history[k].Working? ==> p !in history[k].writes
    ensures Owed(disks[j], p)
  {
    assert Legal(history[j - 1]) && Effect(history[j - 1], disks[j - 1], disks[j - 1 + 1], replies[j - 1]);
    if i == j - 1 {
      SuccessOwes(history[i], disks[i], disks[i + 1], p);
    } else {
      OwedUntil(history, disks, replies, i, j - 1, p);
      StaysOwed(history[j - 1], disks[j - 1], disks[j], replies[j - 1], p);
    }
  }

  /** Nothing is left behind, over every history and whatever documents are called: a file that was an
      input's or a document's in some successful preparation, is neither now, and was not written by
      any work since, is gone after the next successful preparation, whatever failed in between. */
  lemma {:induction false} NothingIsLeftBehind(
    history: seq<Move>, disks: seq<Disk>, replies: seq<bool>, i: nat, j: nat, p: Path)
    requires IsHistory(history, disks, replies) && i < j
    requires Prepared(history, replies, i) && Prepared(history, replies, j)
    requires Supplies(history[i], p) && !Supplies(history[j], p)
    requires forall k :: i < k < j && history[k].Working? ==> p !in history[k].writes
    ensures p !in disks[j + 1].mirror
  {
    OwedUntil(history, disks, replies, i, j, p);
    assert Legal(history[j]) && Effect(history[j], disks[j], disks[j + 1], replies[j]);
    SuccessOwes(history[j], disks[j], disks[j + 1], p);
  }

  // ---------------------------------------------------------------- generated files

  /** Preparations succeed and put nothing at the file. */
  ghost predicate Avoided(history: seq<Move>, replies: seq<bool>, from: nat, to: nat, p: Path) {
    forall k :: from <= k < to && k < |history| && history[k].Preparing? ==>
      Prepared(history, replies, k) && !Supplies(history[k], p)
  }

  /** No work touches the file. */
  ghost predicate LeftAlone(history: seq<Move>, from: nat, to: nat, p: Path) {
    forall k :: from <= k < to && k < |history| && history[k].Working? ==>
      p !in history[k].writes && p !in history[k].deletes
  }

  /** The session is intact and the file is none of its own. */
  ghost predicate Foreign(disk: Disk, p: Path) {
    !disk.marker && disk.manifest.Stored? && p !in Files(disk.manifest.m.paths)
  }

  lemma {:induction false} StaysForeign(
    history: seq<Move>, disks: seq<Disk>, replies: seq<bool>, a: nat, k: nat, p: Path)
    requires IsHistory(history, disks, replies) && a < k <= |history|
    requires Prepared(history, replies, a) && Avoided(history, replies, a, k, p)
    ensures Foreign(disks[k], p)
  {
    var last := history[k - 1];
    assert Legal(last) && Effect(last, disks[k - 1], disks[k - 1 + 1], replies[k - 1]);
    if last.Preparing? {
      assert Prepared(history, replies, k - 1) && !Supplies(last, p);
      ManifestNamesSupplied(last.src, last.docs, p);
    } else {
      StaysForeign(history, disks, replies, a, k - 1, p);
    }
  }

  lemma {:induction false} ForeignSurvives(move: Move, before: Disk, after: Disk, p: Path)
    requires Legal(move) && move.Preparing? && Effect(move, before, after, true)
    requires Foreign(before, p) && !Supplies(move, p)
    ensures SameAt(after.mirror, before.mirror, p)
  {
    var previous, start := Before(before.manifest, before.marker), Start(before.mirror, before.manifest, before.marker);
    assert PreparedAt(after.mirror, start, previous, move.src, move.docs, p);
    assert forall n :: n in Stale(previous, move.src, move.docs) ==> FileOf(n) in Files(previous.paths);
  }

  /** Generated files survive: from one successful preparation on, as long as preparations succeed and
      neither they nor other work touch a file, it stays as it is. */
  lemma {:induction false} GeneratedFilesSurvive(
    history: seq<Move>, disks: seq<Disk>, replies: seq<bool>, a: nat, i: nat, j: nat, p: Path)
    requires IsHistory(history, disks, replies) && a < i <= j <= |history|
    requires Prepared(history, replies, a) && Avoided(history, replies, a, j, p) && LeftAlone(history, i, j, p)
    ensures SameAt(disks[j].mirror, disks[i].mirror, p)
  {
    if i < j {
      GeneratedFilesSurvive(history, disks, replies, a, i, j - 1, p);
      var last := history[j - 1];
      assert Legal(last) && Effect(last, disks[j - 1], disks[j - 1 + 1], replies[j - 1]);
      if last.Preparing? {
        StaysForeign(history, disks, replies, a, j - 1, p);
        assert Prepared(history, replies, j - 1) && !Supplies(last, p);
        ForeignSurvives(last, disks[j - 1], disks[j], p);
      }
    }
  }

  // ---------------------------------------------------------------- unchanged inputs

  lemma {:induction false} WorkLeaves(
    history: seq<Move>, disks: seq<Disk>, replies: seq<bool>, i: nat, j: nat, p: Path)
    requires IsHistory(history, disks, replies) && i <= j <= |history|
    requires LeftAlone(history, i, j, p) && forall k :: i <= k < j ==> history[k].Working?
    ensures SameAt(disks[j].mirror, disks[i].mirror, p)
    ensures disks[j].manifest == disks[i].manifest && disks[j].marker == disks[i].marker
  {
    if i < j {
      WorkLeaves(history, disks, replies, i, j - 1, p);
      assert Effect(history[j - 1], disks[j - 1], disks[j - 1 + 1], replies[j - 1]);
      assert history[j - 1].Working?;
    }
  }

  lemma {:induction false} SuppliedIsNotStale(src: Source, docs: seq<Document>, now: Source, more: seq<Document>, p: Path)
    requires PlainSource(src) && p in src && p !in DocumentFiles(docs) && p in now
    ensures p !in Files(Stale(ManifestOf(src, docs), now, more))
    ensures p !in DocumentNames(docs)
  {
    DotFree(p);
    forall n | n in Stale(ManifestOf(src, docs), now, more)
      ensures FileOf(n) != p
    {
      if n in src {
        DotFree(n);
      } else {
        var i :| 0 <= i < |docs| && docs[i].name == n;
        assert FileOf(docs[i].name) in DocumentFiles(docs);
      }
    }
  }

  /** An input that has not changed between two successful preparations, with no document over it and
      only other work between them, is not copied again: its file stays as it is, time included. */
  lemma {:induction false} UnchangedInputsAreReused(
    history: seq<Move>, disks: seq<Disk>, replies: seq<bool>, i: nat, j: nat, p: Path)
    requires IsHistory(history, disks, replies) && i < j
    requires Prepared(history, replies, i) && Prepared(history, replies, j)
    requires forall k :: i < k < j ==> history[k].Working?
    requires LeftAlone(history, i + 1, j, p)
    requires p in history[i].src && p in history[j].src && history[i].src[p].content == history[j].src[p].content
    requires p !in DocumentFiles(history[i].docs) && p !in DocumentFiles(history[j].docs)
    requires p in disks[i + 1].mirror
    ensures SameAt(disks[j + 1].mirror, disks[i + 1].mirror, p)
  {
    var first, second := history[i], history[j];
    assert Legal(first) && Effect(first, disks[i], disks[i + 1], replies[i]);
    assert Legal(second) && Effect(second, disks[j], disks[j + 1], replies[j]);
    WorkLeaves(history, disks, replies, i + 1, j, p);
    SuppliedIsNotStale(first.src, first.docs, second.src, second.docs, p);
    var previous, start := disks[j].manifest.m, disks[j].mirror;
    assert PreparedAt(disks[i + 1].mirror, Start(disks[i].mirror, disks[i].manifest, disks[i].marker),
                      Before(disks[i].manifest, disks[i].marker), first.src, first.docs, p);
    assert PreparedAt(disks[j + 1].mirror, start, previous, second.src, second.docs, p);
  }
}
