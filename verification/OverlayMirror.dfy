/** The crash- and cancel-safe mirror in which unsaved editor buffers are verified.

    A session keeps a mirror of the workspace inputs, a manifest of what it mirrored, and a
    "preparing" marker that exists while a preparation is under way. Preparation is incremental and
    may be interrupted at any file operation or cancellation check; this module proves exactly when a
    successful preparation still leaves what a full copy would have left: always, unless a document's
    name has a "." segment, which the request check lets through and the file system ignores. */
module OverlayMirror {

  /** The segments between the slashes of a name. No segment is empty or holds a slash, so a name and
      its segments determine each other. */
  type Path = seq<string>

  type Content = seq<bv8>

  /** The file a name leads to: "." segments are skipped. */
  function FileOf(name: Path): (file: Path)
    ensures "." !in file
  {
    if name == [] then [] else (if name[0] == "." then [] else [name[0]]) + FileOf(name[1..])
  }

  lemma {:induction false} DotFree(name: Path)
    requires "." !in name
    ensures FileOf(name) == name
  {
    if name != [] {
      DotFree(name[1..]);
    }
  }

  function Files(names: set<Path>): set<Path> {
    set n | n in names :: FileOf(n)
  }

  /** A modification time. Mirrored inputs carry their source file's; everything else that is
      written into the mirror carries a time no source file has. */
  datatype Stamp = FromSource(at: nat) | Local(at: nat)

  datatype Node = File(content: Content, stamp: Stamp) | Link

  type Tree = map<Path, Node>

  datatype SourceFile = SourceFile(content: Content, at: nat)

  type Source = map<Path, SourceFile>

  /** SHA-256 as an injective function. */
  datatype Digest = Digest(of: Content)

  datatype Manifest = Manifest(paths: set<Path>, digests: map<Path, Digest>, overlayPaths: set<Path>)

  const NO_MANIFEST := Manifest({}, map[], {})

  /** The manifest file. `Unreadable` covers malformed, oversized and foreign-schema contents; the
      older format, a bare list of paths, is a manifest without digests. */
  datatype ManifestFile = Missing | Unreadable | Stored(m: Manifest)

  datatype Document = Document(name: Path, content: Content)

  function DocumentNames(docs: seq<Document>): set<Path> {
    set i | 0 <= i < |docs| :: docs[i].name
  }

  function DocumentFiles(docs: seq<Document>): set<Path> {
    set i | 0 <= i < |docs| :: FileOf(docs[i].name)
  }

  /** What the request check ensures: no name is spelled twice. */
  ghost predicate DistinctNames(docs: seq<Document>) {
    forall i, j :: 0 <= i < j < |docs| ==> docs[i].name != docs[j].name
  }

  // ---------------------------------------------------------------- the plain full copy

  /** `tree` is what copying everything would give: over the files of `base`, the source's content at
      every input and the documents' text on top. */
  ghost predicate IsFullCopy(tree: Tree, base: Tree, src: Source, docs: seq<Document>) {
    && tree.Keys == base.Keys + src.Keys + DocumentFiles(docs)
    && (forall i :: 0 <= i < |docs| ==> Holds(tree, FileOf(docs[i].name), docs[i].content))
    && (forall p :: p in src && p !in DocumentFiles(docs) ==> Holds(tree, p, src[p].content))
    && (forall p :: p in base && p !in src && p !in DocumentFiles(docs) ==> tree[p] == base[p])
  }

  predicate Holds(tree: Tree, p: Path, content: Content) {
    p in tree && tree[p].File? && tree[p].content == content
  }

  /** The manifest a preparation may build on: none if a marker shows that the last one was cut. */
  function Usable(manifest: ManifestFile, marker: bool): (m: ManifestFile) {
    if marker || !manifest.Stored? then Missing else manifest
  }

  /** The files that survive a preparation: generated ones, if the session was intact. */
  function Generated(mirror: Tree, manifest: ManifestFile, marker: bool): Tree {
    match Usable(manifest, marker)
    case Stored(m) => mirror - Files(m.paths)
    case _ => map[]
  }

  /** What a successful preparation records. */
  function ManifestOf(src: Source, docs: seq<Document>): Manifest {
    Manifest(src.Keys + DocumentNames(docs), map p | p in src :: Digest(src[p].content), DocumentNames(docs))
  }

  // ---------------------------------------------------------------- what a preparation does

  /** Names mirrored last time and not wanted any more. */
  function Stale(previous: Manifest, src: Source, docs: seq<Document>): set<Path> {
    previous.paths - (src.Keys + DocumentNames(docs))
  }

  /** The text of the last document that leads to a file. */
  function LastText(docs: seq<Document>, file: Path): Content
    requires file in DocumentFiles(docs)
  {
    var n := |docs| - 1;
    if FileOf(docs[n].name) == file then docs[n].content
    else
      assert file in DocumentFiles(docs[..n]) by { DocumentsButLast(docs); }
      LastText(docs[..n], file)
  }

  lemma DocumentsButLast(docs: seq<Document>)
    requires docs != []
    ensures
      var n := |docs| - 1;
      && DocumentFiles(docs) == DocumentFiles(docs[..n]) + {FileOf(docs[n].name)}
      && DocumentNames(docs) == DocumentNames(docs[..n]) + {docs[n].name}
  {
    var n := |docs| - 1;
    assert forall i :: 0 <= i < n ==> docs[..n][i] == docs[i];
    assert docs == docs[..n] + [docs[n]];
  }

  /** The mirrored copy of an input is known to be good: the manifest has the source's digest, no
      document was written there, and the file is still what it was. */
  predicate Reusable(previous: Manifest, start: Tree, file: SourceFile, p: Path) {
    && p in previous.digests && previous.digests[p] == Digest(file.content) && p !in previous.overlayPaths
    && Holds(start, p, file.content)
  }

  /** What becomes of a file: a document's text wins, then the removal of a stale name that leads to
      it, then the source, where a copy known to be good is not even touched, and whatever else was
      there stays. */
  ghost predicate PreparedAt(tree: Tree, start: Tree, previous: Manifest, src: Source, docs: seq<Document>, p: Path) {
    if p in DocumentFiles(docs) then Holds(tree, p, LastText(docs, p)) && tree[p].stamp.Local?
    else if p in Files(Stale(previous, src, docs)) then p !in tree
    else if p in src then
      Holds(tree, p, src[p].content) && (Reusable(previous, start, src[p], p) ==> SameAt(tree, start, p))
    else SameAt(tree, start, p)
  }

  ghost predicate IsPrepared(tree: Tree, start: Tree, previous: Manifest, src: Source, docs: seq<Document>) {
    forall p :: PreparedAt(tree, start, previous, src, docs, p)
  }

  /** Documents that lead to one file agree. */
  ghost predicate Agreeing(docs: seq<Document>) {
    forall i, j :: 0 <= i < |docs| && 0 <= j < |docs| && FileOf(docs[i].name) == FileOf(docs[j].name) ==>
      docs[i].content == docs[j].content
  }

  /** No stale name leads to an input, unless a document is written there anyway. */
  ghost predicate SparesInputs(previous: Manifest, src: Source, docs: seq<Document>) {
    forall n :: n in Stale(previous, src, docs) && FileOf(n) in src ==> FileOf(n) in DocumentFiles(docs)
  }

  /** Inputs are walked or listed under the names of their files. */
  ghost predicate PlainSource(src: Source) {
    forall p :: p in src ==> "." !in p
  }

  lemma {:induction false} LastTextIsSomeText(docs: seq<Document>, p: Path) returns (i: nat)
    requires p in DocumentFiles(docs)
    ensures i < |docs| && FileOf(docs[i].name) == p && LastText(docs, p) == docs[i].content
  {
    var n := |docs| - 1;
    if FileOf(docs[n].name) == p {
      i := n;
    } else {
      DocumentsButLast(docs);
      i := LastTextIsSomeText(docs[..n], p);
    }
  }

  /** A file that is no input, no document's and not removed is generated exactly if it was there. */
  lemma {:induction false} UntouchedIsGenerated(start: Tree, previous: Manifest, src: Source, docs: seq<Document>, p: Path)
    requires PlainSource(src)
    requires p !in DocumentFiles(docs) && p !in Files(Stale(previous, src, docs)) && p !in src
    ensures p !in Files(previous.paths)
  {
    forall n | n in previous.paths
      ensures FileOf(n) != p
    {
      if n in src {
        DotFree(n);
      } else if n in DocumentNames(docs) {
        var i :| 0 <= i < |docs| && docs[i].name == n;
        assert FileOf(docs[i].name) in DocumentFiles(docs);
      } else {
        assert n in Stale(previous, src, docs);
      }
    }
  }

  lemma {:induction false} FullCopyNeeds(tree: Tree, start: Tree, previous: Manifest, src: Source, docs: seq<Document>)
    requires IsPrepared(tree, start, previous, src, docs)
    requires IsFullCopy(tree, start - Files(previous.paths), src, docs)
    ensures Agreeing(docs) && SparesInputs(previous, src, docs)
  {
    forall n | n in Stale(previous, src, docs) && FileOf(n) in src
      ensures FileOf(n) in DocumentFiles(docs)
    {
      assert PreparedAt(tree, start, previous, src, docs, FileOf(n));
      assert FileOf(n) in tree;
    }
  }

  lemma {:induction false} FullCopyFollows(tree: Tree, start: Tree, previous: Manifest, src: Source, docs: seq<Document>)
    requires IsPrepared(tree, start, previous, src, docs) && PlainSource(src)
    requires Agreeing(docs) && SparesInputs(previous, src, docs)
    ensures IsFullCopy(tree, start - Files(previous.paths), src, docs)
  {
    var base := start - Files(previous.paths);
    forall i | 0 <= i < |docs|
      ensures Holds(tree, FileOf(docs[i].name), docs[i].content)
    {
      var p := FileOf(docs[i].name);
      assert PreparedAt(tree, start, previous, src, docs, p);
      var k := LastTextIsSomeText(docs, p);
    }
    forall p
      ensures p in tree <==> p in base || p in src || p in DocumentFiles(docs)
      ensures p in src && p !in DocumentFiles(docs) ==> Holds(tree, p, src[p].content)
      ensures p in base && p !in src && p !in DocumentFiles(docs) ==> tree[p] == base[p]
    {
      assert PreparedAt(tree, start, previous, src, docs, p);
      OutsideDocuments(tree, start, previous, src, docs, p);
    }
  }

  lemma {:induction false} OutsideDocuments(
    tree: Tree, start: Tree, previous: Manifest, src: Source, docs: seq<Document>, p: Path)
    requires PreparedAt(tree, start, previous, src, docs, p) && PlainSource(src) && SparesInputs(previous, src, docs)
    ensures p !in DocumentFiles(docs) ==>
      var base := start - Files(previous.paths);
      if p in src then Holds(tree, p, src[p].content) else SameAt(tree, base, p)
  {
    if p !in DocumentFiles(docs) {
      if p in Files(Stale(previous, src, docs)) {
        var n :| n in Stale(previous, src, docs) && FileOf(n) == p;
        assert p in Files(previous.paths);
      } else if p !in src {
        UntouchedIsGenerated(start, previous, src, docs, p);
      }
    }
  }

  /** When a preparation is a full copy, exactly: documents that lead to one file have to agree, and no
      stale name may lead to an input that no document replaces. */
  lemma {:induction false} FullCopyIff(tree: Tree, start: Tree, previous: Manifest, src: Source, docs: seq<Document>)
    requires IsPrepared(tree, start, previous, src, docs) && PlainSource(src)
    ensures IsFullCopy(tree, start - Files(previous.paths), src, docs)
       <==> Agreeing(docs) && SparesInputs(previous, src, docs)
  {
    if IsFullCopy(tree, start - Files(previous.paths), src, docs) {
      FullCopyNeeds(tree, start, previous, src, docs);
    }
    if Agreeing(docs) && SparesInputs(previous, src, docs) {
      FullCopyFollows(tree, start, previous, src, docs);
    }
  }

  // ---------------------------------------------------------------- interruption

  /** What the environment does during one preparation: how many operations succeed before it is
      cut, what a cut write leaves, which files survive a cut removal of the mirror, for which inputs
      setting the modification time works, and whether the encoded manifest is within its limit. */
  datatype Fate = Fate(
    budget: nat, torn: Content, now: nat, survivors: set<Path>, stampable: set<Path>, manifestFits: bool)

  /** As many operations as a preparation can take. */
  function OperationBound(usable: ManifestFile, listing: seq<Path>, docs: seq<Document>): nat {
    7 + 5 * |listing| + (if usable.Stored? then |usable.m.paths| else 0) + 3 * |docs|
  }

  datatype Outcome = Done | Interrupted {
    predicate IsFailure() { Interrupted? }
    function PropagateFailure(): Outcome requires Interrupted? { Interrupted }
  }

  /** A file stamped as a mirrored input has the content its digest promises. */
  predicate TrustedAt(m: Manifest, tree: Tree, p: Path) {
    p in m.digests && p !in m.overlayPaths && p in tree && tree[p].File? && tree[p].stamp.FromSource?
    ==> Digest(tree[p].content) == m.digests[p]
  }

  ghost predicate Trusted(m: Manifest, tree: Tree) {
    forall p :: TrustedAt(m, tree, p)
  }

  predicate SameAt(tree: Tree, other: Tree, p: Path) {
    (p in tree <==> p in other) && (p in tree ==> tree[p] == other[p])
  }

  /** The session's files. */
  datatype Disk = Disk(mirror: Tree, manifest: ManifestFile, marker: bool)

  /** What a preparation that does not succeed may leave: the marker, an empty mirror, or the session as
      it was with some files gone. */
  ghost predicate Abandoned(before: Disk, after: Disk) {
    || after.marker
    || after.mirror == map[]
    || (&& after.manifest == before.manifest && after.marker == before.marker
        && forall p :: p in after.mirror ==> p in before.mirror && after.mirror[p] == before.mirror[p])
  }

  class Session {
    var mirror: Tree
    var manifest: ManifestFile
    var marker: bool
    var budget: nat

    constructor ()
      ensures mirror == map[] && manifest == Missing && !marker && Inv()
    {
      mirror, manifest, marker, budget := map[], Missing, false, 0;
    }

    /** Whatever happened before, a manifest without a marker can be trusted. */
    ghost predicate Inv()
      reads this
    {
      !marker && manifest.Stored? ==> Trusted(manifest.m, mirror)
    }

    /** One file operation or cancellation check that may be the last. */
    method Tick() returns (r: Outcome)
      modifies this`budget
      ensures r.Done? ==> budget + 1 == old(budget)
      ensures r.Interrupted? ==> old(budget) == 0
    {
      if budget == 0 {
        return Interrupted;
      }
      budget := budget - 1;
      return Done;
    }

    /** Build workers and the user may do anything in the mirror, except forge a file that carries a
        source file's modification time. */
    method Work(writes: Tree, deletes: set<Path>)
      requires Inv()
      requires forall p :: p in writes && writes[p].File? ==> writes[p].stamp.Local?
      modifies this`mirror
      ensures Inv() && mirror == (old(mirror) - deletes) + writes
    {
      mirror := (mirror - deletes) + writes;
      if !marker && manifest.Stored? {
        forall p
          ensures TrustedAt(manifest.m, mirror, p)
        {
          assert TrustedAt(manifest.m, old(mirror), p);
        }
      }
    }

    /** `destination_matches`: a regular file of the same length with the same modification time, or
        else the same digest. */
    method DestinationMatches(p: Path, file: SourceFile) returns (matching: bool)
      ensures matching ==> p in mirror && mirror[p].File?
      ensures matching ==> mirror[p].stamp == FromSource(file.at) || mirror[p].content == file.content
      ensures Holds(mirror, p, file.content) ==> matching
    {
      if p !in mirror || mirror[p].Link? {
        return false;
      }
      if |mirror[p].content| != |file.content| {
        return false;
      }
      if mirror[p].stamp == FromSource(file.at) {
        return true;
      }
      return Digest(mirror[p].content) == Digest(file.content);
    }

    /** `copy_input`: remove, create, write, set the time; any of them may be the last. */
    method CopyInput(p: Path, file: SourceFile, fate: Fate) returns (r: Outcome)
      modifies this`mirror, this`budget
      ensures forall q :: q != p ==> SameAt(mirror, old(mirror), q)
      ensures r.Done? ==> Holds(mirror, p, file.content)
      ensures if r.Done? then budget + 4 >= old(budget) else old(budget) < 4
    {
      r := Interrupted;
      :- Tick();
      mirror := mirror - {p};
      :- Tick();
      mirror := mirror[p := File(fate.torn, Local(fate.now))];
      :- Tick();
      mirror := mirror[p := File(file.content, Local(fate.now))];
      :- Tick();
      if p in fate.stampable {
        mirror := mirror[p := File(file.content, FromSource(file.at))];
      }
      return Done;
    }

    /** `mirror_file`: reuse the mirrored copy only if the manifest, the overlay list and the file
        itself all agree; otherwise copy. Either way the mirror then holds the source's content. */
    method MirrorFile(p: Path, file: SourceFile, previous: Manifest, fate: Fate) returns (r: Outcome)
      requires TrustedAt(previous, mirror, p) || Holds(mirror, p, file.content)
      modifies this`mirror, this`budget
      ensures forall q :: q != p ==> SameAt(mirror, old(mirror), q)
      ensures r.Done? ==> Holds(mirror, p, file.content)
      ensures Reusable(previous, old(mirror), file, p) ==> SameAt(mirror, old(mirror), p)
      ensures if r.Done? then budget + 5 >= old(budget) else old(budget) < 5
    {
      r := Interrupted;
      :- Tick();
      assert mirror == old(mirror);
      var digest := Digest(file.content);
      var reusable := p in previous.digests && previous.digests[p] == digest && p !in previous.overlayPaths;
      if reusable {
        reusable := DestinationMatches(p, file);
      }
      if !reusable {
        :- CopyInput(p, file, fate);
      }
      return Done;
    }

    /** The walk over the workspace inputs, in listing order. */
    method MirrorInputs(src: Source, listing: seq<Path>, previous: Manifest, fate: Fate) returns (r: Outcome)
      requires forall p :: p in listing ==> p in src
      requires Trusted(previous, mirror)
      modifies this`mirror, this`budget
      ensures forall q :: q !in listing ==> SameAt(mirror, old(mirror), q)
      ensures r.Done? ==> forall p :: p in listing ==> Holds(mirror, p, src[p].content)
      ensures forall p :: p in listing && Reusable(previous, old(mirror), src[p], p) ==> SameAt(mirror, old(mirror), p)
      ensures if r.Done? then budget + 5 * |listing| >= old(budget) else old(budget) < 5 * |listing|
    {
      for i := 0 to |listing|
        invariant budget + 5 * i >= old(budget)
        invariant forall q :: q !in listing[..i] ==> SameAt(mirror, old(mirror), q)
        invariant forall p :: p in listing[..i] ==> Holds(mirror, p, src[p].content)
        invariant forall p :: p in listing && Reusable(previous, old(mirror), src[p], p) ==> SameAt(mirror, old(mirror), p)
      {
        var p := listing[i];
        assert listing[..i + 1] == listing[..i] + [p];
        assert p !in listing[..i] ==> TrustedAt(previous, old(mirror), p) && SameAt(mirror, old(mirror), p);
        ghost var before := mirror;
        var step := MirrorFile(p, src[p], previous, fate);
        assert Reusable(previous, old(mirror), src[p], p) ==> Reusable(previous, before, src[p], p);
        assert forall q :: q in listing && q != p ==> SameAt(mirror, before, q);
        assert forall q :: q !in listing[..i + 1] ==> SameAt(mirror, before, q) && SameAt(before, old(mirror), q);
        if step.Interrupted? {
          assert forall q :: q in listing[..i + 1] ==> q in listing;
          return step;
        }
        assert forall q :: q in listing[..i + 1] && q != p ==> SameAt(mirror, before, q) && Holds(before, q, src[q].content);
      }
      assert listing[..|listing|] == listing;
      return Done;
    }

    /** Each stale name's file is removed, whatever it is by now. */
    method RemoveStale(stale: set<Path>) returns (r: Outcome)
      modifies this`mirror, this`budget
      ensures r.Done? ==> mirror == old(mirror) - Files(stale)
      ensures if r.Done? then budget + |stale| >= old(budget) else old(budget) < |stale|
    {
      var remaining := stale;
      assert stale - stale == {} && Files({}) == {};
      while remaining != {}
        invariant |remaining| <= |stale| && budget + |stale| - |remaining| >= old(budget)
        invariant remaining <= stale
        invariant mirror == old(mirror) - Files(stale - remaining)
        decreases remaining
      {
        :- Tick();
        assert mirror == old(mirror) - Files(stale - remaining);
        var n :| n in remaining;
        RemovedOneMore(old(mirror), stale, remaining, n);
        mirror := mirror - {FileOf(n)};
        remaining := remaining - {n};
      }
      assert stale - {} == stale;
      return Done;
    }

    /** One document's text, after removing what was at its file. */
    method WriteDocument(p: Path, content: Content, fate: Fate) returns (r: Outcome)
      modifies this`mirror, this`budget
      ensures forall q :: q != p ==> SameAt(mirror, old(mirror), q)
      ensures r.Done? ==> Holds(mirror, p, content) && mirror[p].stamp.Local?
      ensures if r.Done? then budget + 3 >= old(budget) else old(budget) < 3
    {
      r := Interrupted;
      :- Tick();
      mirror := mirror - {p};
      :- Tick();
      mirror := mirror[p := File(fate.torn, Local(fate.now))];
      :- Tick();
      mirror := mirror[p := File(content, Local(fate.now))];
      return Done;
    }

    method WriteDocuments(docs: seq<Document>, fate: Fate) returns (r: Outcome)
      modifies this`mirror, this`budget
      ensures r.Done? ==> Written(mirror, old(mirror), docs)
      ensures if r.Done? then budget + 3 * |docs| >= old(budget) else old(budget) < 3 * |docs|
    {
      for i := 0 to |docs|
        invariant budget + 3 * i >= old(budget)
        invariant Written(mirror, old(mirror), docs[..i])
      {
        ghost var before := mirror;
        :- WriteDocument(FileOf(docs[i].name), docs[i].content, fate);
        WrittenMore(mirror, before, old(mirror), docs, i);
      }
      assert docs[..|docs|] == docs;
      return Done;
    }

    /** Everything up to the creation of the marker. Without a usable manifest the mirror and the
        manifest file are removed, in this order and while any old marker still stands. */
    method Open(fate: Fate) returns (r: Outcome, previous: Manifest)
      requires Inv()
      modifies this
      ensures Inv()
      ensures r.Done? ==>
        && marker
        && mirror == (if Usable(old(manifest), old(marker)).Stored? then old(mirror) else map[])
        && previous == (if Usable(old(manifest), old(marker)).Stored? then old(manifest).m else NO_MANIFEST)
        && Trusted(previous, mirror)
      ensures manifest == old(manifest) || manifest == Missing
      ensures r.Interrupted? ==> Abandoned(Disk(old(mirror), old(manifest), old(marker)), Disk(mirror, manifest, marker))
      ensures if r.Done? then budget + 5 >= old(budget) else old(budget) < 5
    {
      previous := NO_MANIFEST;
      r := Tick();
      if r.Interrupted? {
        return;
      }
      var usable := Usable(manifest, marker);
      if usable.Stored? {
        previous := usable.m;
      } else {
        r := Tick();
        if r.Interrupted? {
          mirror := map p | p in mirror && p in fate.survivors :: mirror[p];
          return;
        }
        mirror := map[];
        r := Tick();
        if r.Interrupted? {
          return;
        }
        manifest := Missing;
      }
      r := Tick();
      if r.Interrupted? {
        return;
      }
      marker := false;
      r := Tick();
      if r.Interrupted? {
        return;
      }
      marker := true;
    }

    /** The part between creating the marker and writing the manifest. */
    method Fill(src: Source, listing: seq<Path>, docs: seq<Document>, previous: Manifest, fate: Fate) returns (r: Outcome)
      requires Trusted(previous, mirror)
      requires forall p :: p in listing <==> p in src
      modifies this`mirror, this`budget
      ensures r.Done? ==> IsPrepared(mirror, old(mirror), previous, src, docs)
      ensures
        var bound := 5 * |listing| + |previous.paths| + 3 * |docs|;
        if r.Done? then budget + bound >= old(budget) else old(budget) < bound
    {
      r := Interrupted;
      :- MirrorInputs(src, listing, previous, fate);
      ghost var copied := mirror;
      var stale := Stale(previous, src, docs);
      CardinalityOfDifference(previous.paths, src.Keys + DocumentNames(docs));
      :- RemoveStale(stale);
      ghost var removed := mirror;
      :- WriteDocuments(docs, fate);
      PreparedBySteps(mirror, removed, copied, old(mirror), previous, src, docs);
      return Done;
    }

    /** `prepare_cancellable`: a preparation that is cut leaves a session the next one can still build
        on, one that is not cut succeeds unless its manifest is too large to be written, and one that
        succeeds leaves a full copy exactly if the documents agree and no stale name leads to an
        input. */
    method Prepare(src: Source, listing: seq<Path>, docs: seq<Document>, fate: Fate) returns (r: Outcome)
      requires Inv() && DistinctNames(docs) && PlainSource(src)
      requires forall p :: p in listing <==> p in src
      modifies this
      ensures Inv()
      ensures
        var previous, start := Before(old(manifest), old(marker)), Start(old(mirror), old(manifest), old(marker));
        r.Done? ==>
          && IsPrepared(mirror, start, previous, src, docs)
          && (IsFullCopy(mirror, Generated(old(mirror), old(manifest), old(marker)), src, docs)
              <==> Agreeing(docs) && SparesInputs(previous, src, docs))
      ensures r.Done? ==> !marker && manifest == Stored(ManifestOf(src, docs))
      ensures r.Interrupted? ==>
        fate.budget < OperationBound(Usable(old(manifest), old(marker)), listing, docs) || !fate.manifestFits
      ensures manifest == old(manifest) || manifest == Missing || manifest == Stored(ManifestOf(src, docs))
      ensures r.Interrupted? ==> Abandoned(Disk(old(mirror), old(manifest), old(marker)), Disk(mirror, manifest, marker))
    {
      budget := fate.budget;
      var previous;
      r, previous := Open(fate);
      if r.Interrupted? {
        return;
      }
      ghost var start := mirror;
      assert Generated(old(mirror), old(manifest), old(marker)) == start - Files(previous.paths) by {
        assert Files({}) == {};
      }
      :- Fill(src, listing, docs, previous, fate);
      FullCopyIff(mirror, start, previous, src, docs);
      PreparedIsTrusted(mirror, start, previous, src, docs);
      :- Tick();
      if !fate.manifestFits {
        return Interrupted;
      }
      manifest := Stored(ManifestOf(src, docs));
      :- Tick();
      marker := false;
      return Done;
    }
  }

  /** The manifest a preparation compares with, and the mirror it starts from. */
  function Before(manifest: ManifestFile, marker: bool): Manifest {
    if Usable(manifest, marker).Stored? then manifest.m else NO_MANIFEST
  }

  function Start(mirror: Tree, manifest: ManifestFile, marker: bool): Tree {
    if Usable(manifest, marker).Stored? then mirror else map[]
  }

  /** After any preparation, whatever its documents are called, a file stamped as a mirrored input has
      the content its digest promises: documents are never stamped so. */
  lemma {:induction false} PreparedIsTrusted(tree: Tree, start: Tree, previous: Manifest, src: Source, docs: seq<Document>)
    requires IsPrepared(tree, start, previous, src, docs)
    ensures Trusted(ManifestOf(src, docs), tree)
  {
    forall p
      ensures TrustedAt(ManifestOf(src, docs), tree, p)
    {
      assert PreparedAt(tree, start, previous, src, docs, p);
    }
  }

  lemma {:induction false} RemovedOneMore(tree: Tree, stale: set<Path>, remaining: set<Path>, n: Path)
    requires n in remaining && remaining <= stale
    ensures tree - Files(stale - remaining) - {FileOf(n)} == tree - Files(stale - (remaining - {n}))
  {
    assert stale - (remaining - {n}) == (stale - remaining) + {n};
    assert Files((stale - remaining) + {n}) == Files(stale - remaining) + {FileOf(n)};
  }

  /** The documents' texts are in place, later ones over earlier ones, and nothing else changed. */
  ghost predicate Written(tree: Tree, from: Tree, docs: seq<Document>) {
    forall p ::
      if p in DocumentFiles(docs) then Holds(tree, p, LastText(docs, p)) && tree[p].stamp.Local? else SameAt(tree, from, p)
  }

  lemma {:induction false} WrittenMore(tree: Tree, mid: Tree, from: Tree, docs: seq<Document>, i: nat)
    requires i < |docs| && Written(mid, from, docs[..i])
    requires forall q :: q != FileOf(docs[i].name) ==> SameAt(tree, mid, q)
    requires Holds(tree, FileOf(docs[i].name), docs[i].content) && tree[FileOf(docs[i].name)].stamp.Local?
    ensures Written(tree, from, docs[..i + 1])
  {
    var more := docs[..i + 1];
    assert more[..i] == docs[..i] && more[i] == docs[i];
    DocumentsButLast(more);
    forall p
      ensures if p in DocumentFiles(more) then Holds(tree, p, LastText(more, p)) && tree[p].stamp.Local? else SameAt(tree, from, p)
    {
      if p != FileOf(docs[i].name) {
        assert SameAt(tree, mid, p);
      }
    }
  }

  /** Copying, removing and writing, taken together. */
  lemma {:induction false} PreparedBySteps(
    tree: Tree, removed: Tree, copied: Tree, start: Tree, previous: Manifest, src: Source, docs: seq<Document>)
    requires forall q :: q !in src ==> SameAt(copied, start, q)
    requires forall p :: p in src ==> Holds(copied, p, src[p].content)
    requires forall p :: p in src && Reusable(previous, start, src[p], p) ==> SameAt(copied, start, p)
    requires removed == copied - Files(Stale(previous, src, docs))
    requires Written(tree, removed, docs)
    ensures IsPrepared(tree, start, previous, src, docs)
  {
    forall p
      ensures PreparedAt(tree, start, previous, src, docs, p)
    {
      assert p !in DocumentFiles(docs) ==> SameAt(tree, removed, p);
      assert p !in src ==> SameAt(copied, start, p);
    }
  }

  lemma CardinalityOfDifference(a: set<Path>, b: set<Path>)
    ensures |a - b| <= |a|
  {
    assert a == (a - b) + (a * b);
  }

  // ---------------------------------------------------------------- whole histories

  datatype Move =
    | Working(writes: Tree, deletes: set<Path>)
    | Preparing(src: Source, listing: seq<Path>, docs: seq<Document>, fate: Fate)

  ghost predicate Legal(move: Move) {
    match move
    case Working(writes, _) => forall p :: p in writes && writes[p].File? ==> writes[p].stamp.Local?
    case Preparing(src, listing, docs, _) =>
      DistinctNames(docs) && PlainSource(src) && forall p :: p in listing <==> p in src
  }

  /** What a move may do to the disk; `succeeded` is the reply of a preparation. */
  ghost predicate Effect(move: Move, before: Disk, after: Disk, succeeded: bool) {
    match move
    case Working(writes, deletes) => after == before.(mirror := (before.mirror - deletes) + writes)
    case Preparing(src, listing, docs, fate) =>
      var previous := Before(before.manifest, before.marker);
      && (after.manifest == before.manifest || after.manifest == Missing || after.manifest == Stored(ManifestOf(src, docs)))
      && if succeeded then
           && IsPrepared(after.mirror, Start(before.mirror, before.manifest, before.marker), previous, src, docs)
           && (IsFullCopy(after.mirror, Generated(before.mirror, before.manifest, before.marker), src, docs)
               <==> Agreeing(docs) && SparesInputs(previous, src, docs))
           && after.manifest == Stored(ManifestOf(src, docs)) && !after.marker
         else
           && Abandoned(before, after)
           && (fate.budget < OperationBound(Usable(before.manifest, before.marker), listing, docs) || !fate.manifestFits)
  }

  /** Over any history of edits, work in the mirror, preparations, cancellations and crashes, every
      preparation that succeeds leaves a full copy over the generated files if and only if its
      documents agree and no stale name leads to an input; and one fails only if it is interrupted or
      its manifest is too large. */
  method MirrorHistory(history: seq<Move>) returns (disks: seq<Disk>, replies: seq<bool>)
    requires forall i :: 0 <= i < |history| ==> Legal(history[i])
    ensures |disks| == |history| + 1 && |replies| == |history|
    ensures disks[0] == Disk(map[], Missing, false)
    ensures forall i :: 0 <= i < |history| ==> Effect(history[i], disks[i], disks[i + 1], replies[i])
  {
    var session := new Session();
    disks, replies := [Disk(session.mirror, session.manifest, session.marker)], [];
    for i := 0 to |history|
      invariant session.Inv() && fresh(session)
      invariant |disks| == i + 1 && |replies| == i
      invariant disks[0] == Disk(map[], Missing, false)
      invariant disks[i] == Disk(session.mirror, session.manifest, session.marker)
      invariant forall k :: 0 <= k < i ==> Effect(history[k], disks[k], disks[k + 1], replies[k])
    {
      var reply := true;
      assert Legal(history[i]);
      match history[i] {
        case Working(writes, deletes) =>
          session.Work(writes, deletes);
        case Preparing(src, listing, docs, fate) =>
          var r := session.Prepare(src, listing, docs, fate);
          reply := r.Done?;
      }
      disks := disks + [Disk(session.mirror, session.manifest, session.marker)];
      replies := replies + [reply];
      assert Effect(history[i], disks[i], disks[i + 1], replies[i]);
    }
  }

  // ---------------------------------------------------------------- plain names

  ghost predicate PlainNames(docs: seq<Document>) {
    forall i :: 0 <= i < |docs| ==> "." !in docs[i].name
  }

  ghost predicate PlainManifest(manifest: ManifestFile) {
    manifest.Stored? ==> forall n :: n in manifest.m.paths ==> "." !in n
  }

  lemma {:induction false} PlainNamesSuffice(previous: Manifest, src: Source, docs: seq<Document>)
    requires DistinctNames(docs) && PlainNames(docs) && forall n :: n in previous.paths ==> "." !in n
    ensures Agreeing(docs) && SparesInputs(previous, src, docs)
  {
    forall i | 0 <= i < |docs|
      ensures FileOf(docs[i].name) == docs[i].name
    {
      DotFree(docs[i].name);
    }
    forall n | n in Stale(previous, src, docs)
      ensures FileOf(n) !in src
    {
      DotFree(n);
    }
  }

  lemma {:induction false} ManifestsStayPlain(history: seq<Move>, disks: seq<Disk>, replies: seq<bool>, i: nat)
    requires |disks| == |history| + 1 && |replies| == |history| && i <= |history|
    requires disks[0] == Disk(map[], Missing, false)
    requires forall k :: 0 <= k < |history| ==>
      Legal(history[k]) && Effect(history[k], disks[k], disks[k + 1], replies[k])
    requires forall k :: 0 <= k < |history| && history[k].Preparing? ==> PlainNames(history[k].docs)
    ensures PlainManifest(disks[i].manifest)
  {
    if i > 0 {
      ManifestsStayPlain(history, disks, replies, i - 1);
      assert Effect(history[i - 1], disks[i - 1], disks[i - 1 + 1], replies[i - 1]);
    }
  }

  /** Mirror refines a full copy: in every history whose documents have no "." segments in their names,
      every preparation that succeeds leaves a full copy over the generated files. */
  lemma {:induction false} PlainHistoriesAreFullCopies(history: seq<Move>, disks: seq<Disk>, replies: seq<bool>, i: nat)
    requires |disks| == |history| + 1 && |replies| == |history| && i < |history|
    requires disks[0] == Disk(map[], Missing, false)
    requires forall k :: 0 <= k < |history| ==>
      Legal(history[k]) && Effect(history[k], disks[k], disks[k + 1], replies[k])
    requires forall k :: 0 <= k < |history| && history[k].Preparing? ==> PlainNames(history[k].docs)
    requires history[i].Preparing? && replies[i]
    ensures
      var before := disks[i];
      IsFullCopy(disks[i + 1].mirror, Generated(before.mirror, before.manifest, before.marker), history[i].src, history[i].docs)
  {
    ManifestsStayPlain(history, disks, replies, i);
    assert Legal(history[i]) && Effect(history[i], disks[i], disks[i + 1], replies[i]);
    PlainNamesSuffice(Before(disks[i].manifest, disks[i].marker), history[i].src, history[i].docs);
  }

  lemma AliasNames()
    ensures FileOf(["src", ".", "A.java"]) == ["src", "A.java"]
    ensures "." !in ["src", "A.java"]
  {
    var name := ["src", ".", "A.java"];
    assert |"."| == 1 && |"src"| == 3 && |"A.java"| == 6;
    assert name[1..] == [".", "A.java"] && name[1..][1..] == ["A.java"] && name[1..][1..][1..] == [];
    assert FileOf(["A.java"]) == ["A.java"];
    assert FileOf([".", "A.java"]) == ["A.java"];
  }

  /** A single document under an alias of an input: the file holds its text, and the manifest names
      both spellings. */
  lemma {:induction false} AliasFirst(tree: Tree, file: Path, src: Source, doc: Document)
    requires FileOf(doc.name) == file && src.Keys == {file}
    requires IsPrepared(tree, map[], NO_MANIFEST, src, [doc])
    ensures Holds(tree, file, doc.content)
    ensures ManifestOf(src, [doc]).paths == {file, doc.name}
  {
    assert [doc][0] == doc;
    assert file in DocumentFiles([doc]) && LastText([doc], file) == doc.content;
    assert PreparedAt(tree, map[], NO_MANIFEST, src, [doc], file);
    assert DocumentNames([doc]) == {doc.name};
  }

  /** The next preparation without documents removes the alias, and with it the input. */
  lemma {:induction false} AliasSecond(tree: Tree, start: Tree, file: Path, src: Source, previous: Manifest, name: Path)
    requires FileOf(name) == file && name != file && src.Keys == {file} && previous.paths == {file, name}
    requires IsPrepared(tree, start, previous, src, [])
    ensures file !in tree
  {
    assert name in Stale(previous, src, []);
    assert file in Files(Stale(previous, src, []));
    assert PreparedAt(tree, start, previous, src, [], file);
  }

  /** Why the condition is needed: one document under a name with a "." segment, then none. Both
      preparations succeed, and the second deletes the input it has just copied. */
  method AliasDeletesInput(content: Content, text: Content, fate: Fate) returns (disks: seq<Disk>)
    requires fate.budget >= 15 && fate.manifestFits
    ensures |disks| == 3
    ensures
      var file := ["src", "A.java"];
      && Holds(disks[1].mirror, file, text)
      && !disks[2].marker && disks[2].manifest.Stored?
      && file in disks[2].manifest.m.paths && file !in disks[2].mirror
  {
    var file, doc := ["src", "A.java"], Document(["src", ".", "A.java"], text);
    AliasNames();
    var src := map[file := SourceFile(content, 0)];
    var history := [Preparing(src, [file], [doc], fate), Preparing(src, [file], [], fate)];
    assert Legal(history[0]) && Legal(history[1]);
    var replies;
    disks, replies := MirrorHistory(history);
    assert Effect(history[0], disks[0], disks[1], replies[0]);
    AliasFirst(disks[1].mirror, file, src, doc);
    assert |{file, doc.name}| == 2;
    assert Effect(history[1], disks[1], disks[1 + 1], replies[1]);
    AliasSecond(disks[2].mirror, disks[1].mirror, file, src, disks[1].manifest.m, doc.name);
  }
}
