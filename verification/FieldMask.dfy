/** The field mask of structured results: which parts of a JSON tree a list of dotted paths keeps. */
module FieldMask {

  datatype Json =
    | Atom(text: string)                      // null, a boolean, a number or a string
    | Array(items: seq<Json>)
    | Object(fields: map<string, Json>)

  type Path = seq<string>

  /** The rests of the paths that begin with `key`, in their order. */
  function Tails(paths: seq<Path>, key: string): seq<Path> {
    if paths == [] then []
    else (if paths[0] != [] && paths[0][0] == key then [paths[0][1..]] else []) + Tails(paths[1..], key)
  }

  function Project(source: Json, paths: seq<Path>): Json {
    match source
    case Object(fields) =>
      Object(map key | key in fields && Tails(paths, key) != [] ::
        if [] in Tails(paths, key) then fields[key] else Project(fields[key], Tails(paths, key)))
    case Array(items) => Array(seq(|items|, i requires 0 <= i < |items| => Project(items[i], paths)))
    case Atom(_) => source
  }

  // Trees by their addresses.

  datatype Step = Key(key: string) | Index(index: nat)

  type Address = seq<Step>

  /** What stands at an address: an atom, an array of some length, or an object. */
  datatype Label = Absent | AtomLabel(text: string) | ArrayLabel(length: nat) | ObjectLabel

  function LabelAt(j: Json, address: Address): Label
    decreases |address|
  {
    if address == [] then
      match j
      case Atom(text) => AtomLabel(text)
      case Array(items) => ArrayLabel(|items|)
      case Object(_) => ObjectLabel
    else
      match (j, address[0])
      case (Object(fields), Key(key)) => if key in fields then LabelAt(fields[key], address[1..]) else Absent
      case (Array(items), Index(i)) => if i < |items| then LabelAt(items[i], address[1..]) else Absent
      case _ => Absent
  }

  /** The keys on the way to an address; array positions are ignored. */
  function KeyPath(address: Address): Path {
    if address == [] then []
    else (if address[0].Key? then [address[0].key] else []) + KeyPath(address[1..])
  }

  /** Some requested path is a prefix of p, or p of it. */
  predicate Kept(paths: seq<Path>, p: Path) {
    p == [] || exists i :: 0 <= i < |paths| && (paths[i] <= p || p <= paths[i])
  }

  predicate NoEmpty(paths: seq<Path>) {
    [] !in paths
  }

  lemma {:induction false} TailsOf(paths: seq<Path>, key: string, tail: Path)
    ensures tail in Tails(paths, key) <==> [key] + tail in paths
  {
    if paths != [] {
      TailsOf(paths[1..], key, tail);
      var head := paths[0];
      if head != [] && head[0] == key {
        assert head == [key] + head[1..];
      }
      assert ([key] + tail)[1..] == tail;
    }
  }

  /** Keeping a path that begins with `key` is keeping its rest under the tails. */
  lemma {:induction false} KeptUnder(paths: seq<Path>, key: string, p: Path)
    requires NoEmpty(paths)
    ensures Kept(paths, [key] + p) <==>
            Tails(paths, key) != [] && ([] in Tails(paths, key) || Kept(Tails(paths, key), p))
  {
    var tails := Tails(paths, key);
    if Kept(paths, [key] + p) {
      var i :| 0 <= i < |paths| && (paths[i] <= [key] + p || [key] + p <= paths[i]);
      var q := paths[i];
      assert q != [] && q[0] == key && q == [key] + q[1..];
      TailsOf(paths, key, q[1..]);
      assert q[1..] <= p || p <= q[1..] by {
        assert ([key] + p)[1..] == p;
      }
    }
    if tails != [] && ([] in tails || Kept(tails, p)) {
      var t: Path;
      if [] in tails {
        t := [];
      } else if p == [] {
        t := tails[0];
      } else {
        var i :| 0 <= i < |tails| && (tails[i] <= p || p <= tails[i]);
        t := tails[i];
      }
      assert t in tails && (t <= p || p <= t);
      TailsOf(paths, key, t);
      assert [key] + t <= [key] + p || [key] + p <= [key] + t;
    }
  }

  /** Projection is exact: what stands at an address is kept, unchanged, exactly when the key path of
      the address is comparable with a requested path; everything else is gone. */
  lemma {:induction false} ProjectionIsExact(j: Json, paths: seq<Path>, address: Address)
    requires NoEmpty(paths)
    ensures LabelAt(Project(j, paths), address)
         == if Kept(paths, KeyPath(address)) then LabelAt(j, address) else Absent
    decreases |address|
  {
    if address != [] {
      var rest := address[1..];
      match (j, address[0]) {
        case (Object(fields), Key(key)) =>
          var tails := Tails(paths, key);
          KeptUnder(paths, key, KeyPath(rest));
          if key in fields && tails != [] && [] !in tails {
            ProjectionIsExact(fields[key], tails, rest);
          }
        case (Array(items), Index(i)) =>
          if i < |items| {
            ProjectionIsExact(items[i], paths, rest);
          }
          assert KeyPath(address) == KeyPath(rest);
        case _ =>
      }
    }
  }

  /** Trees with the same labels everywhere are the same. */
  lemma {:induction false} SameLabels(a: Json, b: Json)
    requires forall address :: LabelAt(a, address) == LabelAt(b, address)
    ensures a == b
  {
    assert LabelAt(a, []) == LabelAt(b, []);
    match a {
      case Atom(_) =>
      case Array(items) =>
        forall i: nat | i < |items|
          ensures items[i] == b.items[i]
        {
          SameChild(a, b, Index(i), items[i], b.items[i]);
          SameLabels(items[i], b.items[i]);
        }
      case Object(fields) =>
        forall key
          ensures key in fields <==> key in b.fields
        {
          assert LabelAt(a, [Key(key)]) == LabelAt(b, [Key(key)]);
          KeyHasLabel(fields, key);
          KeyHasLabel(b.fields, key);
        }
        forall key | key in fields
          ensures fields[key] == b.fields[key]
        {
          SameChild(a, b, Key(key), fields[key], b.fields[key]);
          SameLabels(fields[key], b.fields[key]);
        }
    }
  }

  lemma {:induction false} KeyHasLabel(fields: map<string, Json>, key: string)
    ensures key in fields <==> LabelAt(Object(fields), [Key(key)]) != Absent
  {
    var address := [Key(key)];
    assert address[0] == Key(key) && address[1..] == [];
    assert key in fields ==> LabelAt(fields[key], []) != Absent;
  }

  predicate Child(j: Json, step: Step, c: Json) {
    match (j, step)
    case (Object(fields), Key(key)) => key in fields && fields[key] == c
    case (Array(items), Index(i)) => i < |items| && items[i] == c
    case _ => false
  }

  lemma SameChild(a: Json, b: Json, step: Step, c: Json, d: Json)
    requires forall address :: LabelAt(a, address) == LabelAt(b, address)
    requires Child(a, step, c) && Child(b, step, d)
    ensures forall address :: LabelAt(c, address) == LabelAt(d, address)
  {
    forall address
      ensures LabelAt(c, address) == LabelAt(d, address)
    {
      var longer := [step] + address;
      assert longer[1..] == address;
      assert LabelAt(a, longer) == LabelAt(b, longer);
    }
  }

  /** Path lists that keep the same key paths project every tree alike. */
  lemma {:induction false} ProjectionDependsOnKept(j: Json, ps: seq<Path>, qs: seq<Path>)
    requires NoEmpty(ps) && NoEmpty(qs) && forall p :: Kept(ps, p) <==> Kept(qs, p)
    ensures Project(j, ps) == Project(j, qs)
  {
    forall address
      ensures LabelAt(Project(j, ps), address) == LabelAt(Project(j, qs), address)
    {
      ProjectionIsExact(j, ps, address);
      ProjectionIsExact(j, qs, address);
    }
    SameLabels(Project(j, ps), Project(j, qs));
  }

  /** Projecting twice by the same paths is projecting once. */
  lemma {:induction false} ProjectionIsIdempotent(j: Json, paths: seq<Path>)
    requires NoEmpty(paths)
    ensures Project(Project(j, paths), paths) == Project(j, paths)
  {
    var once := Project(j, paths);
    forall address
      ensures LabelAt(Project(once, paths), address) == LabelAt(once, address)
    {
      ProjectionIsExact(once, paths, address);
      ProjectionIsExact(j, paths, address);
    }
    SameLabels(Project(once, paths), once);
  }

  // The mask as the client sends it.

  /** The segments between dots, empty ones dropped. */
  function Segments(field: string, current: string): Path {
    if field == "" then (if current == "" then [] else [current])
    else if field[0] == '.' then (if current == "" then [] else [current]) + Segments(field[1..], "")
    else Segments(field[1..], current + [field[0]])
  }

  function Dotted(path: Path): string {
    if path == [] then "" else if |path| == 1 then path[0] else path[0] + "." + Dotted(path[1..])
  }

  lemma {:induction false} SegmentsScan(word: string, rest: string, current: string)
    requires '.' !in word
    ensures Segments(word + rest, current) == Segments(rest, current + word)
  {
    if word == "" {
      assert word + rest == rest && current + word == current;
    } else {
      assert (word + rest)[0] == word[0] && (word + rest)[1..] == word[1..] + rest;
      SegmentsScan(word[1..], rest, current + [word[0]]);
      assert current + [word[0]] + word[1..] == current + word;
    }
  }

  lemma {:induction false} OneSegment(key: string)
    requires key != "" && '.' !in key
    ensures Segments(key, "") == [key]
  {
    SegmentsScan(key, "", "");
    assert key + "" == key && "" + key == key;
  }

  lemma {:induction false} FirstSegment(key: string, rest: string)
    requires key != "" && '.' !in key
    ensures Segments(key + "." + rest, "") == [key] + Segments(rest, "")
  {
    var tail := "." + rest;
    SegmentsScan(key, tail, "");
    assert key + "." + rest == key + tail && "" + key == key;
    assert tail[0] == '.' && tail[1..] == rest;
  }

  lemma {:induction false} SegmentsOfJoinFrom(a: string, b: string, current: string)
    ensures Segments(a + "." + b, current) == Segments(a, current) + Segments(b, "")
  {
    var text := a + "." + b;
    if a == "" {
      assert text[0] == '.' && text[1..] == b;
    } else {
      assert text[0] == a[0] && text[1..] == a[1..] + "." + b;
      SegmentsOfJoinFrom(a[1..], b, if a[0] == '.' then "" else current + [a[0]]);
    }
  }

  /** A dot separates, and nothing else does: the segments of two fields joined by a dot are the segments
      of the one and then of the other, so dots at the ends and repeated dots add nothing. */
  lemma {:induction false} SegmentsOfJoin(a: string, b: string)
    ensures Segments(a + "." + b, "") == Segments(a, "") + Segments(b, "")
    ensures Segments("", "") == [] && ('.' !in a && a != "" ==> Segments(a, "") == [a])
  {
    SegmentsOfJoinFrom(a, b, "");
    if '.' !in a && a != "" {
      OneSegment(a);
    }
  }

  /** Every path of keys that are not empty and hold no dot can be asked for. */
  lemma {:induction false} SegmentsOfDotted(path: Path)
    requires forall i :: 0 <= i < |path| ==> path[i] != "" && '.' !in path[i]
    ensures Segments(Dotted(path), "") == path
  {
    if |path| == 1 {
      OneSegment(path[0]);
    } else if |path| > 1 {
      SegmentsOfDotted(path[1..]);
      FirstSegment(path[0], Dotted(path[1..]));
    }
  }

  function Paths(fields: seq<string>): (paths: seq<Path>)
    ensures NoEmpty(paths)
  {
    if fields == [] then []
    else (if Segments(fields[0], "") == [] then [] else [Segments(fields[0], "")]) + Paths(fields[1..])
  }

  function ApplyFieldMask(data: Json, fields: seq<string>): Json {
    if fields == [] then data else Project(data, Paths(fields))
  }

  lemma {:induction false} PathsOf(fields: seq<string>, path: Path)
    ensures path in Paths(fields) <==> path != [] && exists i :: 0 <= i < |fields| && Segments(fields[i], "") == path
  {
    if fields != [] {
      PathsOf(fields[1..], path);
      if i :| 0 < i < |fields| && Segments(fields[i], "") == path {
        assert fields[1..][i - 1] == fields[i];
      }
    }
  }

  /** A mask keeps exactly the addresses comparable with a requested field, and an empty one keeps
      everything. */
  lemma MaskIsExact(data: Json, fields: seq<string>, address: Address)
    ensures LabelAt(ApplyFieldMask(data, fields), address)
         == if fields == [] || Kept(Paths(fields), KeyPath(address)) then LabelAt(data, address) else Absent
  {
    if fields != [] {
      ProjectionIsExact(data, Paths(fields), address);
    }
  }

  /** Neither the order nor the repetition of fields matters, and masking twice is masking once. */
  lemma MaskIsASet(data: Json, a: seq<string>, b: seq<string>)
    requires forall field :: field in a <==> field in b
    ensures ApplyFieldMask(data, a) == ApplyFieldMask(data, b)
    ensures ApplyFieldMask(ApplyFieldMask(data, a), b) == ApplyFieldMask(data, a)
  {
    assert a == [] || a[0] in b;
    assert b == [] || b[0] in a;
    if a != [] {
      forall p
        ensures Kept(Paths(a), p) <==> Kept(Paths(b), p)
      {
        KeptBySet(a, b, p);
        KeptBySet(b, a, p);
      }
      ProjectionDependsOnKept(data, Paths(a), Paths(b));
      ProjectionIsIdempotent(data, Paths(b));
    }
  }

  lemma {:induction false} KeptBySet(a: seq<string>, b: seq<string>, p: Path)
    requires forall field :: field in a ==> field in b
    ensures Kept(Paths(a), p) ==> Kept(Paths(b), p)
  {
    if Kept(Paths(a), p) && p != [] {
      var i :| 0 <= i < |Paths(a)| && (Paths(a)[i] <= p || p <= Paths(a)[i]);
      var path := Paths(a)[i];
      PathsOf(a, path);
      var k :| 0 <= k < |a| && Segments(a[k], "") == path;
      assert a[k] in b;
      PathsOf(b, path);
    }
  }
}
