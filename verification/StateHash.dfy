/** The bytes a state hash is taken of: a canonical encoding of captured values.

    The encoding sorts map entries, so it forgets their order; it forgets nothing else, and no
    encoding is a proper prefix of another. */
module StateHash {
  import opened Utf8

  datatype Value =
    | Null
    | Text(text: string)
    | Number(className: string, digits: string)
    | Boolean(flag: bool)
    | Object(entries: seq<Entry>)
    | Items(items: seq<Value>)
    | Opaque(opaqueClass: string)

  /** Entries in the order in which the map yields them. */
  datatype Entry = Entry(key: string, value: Value)

  /** What a captured value is, whatever order its maps are in. */
  datatype Meaning =
    | NullMeaning
    | TextMeaning(text: string)
    | NumberMeaning(className: string, digits: string)
    | BooleanMeaning(flag: bool)
    | ObjectMeaning(fields: map<string, Meaning>)
    | ItemsMeaning(items: seq<Meaning>)
    | OpaqueMeaning(opaqueClass: string)

  function Size(v: Value): nat {
    match v
    case Object(entries) => 1 + EntriesSize(entries)
    case Items(items) => 1 + ItemsSize(items)
    case _ => 1
  }

  function EntriesSize(es: seq<Entry>): nat {
    if es == [] then 0 else 1 + Size(es[0].value) + EntriesSize(es[1..])
  }

  function ItemsSize(vs: seq<Value>): nat {
    if vs == [] then 0 else 1 + Size(vs[0]) + ItemsSize(vs[1..])
  }

  function MeaningOf(v: Value): Meaning
    decreases Size(v)
  {
    match v
    case Null => NullMeaning
    case Text(text) => TextMeaning(text)
    case Number(className, digits) => NumberMeaning(className, digits)
    case Boolean(flag) => BooleanMeaning(flag)
    case Object(entries) => ObjectMeaning(Fields(entries))
    case Items(items) => ItemsMeaning(Meanings(items))
    case Opaque(className) => OpaqueMeaning(className)
  }

  function Fields(es: seq<Entry>): map<string, Meaning>
    decreases EntriesSize(es)
  {
    if es == [] then map[] else Fields(es[1..])[es[0].key := MeaningOf(es[0].value)]
  }

  function Meanings(vs: seq<Value>): seq<Meaning>
    decreases ItemsSize(vs)
  {
    if vs == [] then [] else [MeaningOf(vs[0])] + Meanings(vs[1..])
  }

  /** Map keys are distinct and class names hold no colon, here and in everything below. */
  predicate WellFormed(v: Value)
    decreases Size(v)
  {
    match v
    case Number(className, _) => ':' !in className
    case Object(entries) => WellFormedEntries(entries)
    case Items(items) => WellFormedItems(items)
    case _ => true
  }

  predicate WellFormedEntries(es: seq<Entry>)
    decreases EntriesSize(es)
  {
    es == [] || (!HasKey(es[1..], es[0].key) && WellFormed(es[0].value) && WellFormedEntries(es[1..]))
  }

  predicate WellFormedItems(vs: seq<Value>)
    decreases ItemsSize(vs)
  {
    vs == [] || (WellFormed(vs[0]) && WellFormedItems(vs[1..]))
  }

  predicate HasKey(es: seq<Entry>, key: string) {
    es != [] && (es[0].key == key || HasKey(es[1..], key))
  }

  // Sorting entries by key.

  /** The order of keys; Java compares their UTF-16 code units, but any total order will do. */
  type Order = (string, string) -> bool

  ghost predicate TotalOrder(le: Order) {
    && (forall a, b :: le(a, b) || le(b, a))
    && (forall a, b :: le(a, b) && le(b, a) ==> a == b)
    && (forall a, b, c :: le(a, b) && le(b, c) ==> le(a, c))
  }

  function Insert(e: Entry, es: seq<Entry>, le: Order): (r: seq<Entry>)
    ensures EntriesSize(r) == 1 + Size(e.value) + EntriesSize(es)
    ensures forall key :: HasKey(r, key) <==> e.key == key || HasKey(es, key)
  {
    if es == [] || le(e.key, es[0].key) then
      assert ([e] + es)[1..] == es;
      [e] + es
    else
      var rest := Insert(e, es[1..], le);
      assert ([es[0]] + rest)[1..] == rest;
      [es[0]] + rest
  }

  function Sort(es: seq<Entry>, le: Order): (r: seq<Entry>)
    ensures EntriesSize(r) == EntriesSize(es)
    ensures forall key :: HasKey(r, key) <==> HasKey(es, key)
  {
    if es == [] then [] else Insert(es[0], Sort(es[1..], le), le)
  }

  // The encoding.

  const NULL_TAG: byte := 48
  const TEXT_TAG: byte := 115
  const NUMBER_TAG: byte := 110
  const BOOLEAN_TAG: byte := 98
  const OPAQUE_TAG: byte := 99
  const OPEN_MAP: byte := 123
  const CLOSE_MAP: byte := 125
  const OPEN_LIST: byte := 91
  const CLOSE_LIST: byte := 93
  const COLON: byte := 58

  /** A number in decimal, in ASCII. */
  function Decimal(n: nat): seq<byte> {
    if n < 10 then [48 + n] else Decimal(n / 10) + [48 + n % 10]
  }

  function Scalar(kind: byte, text: string): seq<byte> {
    [kind] + Decimal(|Encode(text)|) + [COLON] + Encode(text)
  }

  function BooleanText(flag: bool): string {
    if flag then "true" else "false"
  }

  function Preimage(v: Value, le: Order): seq<byte>
    decreases Size(v)
  {
    match v
    case Null => [NULL_TAG]
    case Text(text) => Scalar(TEXT_TAG, text)
    case Number(className, digits) => Scalar(NUMBER_TAG, className + ":" + digits)
    case Boolean(flag) => Scalar(BOOLEAN_TAG, BooleanText(flag))
    case Object(entries) => [OPEN_MAP] + EntryBytes(Sort(entries, le), le) + [CLOSE_MAP]
    case Items(items) => [OPEN_LIST] + ItemBytes(items, le) + [CLOSE_LIST]
    case Opaque(className) => Scalar(OPAQUE_TAG, className)
  }

  function EntryBytes(es: seq<Entry>, le: Order): seq<byte>
    decreases EntriesSize(es)
  {
    if es == [] then []
    else Scalar(TEXT_TAG, es[0].key) + Preimage(es[0].value, le) + EntryBytes(es[1..], le)
  }

  function ItemBytes(vs: seq<Value>, le: Order): seq<byte>
    decreases ItemsSize(vs)
  {
    if vs == [] then [] else Preimage(vs[0], le) + ItemBytes(vs[1..], le)
  }

  // Scalars are prefix-free.

  function ParseDecimal(digits: seq<byte>): int {
    if digits == [] then 0
    else
      var last: int := digits[|digits| - 1];
      ParseDecimal(digits[..|digits| - 1]) * 10 + last - 48
  }

  lemma {:induction false} DecimalShape(n: nat)
    ensures ParseDecimal(Decimal(n)) == n && COLON !in Decimal(n)
  {
    if n >= 10 {
      DecimalShape(n / 10);
      assert Decimal(n)[..|Decimal(n)| - 1] == Decimal(n / 10);
    } else {
      assert ParseDecimal([]) == 0;
    }
  }

  function FirstStop<T(==)>(s: seq<T>, stop: T): nat {
    if s == [] || s[0] == stop then 0 else 1 + FirstStop(s[1..], stop)
  }

  lemma {:induction false} FirstStopAt<T>(a: seq<T>, stop: T, r: seq<T>)
    requires stop !in a
    ensures FirstStop(a + [stop] + r, stop) == |a|
  {
    var s := a + [stop] + r;
    if a != [] {
      assert s[0] == a[0] && s[1..] == a[1..] + [stop] + r;
      FirstStopAt(a[1..], stop, r);
    }
  }

  lemma SameCut<T>(a: seq<T>, r: seq<T>, b: seq<T>, q: seq<T>)
    requires |a| == |b| && a + r == b + q
    ensures a == b && r == q
  {
    assert a == (a + r)[..|a|] && r == (a + r)[|a|..];
    assert b == (b + q)[..|b|] && q == (b + q)[|b|..];
  }

  /** Two texts that agree, each split at its first stop, agree on both sides. */
  lemma SplitAtStop<T>(a: seq<T>, b: seq<T>, stop: T, r: seq<T>, q: seq<T>)
    requires stop !in a && stop !in b && a + [stop] + r == b + [stop] + q
    ensures a == b && r == q
  {
    FirstStopAt(a, stop, r);
    FirstStopAt(b, stop, q);
    assert a + [stop] + r == a + ([stop] + r) && b + [stop] + q == b + ([stop] + q);
    SameCut(a, [stop] + r, b, [stop] + q);
    SameCut([stop], r, [stop], q);
  }

  lemma {:induction false} ScalarPrefixFree(kind: byte, kind': byte, text: string, text': string, r: seq<byte>, q: seq<byte>)
    requires Scalar(kind, text) + r == Scalar(kind', text') + q
    ensures kind == kind' && text == text' && r == q
  {
    var bytes, bytes' := Encode(text), Encode(text');
    var n, n' := Decimal(|bytes|), Decimal(|bytes'|);
    assert Scalar(kind, text) + r == [kind] + (n + [COLON] + (bytes + r));
    assert Scalar(kind', text') + q == [kind'] + (n' + [COLON] + (bytes' + q));
    SameCut([kind], n + [COLON] + (bytes + r), [kind'], n' + [COLON] + (bytes' + q));
    DecimalShape(|bytes|);
    DecimalShape(|bytes'|);
    SplitAtStop(n, n', COLON, bytes + r, bytes' + q);
    SameCut(bytes, r, bytes', q);
    DecodeEncode(text);
    DecodeEncode(text');
  }

  lemma NumberTexts(c: string, d: string, c': string, d': string)
    requires ':' !in c && ':' !in c' && c + ":" + d == c' + ":" + d'
    ensures c == c' && d == d'
  {
    assert c + [':'] + d == c' + [':'] + d';
    SplitAtStop(c, c', ':', d, d');
  }

  // Values are prefix-free.

  /** The first byte of an encoding tells the kind of value; it never closes a map or a list. */
  function Tag(v: Value): byte {
    match v
    case Null => NULL_TAG
    case Text(_) => TEXT_TAG
    case Number(_, _) => NUMBER_TAG
    case Boolean(_) => BOOLEAN_TAG
    case Object(_) => OPEN_MAP
    case Items(_) => OPEN_LIST
    case Opaque(_) => OPAQUE_TAG
  }

  lemma {:induction false} FirstByte(v: Value, le: Order, r: seq<byte>)
    ensures Preimage(v, le) != [] && (Preimage(v, le) + r)[0] == Tag(v)
  {
  }

  /** Equal encodings, whatever follows them, are of equal values, and what follows is equal. */
  lemma {:induction false} PrefixFree(v: Value, w: Value, le: Order, r: seq<byte>, q: seq<byte>)
    requires WellFormed(v) && WellFormed(w)
    requires Preimage(v, le) + r == Preimage(w, le) + q
    ensures MeaningOf(v) == MeaningOf(w) && r == q
    decreases Size(v), 0
  {
    FirstByte(v, le, r);
    FirstByte(w, le, q);
    match v {
      case Null => SameCut([NULL_TAG], r, [NULL_TAG], q);
      case Text(text) => ScalarPrefixFree(TEXT_TAG, TEXT_TAG, text, w.text, r, q);
      case Opaque(name) => ScalarPrefixFree(OPAQUE_TAG, OPAQUE_TAG, name, w.opaqueClass, r, q);
      case Boolean(flag) =>
        ScalarPrefixFree(BOOLEAN_TAG, BOOLEAN_TAG, BooleanText(flag), BooleanText(w.flag), r, q);
        assert |BooleanText(true)| == 4 && |BooleanText(false)| == 5;
      case Number(name, digits) =>
        ScalarPrefixFree(NUMBER_TAG, NUMBER_TAG, name + ":" + digits, w.className + ":" + w.digits, r, q);
        NumberTexts(name, digits, w.className, w.digits);
      case Object(es) => ObjectPrefixFree(v, w, le, r, q);
      case Items(items) =>
        var a, b := ItemBytes(items, le), ItemBytes(w.items, le);
        assert Preimage(v, le) + r == [OPEN_LIST] + (a + ([CLOSE_LIST] + r));
        assert Preimage(w, le) + q == [OPEN_LIST] + (b + ([CLOSE_LIST] + q));
        SameCut([OPEN_LIST], a + ([CLOSE_LIST] + r), [OPEN_LIST], b + ([CLOSE_LIST] + q));
        ItemsPrefixFree(items, w.items, le, r, q);
    }
  }

  lemma {:induction false} ItemsPrefixFree(vs: seq<Value>, ws: seq<Value>, le: Order, r: seq<byte>, q: seq<byte>)
    requires WellFormedItems(vs) && WellFormedItems(ws)
    requires ItemBytes(vs, le) + ([CLOSE_LIST] + r) == ItemBytes(ws, le) + ([CLOSE_LIST] + q)
    ensures Meanings(vs) == Meanings(ws) && r == q
    decreases ItemsSize(vs), 1
  {
    ItemsHead(vs, le, r);
    ItemsHead(ws, le, q);
    if vs == [] {
      assert ws == [];
      SameCut([CLOSE_LIST], r, [CLOSE_LIST], q);
    } else {
      assert ws != [];
      PrefixFree(vs[0], ws[0], le, ItemBytes(vs[1..], le) + ([CLOSE_LIST] + r), ItemBytes(ws[1..], le) + ([CLOSE_LIST] + q));
      ItemsPrefixFree(vs[1..], ws[1..], le, r, q);
    }
  }

  lemma {:induction false} ItemsHead(vs: seq<Value>, le: Order, r: seq<byte>)
    ensures
      var all := ItemBytes(vs, le) + ([CLOSE_LIST] + r);
      if vs == [] then all == [CLOSE_LIST] + r
      else all[0] == Tag(vs[0]) && all == Preimage(vs[0], le) + (ItemBytes(vs[1..], le) + ([CLOSE_LIST] + r))
  {
    if vs != [] {
      var all := ItemBytes(vs, le) + ([CLOSE_LIST] + r);
      assert all == Preimage(vs[0], le) + (ItemBytes(vs[1..], le) + ([CLOSE_LIST] + r));
      FirstByte(vs[0], le, ItemBytes(vs[1..], le) + ([CLOSE_LIST] + r));
    }
  }

  lemma {:induction false} ObjectPrefixFree(v: Value, w: Value, le: Order, r: seq<byte>, q: seq<byte>)
    requires v.Object? && w.Object? && WellFormed(v) && WellFormed(w)
    requires Preimage(v, le) + r == Preimage(w, le) + q
    ensures MeaningOf(v) == MeaningOf(w) && r == q
    decreases EntriesSize(v.entries), 2
  {
    var es, fs := Sort(v.entries, le), Sort(w.entries, le);
    var a, b := EntryBytes(es, le), EntryBytes(fs, le);
    assert Preimage(v, le) + r == [OPEN_MAP] + (a + ([CLOSE_MAP] + r));
    assert Preimage(w, le) + q == [OPEN_MAP] + (b + ([CLOSE_MAP] + q));
    SameCut([OPEN_MAP], a + ([CLOSE_MAP] + r), [OPEN_MAP], b + ([CLOSE_MAP] + q));
    SortKeepsFields(v.entries, le);
    SortKeepsFields(w.entries, le);
    EntriesPrefixFree(es, fs, le, r, q);
  }

  lemma {:induction false} EntriesPrefixFree(es: seq<Entry>, fs: seq<Entry>, le: Order, r: seq<byte>, q: seq<byte>)
    requires WellFormedEntries(es) && WellFormedEntries(fs)
    requires EntryBytes(es, le) + ([CLOSE_MAP] + r) == EntryBytes(fs, le) + ([CLOSE_MAP] + q)
    ensures Fields(es) == Fields(fs) && r == q
    decreases EntriesSize(es), 1
  {
    EntriesHead(es, le, r);
    EntriesHead(fs, le, q);
    if es == [] {
      assert fs == [];
      SameCut([CLOSE_MAP], r, [CLOSE_MAP], q);
    } else {
      assert fs != [];
      var rest, rest' := EntryBytes(es[1..], le) + ([CLOSE_MAP] + r), EntryBytes(fs[1..], le) + ([CLOSE_MAP] + q);
      ScalarPrefixFree(TEXT_TAG, TEXT_TAG, es[0].key, fs[0].key, Preimage(es[0].value, le) + rest, Preimage(fs[0].value, le) + rest');
      PrefixFree(es[0].value, fs[0].value, le, rest, rest');
      EntriesPrefixFree(es[1..], fs[1..], le, r, q);
    }
  }

  lemma {:induction false} EntriesHead(es: seq<Entry>, le: Order, r: seq<byte>)
    ensures
      var all := EntryBytes(es, le) + ([CLOSE_MAP] + r);
      if es == [] then all == [CLOSE_MAP] + r
      else
        && all[0] == TEXT_TAG
        && all == Scalar(TEXT_TAG, es[0].key) + (Preimage(es[0].value, le) + (EntryBytes(es[1..], le) + ([CLOSE_MAP] + r)))
  {
    if es != [] {
      var key, value := Scalar(TEXT_TAG, es[0].key), Preimage(es[0].value, le);
      assert EntryBytes(es, le) == key + value + EntryBytes(es[1..], le);
      Regroup(key, value, EntryBytes(es[1..], le), [CLOSE_MAP] + r);
      assert key[0] == TEXT_TAG;
    }
  }

  lemma Regroup<T>(a: seq<T>, b: seq<T>, c: seq<T>, d: seq<T>)
    ensures a + b + c + d == a + (b + (c + d))
  {
  }

  // The order of map entries does not matter.

  lemma {:induction false} InsertKeepsFields(e: Entry, es: seq<Entry>, le: Order)
    requires WellFormed(e.value) && WellFormedEntries(es) && !HasKey(es, e.key)
    ensures WellFormedEntries(Insert(e, es, le))
    ensures Fields(Insert(e, es, le)) == Fields(es)[e.key := MeaningOf(e.value)]
  {
    var r := Insert(e, es, le);
    if es == [] || le(e.key, es[0].key) {
      assert r[1..] == es;
    } else {
      InsertKeepsFields(e, es[1..], le);
      assert r[1..] == Insert(e, es[1..], le);
    }
  }

  lemma {:induction false} SortKeepsFields(es: seq<Entry>, le: Order)
    requires WellFormedEntries(es)
    ensures WellFormedEntries(Sort(es, le)) && Fields(Sort(es, le)) == Fields(es)
  {
    if es != [] {
      SortKeepsFields(es[1..], le);
      InsertKeepsFields(es[0], Sort(es[1..], le), le);
    }
  }

  ghost predicate Sorted(es: seq<Entry>, le: Order) {
    es == [] || ((forall key :: HasKey(es[1..], key) ==> le(es[0].key, key)) && Sorted(es[1..], le))
  }

  lemma {:induction false} InsertSorts(e: Entry, es: seq<Entry>, le: Order)
    requires TotalOrder(le) && Sorted(es, le)
    ensures Sorted(Insert(e, es, le), le)
  {
    var r := Insert(e, es, le);
    if es == [] || le(e.key, es[0].key) {
      assert r[1..] == es;
    } else {
      InsertSorts(e, es[1..], le);
      assert r[1..] == Insert(e, es[1..], le);
    }
  }

  lemma {:induction false} SortSorts(es: seq<Entry>, le: Order)
    requires TotalOrder(le)
    ensures Sorted(Sort(es, le), le)
  {
    if es != [] {
      SortSorts(es[1..], le);
      InsertSorts(es[0], Sort(es[1..], le), le);
    }
  }

  lemma {:induction false} FieldKeys(es: seq<Entry>, key: string)
    ensures key in Fields(es) <==> HasKey(es, key)
  {
    if es != [] {
      FieldKeys(es[1..], key);
    }
  }

  /** Sorted entries of the same map begin with the same key, and go on with the same map. */
  lemma {:induction false} SortedHeads(es: seq<Entry>, fs: seq<Entry>, le: Order)
    requires TotalOrder(le) && Sorted(es, le) && Sorted(fs, le)
    requires WellFormedEntries(es) && WellFormedEntries(fs) && Fields(es) == Fields(fs) && es != []
    ensures fs != [] && es[0].key == fs[0].key && MeaningOf(es[0].value) == MeaningOf(fs[0].value)
    ensures Fields(es[1..]) == Fields(fs[1..])
  {
    assert es[0].key in Fields(es);
    FieldKeys(fs, es[0].key);
    assert fs[0].key in Fields(fs);
    FieldKeys(es, fs[0].key);
    assert le(es[0].key, fs[0].key) && le(fs[0].key, es[0].key);
    FieldKeys(es[1..], es[0].key);
    FieldKeys(fs[1..], fs[0].key);
    assert Fields(es[1..]) == Fields(es) - {es[0].key};
    assert Fields(fs[1..]) == Fields(fs) - {fs[0].key};
  }

  lemma {:induction false} EqualFieldsEqualBytes(es: seq<Entry>, fs: seq<Entry>, le: Order)
    requires TotalOrder(le) && Sorted(es, le) && Sorted(fs, le)
    requires WellFormedEntries(es) && WellFormedEntries(fs) && Fields(es) == Fields(fs)
    ensures EntryBytes(es, le) == EntryBytes(fs, le)
    decreases EntriesSize(es), 1
  {
    if es != [] {
      SortedHeads(es, fs, le);
      EqualMeaningEqualBytes(es[0].value, fs[0].value, le);
      EqualFieldsEqualBytes(es[1..], fs[1..], le);
    } else if fs != [] {
      SortedHeads(fs, es, le);
    }
  }

  lemma {:induction false} EqualItemsEqualBytes(vs: seq<Value>, ws: seq<Value>, le: Order)
    requires TotalOrder(le) && WellFormedItems(vs) && WellFormedItems(ws) && Meanings(vs) == Meanings(ws)
    ensures ItemBytes(vs, le) == ItemBytes(ws, le)
    decreases ItemsSize(vs), 1
  {
    if vs != [] {
      assert ws != [];
      assert Meanings(vs)[0] == MeaningOf(vs[0]) && Meanings(ws)[0] == MeaningOf(ws[0]);
      assert Meanings(vs)[1..] == Meanings(vs[1..]) && Meanings(ws)[1..] == Meanings(ws[1..]);
      EqualMeaningEqualBytes(vs[0], ws[0], le);
      EqualItemsEqualBytes(vs[1..], ws[1..], le);
    }
  }

  lemma {:induction false} EqualMeaningEqualBytes(v: Value, w: Value, le: Order)
    requires TotalOrder(le) && WellFormed(v) && WellFormed(w) && MeaningOf(v) == MeaningOf(w)
    ensures Preimage(v, le) == Preimage(w, le)
    decreases Size(v), 0
  {
    if v.Object? {
      SortKeepsFields(v.entries, le);
      SortKeepsFields(w.entries, le);
      SortSorts(v.entries, le);
      SortSorts(w.entries, le);
      EqualFieldsEqualBytes(Sort(v.entries, le), Sort(w.entries, le), le);
    } else if v.Items? {
      EqualItemsEqualBytes(v.items, w.items, le);
    }
  }

  /** The encoding is exact and prefix-free: two encodings, each followed by any bytes, agree if and
      only if the values are the same up to the order of map entries and the bytes are the same. */
  lemma EncodingIsExact(v: Value, w: Value, le: Order, r: seq<byte>, q: seq<byte>)
    requires TotalOrder(le) && WellFormed(v) && WellFormed(w)
    ensures Preimage(v, le) + r == Preimage(w, le) + q <==> MeaningOf(v) == MeaningOf(w) && r == q
  {
    if Preimage(v, le) + r == Preimage(w, le) + q {
      PrefixFree(v, w, le, r, q);
    }
    if MeaningOf(v) == MeaningOf(w) {
      EqualMeaningEqualBytes(v, w, le);
    }
  }

  // The hash of an event's fields.

  /** Fields that say when and where an event happened, not what. */
  const POSITIONAL: set<string> :=
    {"schemaVersion", "sequence", "threadId", "threadKey", "virtualThread", "testId", "observations"}

  function Stable(fields: seq<Entry>, dropped: set<string>): seq<Entry> {
    if fields == [] then []
    else (if fields[0].key in dropped then [] else [fields[0]]) + Stable(fields[1..], dropped)
  }

  lemma {:induction false} StableKeys(fields: seq<Entry>, dropped: set<string>, key: string)
    requires HasKey(Stable(fields, dropped), key)
    ensures HasKey(fields, key)
  {
    var rest := Stable(fields[1..], dropped);
    if fields[0].key in dropped {
      assert Stable(fields, dropped) == rest;
      StableKeys(fields[1..], dropped, key);
    } else if fields[0].key != key {
      assert Stable(fields, dropped)[1..] == rest;
      StableKeys(fields[1..], dropped, key);
    }
  }

  lemma {:induction false} StableFields(fields: seq<Entry>, dropped: set<string>)
    requires WellFormedEntries(fields)
    ensures WellFormedEntries(Stable(fields, dropped))
    ensures Fields(Stable(fields, dropped)) == Fields(fields) - dropped
  {
    if fields != [] {
      var rest := Stable(fields[1..], dropped);
      StableFields(fields[1..], dropped);
      if fields[0].key in dropped {
        assert Stable(fields, dropped) == rest;
      } else {
        if HasKey(rest, fields[0].key) {
          StableKeys(fields[1..], dropped, fields[0].key);
          assert false;
        }
        FieldsOfFirst(fields[0], rest, fields[1..], dropped);
        assert Stable(fields, dropped) == [fields[0]] + rest;
      }
    }
  }

  lemma {:induction false} FieldsOfFirst(e: Entry, some: seq<Entry>, all: seq<Entry>, dropped: set<string>)
    requires Fields(some) == Fields(all) - dropped && e.key !in dropped
    ensures Fields([e] + some) == Fields(some)[e.key := MeaningOf(e.value)]
    ensures Fields([e] + some) == Fields(all)[e.key := MeaningOf(e.value)] - dropped
  {
    assert ([e] + some)[1..] == some;
  }

  /** Two events are hashed from the same bytes exactly when they agree on every field but the seven
      that say when and where they happened. */
  lemma StateHashPreimage(a: seq<Entry>, b: seq<Entry>, le: Order)
    requires TotalOrder(le) && WellFormedEntries(a) && WellFormedEntries(b)
    ensures
      Preimage(Object(Stable(a, POSITIONAL)), le) == Preimage(Object(Stable(b, POSITIONAL)), le)
      <==> var positional :=
             {"schemaVersion", "sequence", "threadId", "threadKey", "virtualThread", "testId", "observations"};
           Fields(a) - positional == Fields(b) - positional
  {
    StableFields(a, POSITIONAL);
    StableFields(b, POSITIONAL);
    var v, w := Object(Stable(a, POSITIONAL)), Object(Stable(b, POSITIONAL));
    EncodingIsExact(v, w, le, [], []);
    assert Preimage(v, le) + [] == Preimage(v, le) && Preimage(w, le) + [] == Preimage(w, le);
  }

  /** Changing one field of an event changes the hashed bytes exactly if it is none of those seven. */
  lemma {:induction false} OneFieldChanged(a: seq<Entry>, b: seq<Entry>, key: string, le: Order)
    requires TotalOrder(le) && WellFormedEntries(a) && WellFormedEntries(b)
    requires Fields(a) != Fields(b) && Fields(a) - {key} == Fields(b) - {key}
    ensures
      Preimage(Object(Stable(a, POSITIONAL)), le) == Preimage(Object(Stable(b, POSITIONAL)), le)
      <==> || key == "schemaVersion" || key == "sequence" || key == "threadId" || key == "threadKey"
           || key == "virtualThread" || key == "testId" || key == "observations"
  {
    StateHashPreimage(a, b, le);
    FieldsApart(Fields(a), Fields(b), key, POSITIONAL);
  }

  /** Maps that differ at one key alone agree off a set of keys exactly if that key is in the set. */
  lemma {:induction false} FieldsApart<T>(m: map<string, T>, n: map<string, T>, key: string, keys: set<string>)
    requires m != n && m - {key} == n - {key}
    ensures m - keys == n - keys <==> key in keys
  {
    if key in keys {
      assert m - keys == (m - {key}) - keys && n - keys == (n - {key}) - keys;
    } else if m - keys == n - keys {
      AgreeEverywhere(m, n, key, keys);
      assert false;
    }
  }

  lemma {:induction false} AgreeEverywhere<T>(m: map<string, T>, n: map<string, T>, key: string, keys: set<string>)
    requires m - {key} == n - {key} && m - keys == n - keys && key !in keys
    ensures m == n
  {
    AgreeAt(m, n, {key});
    AgreeAt(m, n, keys);
    assert m.Keys == n.Keys;
  }

  lemma AgreeAt<T>(m: map<string, T>, n: map<string, T>, keys: set<string>)
    requires m - keys == n - keys
    ensures forall k :: k !in keys ==> (k in m <==> k in n)
    ensures forall k :: k !in keys && k in m && k in n ==> m[k] == n[k]
  {
    assert forall k :: k !in keys ==> (k in m <==> k in m - keys) && (k in n <==> k in n - keys);
    assert forall k :: k !in keys && k in m && k in n ==> m[k] == (m - keys)[k] && n[k] == (n - keys)[k];
  }

  // Feeding a digest.

  lemma Append3<T>(s: seq<T>, a: seq<T>, b: seq<T>, c: seq<T>)
    ensures s + a + b + c == s + (a + b + c)
  {
  }

  class Digest {
    var fed: seq<byte>

    constructor ()
      ensures fed == []
    {
      fed := [];
    }

    method Update(bytes: seq<byte>)
      modifies this
      ensures fed == old(fed) + bytes
    {
      fed := fed + bytes;
    }

    method UpdateScalar(kind: byte, text: string)
      modifies this
      ensures fed == old(fed) + Scalar(kind, text)
    {
      var bytes := Encode(text);
      Update([kind]);
      Update(Decimal(|bytes|));
      Update([COLON]);
      Update(bytes);
    }

    /** The digest is fed exactly the value's encoding. */
    method UpdateDigest(v: Value, le: Order)
      modifies this
      ensures fed == old(fed) + Preimage(v, le)
      decreases Size(v), 0
    {
      match v {
        case Null => Update([NULL_TAG]);
        case Text(text) => UpdateScalar(TEXT_TAG, text);
        case Number(className, digits) => UpdateScalar(NUMBER_TAG, className + ":" + digits);
        case Boolean(flag) => UpdateScalar(BOOLEAN_TAG, BooleanText(flag));
        case Object(entries) => UpdateObject(entries, le);
        case Items(items) => UpdateList(items, le);
        case Opaque(className) => UpdateScalar(OPAQUE_TAG, className);
      }
    }

    method UpdateObject(entries: seq<Entry>, le: Order)
      modifies this
      ensures fed == old(fed) + ([OPEN_MAP] + EntryBytes(Sort(entries, le), le) + [CLOSE_MAP])
      decreases EntriesSize(entries), 2
    {
      ghost var before := fed;
      Update([OPEN_MAP]);
      UpdateEntries(Sort(entries, le), le);
      Update([CLOSE_MAP]);
      Append3(before, [OPEN_MAP], EntryBytes(Sort(entries, le), le), [CLOSE_MAP]);
    }

    method UpdateList(items: seq<Value>, le: Order)
      modifies this
      ensures fed == old(fed) + ([OPEN_LIST] + ItemBytes(items, le) + [CLOSE_LIST])
      decreases ItemsSize(items), 2
    {
      ghost var before := fed;
      Update([OPEN_LIST]);
      UpdateItems(items, le);
      Update([CLOSE_LIST]);
      Append3(before, [OPEN_LIST], ItemBytes(items, le), [CLOSE_LIST]);
    }

    method UpdateEntries(entries: seq<Entry>, le: Order)
      modifies this
      ensures fed == old(fed) + EntryBytes(entries, le)
      decreases EntriesSize(entries), 1
    {
      var left := entries;
      while left != []
        invariant EntriesSize(left) <= EntriesSize(entries)
        invariant fed + EntryBytes(left, le) == old(fed) + EntryBytes(entries, le)
        decreases |left|
      {
        ghost var before := fed;
        UpdateScalar(TEXT_TAG, left[0].key);
        UpdateDigest(left[0].value, le);
        Append3(before, Scalar(TEXT_TAG, left[0].key), Preimage(left[0].value, le), EntryBytes(left[1..], le));
        left := left[1..];
      }
    }

    method UpdateItems(items: seq<Value>, le: Order)
      modifies this
      ensures fed == old(fed) + ItemBytes(items, le)
      decreases ItemsSize(items), 1
    {
      var left := items;
      while left != []
        invariant ItemsSize(left) <= ItemsSize(items)
        invariant fed + ItemBytes(left, le) == old(fed) + ItemBytes(items, le)
        decreases |left|
      {
        UpdateDigest(left[0], le);
        left := left[1..];
      }
    }
  }
}
