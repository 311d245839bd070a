/** Table rows as sequences: selection and size. */
module Tables {

  function Filter<T(!new)>(rows: seq<T>, keep: T -> bool): (kept: seq<T>)
    ensures |kept| <= |rows|
    ensures forall r :: r in kept <==> r in rows && keep(r)
  {
    if rows == [] then []
    else (if keep(rows[0]) then [rows[0]] else []) + Filter(rows[1..], keep)
  }

  function Sum<T>(rows: seq<T>, size: T -> nat): nat {
    if rows == [] then 0 else size(rows[0]) + Sum(rows[1..], size)
  }

  lemma {:induction false} SumSnoc<T>(rows: seq<T>, size: T -> nat, r: T)
    ensures Sum(rows + [r], size) == Sum(rows, size) + size(r)
  {
    if rows == [] {
      assert Sum([], size) == 0;
    } else {
      assert (rows + [r])[1..] == rows[1..] + [r];
      SumSnoc(rows[1..], size, r);
    }
  }

  lemma {:induction false} FilterShrinks<T(!new)>(rows: seq<T>, keep: T -> bool, r: T)
    requires r in rows && !keep(r)
    ensures |Filter(rows, keep)| < |rows|
  {
    if rows[0] != r {
      FilterShrinks(rows[1..], keep, r);
    }
  }

  /** Keeping what comes late keeps a suffix. */
  lemma {:induction false} FilterSuffix<T(!new)>(rows: seq<T>, keep: T -> bool) returns (k: nat)
    requires forall i, j :: 0 <= i < j < |rows| && keep(rows[i]) ==> keep(rows[j])
    ensures k <= |rows| && Filter(rows, keep) == rows[k..]
  {
    if rows == [] {
      k := 0;
    } else {
      var rest := FilterSuffix(rows[1..], keep);
      if keep(rows[0]) {
        k := 0;
        FilterAll(rows, keep);
      } else {
        k := rest + 1;
      }
    }
  }

  lemma {:induction false} FilterAll<T(!new)>(rows: seq<T>, keep: T -> bool)
    requires forall i :: 0 <= i < |rows| ==> keep(rows[i])
    ensures Filter(rows, keep) == rows
  {
    if rows != [] {
      FilterAll(rows[1..], keep);
    }
  }

  /** Filtering keeps the order of rows. */
  lemma {:induction false} FilterInOrder<T(!new)>(rows: seq<T>, keep: T -> bool, i: nat, j: nat) returns (m: nat, n: nat)
    requires i < j < |Filter(rows, keep)|
    ensures m < n < |rows| && rows[m] == Filter(rows, keep)[i] && rows[n] == Filter(rows, keep)[j]
  {
    var rest := Filter(rows[1..], keep);
    if !keep(rows[0]) {
      m, n := FilterInOrder(rows[1..], keep, i, j);
      m, n := m + 1, n + 1;
    } else if i > 0 {
      m, n := FilterInOrder(rows[1..], keep, i - 1, j - 1);
      m, n := m + 1, n + 1;
    } else {
      assert Filter(rows, keep)[j] == rest[j - 1] && rest[j - 1] in rest;
      m := 0;
      n :| 1 <= n < |rows| && rows[n] == rest[j - 1];
    }
  }
}
