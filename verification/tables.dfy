/** Generic operations on a database table held as a sequence of rows, each
    identified by a key the caller names with a function. */
module Tables {
  import opened Results

  /** The first row whose key is `k`, as `findUnique` returns it. */
  function Find<T, K(==)>(rows: seq<T>, key: T -> K, k: K): (r: Option<T>)
    ensures r.Some? <==> exists i :: 0 <= i < |rows| && key(rows[i]) == k
    ensures r.Some? ==> r.value in rows && key(r.value) == k
    ensures |rows| > 0 && key(rows[0]) == k ==> r == Some(rows[0])
  {
    if |rows| == 0 then None
    else if key(rows[0]) == k then Some(rows[0])
    else Find(rows[1..], key, k)
  }

  /** The position of the first row whose key is `k`. */
  function IndexOf<T, K(==)>(rows: seq<T>, key: T -> K, k: K): (r: Option<nat>)
    ensures r.Some? ==> r.value < |rows| && key(rows[r.value]) == k
    ensures r.Some? ==> forall i :: 0 <= i < r.value ==> key(rows[i]) != k
    ensures r.None? ==> forall i :: 0 <= i < |rows| ==> key(rows[i]) != k
  {
    if |rows| == 0 then None
    else if key(rows[0]) == k then Some(0)
    else match IndexOf(rows[1..], key, k)
      case None => None
      case Some(i) => Some(i + 1)
  }

  /** The rows satisfying `keep`, in their original order (a `where` clause). */
  function Filter<T(!new)>(rows: seq<T>, keep: T -> bool): (r: seq<T>)
    ensures |r| <= |rows|
    ensures forall x :: x in r <==> x in rows && keep(x)
    ensures forall i :: 0 <= i < |r| ==> keep(r[i])
  {
    if |rows| == 0 then []
    else if keep(rows[0]) then [rows[0]] + Filter(rows[1..], keep)
    else Filter(rows[1..], keep)
  }

  /** Two conditions that agree on every row select the same rows. */
  lemma {:induction false} FilterAgree<T(!new)>(rows: seq<T>, f: T -> bool, g: T -> bool)
    requires forall i :: 0 <= i < |rows| ==> f(rows[i]) == g(rows[i])
    ensures Filter(rows, f) == Filter(rows, g)
  {
    if |rows| > 0 {
      FilterAgree(rows[1..], f, g);
    }
  }

  /** Filtering a concatenation filters each part. */
  lemma {:induction false} FilterAppend<T(!new)>(a: seq<T>, b: seq<T>, keep: T -> bool)
    ensures Filter(a + b, keep) == Filter(a, keep) + Filter(b, keep)
  {
    if |a| == 0 {
      assert a + b == b;
    } else {
      assert (a + b)[1..] == a[1..] + b;
      FilterAppend(a[1..], b, keep);
    }
  }

  /** Every row satisfies `keep` exactly when filtering changes nothing. */
  lemma {:induction false} FilterAll<T(!new)>(rows: seq<T>, keep: T -> bool)
    requires forall i :: 0 <= i < |rows| ==> keep(rows[i])
    ensures Filter(rows, keep) == rows
  {
    if |rows| > 0 {
      FilterAll(rows[1..], keep);
    }
  }

  /** No row satisfies `keep` exactly when filtering leaves nothing. */
  lemma {:induction false} FilterNone<T(!new)>(rows: seq<T>, keep: T -> bool)
    requires forall i :: 0 <= i < |rows| ==> !keep(rows[i])
    ensures Filter(rows, keep) == []
  {
    if |rows| > 0 {
      FilterNone(rows[1..], keep);
    }
  }

  /** Filtering by a stricter condition after a weaker one is filtering by
      the stricter one alone. */
  lemma {:induction false} FilterNarrow<T(!new)>(rows: seq<T>, weak: T -> bool, strict: T -> bool)
    requires forall x :: strict(x) ==> weak(x)
    ensures Filter(Filter(rows, weak), strict) == Filter(rows, strict)
  {
    if |rows| > 0 {
      FilterNarrow(rows[1..], weak, strict);
      if weak(rows[0]) {
        assert ([rows[0]] + Filter(rows[1..], weak))[1..] == Filter(rows[1..], weak);
      }
    }
  }

  /** Rewriting rows the filter rejects, without making them pass, does not
      change the filtered table. */
  lemma {:induction false} FilterPointwise<T(!new)>(rows: seq<T>, rewritten: seq<T>, keep: T -> bool)
    requires |rewritten| == |rows|
    requires forall i :: 0 <= i < |rows| ==> (keep(rewritten[i]) <==> keep(rows[i]))
    requires forall i :: 0 <= i < |rows| && keep(rows[i]) ==> rewritten[i] == rows[i]
    ensures Filter(rewritten, keep) == Filter(rows, keep)
  {
    if |rows| > 0 {
      FilterPointwise(rows[1..], rewritten[1..], keep);
    }
  }

  /** The `n`-th kept row sits at some position `j` of the table such that the
      rows kept before `j` are the first `n` kept rows, and filtering from `j`
      on yields the kept rows from the `n`-th on. */
  lemma {:induction false} FilterPosition<T(!new)>(rows: seq<T>, keep: T -> bool, n: nat) returns (j: nat)
    requires n < |Filter(rows, keep)|
    ensures j < |rows| && rows[j] == Filter(rows, keep)[n]
    ensures Filter(rows[j..], keep) == Filter(rows, keep)[n..]
  {
    if keep(rows[0]) {
      if n == 0 {
        j := 0;
      } else {
        var j' := FilterPosition(rows[1..], keep, n - 1);
        j := j' + 1;
        assert rows[1..][j'..] == rows[j..];
      }
    } else {
      var j' := FilterPosition(rows[1..], keep, n);
      j := j' + 1;
      assert rows[1..][j'..] == rows[j..];
    }
  }

  /** The rows whose key is not `k` (a delete by key). */
  function Without<T(!new), K(==)>(rows: seq<T>, key: T -> K, k: K): (r: seq<T>)
    ensures forall x :: x in r <==> x in rows && key(x) != k
    ensures Find(r, key, k).None?
  {
    Filter(rows, KeyIsNot(key, k))
  }

  function KeyIsNot<T, K(==)>(key: T -> K, k: K): T -> bool {
    (x: T) => key(x) != k
  }

  /** Deleting a key no row has changes nothing. */
  lemma WithoutAbsent<T(!new), K>(rows: seq<T>, key: T -> K, k: K)
    requires forall i :: 0 <= i < |rows| ==> key(rows[i]) != k
    ensures Without(rows, key, k) == rows
  {
    FilterAll(rows, KeyIsNot(key, k));
  }

  /** Every row whose key is `k` rewritten by `f`, the others untouched (an
      update by key). */
  function UpdateWhere<T, K(==)>(rows: seq<T>, key: T -> K, k: K, f: T -> T): (r: seq<T>)
    ensures |r| == |rows|
    ensures forall i :: 0 <= i < |rows| ==> r[i] == if key(rows[i]) == k then f(rows[i]) else rows[i]
  {
    seq(|rows|, i requires 0 <= i < |rows| => if key(rows[i]) == k then f(rows[i]) else rows[i])
  }

  /** After an update by key that keeps keys, looking the key up finds the
      rewritten row. */
  lemma {:induction false} FindUpdateWhere<T, K>(rows: seq<T>, key: T -> K, k: K, f: T -> T)
    requires forall i :: 0 <= i < |rows| ==> key(f(rows[i])) == key(rows[i])
    ensures Find(UpdateWhere(rows, key, k, f), key, k) ==
      (match Find(rows, key, k) case None => None case Some(x) => Some(f(x)))
  {
    if |rows| > 0 {
      assert UpdateWhere(rows, key, k, f)[1..] == UpdateWhere(rows[1..], key, k, f);
      FindUpdateWhere(rows[1..], key, k, f);
    }
  }

  /** The first `n` rows, or all of them when there are fewer (`take: n`). */
  function Take<T>(rows: seq<T>, n: nat): (r: seq<T>)
    ensures |r| == Min(n, |rows|)
    ensures r <= rows
  {
    rows[..Min(n, |rows|)]
  }

  /** The rows from the cursor row on, in listing order: a cursor names the row
      the listing starts at (inclusive); a cursor naming no row yields nothing. */
  function FromCursor<T, K(==)>(rows: seq<T>, key: T -> K, cursor: Option<K>): (r: seq<T>)
    ensures cursor.None? ==> r == rows
    ensures cursor.Some? && r != [] ==> key(r[0]) == cursor.value
    ensures exists a :: 0 <= a <= |rows| && r == rows[a..]
    ensures cursor.Some? ==> (r == [] <==> forall i :: 0 <= i < |rows| ==> key(rows[i]) != cursor.value)
    ensures cursor.Some? ==> forall i :: 0 <= i < |rows| - |r| ==> key(rows[i]) != cursor.value
  {
    match cursor
    case None => assert rows[0..] == rows; rows
    case Some(c) =>
      match IndexOf(rows, key, c)
      case None => assert rows[|rows|..] == []; []
      case Some(i) => rows[i..]
  }
}
