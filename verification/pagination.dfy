/** The cursor pagination every listing procedure shares: fetch `limit + 1`
    matching rows from the cursor on, and if the extra row came back, drop it
    from the page and hand out its key as the next cursor. */
module Pagination {
  import opened Results
  import opened Tables

  datatype Page<T, K> = Page(items: seq<T>, nextCursor: Option<K>)

  const DefaultLimit: nat := 50
  const MaxLimit: nat := 100

  /** The `limit` input of a listing: 50 when omitted, otherwise it must lie
      between 1 and 100 or the input is rejected. */
  function ParseLimit(limit: Option<int>): (r: Result<nat>)
    ensures limit.None? ==> r == Ok(DefaultLimit)
    ensures limit.Some? ==> (r.Ok? <==> 1 <= limit.value <= MaxLimit)
    ensures r.Ok? ==> 1 <= r.value <= MaxLimit && (limit.Some? ==> r.value == limit.value)
    ensures r.Err? ==> r.error == Validation
  {
    match limit
    case None => Ok(DefaultLimit)
    case Some(n) => if 1 <= n <= MaxLimit then Ok(n) else Err(Validation)
  }

  /** Pops the over-fetched row, if any, off the rows a `take: limit + 1`
      query returned. */
  function PopExtra<T, K>(fetched: seq<T>, limit: nat, key: T -> K): (p: Page<T, K>)
    requires |fetched| <= limit + 1
    ensures |p.items| <= limit
    ensures p.items == fetched[..Min(limit, |fetched|)]
    ensures p.nextCursor.Some? <==> |fetched| > limit
    ensures p.nextCursor.Some? ==> p.nextCursor.value == key(fetched[limit])
  {
    if |fetched| > limit then
      Page(fetched[..|fetched| - 1], Some(key(fetched[|fetched| - 1])))
    else
      Page(fetched, None)
  }

  /** The rows a listing matches: those satisfying `keep`, from the cursor on. */
  function Matched<T(!new), K(==)>(rows: seq<T>, key: T -> K, keep: T -> bool, cursor: Option<K>): seq<T> {
    Filter(FromCursor(rows, key, cursor), keep)
  }

  /** No two rows share a key, as for a primary key. */
  predicate UniqueKeys<T, K(==)>(rows: seq<T>, key: T -> K) {
    forall i, j :: 0 <= i < j < |rows| ==> key(rows[i]) != key(rows[j])
  }

  /** One page of a listing of `rows` (already in listing order). */
  function Listing<T(!new), K(==)>(rows: seq<T>, key: T -> K, keep: T -> bool, cursor: Option<K>, limit: nat): (p: Page<T, K>)
    ensures var m := Matched(rows, key, keep, cursor);
      && |p.items| <= limit
      && p.items == m[..Min(limit, |m|)]
      && (p.nextCursor.Some? <==> |m| > limit)
      && (p.nextCursor.Some? ==> p.nextCursor.value == key(m[limit]))
    ensures forall x :: x in p.items ==> x in rows && keep(x)
    ensures p.nextCursor.None? ==>
      forall x :: x in FromCursor(rows, key, cursor) && keep(x) ==> x in p.items
  {
    var m := Matched(rows, key, keep, cursor);
    var t := Take(m, limit + 1);
    SliceMembers(m, 0, Min(limit, |m|));
    CursorMembers(rows, key, cursor);
    assert t[..Min(limit, |t|)] == m[..Min(limit, |m|)];
    PopExtra(t, limit, key)
  }

  /** Every row from the cursor on is a row of the table. */
  lemma CursorMembers<T, K>(rows: seq<T>, key: T -> K, cursor: Option<K>)
    ensures forall x :: x in FromCursor(rows, key, cursor) ==> x in rows
  {
    var a := CursorSuffix(rows, key, cursor);
    SliceMembers(rows, a, |rows|);
    assert rows[a..|rows|] == rows[a..];
  }

  /** Every element of a slice is an element of the sequence. */
  lemma SliceMembers<T>(s: seq<T>, i: nat, j: nat)
    requires i <= j <= |s|
    ensures forall x :: x in s[i..j] ==> x in s
  {
  }

  /** When keys are unique, following `nextCursor` resumes the listing exactly
      at the first row the page left out: the next request matches the rest of
      this listing, so consecutive pages neither skip nor repeat a row. */
  lemma {:induction false} NextPageResumes<T(!new), K>(
    rows: seq<T>, key: T -> K, keep: T -> bool, cursor: Option<K>, limit: nat)
    requires UniqueKeys(rows, key)
    requires |Matched(rows, key, keep, cursor)| > limit
    ensures var m := Matched(rows, key, keep, cursor);
      var p := Listing(rows, key, keep, cursor, limit);
      && p.nextCursor.Some?
      && Matched(rows, key, keep, p.nextCursor) == m[limit..]
      && p.items + Matched(rows, key, keep, p.nextCursor) == m
  {
    var m := Matched(rows, key, keep, cursor);
    var p := Listing(rows, key, keep, cursor, limit);
    assert p.nextCursor == Some(key(m[limit]));
    ResumeAt(rows, key, keep, cursor, limit);
    assert p.items == m[..limit];
    SplitAt(m, limit);
  }

  lemma SplitAt<T>(s: seq<T>, n: nat)
    requires n <= |s|
    ensures s[..n] + s[n..] == s
  {
  }

  /** Restarting a listing at the key of its `n`-th matched row matches the
      rows from the `n`-th on. */
  lemma ResumeAt<T(!new), K>(rows: seq<T>, key: T -> K, keep: T -> bool, cursor: Option<K>, n: nat)
    requires UniqueKeys(rows, key)
    requires n < |Matched(rows, key, keep, cursor)|
    ensures var m := Matched(rows, key, keep, cursor);
      Matched(rows, key, keep, Some(key(m[n]))) == m[n..]
  {
    var a := CursorSuffix(rows, key, cursor);
    var w := rows[a..];
    var j := FilterPosition(w, keep, n);
    var m := Matched(rows, key, keep, cursor);
    assert m == Filter(w, keep);
    assert w[j] == m[n];
    CursorAtSuffix(rows, key, a, j);
  }

  /** The cursor naming row `j` of the suffix from row `a` starts the listing
      there. */
  lemma CursorAtSuffix<T, K>(rows: seq<T>, key: T -> K, a: nat, j: nat)
    requires UniqueKeys(rows, key)
    requires a + j < |rows|
    ensures FromCursor(rows, key, Some(key(rows[a..][j]))) == rows[a..][j..]
  {
    assert rows[a..][j] == rows[a + j];
    CursorAt(rows, key, a + j);
    SuffixOfSuffix(rows, a, j);
  }

  /** With unique keys, a cursor naming row `p` starts the listing at row `p`. */
  lemma CursorAt<T, K>(rows: seq<T>, key: T -> K, p: nat)
    requires UniqueKeys(rows, key)
    requires p < |rows|
    ensures FromCursor(rows, key, Some(key(rows[p]))) == rows[p..]
  {
    ResumeIndex(rows, key, p, key(rows[p]));
  }

  lemma SuffixOfSuffix<T>(s: seq<T>, a: nat, j: nat)
    requires a + j <= |s|
    ensures s[a..][j..] == s[a + j..]
  {
  }

  /** The position the listing starts at. */
  lemma CursorSuffix<T, K>(rows: seq<T>, key: T -> K, cursor: Option<K>) returns (a: nat)
    ensures a <= |rows| && FromCursor(rows, key, cursor) == rows[a..]
  {
    a :| 0 <= a <= |rows| && FromCursor(rows, key, cursor) == rows[a..];
  }

  /** With unique keys, the first row carrying row `i`'s key is row `i`. */
  lemma ResumeIndex<T, K>(rows: seq<T>, key: T -> K, i: nat, c: K)
    requires UniqueKeys(rows, key)
    requires i < |rows| && key(rows[i]) == c
    ensures IndexOf(rows, key, c) == Some(i)
  {
  }
}
