/** The case-insensitive substring test behind the `contains` filters with
    `mode: 'insensitive'`. Case is folded for the ASCII letters only. */
module Text {
  import opened Results

  /** ASCII lower-casing of one character. */
  function Lower(c: char): (r: char)
    ensures 'A' <= c <= 'Z' ==> r != c && 'a' <= r <= 'z'
    ensures !('A' <= c <= 'Z') ==> r == c
    ensures !('A' <= r <= 'Z')
  {
    if 'A' <= c <= 'Z' then (c as int - 'A' as int + 'a' as int) as char else c
  }

  function LowerString(s: string): (r: string)
    ensures |r| == |s|
    ensures forall i :: 0 <= i < |s| ==> r[i] == Lower(s[i])
  {
    seq(|s|, i requires 0 <= i < |s| => Lower(s[i]))
  }

  /** `needle` occurs in `hay` starting at position `i`. */
  predicate OccursAt(hay: string, needle: string, i: int) {
    0 <= i && i + |needle| <= |hay| && hay[i..i + |needle|] == needle
  }

  /** `needle` is a substring of `hay`. */
  predicate Contains(hay: string, needle: string) {
    exists i :: 0 <= i <= |hay| && OccursAt(hay, needle, i)
  }

  /** `needle` is a substring of `hay` when case is ignored. */
  predicate ContainsInsensitive(hay: string, needle: string) {
    Contains(LowerString(hay), LowerString(needle))
  }

  /** An exact occurrence is also a case-insensitive one. */
  lemma ExactMatchIsInsensitive(hay: string, needle: string, i: int)
    requires OccursAt(hay, needle, i)
    ensures ContainsInsensitive(hay, needle)
  {
    var h := LowerString(hay);
    var n := LowerString(needle);
    assert h[i..i + |n|] == n by {
      forall k | 0 <= k < |n|
        ensures h[i..i + |n|][k] == n[k]
      {
        assert hay[i..i + |needle|][k] == needle[k];
      }
    }
    assert OccursAt(h, n, i);
  }

  /** The case of the search string does not matter. */
  lemma SearchCaseIrrelevant(hay: string, needle: string)
    ensures ContainsInsensitive(hay, needle) <==> ContainsInsensitive(hay, LowerString(needle))
  {
    assert LowerString(LowerString(needle)) == LowerString(needle);
  }

  /** The search string, when it takes part in a query: an omitted or empty
      `searchQuery` adds no condition. */
  function ActiveSearch(search: Option<string>): (r: Option<string>)
    ensures r.Some? <==> search.Some? && |search.value| > 0
    ensures r.Some? ==> r == search
  {
    if search.Some? && search.value != "" then search else None
  }

  /** A nullable column contains the search string; a null column never does. */
  predicate FieldContains(field: Option<string>, q: string) {
    field.Some? && ContainsInsensitive(field.value, q)
  }
}
