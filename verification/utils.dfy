/** Two string helpers: truncation with an ellipsis, and a random string over
    the alphanumeric alphabet, with the random source passed in. */
module Utils {
  import opened Results

  /** Upper-case letters, lower-case letters, digits. */
  const Alphabet: string := "ABCDEFGHIJKLMNOPQRSTUVWXYZabcdefghijklmnopqrstuvwxyz0123456789"

  /** Where a string slice with end argument `end` stops in a string of
      length `len`: a negative end counts back from the end. */
  function SliceEnd(len: nat, end: int): (r: nat)
    ensures r <= len
    ensures end >= 0 ==> r == Min(end, len)
    ensures end < 0 ==> r == Max(0, len + end)
  {
    if end >= 0 then Min(end, len) else Max(0, len + end)
  }

  /** Counting `end` characters from the front or `len - end` back from the
      end stops at the same place, for any end short of the whole string. */
  lemma SliceEndCountsMeet(len: nat, end: int)
    requires 0 <= end < len
    ensures SliceEnd(len, end) == SliceEnd(len, end - len) == end
  {
  }

  /** `truncateString`: a string no longer than `n` comes back unchanged;
      a longer one is cut and marked with "...". */
  function TruncateString(s: string, n: int): (r: string)
    ensures |s| <= n ==> r == s
    ensures 0 <= n < |s| ==> r == s[..n] + "..." && |r| == n + 3 && s[..n] <= r
    ensures n < |s| ==> r == s[..SliceEnd(|s|, n)] + "..."
    ensures n >= 0 ==> |r| <= n + 3
  {
    if |s| <= n then s else s[..SliceEnd(|s|, n)] + "..."
  }

  /** Truncating again to the length of a truncated string changes nothing. */
  lemma TruncateSettles(s: string, n: int)
    requires n >= 0
    ensures TruncateString(TruncateString(s, n), n + 3) == TruncateString(s, n)
  {
  }

  /** `Math.floor(x * 62)` for a draw `x` in [0, 1): an index of the alphabet. */
  function Pick(x: real): (k: nat)
    requires 0.0 <= x < 1.0
    ensures k < |Alphabet|
  {
    (x * 62.0).Floor
  }

  /** `generateRandomString`: `random(i)` is the i-th draw of the random
      source. One character per iteration while the counter is below
      `length`. */
  method GenerateRandomString(length: int, random: nat -> real) returns (r: string)
    requires forall i: nat :: 0.0 <= random(i) < 1.0
    ensures |r| == Max(0, length)
    ensures forall i :: 0 <= i < |r| ==> r[i] == Alphabet[Pick(random(i))]
    ensures forall i :: 0 <= i < |r| ==> r[i] in Alphabet
  {
    r := "";
    var i := 0;
    while i < length
      invariant 0 <= i <= Max(0, length)
      invariant |r| == i
      invariant forall k :: 0 <= k < i ==> r[k] == Alphabet[Pick(random(k))]
    {
      r := r + [Alphabet[Pick(random(i))]];
      i := i + 1;
    }
  }
}
