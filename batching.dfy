/**
  How `main` cuts `qualified_products` into groups of `unit_size` for the
  messages (app.py:116-124). `Chunks` is a reference definition that peels
  groups off the front; the index arithmetic the source uses is checked
  against it in module Notifier.
*/
module Batching {

  /** `(n + k - 1) // k`, the number of groups of at most `k` needed for `n` items. */
  function CeilDiv(n: nat, k: nat): nat
    requires k > 0
  {
    (n + k - 1) / k
  }

  /** `min((i + 1) * k, n)`, where group `i` ends. */
  function GroupEnd(i: nat, k: nat, n: nat): nat {
    if (i + 1) * k < n then (i + 1) * k else n
  }

  /** The groups: the first `k` items, then the groups of the rest; one shorter group at the end. */
  function Chunks<T>(s: seq<T>, k: nat): seq<seq<T>>
    requires k > 0
    decreases |s|
  {
    if s == [] then []
    else if |s| <= k then [s]
    else [s[..k]] + Chunks(s[k..], k)
  }

  /** Concatenation of a list of groups. */
  function Flatten<T>(groups: seq<seq<T>>): seq<T> {
    if groups == [] then [] else groups[0] + Flatten(groups[1..])
  }

  /** A product of non-negative numbers is non-negative. */
  lemma MulNonNegative(x: int, y: int)
    requires x >= 0 && y >= 0
    ensures x * y >= 0
  {
  }

  /** One more group of `k` is `k` more items. */
  lemma MulSucc(x: nat, k: nat)
    ensures (x + 1) * k == x * k + k
  {
  }

  /** Euclidean division is determined by quotient and remainder. */
  lemma DivUnique(a: int, k: int, q: int, r: int)
    requires k > 0 && a == q * k + r && 0 <= r < k
    ensures a / k == q
  {
    var q', r' := a / k, a % k;
    var d := q' - q;
    assert d * k == r - r' by {
      assert a == q' * k + r';
      assert q' * k - q * k == (q' - q) * k;
    }
    if d > 0 {
      assert d * k == (d - 1) * k + k;
      MulNonNegative(d - 1, k);
    } else if d < 0 {
      assert -d * k == (-d - 1) * k + k;
      MulNonNegative(-d - 1, k);
    }
  }

  /** There are `ceil(n / k)` groups, and none for an empty list. */
  lemma {:induction false} ChunkCount<T>(s: seq<T>, k: nat)
    requires k > 0
    ensures |Chunks(s, k)| == CeilDiv(|s|, k)
    decreases |s|
  {
    if s == [] {
      DivUnique(k - 1, k, 0, k - 1);
    } else if |s| <= k {
      DivUnique(|s| + k - 1, k, 1, |s| - 1);
    } else {
      ChunkCount(s[k..], k);
      var a := |s| - 1;
      DivUnique(a, k, a / k, a % k);
      DivUnique(a + k, k, a / k + 1, a % k);
    }
  }

  /** Nothing dropped, duplicated or reordered: the groups concatenate back to the list. */
  lemma {:induction false} FlattenChunks<T>(s: seq<T>, k: nat)
    requires k > 0
    ensures Flatten(Chunks(s, k)) == s
    decreases |s|
  {
    if s == [] {
    } else if |s| <= k {
      assert Chunks(s, k)[1..] == [];
    } else {
      FlattenChunks(s[k..], k);
      assert Chunks(s, k)[1..] == Chunks(s[k..], k);
    }
  }

  /** Group `i` is the slice `s[i * k .. min((i + 1) * k, |s|)]`, and that slice is never empty. */
  lemma {:induction false} ChunkAt<T>(s: seq<T>, k: nat, i: nat)
    requires k > 0 && i < |Chunks(s, k)|
    ensures i * k < GroupEnd(i, k, |s|) <= |s|
    ensures Chunks(s, k)[i] == s[i * k .. GroupEnd(i, k, |s|)]
    decreases |s|
  {
    if i > 0 {
      var rest := s[k..];
      ChunkAt(rest, k, i - 1);
      MulSucc(i - 1, k);
      MulSucc(i, k);
      assert GroupEnd(i - 1, k, |rest|) + k == GroupEnd(i, k, |s|);
      assert rest[(i - 1) * k .. GroupEnd(i - 1, k, |rest|)] == s[i * k .. GroupEnd(i, k, |s|)];
    }
  }

  /** Every group but the last has exactly `k` items; the last has between 1 and `k`. */
  lemma {:induction false} ChunkSizes<T>(s: seq<T>, k: nat)
    requires k > 0
    ensures forall i :: 0 <= i < |Chunks(s, k)| - 1 ==> |Chunks(s, k)[i]| == k
    ensures Chunks(s, k) != [] ==> 1 <= |Chunks(s, k)[|Chunks(s, k)| - 1]| <= k
    decreases |s|
  {
    if |s| > k {
      ChunkSizes(s[k..], k);
      var c, rest := Chunks(s, k), Chunks(s[k..], k);
      assert forall i :: 1 <= i < |c| ==> c[i] == rest[i - 1];
    }
  }
}
