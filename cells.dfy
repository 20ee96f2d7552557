/**
 * The 16 cells of a board, seen through their `matched` flags: how many are
 * matched, whether all are, and how setting flags changes the count.
 * Shared by both game variants.
 */
module Cells {

  /** The number of cells whose flag is set. */
  function CountTrue(s: seq<bool>): (n: nat)
    ensures n <= |s|
  {
    if s == [] then 0 else CountTrue(s[..|s| - 1]) + (if s[|s| - 1] then 1 else 0)
  }

  /** Every cell is matched: the board is cleared. */
  predicate AllMatched(s: seq<bool>)
  {
    forall k :: 0 <= k < |s| ==> s[k]
  }

  /** Matching one more (previously unmatched) cell raises the count by exactly one. */
  lemma {:induction false} CountTrueFlip(s: seq<bool>, k: int)
    requires 0 <= k < |s| && !s[k]
    ensures CountTrue(s[k := true]) == CountTrue(s) + 1
  {
    var n := |s| - 1;
    if k < n {
      assert s[k := true][..n] == s[..n][k := true];
      CountTrueFlip(s[..n], k);
    } else {
      assert s[k := true][..n] == s[..n];
    }
  }

  /** Matching a pair of distinct unmatched cells raises the count by exactly two. */
  lemma CountTrueFlipPair(s: seq<bool>, a: int, b: int)
    requires 0 <= a < |s| && 0 <= b < |s| && a != b && !s[a] && !s[b]
    ensures CountTrue(s[a := true][b := true]) == CountTrue(s) + 2
  {
    CountTrueFlip(s, a);
    CountTrueFlip(s[a := true], b);
  }

  /** The count reaches the number of cells exactly when every cell is matched. */
  lemma {:induction false} CountTrueAll(s: seq<bool>)
    ensures CountTrue(s) == |s| <==> AllMatched(s)
  {
    if s != [] {
      var n := |s| - 1;
      CountTrueAll(s[..n]);
      assert forall k :: 0 <= k < n ==> s[..n][k] == s[k];
    }
  }

  /** The count is zero exactly when no cell is matched. */
  lemma {:induction false} CountTrueNone(s: seq<bool>)
    ensures CountTrue(s) == 0 <==> forall k :: 0 <= k < |s| ==> !s[k]
  {
    if s != [] {
      var n := |s| - 1;
      CountTrueNone(s[..n]);
      assert forall k :: 0 <= k < n ==> s[..n][k] == s[k];
    }
  }
}
