/** In-order grouping of n items: taking every group as long as it may be gives the fewest groups.
    The narration chunker, the long-unit splitter and the passage assembler all pack this way. */
module GreedyPacking {

  /** `ends` cuts the items from `from` up to `n` into non-empty runs, each of them admissible. */
  ghost predicate IsGrouping(ends: seq<nat>, from: nat, n: nat, fits: (nat, nat) -> bool)
    decreases |ends|
  {
    if ends == [] then from == n
    else from < ends[0] <= n && fits(from, ends[0]) && IsGrouping(ends[1..], ends[0], n, fits)
  }

  /** No run could have taken one item more. */
  ghost predicate IsGreedy(ends: seq<nat>, from: nat, n: nat, fits: (nat, nat) -> bool)
    decreases |ends|
  {
    ends != [] ==>
      && (ends[0] == n || !fits(from, ends[0] + 1))
      && IsGreedy(ends[1..], ends[0], n, fits)
  }

  /** A run inside an admissible run is admissible. */
  ghost predicate Hereditary(n: nat, fits: (nat, nat) -> bool) {
    forall lo: nat, hi: nat, inLo: nat, inHi: nat
      | lo <= inLo < inHi <= hi <= n && fits(lo, hi) :: fits(inLo, inHi)
  }

  /** The cuts still to come when the run from `from` has reached item `at`: as late as can be. */
  ghost function Cuts(from: nat, at: nat, n: nat, fits: (nat, nat) -> bool): seq<nat>
    decreases n - at
  {
    if at >= n then [at]
    else if fits(from, at + 1) then Cuts(from, at + 1, n, fits)
    else [at] + Cuts(at, at + 1, n, fits)
  }

  /** One item alone is always admissible. */
  ghost predicate SinglesFit(n: nat, fits: (nat, nat) -> bool) {
    forall lo: nat, hi: nat | lo < n && hi == lo + 1 :: fits(lo, hi)
  }

  lemma {:induction false} CutsAreGreedy(from: nat, at: nat, n: nat, fits: (nat, nat) -> bool)
    requires from < at <= n && fits(from, at) && SinglesFit(n, fits)
    ensures IsGrouping(Cuts(from, at, n, fits), from, n, fits) && IsGreedy(Cuts(from, at, n, fits), from, n, fits)
    decreases n - at
  {
    if at == n {
      assert IsGrouping([], n, n, fits) && IsGreedy([], n, n, fits);
    } else if fits(from, at + 1) {
      CutsAreGreedy(from, at + 1, n, fits);
    } else {
      CutsAreGreedy(at, at + 1, n, fits);
      assert Cuts(from, at, n, fits)[1..] == Cuts(at, at + 1, n, fits);
    }
  }

  /** Greedy stays ahead: it needs no more groups than any grouping that starts no later. */
  lemma {:induction false} GreedyIsFewest(greedy: seq<nat>, from: nat, other: seq<nat>, otherFrom: nat, n: nat, fits: (nat, nat) -> bool)
    requires Hereditary(n, fits)
    requires IsGrouping(greedy, from, n, fits) && IsGreedy(greedy, from, n, fits)
    requires otherFrom <= from && IsGrouping(other, otherFrom, n, fits)
    ensures |greedy| <= |other|
    decreases |other|
  {
    if greedy != [] {
      if other[0] <= greedy[0] {
        GreedyIsFewest(greedy[1..], greedy[0], other[1..], other[0], n, fits);
      }
    }
  }
}
