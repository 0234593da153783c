/** Seeded sampling: an in-place Fisher-Yates shuffle driven by SplitMix64, then the first few
    (crates/bookforge-cli/examples/judge_translation.rs:752-780). */
module Sampling {

  // ----- the generator -----

  const GAMMA: bv64 := 0x9E3779B97F4A7C15

  function Fold30(z: bv64): bv64 { z ^ (z >> 30) }

  function Fold27(z: bv64): bv64 { z ^ (z >> 27) }

  function Fold31(z: bv64): bv64 { z ^ (z >> 31) }

  function FirstFactor(z: bv64): bv64 { z * 0xBF58476D1CE4E5B9 }

  function SecondFactor(z: bv64): bv64 { z * 0x94D049BB133111EB }

  function Output(state: bv64): bv64 {
    Fold31(SecondFactor(Fold27(FirstFactor(Fold30(state)))))
  }

  // ----- the mixing can be undone -----

  function Unfold30(z: bv64): bv64 { z ^ (z >> 30) ^ (z >> 60) }

  function Unfold27(z: bv64): bv64 { z ^ (z >> 27) ^ (z >> 54) }

  function Unfold31(z: bv64): bv64 { z ^ (z >> 31) ^ (z >> 62) }

  function UndoFirstFactor(z: bv64): bv64 { z * 0x96DE1B173F119089 }

  function UndoSecondFactor(z: bv64): bv64 { z * 0x319642B2D24D8EC3 }

  /** The state whose output is `value`. */
  function StateOf(value: bv64): bv64 {
    Unfold30(UndoFirstFactor(Unfold27(UndoSecondFactor(Unfold31(value)))))
  }

  /** The shifts cancel: what is folded in is folded out again. */
  lemma FoldsCancel(z: bv64)
    ensures Unfold30(z ^ (z >> 30)) == z && Fold30(z ^ (z >> 30) ^ (z >> 60)) == z
    ensures Unfold27(z ^ (z >> 27)) == z && Fold27(z ^ (z >> 27) ^ (z >> 54)) == z
    ensures Unfold31(z ^ (z >> 31)) == z && Fold31(z ^ (z >> 31) ^ (z >> 62)) == z
  {
  }

  lemma Folds(z: bv64)
    ensures Unfold30(Fold30(z)) == z && Fold30(Unfold30(z)) == z
    ensures Unfold27(Fold27(z)) == z && Fold27(Unfold27(z)) == z
    ensures Unfold31(Fold31(z)) == z && Fold31(Unfold31(z)) == z
  {
    FoldsCancel(z);
    assert Fold30(z) == z ^ (z >> 30) && Unfold30(z) == z ^ (z >> 30) ^ (z >> 60);
    assert Fold27(z) == z ^ (z >> 27) && Unfold27(z) == z ^ (z >> 27) ^ (z >> 54);
    assert Fold31(z) == z ^ (z >> 31) && Unfold31(z) == z ^ (z >> 31) ^ (z >> 62);
  }

  /** The two multipliers and their inverses cancel. */
  lemma FactorsCancel(z: bv64)
    ensures UndoFirstFactor(z * 0xBF58476D1CE4E5B9) == z && FirstFactor(z * 0x96DE1B173F119089) == z
    ensures UndoSecondFactor(z * 0x94D049BB133111EB) == z && SecondFactor(z * 0x319642B2D24D8EC3) == z
  {
  }

  lemma Factors(z: bv64)
    ensures UndoFirstFactor(FirstFactor(z)) == z && FirstFactor(UndoFirstFactor(z)) == z
    ensures UndoSecondFactor(SecondFactor(z)) == z && SecondFactor(UndoSecondFactor(z)) == z
  {
    FactorsCancel(z);
    assert FirstFactor(z) == z * 0xBF58476D1CE4E5B9 && UndoFirstFactor(z) == z * 0x96DE1B173F119089;
    assert SecondFactor(z) == z * 0x94D049BB133111EB && UndoSecondFactor(z) == z * 0x319642B2D24D8EC3;
  }

  lemma OutputThenState(state: bv64)
    ensures StateOf(Output(state)) == state
  {
    var a := Fold30(state);
    var b := FirstFactor(a);
    var c := Fold27(b);
    var d := SecondFactor(c);
    Folds(state);
    Factors(a);
    Folds(b);
    Factors(c);
    Folds(d);
  }

  lemma StateThenOutput(value: bv64)
    ensures Output(StateOf(value)) == value
  {
    var a := Unfold31(value);
    var b := UndoSecondFactor(a);
    var c := Unfold27(b);
    var d := UndoFirstFactor(c);
    Folds(value);
    Factors(a);
    Folds(b);
    Factors(c);
    Folds(d);
  }

  /** Every 64-bit value is the output of exactly one state: no two states give the same draw, and none is left out. */
  lemma OutputIsReversible(state: bv64, value: bv64)
    ensures Output(state) == value <==> state == StateOf(value)
  {
    OutputThenState(state);
    StateThenOutput(value);
  }

  /** The generator's state after `steps` outputs. */
  function StateAfter(seed: bv64, steps: nat): bv64 {
    if steps == 0 then seed else StateAfter(seed, steps - 1) + GAMMA
  }

  class SplitMix64 {
    var state: bv64

    constructor (seed: bv64)
      ensures state == seed
    {
      state := seed;
    }

    method NextU64() returns (value: bv64)
      modifies this
      ensures state == old(state) + GAMMA
      ensures value == Output(state)
    {
      state := state + GAMMA;
      value := state;
      value := FirstFactor(Fold30(value));
      value := SecondFactor(Fold27(value));
      value := Fold31(value);
    }
  }

  // ----- the shuffle -----

  ghost predicate Distinct(s: seq<nat>) {
    forall i, j | 0 <= i < j < |s| :: s[i] != s[j]
  }

  /** Every index below `n` exactly once. */
  ghost predicate IsOrder(s: seq<nat>, n: nat) {
    |s| == n && Distinct(s) && forall i | 0 <= i < n :: s[i] < n
  }

  /** One draw per position: position `u` is exchanged with one of the positions 0 to `u`. */
  ghost predicate AreDraws(draws: seq<nat>, n: nat) {
    |draws| == n && forall u | 0 <= u < n :: draws[u] <= u
  }

  function Swapped(s: seq<nat>, i: nat, j: nat): (r: seq<nat>)
    requires i < |s| && j < |s|
    ensures |r| == |s|
  {
    s[i := s[j]][j := s[i]]
  }

  /** The exchanges of positions `count - 1` down to 1, made one after the other. */
  ghost function Shuffled(s: seq<nat>, count: nat, draws: seq<nat>): (r: seq<nat>)
    requires count <= |s| && AreDraws(draws, |s|)
    ensures |r| == |s|
    decreases count
  {
    if count <= 1 then s
    else Shuffled(Swapped(s, count - 1, draws[count - 1]), count - 1, draws)
  }

  function Ascending(n: nat): seq<nat> {
    seq(n, k => k)
  }

  lemma SwapKeepsOrder(s: seq<nat>, i: nat, j: nat)
    requires i < |s| && j < |s| && IsOrder(s, |s|)
    ensures IsOrder(Swapped(s, i, j), |s|)
  {
  }

  /** Shuffling only reorders, and leaves every position from `count` on alone. */
  lemma {:induction false} ShuffleIsOrder(s: seq<nat>, count: nat, draws: seq<nat>)
    requires count <= |s| && AreDraws(draws, |s|) && IsOrder(s, |s|)
    ensures IsOrder(Shuffled(s, count, draws), |s|)
    ensures Shuffled(s, count, draws)[count..] == s[count..]
    decreases count
  {
    if count > 1 {
      var next := Swapped(s, count - 1, draws[count - 1]);
      SwapKeepsOrder(s, count - 1, draws[count - 1]);
      ShuffleIsOrder(next, count - 1, draws);
      assert next[count..] == s[count..];
      assert Shuffled(s, count, draws)[count..] == Shuffled(next, count - 1, draws)[count - 1..][1..];
    }
  }

  /** Different draws give different orders. */
  lemma {:induction false} ShuffleIsInjective(s: seq<nat>, count: nat, draws: seq<nat>, other: seq<nat>)
    requires count <= |s| && AreDraws(draws, |s|) && AreDraws(other, |s|) && IsOrder(s, |s|)
    requires Shuffled(s, count, draws) == Shuffled(s, count, other)
    ensures draws[..count] == other[..count]
    decreases count
  {
    if count == 1 {
      assert draws[..1] == [draws[0]] && other[..1] == [other[0]];
    } else if count > 1 {
      var u := count - 1;
      LastDrawIsFixed(s, u, draws, other);
      SwapKeepsOrder(s, u, draws[u]);
      ShuffleIsInjective(Swapped(s, u, draws[u]), u, draws, other);
      assert draws[..count] == draws[..u] + [draws[u]] && other[..count] == other[..u] + [other[u]];
    }
  }

  /** The first exchange settles what ends up last, so the result shows its draw. */
  lemma LastDrawIsFixed(s: seq<nat>, u: nat, draws: seq<nat>, other: seq<nat>)
    requires 0 < u < |s| && AreDraws(draws, |s|) && AreDraws(other, |s|) && IsOrder(s, |s|)
    requires Shuffled(s, u + 1, draws) == Shuffled(s, u + 1, other)
    ensures draws[u] == other[u]
  {
    LastStays(s, u, draws);
    LastStays(s, u, other);
    assert s[draws[u]] == s[other[u]];
  }

  lemma LastStays(s: seq<nat>, u: nat, draws: seq<nat>)
    requires 0 < u < |s| && AreDraws(draws, |s|) && IsOrder(s, |s|)
    ensures Shuffled(s, u + 1, draws)[u] == s[draws[u]]
  {
    var next := Swapped(s, u, draws[u]);
    SwapKeepsOrder(s, u, draws[u]);
    ShuffleIsOrder(next, u, draws);
    assert Shuffled(next, u, draws)[u..][0] == next[u..][0];
  }

  /** Every order that leaves the positions from `count` on alone comes from some draws. With
      injectivity: uniform independent draws pick each order, hence each sample, equally often. */
  lemma {:induction false} EveryOrderIsDrawn(s: seq<nat>, count: nat, target: seq<nat>) returns (draws: seq<nat>)
    requires count <= |s| && IsOrder(s, |s|) && IsOrder(target, |s|) && target[count..] == s[count..]
    ensures AreDraws(draws, |s|) && Shuffled(s, count, draws) == target
    decreases count
  {
    if count <= 1 {
      draws := seq(|s|, _ => 0);
      OneLeft(s, count, target);
    } else {
      var u := count - 1;
      var j := PlaceLast(s, u, target);
      var before := EveryOrderIsDrawn(Swapped(s, u, j), u, target);
      OneExchangeMore(s, u, j, before);
      draws := before[u := j];
    }
  }

  /** One exchange puts the right index at position `u`. */
  lemma PlaceLast(s: seq<nat>, u: nat, target: seq<nat>) returns (j: nat)
    requires u < |s| && IsOrder(s, |s|) && IsOrder(target, |s|) && target[u + 1..] == s[u + 1..]
    ensures j <= u && IsOrder(Swapped(s, u, j), |s|) && target[u..] == Swapped(s, u, j)[u..]
  {
    j := PositionOf(s, u + 1, target);
    SwapKeepsOrder(s, u, j);
    LastPlaced(s, u, j, target);
  }

  lemma OneExchangeMore(s: seq<nat>, u: nat, j: nat, draws: seq<nat>)
    requires 0 < u < |s| && j <= u && AreDraws(draws, |s|)
    ensures AreDraws(draws[u := j], |s|)
    ensures Shuffled(s, u + 1, draws[u := j]) == Shuffled(Swapped(s, u, j), u, draws)
  {
    UnusedDraw(Swapped(s, u, j), u, u, draws, j);
  }

  lemma LastPlaced(s: seq<nat>, u: nat, j: nat, target: seq<nat>)
    requires j <= u < |s| == |target| && target[u + 1..] == s[u + 1..] && target[u] == s[j]
    ensures target[u..] == Swapped(s, u, j)[u..]
  {
    var next := Swapped(s, u, j);
    assert target[u..] == [target[u]] + target[u + 1..];
    assert next[u..] == [next[u]] + next[u + 1..];
    assert next[u + 1..] == s[u + 1..];
  }

  /** A draw at or above `count` plays no part. */
  lemma {:induction false} UnusedDraw(s: seq<nat>, count: nat, at: nat, draws: seq<nat>, j: nat)
    requires count <= at < |s| && j <= at && AreDraws(draws, |s|)
    ensures AreDraws(draws[at := j], |s|)
    ensures Shuffled(s, count, draws[at := j]) == Shuffled(s, count, draws)
    decreases count
  {
    if count > 1 {
      UnusedDraw(Swapped(s, count - 1, draws[count - 1]), count - 1, at, draws, j);
    }
  }

  ghost function Elements(s: seq<nat>): set<nat> {
    set x | x in s
  }

  lemma {:induction false} ElementCount(s: seq<nat>)
    requires Distinct(s)
    ensures |Elements(s)| == |s|
  {
    if s != [] {
      ElementCount(s[1..]);
      assert Elements(s) == {s[0]} + Elements(s[1..]);
    }
  }

  ghost function Below(n: nat): (r: set<nat>)
    ensures |r| == n && forall x: nat :: x in r <==> x < n
  {
    if n == 0 then {} else Below(n - 1) + {n - 1}
  }

  lemma SubsetCount(a: set<nat>, b: set<nat>)
    requires a <= b
    ensures |a| <= |b|
    ensures |a| == |b| ==> a == b
  {
    assert b == a + (b - a);
    if |a| == |b| {
      assert b - a == {};
    }
  }

  lemma SameFrom(s: seq<nat>, target: seq<nat>, count: nat, j: nat)
    requires count <= j < |s| == |target| && target[count..] == s[count..]
    ensures s[j] == target[j]
  {
    assert s[count..][j - count] == target[count..][j - count];
  }

  /** Orders that agree from `count` on have the same indices before it. */
  lemma PositionOf(s: seq<nat>, count: nat, target: seq<nat>) returns (j: nat)
    requires 0 < count <= |s| && IsOrder(s, |s|) && IsOrder(target, |s|) && target[count..] == s[count..]
    ensures j < count && s[j] == target[count - 1]
  {
    ElementCount(s);
    SubsetCount(Elements(s), Below(|s|));
    assert target[count - 1] in Elements(s);
    j :| 0 <= j < |s| && s[j] == target[count - 1];
    if j >= count {
      SameFrom(s, target, count, j);
      assert false;
    }
  }

  lemma OneLeft(s: seq<nat>, count: nat, target: seq<nat>)
    requires count <= 1 && count <= |s| && IsOrder(s, |s|) && IsOrder(target, |s|) && target[count..] == s[count..]
    ensures s == target
  {
    if count == 1 {
      var j := PositionOf(s, count, target);
      assert s == [s[0]] + s[1..] && target == [target[0]] + target[1..];
    }
  }

  // ----- sampling -----

  /** What the seeded generator draws: position `u` of `n` gets output number `n - u`. */
  function Draws(seed: bv64, n: nat): seq<nat> {
    seq(n, u requires 0 <= u < n => Reduced(StateAfter(seed, n - u), u))
  }

  function Remainder(value: nat, divisor: nat): (r: nat)
    requires divisor > 0
    ensures r < divisor
  {
    value % divisor
  }

  function Reduced(state: bv64, upper: nat): (r: nat)
    ensures r <= upper
  {
    Remainder(Output(state) as nat, upper + 1)
  }

  lemma DrawAt(seed: bv64, n: nat, u: nat)
    requires u < n
    ensures Draws(seed, n)[u] == Reduced(StateAfter(seed, n - u), u)
    ensures StateAfter(seed, n - u) == StateAfter(seed, n - u - 1) + GAMMA
  {
  }

  /** Each draw follows the seed: from the last position down the state grows by one odd constant a position, and its
      mixing, taken modulo the positions left, is the draw. */
  lemma DrawsFollowSeed(seed: bv64, n: nat, u: nat) returns (before: bv64, state: bv64)
    requires u < n
    ensures u + 1 == n ==> before == seed
    ensures u + 1 < n ==> Draws(seed, n)[u + 1] == (Output(before) as nat) % (u + 2)
    ensures state == before + GAMMA && Draws(seed, n)[u] == (Output(state) as nat) % (u + 1)
  {
    before, state := StateAfter(seed, n - u - 1), StateAfter(seed, n - u);
    DrawAt(seed, n, u);
    if u + 1 < n {
      DrawAt(seed, n, u + 1);
    }
  }

  lemma DrawsAreDraws(seed: bv64, n: nat)
    ensures AreDraws(Draws(seed, n), n)
  {
    forall u | 0 <= u < n ensures Draws(seed, n)[u] <= u {
      DrawAt(seed, n, u);
    }
  }

  /** The next draw of a run that began at `seed` with `n` positions to fill. */
  method DrawUpTo(rng: SplitMix64, upper: nat, ghost seed: bv64, ghost n: nat) returns (selected: nat)
    requires upper < n && rng.state == StateAfter(seed, n - upper - 1)
    modifies rng
    ensures rng.state == StateAfter(seed, n - upper)
    ensures selected == Draws(seed, n)[upper]
  {
    var value := rng.NextU64();
    selected := Remainder(value as nat, upper + 1);
    DrawAt(seed, n, upper);
  }

  function SampleSize(n: nat, sample: nat): nat {
    if sample == 0 || sample > n then n else sample
  }

  /** The exchanges, made in place. */
  method Shuffle(indices: array<nat>, rng: SplitMix64)
    requires AreDraws(Draws(rng.state, indices.Length), indices.Length)
    modifies indices, rng
    ensures indices[..] == Shuffled(old(indices[..]), indices.Length, Draws(old(rng.state), indices.Length))
  {
    var n := indices.Length;
    ghost var seed, before := rng.state, indices[..];
    ghost var draws := Draws(seed, n);
    ghost var current := before;
    var upper := n;
    while upper > 1
      invariant 0 <= upper <= n && (n > 0 ==> upper > 0)
      invariant rng.state == StateAfter(seed, n - upper)
      invariant indices[..] == current && Shuffled(current, upper, draws) == Shuffled(before, n, draws)
    {
      upper := upper - 1;
      var selected := DrawUpTo(rng, upper, seed, n);
      indices[upper], indices[selected] := indices[selected], indices[upper];
      current := Swapped(current, upper, selected);
    }
  }

  /** The passages at the first positions of a shuffled list of all indices; a sample of 0 means all. */
  method SamplePassages<T>(passages: seq<T>, sample: nat, seed: bv64) returns (picked: seq<T>, ghost order: seq<nat>)
    ensures AreDraws(Draws(seed, |passages|), |passages|)
    ensures order == Shuffled(Ascending(|passages|), |passages|, Draws(seed, |passages|))
    ensures IsOrder(order, |passages|)
    ensures |picked| == SampleSize(|passages|, sample)
    ensures forall k | 0 <= k < |picked| :: picked[k] == passages[order[k]]
  {
    var n := |passages|;
    AscendingIsOrder(n);
    DrawsAreDraws(seed, n);
    order := Shuffled(Ascending(n), n, Draws(seed, n));
    ShuffleIsOrder(Ascending(n), n, Draws(seed, n));

    var indices := new nat[n](k => k);
    assert indices[..] == Ascending(n);
    var rng := new SplitMix64(seed);
    Shuffle(indices, rng);
    var size := SampleSize(n, sample);
    var shuffled := indices[..size];
    picked := seq(size, k requires 0 <= k < size => passages[shuffled[k]]);
  }

  lemma AscendingIsOrder(n: nat)
    ensures IsOrder(Ascending(n), n)
  {
  }

  /** A sample names each passage position at most once. */
  lemma SampleHasNoDuplicates(order: seq<nat>, n: nat, size: nat)
    requires IsOrder(order, n) && size <= n
    ensures |Elements(order[..size])| == size && forall x | x in Elements(order[..size]) :: x < n
  {
    ElementCount(order[..size]);
  }
}
