/** Which items of a list are picked: exactly the wanted ones, in order. */
module Selection {

  /** `picks` are the positions of exactly the wanted items, ascending. */
  ghost predicate PicksExactly<T>(items: seq<T>, wanted: T -> bool, picks: seq<nat>) {
    && (forall i | 0 <= i < |picks| :: picks[i] < |items| && wanted(items[picks[i]]))
    && (forall i, j | 0 <= i < j < |picks| :: picks[i] < picks[j])
    && (forall k: nat | k < |items| && wanted(items[k]) :: k in picks)
  }

  function Shifted(picks: seq<nat>, offset: nat): (r: seq<nat>)
    ensures |r| == |picks|
  {
    seq(|picks|, i requires 0 <= i < |picks| => picks[i] + offset)
  }

  lemma PicksConcat<T>(a: seq<T>, b: seq<T>, wanted: T -> bool, picksA: seq<nat>, picksB: seq<nat>)
    requires PicksExactly(a, wanted, picksA) && PicksExactly(b, wanted, picksB)
    ensures PicksExactly(a + b, wanted, picksA + Shifted(picksB, |a|))
  {
    var all, picks := a + b, picksA + Shifted(picksB, |a|);
    forall i | 0 <= i < |picks| ensures picks[i] < |all| && wanted(all[picks[i]]) {
      if i < |picksA| {
        assert all[picks[i]] == a[picksA[i]];
      } else {
        assert all[picks[i]] == b[picksB[i - |picksA|]];
      }
    }
    forall k: nat | k < |all| && wanted(all[k]) ensures k in picks {
      if k < |a| {
        assert k in picksA;
      } else {
        assert all[k] == b[k - |a|];
        var i :| 0 <= i < |picksB| && picksB[i] == k - |a|;
        assert picks[|picksA| + i] == k;
      }
    }
  }

  /** `values` are what `value` makes of exactly the wanted items, in order; `picks` says of which. */
  ghost predicate Selects<T, U>(values: seq<U>, items: seq<T>, wanted: T -> bool, value: T -> U, picks: seq<nat>) {
    && PicksExactly(items, wanted, picks) && |values| == |picks|
    && forall i | 0 <= i < |picks| :: values[i] == value(items[picks[i]])
  }

  lemma SelectsConcat<T, U>(valuesA: seq<U>, a: seq<T>, picksA: seq<nat>, valuesB: seq<U>, b: seq<T>, picksB: seq<nat>,
                            wanted: T -> bool, value: T -> U)
    requires Selects(valuesA, a, wanted, value, picksA) && Selects(valuesB, b, wanted, value, picksB)
    ensures Selects(valuesA + valuesB, a + b, wanted, value, picksA + Shifted(picksB, |a|))
  {
    PicksConcat(a, b, wanted, picksA, picksB);
    var values, all, picks := valuesA + valuesB, a + b, picksA + Shifted(picksB, |a|);
    forall i | 0 <= i < |picks| ensures values[i] == value(all[picks[i]]) {
      if i >= |picksA| {
        assert all[picks[i]] == b[picksB[i - |picksA|]];
      }
    }
  }

  /** One item is picked if it is wanted. */
  lemma SelectsOne<T, U>(item: T, wanted: T -> bool, value: T -> U) returns (values: seq<U>, picks: seq<nat>)
    ensures values == (if wanted(item) then [value(item)] else []) && Selects(values, [item], wanted, value, picks)
  {
    values := if wanted(item) then [value(item)] else [];
    picks := if wanted(item) then [0] else [];
  }
}
