/** The chunker's packing loop over text units: fill a buffer in order, cut when the next unit no
    longer fits, and hand a unit that is too long on its own to a harder split
    (crates/bookforge-audio/src/text.rs:664-701, 840-891). */
module Packing {
  import opened Strings
  import opened GreedyPacking

  /** A harder split for units longer than the limit. */
  type HardSplit = string -> seq<string>

  function Flushed(current: string): seq<string> {
    if current == "" then [] else [current]
  }

  function Separated(current: string, separator: string, text: string): string {
    if current == "" then text else current + separator + text
  }

  /** The pieces still to come when `units` remain and `current` is in the buffer. */
  function Pack(units: seq<string>, separator: string, max: nat, hard: HardSplit, current: string): seq<string> {
    if units == [] then Flushed(current)
    else if |units[0]| > max then
      Flushed(current) + hard(units[0]) + Pack(units[1..], separator, max, hard, "")
    else if |Separated(current, separator, units[0])| > max then
      [current] + Pack(units[1..], separator, max, hard, units[0])
    else
      Pack(units[1..], separator, max, hard, Separated(current, separator, units[0]))
  }

  // ----- nothing visible is lost, no limit is exceeded -----

  ghost predicate Within(pieces: seq<string>, max: nat) {
    forall k | 0 <= k < |pieces| :: 0 < |pieces[k]| <= max
  }

  ghost predicate NoEmpty(units: seq<string>) {
    forall k | 0 <= k < |units| :: units[k] != ""
  }

  ghost predicate NoneTooLong(units: seq<string>, max: nat) {
    forall k | 0 <= k < |units| :: |units[k]| <= max
  }

  /** The harder split keeps the visible text of `unit` and respects the limit. */
  ghost predicate SplitsWell(unit: string, max: nat, hard: HardSplit) {
    NonBlank(Flatten(hard(unit))) == NonBlank(unit) && Within(hard(unit), max)
  }

  ghost predicate SplitsAllWell(units: seq<string>, max: nat, hard: HardSplit) {
    forall k | 0 <= k < |units| && |units[k]| > max :: SplitsWell(units[k], max, hard)
  }

  lemma {:induction false} PackNonBlank(units: seq<string>, separator: string, max: nat, hard: HardSplit, current: string)
    requires Blank(separator) && SplitsAllWell(units, max, hard)
    ensures NonBlank(Flatten(Pack(units, separator, max, hard, current))) == NonBlank(current) + NonBlank(Flatten(units))
  {
    if units == [] {
      FlattenOne(current);
    } else {
      var u, rest := units[0], units[1..];
      NonBlankConcat(u, Flatten(rest));
      Regroup(NonBlank(current), NonBlank(u), NonBlank(Flatten(rest)));
      if |u| > max {
        var later := Pack(rest, separator, max, hard, "");
        PackNonBlank(rest, separator, max, hard, "");
        assert NonBlank(Flatten(later)) == NonBlank(Flatten(rest));
        HardPieceNonBlank(current, u, hard, later);
      } else if |Separated(current, separator, u)| > max {
        PackNonBlank(rest, separator, max, hard, u);
        CutNonBlank(current, Pack(rest, separator, max, hard, u));
      } else {
        PackNonBlank(rest, separator, max, hard, Separated(current, separator, u));
        SeparatedNonBlank(current, separator, u);
      }
    }
  }

  lemma HardPieceNonBlank(current: string, unit: string, hard: HardSplit, rest: seq<string>)
    requires NonBlank(Flatten(hard(unit))) == NonBlank(unit)
    ensures NonBlank(Flatten(Flushed(current) + hard(unit) + rest))
         == NonBlank(current) + NonBlank(unit) + NonBlank(Flatten(rest))
  {
    FlattenOne(current);
    NonBlankFlattenConcat(Flushed(current) + hard(unit), rest);
    NonBlankFlattenConcat(Flushed(current), hard(unit));
  }

  lemma CutNonBlank(current: string, rest: seq<string>)
    ensures NonBlank(Flatten([current] + rest)) == NonBlank(current) + NonBlank(Flatten(rest))
  {
    FlattenOne(current);
    NonBlankFlattenConcat([current], rest);
  }

  lemma SeparatedNonBlank(current: string, separator: string, text: string)
    requires Blank(separator)
    ensures NonBlank(Separated(current, separator, text)) == NonBlank(current) + NonBlank(text)
  {
    NonBlankOfBlank(separator);
    NonBlankConcat(current + separator, text);
    NonBlankConcat(current, separator);
  }

  lemma {:induction false} PackWithin(units: seq<string>, separator: string, max: nat, hard: HardSplit, current: string)
    requires SplitsAllWell(units, max, hard) && NoEmpty(units) && |current| <= max
    ensures Within(Pack(units, separator, max, hard, current), max)
  {
    if units != [] {
      var u, rest := units[0], units[1..];
      if |u| > max {
        PackWithin(rest, separator, max, hard, "");
      } else if |Separated(current, separator, u)| > max {
        PackWithin(rest, separator, max, hard, u);
      } else {
        PackWithin(rest, separator, max, hard, Separated(current, separator, u));
      }
    }
  }

  // ----- when no unit is too long, the pieces are as few as can be -----

  /** The units `lo` up to `hi`, joined, stay within the limit. */
  function Joinable(units: seq<string>, separator: string, max: nat): (nat, nat) -> bool {
    (lo: nat, hi: nat) => lo < hi <= |units| && |JoinWith(units[lo..hi], separator)| <= max
  }

  /** The joined text of each group. */
  function Groups(units: seq<string>, separator: string, ends: seq<nat>, from: nat): seq<string>
    requires from <= |units|
    decreases |ends|
  {
    if ends == [] || !(from <= ends[0] <= |units|) then []
    else [JoinWith(units[from..ends[0]], separator)] + Groups(units, separator, ends[1..], ends[0])
  }

  lemma {:induction false} GroupCount(units: seq<string>, separator: string, ends: seq<nat>, from: nat, fits: (nat, nat) -> bool)
    requires IsGrouping(ends, from, |units|, fits) && from <= |units|
    ensures |Groups(units, separator, ends, from)| == |ends|
    decreases |ends|
  {
    if ends != [] {
      GroupCount(units, separator, ends[1..], ends[0], fits);
    }
  }

  lemma JoinableIsHereditary(units: seq<string>, separator: string, max: nat)
    ensures Hereditary(|units|, Joinable(units, separator, max))
  {
    var fits := Joinable(units, separator, max);
    forall lo: nat, hi: nat, inLo: nat, inHi: nat | lo <= inLo < inHi <= hi <= |units| && fits(lo, hi)
      ensures fits(inLo, inHi)
    {
      JoinShorter(units, separator, lo, inLo, inHi, hi);
    }
  }

  /** The packing loop, with units `from` up to `at` in its buffer, cuts only where the next unit does not fit. */
  lemma {:induction false} PackFollowsCuts(units: seq<string>, separator: string, max: nat, hard: HardSplit, from: nat, at: nat)
    requires from < at <= |units| && NoEmpty(units) && NoneTooLong(units, max)
    ensures Pack(units[at..], separator, max, hard, JoinWith(units[from..at], separator))
         == Groups(units, separator, Cuts(from, at, |units|, Joinable(units, separator, max)), from)
    decreases |units| - at
  {
    var fits := Joinable(units, separator, max);
    if at == |units| {
      PackLast(units, separator, max, hard, from);
    } else {
      PackNext(units, separator, max, hard, from, at);
      if fits(from, at + 1) {
        PackFollowsCuts(units, separator, max, hard, from, at + 1);
        assert Cuts(from, at, |units|, fits) == Cuts(from, at + 1, |units|, fits);
      } else {
        var later := Cuts(at, at + 1, |units|, fits);
        PackFollowsCuts(units, separator, max, hard, at, at + 1);
        GroupsCons(units, separator, at, later, from);
        assert Cuts(from, at, |units|, fits) == [at] + later;
      }
    }
  }

  lemma PackLast(units: seq<string>, separator: string, max: nat, hard: HardSplit, from: nat)
    requires from < |units| && NoEmpty(units)
    ensures Pack(units[|units|..], separator, max, hard, JoinWith(units[from..], separator)) == Groups(units, separator, [|units|], from)
    ensures units[from..|units|] == units[from..]
  {
    GroupsCons(units, separator, |units|, [], from);
    assert [|units|] + [] == [|units|] && Groups(units, separator, [], |units|) == [];
    assert units[from..|units|] == units[from..];
    assert [JoinWith(units[from..], separator)] + [] == [JoinWith(units[from..], separator)];
  }

  /** One turn of the loop: the next unit joins the buffer, or opens a new one. */
  lemma PackNext(units: seq<string>, separator: string, max: nat, hard: HardSplit, from: nat, at: nat)
    requires from < at < |units| && NoEmpty(units) && NoneTooLong(units, max)
    ensures Pack(units[at..], separator, max, hard, JoinWith(units[from..at], separator))
         == if Joinable(units, separator, max)(from, at + 1)
            then Pack(units[at + 1..], separator, max, hard, JoinWith(units[from..at + 1], separator))
            else [JoinWith(units[from..at], separator)] + Pack(units[at + 1..], separator, max, hard, JoinWith(units[at..at + 1], separator))
  {
    var current := JoinWith(units[from..at], separator);
    OneUnitMore(units, separator, from, at);
    PackTurn(units, separator, max, hard, at, current);
    JoinOfOne(units, separator, at);
    assert Joinable(units, separator, max)(from, at + 1) <==> |JoinWith(units[from..at + 1], separator)| <= max;
  }

  lemma PackTurn(units: seq<string>, separator: string, max: nat, hard: HardSplit, at: nat, current: string)
    requires at < |units| && |units[at]| <= max
    ensures Pack(units[at..], separator, max, hard, current)
         == if |Separated(current, separator, units[at])| <= max
            then Pack(units[at + 1..], separator, max, hard, Separated(current, separator, units[at]))
            else [current] + Pack(units[at + 1..], separator, max, hard, units[at])
  {
    assert units[at..][0] == units[at] && units[at..][1..] == units[at + 1..];
  }

  lemma JoinOfOne(units: seq<string>, separator: string, at: nat)
    requires at < |units|
    ensures JoinWith(units[at..at + 1], separator) == units[at]
  {
    assert units[at..at + 1] == [units[at]];
  }

  lemma GroupsCons(units: seq<string>, separator: string, end: nat, ends: seq<nat>, from: nat)
    requires from <= end <= |units|
    ensures Groups(units, separator, [end] + ends, from) == [JoinWith(units[from..end], separator)] + Groups(units, separator, ends, end)
  {
    assert ([end] + ends)[1..] == ends;
  }

  lemma OneUnitMore(units: seq<string>, separator: string, from: nat, at: nat)
    requires from < at < |units| && NoEmpty(units)
    ensures Separated(JoinWith(units[from..at], separator), separator, units[at]) == JoinWith(units[from..at + 1], separator)
  {
    assert units[from..at + 1] == units[from..at] + [units[at]];
    JoinConcat(units[from..at], [units[at]], separator);
  }

  /** Packing joins in-order groups, and no grouping within the limit has fewer groups. */
  lemma PackIsFewest(units: seq<string>, separator: string, max: nat, hard: HardSplit, other: seq<nat>)
    requires NoEmpty(units)
    requires NoneTooLong(units, max)
    requires IsGrouping(other, 0, |units|, Joinable(units, separator, max))
    ensures |Pack(units, separator, max, hard, "")| <= |other|
    ensures exists ends ::
      && IsGrouping(ends, 0, |units|, Joinable(units, separator, max))
      && Pack(units, separator, max, hard, "") == Groups(units, separator, ends, 0)
  {
    var fits := Joinable(units, separator, max);
    if units == [] {
      assert IsGrouping([], 0, |units|, fits);
    } else {
      assert units[0..1] == [units[0]];
      var ends := Cuts(0, 1, |units|, fits);
      PackFollowsCuts(units, separator, max, hard, 0, 1);
      CutsAreGreedy(0, 1, |units|, fits);
      JoinableIsHereditary(units, separator, max);
      GreedyIsFewest(ends, 0, other, 0, |units|, fits);
      GroupCount(units, separator, ends, 0, fits);
    }
  }
}
