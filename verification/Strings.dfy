/** Strings as sequences of Unicode scalar values, and the library calls the sources make on them. */
module Strings {

  // ----- whitespace -----

  /** The Unicode White_Space property, which `char::is_whitespace` implements. */
  predicate IsWhitespace(ch: char) {
    || '\t' <= ch <= '\r'
    || ch == ' ' || ch == '\U{85}' || ch == '\U{A0}' || ch == '\U{1680}'
    || '\U{2000}' <= ch <= '\U{200A}'
    || ch == '\U{2028}' || ch == '\U{2029}' || ch == '\U{202F}' || ch == '\U{205F}' || ch == '\U{3000}'
  }

  predicate Blank(s: string) {
    forall k | 0 <= k < |s| :: IsWhitespace(s[k])
  }

  /** The characters of `s` that are not whitespace, in order. */
  function NonBlank(s: string): string {
    if s == "" then ""
    else if IsWhitespace(s[0]) then NonBlank(s[1..])
    else [s[0]] + NonBlank(s[1..])
  }

  lemma {:induction false} NonBlankConcat(a: string, b: string)
    ensures NonBlank(a + b) == NonBlank(a) + NonBlank(b)
  {
    if a == "" {
      assert a + b == b;
    } else {
      assert (a + b)[1..] == a[1..] + b;
      NonBlankConcat(a[1..], b);
    }
  }

  lemma {:induction false} NonBlankOfBlank(s: string)
    requires Blank(s)
    ensures NonBlank(s) == ""
  {
    if s != "" {
      NonBlankOfBlank(s[1..]);
    }
  }

  // ----- trimming -----

  function TrimStart(s: string): (r: string)
    ensures r != "" ==> !IsWhitespace(r[0])
    ensures |r| <= |s|
  {
    if s != "" && IsWhitespace(s[0]) then TrimStart(s[1..]) else s
  }

  function TrimEnd(s: string): (r: string)
    ensures r <= s
    ensures r != "" ==> !IsWhitespace(r[|r| - 1])
  {
    if s != "" && IsWhitespace(s[|s| - 1]) then TrimEnd(s[..|s| - 1]) else s
  }

  function Trim(s: string): (r: string)
    ensures |r| <= |s|
  {
    TrimStart(TrimEnd(s))
  }

  /** A string with no whitespace at either end. */
  predicate IsTrimmed(s: string) {
    s == "" || (!IsWhitespace(s[0]) && !IsWhitespace(s[|s| - 1]))
  }

  lemma {:induction false} TrimStartSuffix(s: string)
    ensures |TrimStart(s)| <= |s| && TrimStart(s) == s[|s| - |TrimStart(s)|..]
  {
    if s != "" && IsWhitespace(s[0]) {
      TrimStartSuffix(s[1..]);
    }
  }

  lemma TrimIsTrimmed(s: string)
    ensures IsTrimmed(Trim(s))
  {
    TrimStartSuffix(TrimEnd(s));
  }

  lemma {:induction false} TrimStartNonBlank(s: string)
    ensures NonBlank(TrimStart(s)) == NonBlank(s)
  {
    if s != "" && IsWhitespace(s[0]) {
      TrimStartNonBlank(s[1..]);
    }
  }

  lemma {:induction false} TrimEndNonBlank(s: string)
    ensures NonBlank(TrimEnd(s)) == NonBlank(s)
  {
    if s != "" && IsWhitespace(s[|s| - 1]) {
      var front, last := s[..|s| - 1], s[|s| - 1..];
      assert s == front + last;
      NonBlankConcat(front, last);
      NonBlankOfBlank(last);
      TrimEndNonBlank(front);
    }
  }

  /** Trimming drops whitespace only. */
  lemma TrimNonBlank(s: string)
    ensures NonBlank(Trim(s)) == NonBlank(s)
    ensures Trim(s) == "" <==> Blank(s)
  {
    TrimEndNonBlank(s);
    TrimStartNonBlank(TrimEnd(s));
    if Blank(s) {
      NonBlankOfBlank(s);
      TrimIsTrimmed(s);
    }
    if Trim(s) == "" {
      BlankIfNoNonBlank(s);
    }
  }

  lemma {:induction false} BlankIfNoNonBlank(s: string)
    requires NonBlank(s) == ""
    ensures Blank(s)
  {
    if s != "" {
      BlankIfNoNonBlank(s[1..]);
      forall k | 0 <= k < |s| ensures IsWhitespace(s[k]) {
        if k > 0 {
          assert s[k] == s[1..][k - 1];
        }
      }
    }
  }

  lemma TrimAfter(s: string, ch: char)
    requires IsWhitespace(ch)
    ensures Trim(s + [ch]) == Trim(s)
  {
    assert (s + [ch])[..|s|] == s;
  }

  lemma {:induction false} TrimBefore(s: string, ch: char)
    requires IsWhitespace(ch)
    ensures Trim([ch] + s) == Trim(s)
  {
    var t := [ch] + s;
    if s == "" {
      assert t[..0] == "" && t == [ch];
      assert TrimEnd(t) == TrimEnd(t[..|t| - 1]) == "";
    } else if IsWhitespace(s[|s| - 1]) {
      assert t[|t| - 1] == s[|s| - 1] && t[..|t| - 1] == [ch] + s[..|s| - 1];
      TrimBefore(s[..|s| - 1], ch);
    } else {
      assert t[|t| - 1] == s[|s| - 1] && t[1..] == s;
    }
  }

  // ----- joining -----

  function JoinWith(parts: seq<string>, separator: string): string {
    if |parts| == 0 then ""
    else if |parts| == 1 then parts[0]
    else parts[0] + separator + JoinWith(parts[1..], separator)
  }

  function Flatten<T>(parts: seq<seq<T>>): seq<T> {
    if parts == [] then [] else parts[0] + Flatten(parts[1..])
  }

  lemma {:induction false} FlattenConcat<T>(a: seq<seq<T>>, b: seq<seq<T>>)
    ensures Flatten(a + b) == Flatten(a) + Flatten(b)
  {
    if a == [] {
      assert a + b == b;
    } else {
      assert (a + b)[1..] == a[1..] + b;
      FlattenConcat(a[1..], b);
      assert a[0] + (Flatten(a[1..]) + Flatten(b)) == (a[0] + Flatten(a[1..])) + Flatten(b);
    }
  }

  lemma NonBlankFlattenConcat(a: seq<string>, b: seq<string>)
    ensures NonBlank(Flatten(a + b)) == NonBlank(Flatten(a)) + NonBlank(Flatten(b))
  {
    FlattenConcat(a, b);
    NonBlankConcat(Flatten(a), Flatten(b));
  }

  lemma FlattenOne<T>(part: seq<T>)
    ensures Flatten([part]) == part
  {
    assert [part][1..] == [];
    assert part + [] == part;
  }

  /** A blank separator adds nothing visible. */
  lemma {:induction false} JoinNonBlank(parts: seq<string>, separator: string)
    requires Blank(separator)
    ensures NonBlank(JoinWith(parts, separator)) == NonBlank(Flatten(parts))
  {
    NonBlankOfBlank(separator);
    if |parts| == 1 {
      assert parts == [parts[0]];
      FlattenOne(parts[0]);
    } else if |parts| > 1 {
      var rest := JoinWith(parts[1..], separator);
      JoinNonBlank(parts[1..], separator);
      NonBlankConcat(parts[0] + separator, rest);
      NonBlankConcat(parts[0], separator);
      NonBlankConcat(parts[0], Flatten(parts[1..]));
    }
  }

  lemma {:induction false} JoinConcat(a: seq<string>, b: seq<string>, separator: string)
    requires a != [] && b != []
    ensures JoinWith(a + b, separator) == JoinWith(a, separator) + separator + JoinWith(b, separator)
  {
    assert (a + b)[1..] == a[1..] + b;
    if |a| > 1 {
      JoinConcat(a[1..], b, separator);
      var x, y, z := JoinWith(a[1..], separator), separator, JoinWith(b, separator);
      assert a[0] + separator + (x + y + z) == (a[0] + separator + x) + y + z;
    } else {
      assert a[1..] + b == b;
    }
  }

  /** The parts `lo` up to `hi` joined are no longer than any wider range of them joined. */
  lemma JoinShorter(parts: seq<string>, separator: string, lo: nat, inLo: nat, inHi: nat, hi: nat)
    requires lo <= inLo < inHi <= hi <= |parts|
    ensures |JoinWith(parts[inLo..inHi], separator)| <= |JoinWith(parts[lo..hi], separator)|
  {
    JoinPrefixShorter(parts, separator, inLo, inHi, hi);
    if lo < inLo {
      JoinConcat(parts[lo..inLo], parts[inLo..hi], separator);
      SplitRange(parts, lo, inLo, hi);
    }
  }

  lemma JoinPrefixShorter(parts: seq<string>, separator: string, lo: nat, mid: nat, hi: nat)
    requires lo < mid <= hi <= |parts|
    ensures |JoinWith(parts[lo..mid], separator)| <= |JoinWith(parts[lo..hi], separator)|
  {
    if mid < hi {
      JoinConcat(parts[lo..mid], parts[mid..hi], separator);
      SplitRange(parts, lo, mid, hi);
    }
  }

  lemma SplitRange<T>(s: seq<T>, lo: nat, mid: nat, hi: nat)
    requires lo <= mid <= hi <= |s|
    ensures s[lo..hi] == s[lo..mid] + s[mid..hi]
  {
  }

  lemma Regroup<T>(a: seq<T>, b: seq<T>, c: seq<T>)
    ensures a + (b + c) == (a + b) + c
  {
  }
}
