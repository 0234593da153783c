/** Sorting strings: strictly ascending sequences are determined by their elements. */
module Sorting {

  /** Lexicographic order by character. */
  predicate Less(a: string, b: string) {
    if b == "" then false else if a == "" then true
    else if a[0] != b[0] then a[0] < b[0] else Less(a[1..], b[1..])
  }

  lemma {:induction false} LessIsTotal(a: string, b: string)
    ensures a != b ==> Less(a, b) || Less(b, a)
    ensures !(Less(a, b) && Less(b, a)) && !Less(a, a)
  {
    if a != "" && b != "" {
      assert a == [a[0]] + a[1..] && b == [b[0]] + b[1..];
      LessIsTotal(a[1..], b[1..]);
    }
    if a != "" {
      LessIsTotal(a[1..], a[1..]);
    }
  }

  lemma {:induction false} LessIsTransitive(a: string, b: string, c: string)
    requires Less(a, b) && Less(b, c)
    ensures Less(a, c)
  {
    if a != "" && a[0] == b[0] && b[0] == c[0] {
      LessIsTransitive(a[1..], b[1..], c[1..]);
    }
  }

  ghost predicate Ascending(s: seq<string>) {
    forall i, j | 0 <= i < j < |s| :: Less(s[i], s[j])
  }

  function Elements(s: seq<string>): set<string> {
    set k | 0 <= k < |s| :: s[k]
  }

  method Insert(sorted: seq<string>, x: string) returns (r: seq<string>)
    requires Ascending(sorted) && x !in Elements(sorted)
    ensures Ascending(r) && Elements(r) == Elements(sorted) + {x} && |r| == |sorted| + 1
  {
    var k := 0;
    while k < |sorted| && Less(sorted[k], x)
      invariant 0 <= k <= |sorted|
      invariant forall i | 0 <= i < k :: Less(sorted[i], x)
    {
      k := k + 1;
    }
    forall i | k <= i < |sorted| ensures Less(x, sorted[i]) {
      assert sorted[i] in Elements(sorted);
      LessIsTotal(sorted[k], x);
      if k < i {
        LessIsTransitive(x, sorted[k], sorted[i]);
      }
    }
    r := sorted[..k] + [x] + sorted[k..];
    InsertedElements(sorted, k, x);
  }

  lemma InsertedElements(s: seq<string>, k: nat, x: string)
    requires k <= |s|
    ensures Elements(s[..k] + [x] + s[k..]) == Elements(s) + {x}
  {
    var r := s[..k] + [x] + s[k..];
    forall y | y in Elements(s) + {x} ensures y in Elements(r) {
      if y == x {
        assert r[k] == x;
      } else {
        var i :| 0 <= i < |s| && s[i] == y;
        assert r[if i < k then i else i + 1] == y;
      }
    }
  }

  /** Sorting distinct strings. */
  method Sort(s: seq<string>) returns (r: seq<string>)
    requires forall i, j | 0 <= i < j < |s| :: s[i] != s[j]
    ensures Ascending(r) && Elements(r) == Elements(s) && |r| == |s|
  {
    r := [];
    for k := 0 to |s|
      invariant Ascending(r) && Elements(r) == Elements(s[..k]) && |r| == k
    {
      assert forall y | y in Elements(s[..k]) :: y != s[k];
      r := Insert(r, s[k]);
      assert s[..k + 1] == s[..k] + [s[k]] + s[..k][k..];
      InsertedElements(s[..k], k, s[k]);
      assert s[..k][..k] == s[..k];
    }
    assert s[..|s|] == s;
  }

  /** Two ascending sequences of the same strings are equal. */
  lemma {:induction false} AscendingIsUnique(a: seq<string>, b: seq<string>)
    requires Ascending(a) && Ascending(b) && Elements(a) == Elements(b)
    ensures a == b
  {
    if a == [] {
      HasElement(b);
    } else {
      assert a[0] in Elements(a);
      var k :| 0 <= k < |b| && b[k] == a[0];
      assert b[0] in Elements(b);
      var i :| 0 <= i < |a| && a[i] == b[0];
      LessIsTotal(a[0], b[0]);
      assert a[0] == b[0];
      TailElements(a);
      TailElements(b);
      AscendingIsUnique(a[1..], b[1..]);
    }
  }

  lemma HasElement(s: seq<string>)
    ensures s != [] ==> Elements(s) != {}
  {
    if s != [] {
      assert s[0] in Elements(s);
    }
  }

  lemma TailElements(s: seq<string>)
    requires s != [] && Ascending(s)
    ensures Elements(s[1..]) == Elements(s) - {s[0]}
  {
    LessIsTotal(s[0], s[0]);
    forall x | x in Elements(s) - {s[0]} ensures x in Elements(s[1..]) {
      var k :| 0 <= k < |s| && s[k] == x;
      assert s[1..][k - 1] == x;
    }
    forall x | x in Elements(s[1..]) ensures x in Elements(s) - {s[0]} {
      var k :| 0 <= k < |s[1..]| && s[1..][k] == x;
      assert s[k + 1] == x;
    }
  }
}
