/** Every collected paragraph has its own location key (scripts/epub_quality_audit.py:72-80, 93-131). */
module ParagraphKeys {
  import opened Options
  import opened Strings
  import opened Numbers
  import opened Paragraphs

  /** Local names of XML elements hold none of the characters that structure a location. */
  ghost predicate PlainTags(e: Element) {
    && '[' !in e.tag && '/' !in e.tag && '#' !in e.tag
    && forall i | 0 <= i < |e.children| :: PlainTags(e.children[i])
  }

  // ----- locations of different places differ -----

  /** A location at or below a path. */
  ghost predicate Under(location: string, path: string) {
    |path| < |location| && location[..|path|] == path && (location[|path|] == '#' || location[|path|] == '/')
  }

  /** A fragment of the block at `path` itself, numbered from `lo` up to `hi`. */
  ghost predicate OwnFragment(location: string, path: string, lo: nat, hi: nat) {
    exists k :: lo <= k < hi && location == Location(path, k)
  }

  /** A location below one of the children of the element at `elementPath`, from child `lo` up to `hi`. */
  ghost predicate BelowChild(location: string, elementPath: string, e: Element, lo: nat, hi: nat) {
    exists i :: lo <= i < hi <= |e.children| && Under(location, ChildPath(elementPath, e.children[i].tag, i))
  }

  ghost predicate Distinct(paragraphs: seq<Paragraph>) {
    forall i, j | 0 <= i < j < |paragraphs| :: paragraphs[i].location != paragraphs[j].location
  }

  function UpTo(ch: char, s: string): (r: nat)
    ensures r <= |s|
  {
    if s == "" || s[0] == ch then 0 else 1 + UpTo(ch, s[1..])
  }

  lemma {:induction false} UpToMark(ch: char, part: string, rest: string)
    requires ch !in part
    ensures UpTo(ch, part + ([ch] + rest)) == |part|
  {
    var s := part + ([ch] + rest);
    if part == "" {
      assert s[0] == ch;
    } else {
      assert s[0] == part[0] && s[1..] == part[1..] + ([ch] + rest);
      UpToMark(ch, part[1..], rest);
    }
  }

  /** What stands before the first `ch` can be read off. */
  lemma BeforeMark(ch: char, a: string, rest1: string, b: string, rest2: string)
    requires ch !in a && ch !in b && a + ([ch] + rest1) == b + ([ch] + rest2)
    ensures a == b && rest1 == rest2
  {
    var s := a + ([ch] + rest1);
    UpToMark(ch, a, rest1);
    UpToMark(ch, b, rest2);
    assert a == s[..|a|] == b;
    assert rest1 == s[|a| + 1..] == rest2;
  }

  lemma DecimalIsInjective(m: nat, n: nat)
    requires Decimal(m) == Decimal(n)
    ensures m == n
  {
    DecimalHasValue(m);
    DecimalHasValue(n);
  }

  /** Nothing lies below two children of one element. */
  lemma SiblingsAreApart(location: string, path: string, tag1: string, i: nat, tag2: string, j: nat)
    requires '[' !in tag1 && '[' !in tag2
    requires Under(location, ChildPath(path, tag1, i)) && Under(location, ChildPath(path, tag2, j))
    ensures i == j
  {
    var rest1 := BehindPath(location, path, tag1, i);
    var rest2 := BehindPath(location, path, tag2, j);
    BeforeMark('[', tag1, Decimal(i) + ("]" + rest1), tag2, Decimal(j) + ("]" + rest2));
    BeforeMark(']', Decimal(i), rest1, Decimal(j), rest2);
    DecimalIsInjective(i, j);
  }

  /** What follows the parent's path and a slash in a location below a child. */
  lemma BehindPath(location: string, path: string, tag: string, i: nat) returns (rest: string)
    requires Under(location, ChildPath(path, tag, i))
    ensures |location| > |path| && location[|path| + 1..] == tag + ("[" + (Decimal(i) + ("]" + rest)))
  {
    var p := ChildPath(path, tag, i);
    rest := location[|p|..];
    assert location == p + rest;
    assert p == path + "/" + (tag + ("[" + (Decimal(i) + "]")));
    assert (tag + ("[" + (Decimal(i) + "]"))) + rest == tag + ("[" + (Decimal(i) + ("]" + rest)));
  }

  /** Below a child is below its parent, behind a slash. */
  lemma BelowIsUnder(location: string, path: string, tag: string, i: nat)
    requires Under(location, ChildPath(path, tag, i))
    ensures Under(location, path) && location[|path|] == '/'
  {
    var p := ChildPath(path, tag, i);
    assert p == path + "/" + (tag + ("[" + (Decimal(i) + "]")));
    assert location[..|p|][..|path|] == location[..|path|];
    assert location[..|p|][|path|] == p[|path|];
  }

  /** `below` is `path` or lies below it behind a slash. */
  ghost predicate AtOrBelow(below: string, path: string) {
    below == path || (|path| < |below| && below[..|path|] == path && below[|path|] == '/')
  }

  lemma OwnIsUnder(path: string, k: nat)
    ensures Under(Location(path, k), path)
  {
    assert Location(path, k)[..|path|] == path;
  }

  lemma OwnFragmentsDiffer(path: string, m: nat, n: nat)
    requires m != n
    ensures Location(path, m) != Location(path, n)
  {
    if Location(path, m) == Location(path, n) {
      assert Location(path, m)[|path| + 1..] == Decimal(m) && Location(path, n)[|path| + 1..] == Decimal(n);
      DecimalIsInjective(m, n);
    }
  }

  // ----- the keys a walk produces -----

  /** Distinct locations, each a fragment of the block at `path` in the given range or below the given children. */
  ghost predicate Keyed(added: seq<Paragraph>, path: string, from: nat, to: nat, elementPath: string, e: Element, lo: nat, hi: nat) {
    && Distinct(added)
    && forall k | 0 <= k < |added| ::
         OwnFragment(added[k].location, path, from, to) || BelowChild(added[k].location, elementPath, e, lo, hi)
  }

  /** The same for one child's share. */
  ghost predicate ChildKeyed(added: seq<Paragraph>, path: string, from: nat, to: nat, childPath: string) {
    && Distinct(added)
    && forall k | 0 <= k < |added| :: OwnFragment(added[k].location, path, from, to) || Under(added[k].location, childPath)
  }

  function Added(before: Flow, after: Flow): seq<Paragraph> {
    if |before.paragraphs| <= |after.paragraphs| then after.paragraphs[|before.paragraphs|..] else []
  }

  ghost predicate Extends(before: Flow, after: Flow) {
    before.paragraphs <= after.paragraphs && before.fragment <= after.fragment
  }

  lemma FlushKeys(flow: Flow, path: string, keepEmpty: bool)
    ensures var flushed := Flushed(flow, path, keepEmpty);
      Extends(flow, flushed) && (Added(flow, flushed) == [] || (|Added(flow, flushed)| == 1 && Added(flow, flushed)[0].location == Location(path, flow.fragment)))
  {
  }

  lemma {:induction false} WalkKeys(e: Element, path: string)
    requires PlainTags(e)
    ensures Distinct(Walked(e, path))
    ensures forall k | 0 <= k < |Walked(e, path)| :: Under(Walked(e, path)[k].location, path)
    decreases e, 3
  {
    if !Hidden(e) {
      var start := Flow([], "", 0, false);
      var flow := ContentOf(e, path, path, start);
      var keepEmpty := !flow.hadBoundary && e.tag in LEAF_BLOCKS;
      ContentKeys(e, path, path, start);
      FlushKeys(flow, path, keepEmpty);
      assert Added(start, flow) == flow.paragraphs;
      var own := Added(flow, Flushed(flow, path, keepEmpty));
      assert Walked(e, path) == flow.paragraphs + own;
      LastFlushKeys(e, path, flow.paragraphs, flow.fragment, own);
    }
  }

  /** The last fragment of a block joins those before it. */
  lemma LastFlushKeys(e: Element, path: string, paragraphs: seq<Paragraph>, fragment: nat, own: seq<Paragraph>)
    requires Keyed(paragraphs, path, 0, fragment, path, e, 0, |e.children|)
    requires own == [] || (|own| == 1 && own[0].location == Location(path, fragment))
    ensures Distinct(paragraphs + own)
    ensures forall k | 0 <= k < |paragraphs + own| :: Under((paragraphs + own)[k].location, path)
  {
    var all := paragraphs + own;
    forall k | 0 <= k < |all| ensures Under(all[k].location, path) {
      if k < |paragraphs| {
        KeyIsUnder(e, path, fragment, all[k].location);
      } else {
        OwnIsUnder(path, fragment);
      }
    }
    if own != [] {
      forall k | 0 <= k < |paragraphs| ensures all[k].location != Location(path, fragment) {
        NewFragmentIsNew(all[k].location, path, fragment, path, e);
      }
    }
  }

  lemma KeyIsUnder(e: Element, path: string, fragment: nat, location: string)
    requires OwnFragment(location, path, 0, fragment) || BelowChild(location, path, e, 0, |e.children|)
    ensures Under(location, path)
  {
    if OwnFragment(location, path, 0, fragment) {
      var m :| 0 <= m < fragment && location == Location(path, m);
      OwnIsUnder(path, m);
    } else {
      var i :| 0 <= i < |e.children| && Under(location, ChildPath(path, e.children[i].tag, i));
      BelowIsUnder(location, path, e.children[i].tag, i);
    }
  }

  /** The next fragment of a block has a new location. */
  lemma NewFragmentIsNew(location: string, path: string, fragment: nat, elementPath: string, e: Element)
    requires AtOrBelow(elementPath, path)
    requires OwnFragment(location, path, 0, fragment) || BelowChild(location, elementPath, e, 0, |e.children|)
    ensures location != Location(path, fragment)
  {
    if OwnFragment(location, path, 0, fragment) {
      var m :| 0 <= m < fragment && location == Location(path, m);
      OwnFragmentsDiffer(path, m, fragment);
    } else {
      var i :| 0 <= i < |e.children| && Under(location, ChildPath(elementPath, e.children[i].tag, i));
    }
  }

  lemma {:induction false} ContentKeys(e: Element, elementPath: string, path: string, flow: Flow)
    requires PlainTags(e) && AtOrBelow(elementPath, path)
    ensures var after := ContentOf(e, elementPath, path, flow);
      Extends(flow, after) && Keyed(Added(flow, after), path, flow.fragment, after.fragment, elementPath, e, 0, |e.children|)
    decreases e, 1
  {
    ChildrenKeys(e, 0, elementPath, path, flow.(pieces := flow.pieces + e.text));
  }

  lemma {:induction false} ChildrenKeys(e: Element, i: nat, elementPath: string, path: string, flow: Flow)
    requires PlainTags(e) && AtOrBelow(elementPath, path) && i <= |e.children|
    ensures var after := ChildrenContent(e, i, elementPath, path, flow);
      Extends(flow, after) && Keyed(Added(flow, after), path, flow.fragment, after.fragment, elementPath, e, i, |e.children|)
    decreases e, 0, |e.children| - i
  {
    if i < |e.children| {
      var child := e.children[i];
      var childPath := ChildPath(elementPath, child.tag, i);
      var mid := ChildContent(child, childPath, path, flow);
      var begun := mid.(pieces := mid.pieces + child.tail);
      var after := ChildrenContent(e, i + 1, elementPath, path, begun);
      ChildKeys(child, childPath, elementPath, i, path, flow);
      ChildrenKeys(e, i + 1, elementPath, path, begun);
      assert Added(flow, after) == Added(flow, mid) + Added(begun, after);
      JoinKeys(Added(flow, mid), Added(begun, after), path, flow.fragment, mid.fragment, after.fragment, elementPath, e, i);
    }
  }

  /** A child's share and the share of the children after it have no location in common. */
  lemma JoinKeys(first: seq<Paragraph>, rest: seq<Paragraph>, path: string, from: nat, mid: nat, to: nat,
                 elementPath: string, e: Element, i: nat)
    requires PlainTags(e) && AtOrBelow(elementPath, path) && i < |e.children| && from <= mid <= to
    requires ChildKeyed(first, path, from, mid, ChildPath(elementPath, e.children[i].tag, i))
    requires Keyed(rest, path, mid, to, elementPath, e, i + 1, |e.children|)
    ensures Keyed(first + rest, path, from, to, elementPath, e, i, |e.children|)
  {
    var all := first + rest;
    forall k | 0 <= k < |all|
      ensures OwnFragment(all[k].location, path, from, to) || BelowChild(all[k].location, elementPath, e, i, |e.children|)
    {
      if k < |first| {
      } else {
      }
    }
    forall a, b | 0 <= a < |first| && 0 <= b < |rest| ensures first[a].location != rest[b].location {
      SharesAreApart(first[a].location, rest[b].location, path, from, mid, to, elementPath, e, i);
    }
  }

  lemma SharesAreApart(a: string, b: string, path: string, from: nat, mid: nat, to: nat, elementPath: string, e: Element, i: nat)
    requires PlainTags(e) && AtOrBelow(elementPath, path) && i < |e.children| && from <= mid <= to
    requires OwnFragment(a, path, from, mid) || Under(a, ChildPath(elementPath, e.children[i].tag, i))
    requires OwnFragment(b, path, mid, to) || BelowChild(b, elementPath, e, i + 1, |e.children|)
    ensures a != b
  {
    if OwnFragment(a, path, from, mid) {
      var m :| from <= m < mid && a == Location(path, m);
      if OwnFragment(b, path, mid, to) {
        var n :| mid <= n < to && b == Location(path, n);
        OwnFragmentsDiffer(path, m, n);
      } else {
        var j :| i + 1 <= j < |e.children| && Under(b, ChildPath(elementPath, e.children[j].tag, j));
      }
    } else if OwnFragment(b, path, mid, to) {
      var n :| mid <= n < to && b == Location(path, n);
    } else {
      var j :| i + 1 <= j < |e.children| && Under(b, ChildPath(elementPath, e.children[j].tag, j));
      assert PlainTags(e.children[i]) && PlainTags(e.children[j]);
      if a == b {
        SiblingsAreApart(a, elementPath, e.children[i].tag, i, e.children[j].tag, j);
      }
    }
  }

  lemma {:induction false} ChildKeys(child: Element, childPath: string, elementPath: string, i: nat, path: string, flow: Flow)
    requires PlainTags(child) && AtOrBelow(elementPath, path) && AtOrBelow(childPath, path)
    requires childPath == ChildPath(elementPath, child.tag, i)
    ensures var after := ChildContent(child, childPath, path, flow);
      Extends(flow, after) && ChildKeyed(Added(flow, after), path, flow.fragment, after.fragment, childPath)
    decreases child, 4
  {
    if Hidden(child) {
    } else if child.tag in BLOCKS {
      BlockChildKeys(child, childPath, elementPath, i, path, flow);
    } else if child.tag != "br" {
      ContentKeys(child, childPath, path, flow);
      var after := ContentOf(child, childPath, path, flow);
      var added := Added(flow, after);
      forall k | 0 <= k < |added| && !OwnFragment(added[k].location, path, flow.fragment, after.fragment)
        ensures Under(added[k].location, childPath)
      {
        var j :| 0 <= j < |child.children| && Under(added[k].location, ChildPath(childPath, child.children[j].tag, j));
        BelowIsUnder(added[k].location, childPath, child.children[j].tag, j);
      }
    }
  }

  lemma BlockChildKeys(child: Element, childPath: string, elementPath: string, i: nat, path: string, flow: Flow)
    requires PlainTags(child) && AtOrBelow(elementPath, path) && childPath == ChildPath(elementPath, child.tag, i)
    requires !Hidden(child) && child.tag in BLOCKS
    ensures var after := ChildContent(child, childPath, path, flow);
      Extends(flow, after) && ChildKeyed(Added(flow, after), path, flow.fragment, after.fragment, childPath)
    decreases child, 4, 0
  {
    WalkKeys(child, childPath);
    FlushKeys(flow, path, false);
    var flushed := Flushed(flow, path, false);
    var own, below := Added(flow, flushed), Walked(child, childPath);
    var after := ChildContent(child, childPath, path, flow);
    assert Added(flow, after) == own + below;
    if own != [] {
      forall k | 0 <= k < |below| ensures own[0].location != below[k].location {
        OwnIsNotBelow(below[k].location, path, flow.fragment, elementPath, child.tag, i);
      }
    }
    OwnThenBelow(own, below, path, flow.fragment, after.fragment, childPath);
  }

  lemma OwnIsNotBelow(location: string, path: string, fragment: nat, elementPath: string, tag: string, i: nat)
    requires AtOrBelow(elementPath, path) && Under(location, ChildPath(elementPath, tag, i))
    ensures location != Location(path, fragment)
  {
  }

  lemma OwnThenBelow(own: seq<Paragraph>, below: seq<Paragraph>, path: string, from: nat, to: nat, childPath: string)
    requires |own| <= 1 && Distinct(below)
    requires own != [] ==> own[0].location == Location(path, from) && from < to
    requires own != [] ==> forall k | 0 <= k < |below| :: own[0].location != below[k].location
    requires forall k | 0 <= k < |below| :: Under(below[k].location, childPath)
    ensures ChildKeyed(own + below, path, from, to, childPath)
  {
    var all := own + below;
    if own != [] {
      assert OwnFragment(own[0].location, path, from, to);
    }
    forall i, j | 0 <= i < j < |all| ensures all[i].location != all[j].location {
      assert all[j] == below[j - |own|];
    }
  }

  /** All location keys of a document are distinct, whatever the tree. */
  lemma KeysAreDistinct(root: Element)
    requires PlainTags(root)
    ensures Distinct(Extracted(root))
  {
    BodyIsPlain(root);
    WalkKeys(BodyOf(root), "body");
  }

  lemma {:induction false} BodyIsPlain(e: Element)
    requires PlainTags(e)
    ensures FirstBody(e).Some? ==> PlainTags(FirstBody(e).value)
    decreases e, 1
  {
    if e.tag != "body" {
      BodyFromIsPlain(e, 0);
    }
  }

  lemma {:induction false} BodyFromIsPlain(e: Element, i: nat)
    requires PlainTags(e) && i <= |e.children|
    ensures FirstBodyFrom(e, i).Some? ==> PlainTags(FirstBodyFrom(e, i).value)
    decreases e, 0, |e.children| - i
  {
    if i < |e.children| {
      BodyIsPlain(e.children[i]);
      BodyFromIsPlain(e, i + 1);
    }
  }
}
