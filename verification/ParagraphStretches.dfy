/** Which text of a document makes one paragraph, and under which number
    (scripts/epub_quality_audit.py:72-134). */
module ParagraphStretches {
  import opened Options
  import opened Strings
  import opened Numbers
  import opened Selection
  import opened Paragraphs

  // ----- which text makes one paragraph, and where -----

  /** A part of a block's content: visible text, or a block inside it, left whole. */
  datatype Item = Run(text: string) | Nested(block: Element, path: string)

  /** The content of an element in document order. */
  function Items(e: Element, path: string): seq<Item>
    decreases e, 1
  {
    [Run(e.text)] + ItemsFrom(e, 0, path)
  }

  /** What the children from `i` on add: nothing for a hidden one, a space for a line break; then the text behind each. */
  function ItemsFrom(e: Element, i: nat, path: string): seq<Item>
    requires i <= |e.children|
    decreases e, 0, |e.children| - i
  {
    if i == |e.children| then []
    else
      var child, childPath := e.children[i], ChildPath(path, e.children[i].tag, i);
      (if Hidden(child) then []
       else if child.tag in BLOCKS then [Nested(child, childPath)]
       else if child.tag == "br" then [Run(" ")]
       else Items(child, childPath)) + ([Run(child.tail)] + ItemsFrom(e, i + 1, path))
  }

  predicate IsNested(item: Item) {
    item.Nested?
  }

  /** The text of the runs from item `lo` up to item `hi`. */
  function RunText(items: seq<Item>, lo: nat, hi: nat): string {
    if lo < hi <= |items| then RunText(items, lo, hi - 1) + (if items[hi - 1].Run? then items[hi - 1].text else "") else ""
  }

  /** Where the stretch number `n` of a block begins and ends: behind the block inside it before, and at the next one. */
  function StretchBegin(nested: seq<nat>, n: nat): nat
    requires n <= |nested|
  {
    if n == 0 then 0 else nested[n - 1] + 1
  }

  function StretchEnd(items: seq<Item>, nested: seq<nat>, n: nat): nat
    requires n <= |nested|
  {
    if n < |nested| then nested[n] else |items|
  }

  /** The paragraph of one stretch, under its number: none if it is blank, unless it is all of a leaf block. */
  function StretchParagraph(items: seq<Item>, nested: seq<nat>, n: nat, path: string, leaf: bool): seq<Paragraph>
    requires n <= |nested|
  {
    var text := Normalized(RunText(items, StretchBegin(nested, n), StretchEnd(items, nested, n)));
    if text != "" || (leaf && nested == []) then [Paragraph(path + ("#" + Decimal(n)), text)] else []
  }

  /** The paragraphs of the block left whole at `k`. */
  function ParagraphsInside(items: seq<Item>, k: nat): seq<Paragraph> {
    if k < |items| && items[k].Nested? then Walked(items[k].block, items[k].path) else []
  }

  /** A stretch and then the block behind it. */
  function Share(items: seq<Item>, nested: seq<nat>, n: nat, path: string): seq<Paragraph>
    requires n < |nested|
  {
    StretchParagraph(items, nested, n, path, false) + ParagraphsInside(items, nested[n])
  }

  function Shares(items: seq<Item>, nested: seq<nat>, n: nat, path: string): seq<seq<Paragraph>>
    requires n <= |nested|
  {
    seq(n, k requires 0 <= k < n => Share(items, nested, k, path))
  }

  /** The first `n` stretches of a block, each followed by the paragraphs of the block behind it. */
  function Stretches(items: seq<Item>, nested: seq<nat>, n: nat, path: string): seq<Paragraph>
    requires n <= |nested|
  {
    Flatten(Shares(items, nested, n, path))
  }

  /** What the walk of a block does with each part of its content. */
  function Met(flow: Flow, item: Item, path: string): Flow {
    match item
    case Run(text) => flow.(pieces := flow.pieces + text)
    case Nested(block, blockPath) =>
      var flushed := Flushed(flow, path, false);
      flushed.(paragraphs := flushed.paragraphs + Walked(block, blockPath), hadBoundary := true)
  }

  function MetAll(flow: Flow, items: seq<Item>, path: string): Flow {
    if items == [] then flow else Met(MetAll(flow, items[..|items| - 1], path), items[|items| - 1], path)
  }

  lemma {:induction false} MetConcat(flow: Flow, a: seq<Item>, b: seq<Item>, path: string)
    ensures MetAll(flow, a + b, path) == MetAll(MetAll(flow, a, path), b, path)
  {
    if b == [] {
      assert a + b == a;
    } else {
      assert (a + b)[..|a + b| - 1] == a + b[..|b| - 1];
      MetConcat(flow, a, b[..|b| - 1], path);
    }
  }

  lemma MetOne(flow: Flow, item: Item, path: string)
    ensures MetAll(flow, [item], path) == Met(flow, item, path)
  {
    assert [item][..0] == [];
  }

  lemma {:induction false} ContentIsMet(e: Element, elementPath: string, path: string, flow: Flow)
    ensures ContentOf(e, elementPath, path, flow) == MetAll(flow, Items(e, elementPath), path)
    decreases e, 1
  {
    var run := Run(e.text);
    MetConcat(flow, [run], ItemsFrom(e, 0, elementPath), path);
    MetOne(flow, run, path);
    ChildrenAreMet(e, 0, elementPath, path, Met(flow, run, path));
  }

  lemma {:induction false} ChildrenAreMet(e: Element, i: nat, elementPath: string, path: string, flow: Flow)
    requires i <= |e.children|
    ensures ChildrenContent(e, i, elementPath, path, flow) == MetAll(flow, ItemsFrom(e, i, elementPath), path)
    decreases e, 0, |e.children| - i
  {
    if i < |e.children| {
      var child, childPath := e.children[i], ChildPath(elementPath, e.children[i].tag, i);
      var own := ChildIsMet(child, childPath, path, flow);
      var after, run, rest := ChildContent(child, childPath, path, flow), Run(child.tail), ItemsFrom(e, i + 1, elementPath);
      MetConcat(flow, own, [run] + rest, path);
      MetConcat(after, [run], rest, path);
      MetOne(after, run, path);
      ChildrenAreMet(e, i + 1, elementPath, path, Met(after, run, path));
    }
  }

  lemma {:induction false} ChildIsMet(child: Element, childPath: string, path: string, flow: Flow) returns (own: seq<Item>)
    ensures own == if Hidden(child) then [] else if child.tag in BLOCKS then [Nested(child, childPath)]
                   else if child.tag == "br" then [Run(" ")] else Items(child, childPath)
    ensures ChildContent(child, childPath, path, flow) == MetAll(flow, own, path)
    decreases child, 4
  {
    if Hidden(child) {
      own := [];
    } else if child.tag in BLOCKS {
      own := [Nested(child, childPath)];
      MetOne(flow, Nested(child, childPath), path);
    } else if child.tag == "br" {
      own := [Run(" ")];
      MetOne(flow, Run(" "), path);
    } else {
      own := Items(child, childPath);
      ContentIsMet(child, childPath, path, flow);
    }
  }

  ghost predicate FlowOf(flow: Flow, items: seq<Item>, nested: seq<nat>, path: string) {
    && PicksExactly(items, IsNested, nested) && StretchBegin(nested, |nested|) <= |items|
    && flow.fragment == |nested| && (flow.hadBoundary <==> nested != [])
    && flow.pieces == RunText(items, StretchBegin(nested, |nested|), |items|)
    && flow.paragraphs == Stretches(items, nested, |nested|, path)
  }

  lemma {:induction false} RunTextOfLonger(items: seq<Item>, item: Item, lo: nat, hi: nat)
    requires hi <= |items|
    ensures RunText(items + [item], lo, hi) == RunText(items, lo, hi)
  {
    if lo < hi {
      RunTextOfLonger(items, item, lo, hi - 1);
    }
  }

  lemma StretchOfLonger(items: seq<Item>, item: Item, nested: seq<nat>, more: seq<nat>, n: nat, path: string)
    requires n < |nested| && nested <= more && nested[n] < |items|
    ensures Share(items + [item], more, n, path) == Share(items, nested, n, path)
  {
    assert StretchBegin(more, n) == StretchBegin(nested, n);
    RunTextOfLonger(items, item, StretchBegin(nested, n), nested[n]);
  }

  lemma StretchesOfLonger(items: seq<Item>, item: Item, nested: seq<nat>, more: seq<nat>, n: nat, path: string)
    requires n <= |nested| && nested <= more && forall k | 0 <= k < |nested| :: nested[k] < |items|
    ensures Shares(items + [item], more, n, path) == Shares(items, nested, n, path)
  {
    var longer := items + [item];
    forall k: nat | k < n ensures Share(longer, more, k, path) == Share(items, nested, k, path) {
      StretchOfLonger(items, item, nested, more, k, path);
    }
  }

  lemma OneShareMore(items: seq<Item>, nested: seq<nat>, n: nat, path: string)
    requires n < |nested|
    ensures Stretches(items, nested, n + 1, path) == Stretches(items, nested, n, path) + Share(items, nested, n, path)
  {
    var share := Share(items, nested, n, path);
    assert Shares(items, nested, n + 1, path) == Shares(items, nested, n, path) + [share];
    FlattenConcat(Shares(items, nested, n, path), [share]);
    FlattenOne(share);
  }

  lemma NoNewPick(items: seq<Item>, nested: seq<nat>, item: Item)
    requires PicksExactly(items, IsNested, nested) && item.Run?
    ensures PicksExactly(items + [item], IsNested, nested)
  {
    PicksConcat(items, [item], IsNested, nested, []);
    assert nested + Shifted([], |items|) == nested;
  }

  lemma NewPick(items: seq<Item>, nested: seq<nat>, item: Item)
    requires PicksExactly(items, IsNested, nested) && item.Nested?
    ensures PicksExactly(items + [item], IsNested, nested + [|items|])
  {
    PicksConcat(items, [item], IsNested, nested, [0]);
    assert nested + [|items|] == nested + Shifted([0], |items|);
  }

  lemma PendingGrows(items: seq<Item>, item: Item, lo: nat)
    requires lo <= |items| && item.Run?
    ensures RunText(items + [item], lo, |items| + 1) == RunText(items, lo, |items|) + item.text
  {
    RunTextOfLonger(items, item, lo, |items|);
  }

  lemma RunMet(flow: Flow, items: seq<Item>, nested: seq<nat>, path: string, item: Item)
    requires FlowOf(flow, items, nested, path) && item.Run?
    ensures FlowOf(Met(flow, item, path), items + [item], nested, path)
  {
    NoNewPick(items, nested, item);
    PendingGrows(items, item, StretchBegin(nested, |nested|));
    StretchesStay(items, item, nested, nested, path);
  }

  lemma StretchesStay(items: seq<Item>, item: Item, nested: seq<nat>, more: seq<nat>, path: string)
    requires PicksExactly(items, IsNested, nested) && nested <= more
    ensures Stretches(items + [item], more, |nested|, path) == Stretches(items, nested, |nested|, path)
  {
    StretchesOfLonger(items, item, nested, more, |nested|, path);
  }

  /** What a flush makes of the text pending. */
  function FlushedText(pending: string, n: nat, path: string): seq<Paragraph> {
    if Normalized(pending) != "" then [Paragraph(path + ("#" + Decimal(n)), Normalized(pending))] else []
  }

  lemma ParagraphAtEnd(items: seq<Item>, nested: seq<nat>, path: string, item: Item)
    requires StretchBegin(nested, |nested|) <= |items|
    ensures StretchParagraph(items + [item], nested + [|items|], |nested|, path, false)
         == FlushedText(RunText(items, StretchBegin(nested, |nested|), |items|), |nested|, path)
  {
    var more, n := nested + [|items|], |nested|;
    assert StretchBegin(more, n) == StretchBegin(nested, n) && StretchEnd(items + [item], more, n) == |items|;
    RunTextOfLonger(items, item, StretchBegin(nested, n), |items|);
  }

  lemma InsideAtEnd(items: seq<Item>, item: Item)
    requires item.Nested?
    ensures ParagraphsInside(items + [item], |items|) == Walked(item.block, item.path)
  {
    assert (items + [item])[|items|] == item;
  }

  lemma ShareAtEnd(items: seq<Item>, nested: seq<nat>, path: string, item: Item)
    requires item.Nested? && StretchBegin(nested, |nested|) <= |items|
    ensures Share(items + [item], nested + [|items|], |nested|, path)
         == FlushedText(RunText(items, StretchBegin(nested, |nested|), |items|), |nested|, path) + Walked(item.block, item.path)
  {
    ParagraphAtEnd(items, nested, path, item);
    InsideAtEnd(items, item);
  }

  lemma MetAddsShare(flow: Flow, path: string, item: Item)
    requires item.Nested?
    ensures Met(flow, item, path)
         == Flow(flow.paragraphs + (FlushedText(flow.pieces, flow.fragment, path) + Walked(item.block, item.path)), "", flow.fragment + 1, true)
  {
    var own := FlushedText(flow.pieces, flow.fragment, path);
    assert Flushed(flow, path, false).paragraphs == flow.paragraphs + own;
    Regroup(flow.paragraphs, own, Walked(item.block, item.path));
  }

  lemma NestedMet(flow: Flow, items: seq<Item>, nested: seq<nat>, path: string, item: Item)
    requires FlowOf(flow, items, nested, path) && item.Nested?
    ensures FlowOf(Met(flow, item, path), items + [item], nested + [|items|], path)
  {
    NewPick(items, nested, item);
    StretchesStay(items, item, nested, nested + [|items|], path);
    OneShareMore(items + [item], nested + [|items|], |nested|, path);
    ShareAtEnd(items, nested, path, item);
    MetAddsShare(flow, path, item);
  }

  lemma {:induction false} FlowOfContent(items: seq<Item>, path: string) returns (nested: seq<nat>)
    ensures FlowOf(MetAll(Flow([], "", 0, false), items, path), items, nested, path)
  {
    nested := [];
    if items != [] {
      var front, last := items[..|items| - 1], items[|items| - 1];
      nested := FlowOfContent(front, path);
      assert front + [last] == items;
      if last.Run? {
        RunMet(MetAll(Flow([], "", 0, false), front, path), front, nested, path, last);
      } else {
        NestedMet(MetAll(Flow([], "", 0, false), front, path), front, nested, path, last);
        nested := nested + [|front|];
      }
    }
  }

  /** The paragraphs of a block, exactly: the visible text between two neighbouring block boundaries in it is one paragraph
      or is blank; its number is how many blocks inside stand before it, and theirs follow where they stand. */
  lemma BlockIsItsStretches(e: Element, path: string) returns (nested: seq<nat>)
    requires !Hidden(e)
    ensures var items := Items(e, path);
      && PicksExactly(items, IsNested, nested)
      && Walked(e, path) == Stretches(items, nested, |nested|, path)
                          + StretchParagraph(items, nested, |nested|, path, e.tag in LEAF_BLOCKS)
  {
    var start := Flow([], "", 0, false);
    ContentIsMet(e, path, path, start);
    nested := FlowOfContent(Items(e, path), path);
  }

  // ----- which element is read -----

  /** The element and all inside it, in document order. */
  function InOrder(e: Element): seq<Element>
    decreases e, 1
  {
    [e] + InOrderFrom(e, 0)
  }

  function InOrderFrom(e: Element, i: nat): seq<Element>
    requires i <= |e.children|
    decreases e, 0, |e.children| - i
  {
    if i == |e.children| then [] else InOrder(e.children[i]) + InOrderFrom(e, i + 1)
  }

  /** `found` is the first body among the elements. */
  ghost predicate IsFirstBody(elements: seq<Element>, found: Option<Element>) {
    match found
    case None => forall k | 0 <= k < |elements| :: elements[k].tag != "body"
    case Some(body) => exists k :: 0 <= k < |elements| && elements[k] == body && body.tag == "body" && NoBody(elements[..k])
  }

  ghost predicate NoBody(elements: seq<Element>) {
    forall k | 0 <= k < |elements| :: elements[k].tag != "body"
  }

  lemma FirstOfTwo(a: seq<Element>, foundA: Option<Element>, b: seq<Element>, foundB: Option<Element>)
    requires IsFirstBody(a, foundA) && IsFirstBody(b, foundB)
    ensures IsFirstBody(a + b, if foundA.Some? then foundA else foundB)
  {
    var all := a + b;
    if foundA.Some? {
      var k :| 0 <= k < |a| && a[k] == foundA.value && foundA.value.tag == "body" && NoBody(a[..k]);
      assert all[k] == a[k] && all[..k] == a[..k];
    } else if foundB.Some? {
      var k :| 0 <= k < |b| && b[k] == foundB.value && foundB.value.tag == "body" && NoBody(b[..k]);
      var at := |a| + k;
      assert all[at] == b[k] && all[..at] == a + b[..k];
    }
  }

  /** What is read is the first body in document order, or the whole document when it has none. */
  lemma {:induction false} FirstBodyIsFirst(e: Element)
    ensures IsFirstBody(InOrder(e), FirstBody(e))
    decreases e, 1
  {
    if e.tag == "body" {
      assert InOrder(e)[0] == e && InOrder(e)[..0] == [];
    } else {
      FirstBodyFromIsFirst(e, 0);
      FirstOfTwo([e], None, InOrderFrom(e, 0), FirstBodyFrom(e, 0));
    }
  }

  lemma {:induction false} FirstBodyFromIsFirst(e: Element, i: nat)
    requires i <= |e.children|
    ensures IsFirstBody(InOrderFrom(e, i), FirstBodyFrom(e, i))
    decreases e, 0, |e.children| - i
  {
    if i < |e.children| {
      FirstBodyIsFirst(e.children[i]);
      FirstBodyFromIsFirst(e, i + 1);
      FirstOfTwo(InOrder(e.children[i]), FirstBody(e.children[i]), InOrderFrom(e, i + 1), FirstBodyFrom(e, i + 1));
    }
  }

  /** The paragraphs of a document are those of its first body, or of the whole when it has none, under "body". */
  lemma ExtractedFrom(root: Element) returns (body: Element, nested: seq<nat>)
    ensures IsFirstBody(InOrder(root), Some(body)) || (IsFirstBody(InOrder(root), None) && body == root)
    ensures var items := Items(body, "body");
      && PicksExactly(items, IsNested, nested)
      && Extracted(root) == if Hidden(body) then []
           else Stretches(items, nested, |nested|, "body") + StretchParagraph(items, nested, |nested|, "body", body.tag in LEAF_BLOCKS)
  {
    body := BodyOf(root);
    FirstBodyIsFirst(root);
    if Hidden(body) {
      nested := FlowOfContent(Items(body, "body"), "body");
    } else {
      nested := BlockIsItsStretches(body, "body");
    }
  }
}
