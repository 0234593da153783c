/** The visible paragraphs of an XHTML document, each under its own location key
    (scripts/epub_quality_audit.py:26-32, 66-134). */
module Paragraphs {
  import opened Options
  import opened Strings
  import opened Numbers
  import opened LongUnits

  const BLOCKS: set<string> := {
    "address", "article", "aside", "blockquote", "body", "caption", "dd", "div", "dl", "dt", "figcaption", "figure",
    "footer", "h1", "h2", "h3", "h4", "h5", "h6", "header", "hr", "li", "main", "nav", "ol", "p", "pre", "section", "table",
    "tbody", "td", "tfoot", "th", "thead", "tr", "ul"
  }

  const LEAF_BLOCKS: set<string> := {
    "caption", "dd", "dt", "figcaption", "h1", "h2", "h3", "h4", "h5", "h6", "li", "p", "pre", "td", "th"
  }

  const EXCLUDED: set<string> := {"head", "script", "style", "template"}

  /** An element with its local name, its own text, its children and the text behind it; `concealed` when a `hidden`
      attribute or its inline style hides it. */
  datatype Element = Element(tag: string, concealed: bool, text: string, children: seq<Element>, tail: string)

  datatype Paragraph = Paragraph(location: string, text: string)

  predicate Hidden(e: Element) {
    e.tag in EXCLUDED || e.concealed
  }

  /** Single spaces between words, none at the ends. */
  function Normalized(text: string): string {
    JoinWith(Words(text), " ")
  }

  // ----- the visible text of the document, in document order -----

  function Inside(e: Element): string
    decreases e, 2
  {
    if Hidden(e) then "" else if e.tag !in BLOCKS && e.tag == "br" then " " else Text(e)
  }

  function Text(e: Element): string
    decreases e, 1
  {
    e.text + ChildrenText(e, 0)
  }

  /** The visible text of the children from `i` on, with the text behind each of them, hidden ones included. */
  function ChildrenText(e: Element, i: nat): string
    requires i <= |e.children|
    decreases e, 0, |e.children| - i
  {
    if i == |e.children| then "" else Inside(e.children[i]) + e.children[i].tail + ChildrenText(e, i + 1)
  }

  function Visible(body: Element): string {
    if Hidden(body) then "" else Text(body)
  }

  // ----- collecting paragraphs -----

  function Location(path: string, fragment: nat): string {
    path + ("#" + Decimal(fragment))
  }

  function ChildPath(path: string, tag: string, i: nat): string {
    path + ("/" + (tag + ("[" + (Decimal(i) + "]"))))
  }

  /** The state of one block's walk: paragraphs so far, text pending, next fragment number, whether a block was inside. */
  datatype Flow = Flow(paragraphs: seq<Paragraph>, pieces: string, fragment: nat, hadBoundary: bool)

  function Flushed(flow: Flow, path: string, keepEmpty: bool): Flow {
    var text := Normalized(flow.pieces);
    flow.(paragraphs := if text != "" || keepEmpty then flow.paragraphs + [Paragraph(Location(path, flow.fragment), text)] else flow.paragraphs,
          fragment := flow.fragment + 1, pieces := "")
  }

  function Walked(e: Element, path: string): seq<Paragraph>
    decreases e, 3
  {
    if Hidden(e) then []
    else
      var flow := ContentOf(e, path, path, Flow([], "", 0, false));
      Flushed(flow, path, !flow.hadBoundary && e.tag in LEAF_BLOCKS).paragraphs
  }

  function ContentOf(e: Element, elementPath: string, path: string, flow: Flow): Flow
    decreases e, 1
  {
    ChildrenContent(e, 0, elementPath, path, flow.(pieces := flow.pieces + e.text))
  }

  function ChildrenContent(e: Element, i: nat, elementPath: string, path: string, flow: Flow): Flow
    requires i <= |e.children|
    decreases e, 0, |e.children| - i
  {
    if i == |e.children| then flow
    else
      var after := ChildContent(e.children[i], ChildPath(elementPath, e.children[i].tag, i), path, flow);
      ChildrenContent(e, i + 1, elementPath, path, after.(pieces := after.pieces + e.children[i].tail))
  }

  function ChildContent(child: Element, childPath: string, path: string, flow: Flow): Flow
    decreases child, 4
  {
    if Hidden(child) then flow
    else if child.tag in BLOCKS then
      var flushed := Flushed(flow, path, false);
      flushed.(paragraphs := flushed.paragraphs + Walked(child, childPath), hadBoundary := true)
    else if child.tag == "br" then flow.(pieces := flow.pieces + " ")
    else ContentOf(child, childPath, path, flow)
  }

  /** The first body in document order. */
  function FirstBody(e: Element): Option<Element>
    decreases e, 1
  {
    if e.tag == "body" then Some(e) else FirstBodyFrom(e, 0)
  }

  function FirstBodyFrom(e: Element, i: nat): Option<Element>
    requires i <= |e.children|
    decreases e, 0, |e.children| - i
  {
    if i == |e.children| then None
    else if FirstBody(e.children[i]).Some? then FirstBody(e.children[i])
    else FirstBodyFrom(e, i + 1)
  }

  function BodyOf(root: Element): Element {
    var body := FirstBody(root);
    if body.Some? then body.value else root
  }

  function Extracted(root: Element): seq<Paragraph> {
    Walked(BodyOf(root), "body")
  }

  // ----- the walk itself: shared paragraphs, and a state per block that its content updates -----

  class Extractor {
    var paragraphs: seq<Paragraph>

    constructor ()
      ensures paragraphs == []
    {
      paragraphs := [];
    }

    method Walk(node: Element, path: string)
      modifies this
      ensures paragraphs == old(paragraphs) + Walked(node, path)
      decreases node, 3
    {
      if Hidden(node) {
        return;
      }
      var block := new BlockWalk(this, path);
      block.Content(node, path);
      block.Flush(!block.hadBoundary && node.tag in LEAF_BLOCKS);
    }
  }

  class BlockWalk {
    const extractor: Extractor
    const path: string
    var pieces: string
    var fragment: nat
    var hadBoundary: bool
    /** The paragraphs collected before this block. */
    ghost const before: seq<Paragraph>

    /** The state as a value: this block's paragraphs are what was collected since. */
    ghost function State(): Flow
      reads this, extractor
    {
      Flow(if before <= extractor.paragraphs then extractor.paragraphs[|before|..] else [], pieces, fragment, hadBoundary)
    }

    ghost predicate Valid()
      reads this, extractor
    {
      before <= extractor.paragraphs
    }

    constructor (extractor: Extractor, path: string)
      ensures Valid() && this.extractor == extractor && this.path == path
      ensures before == extractor.paragraphs
      ensures State() == Flow([], "", 0, false)
    {
      this.extractor := extractor;
      this.path := path;
      this.before := extractor.paragraphs;
      pieces := "";
      fragment := 0;
      hadBoundary := false;
    }

    method Flush(keepEmpty: bool)
      requires Valid()
      modifies this, extractor
      ensures Valid() && State() == Flushed(old(State()), path, keepEmpty)
      ensures extractor.paragraphs == before + State().paragraphs
    {
      var text := Normalized(pieces);
      if text != "" || keepEmpty {
        extractor.paragraphs := extractor.paragraphs + [Paragraph(Location(path, fragment), text)];
      }
      fragment := fragment + 1;
      pieces := "";
    }

    method Content(element: Element, elementPath: string)
      requires Valid()
      modifies this, extractor
      ensures Valid() && State() == ContentOf(element, elementPath, path, old(State()))
      decreases element, 1
    {
      ghost var whole := ContentOf(element, elementPath, path, State());
      pieces := pieces + element.text;
      for index := 0 to |element.children|
        invariant Valid() && ChildrenContent(element, index, elementPath, path, State()) == whole
      {
        var child := element.children[index];
        Child(child, ChildPath(elementPath, child.tag, index));
        pieces := pieces + child.tail;
      }
    }

    method Child(child: Element, childPath: string)
      requires Valid()
      modifies this, extractor
      ensures Valid() && State() == ChildContent(child, childPath, path, old(State()))
      decreases child, 4
    {
      if Hidden(child) {
        return;
      }
      if child.tag in BLOCKS {
        hadBoundary := true;
        Flush(false);
        extractor.Walk(child, childPath);
      } else if child.tag == "br" {
        pieces := pieces + " ";
      } else {
        Content(child, childPath);
      }
    }
  }

  method ExtractParagraphs(root: Element) returns (paragraphs: seq<Paragraph>)
    ensures paragraphs == Extracted(root)
  {
    var extractor := new Extractor();
    extractor.Walk(BodyOf(root), "body");
    return extractor.paragraphs;
  }

  // ----- every visible character is collected once, in order -----

  function Texts(paragraphs: seq<Paragraph>): seq<string> {
    if paragraphs == [] then [] else [paragraphs[0].text] + Texts(paragraphs[1..])
  }

  /** The visible characters collected so far. */
  function Collected(paragraphs: seq<Paragraph>): string {
    NonBlank(Flatten(Texts(paragraphs)))
  }

  function Gathered(flow: Flow): string {
    Collected(flow.paragraphs) + NonBlank(flow.pieces)
  }

  lemma {:induction false} TextsConcat(a: seq<Paragraph>, b: seq<Paragraph>)
    ensures Texts(a + b) == Texts(a) + Texts(b)
  {
    if a == [] {
      assert a + b == b;
    } else {
      assert (a + b)[1..] == a[1..] + b;
      TextsConcat(a[1..], b);
    }
  }

  lemma CollectedConcat(a: seq<Paragraph>, b: seq<Paragraph>)
    ensures Collected(a + b) == Collected(a) + Collected(b)
  {
    TextsConcat(a, b);
    NonBlankFlattenConcat(Texts(a), Texts(b));
  }

  lemma FlushGathers(flow: Flow, path: string, keepEmpty: bool)
    ensures Collected(Flushed(flow, path, keepEmpty).paragraphs) == Gathered(flow)
    ensures Gathered(Flushed(flow, path, keepEmpty)) == Gathered(flow)
  {
    var text := Normalized(flow.pieces);
    var paragraph := Paragraph(Location(path, flow.fragment), text);
    CollapsedIsOneLine(flow.pieces);
    CollectedConcat(flow.paragraphs, [paragraph]);
    assert Texts([paragraph]) == [text];
    FlattenOne(text);
  }

  lemma {:induction false} WalkGathers(e: Element, path: string)
    ensures Collected(Walked(e, path)) == NonBlank(Visible(e))
    decreases e, 3
  {
    if !Hidden(e) {
      var start := Flow([], "", 0, false);
      ContentGathers(e, path, path, start);
      var flow := ContentOf(e, path, path, start);
      FlushGathers(flow, path, !flow.hadBoundary && e.tag in LEAF_BLOCKS);
      assert Gathered(start) == "";
    }
  }

  lemma {:induction false} ContentGathers(e: Element, elementPath: string, path: string, flow: Flow)
    ensures Gathered(ContentOf(e, elementPath, path, flow)) == Gathered(flow) + NonBlank(Text(e))
    decreases e, 1
  {
    var begun := flow.(pieces := flow.pieces + e.text);
    ChildrenGather(e, 0, elementPath, path, begun);
    MorePieces(flow, e.text);
    NonBlankConcat(e.text, ChildrenText(e, 0));
    Regroup(Gathered(flow), NonBlank(e.text), NonBlank(ChildrenText(e, 0)));
  }

  lemma MorePieces(flow: Flow, text: string)
    ensures Gathered(flow.(pieces := flow.pieces + text)) == Gathered(flow) + NonBlank(text)
  {
    NonBlankConcat(flow.pieces, text);
    Regroup(Collected(flow.paragraphs), NonBlank(flow.pieces), NonBlank(text));
  }

  lemma {:induction false} ChildrenGather(e: Element, i: nat, elementPath: string, path: string, flow: Flow)
    requires i <= |e.children|
    ensures Gathered(ChildrenContent(e, i, elementPath, path, flow)) == Gathered(flow) + NonBlank(ChildrenText(e, i))
    decreases e, 0, |e.children| - i
  {
    if i < |e.children| {
      var child := e.children[i];
      var after := ChildContent(child, ChildPath(elementPath, child.tag, i), path, flow);
      ChildGathers(child, ChildPath(elementPath, child.tag, i), path, flow);
      MorePieces(after, child.tail);
      ChildrenGather(e, i + 1, elementPath, path, after.(pieces := after.pieces + child.tail));
      NonBlankOfThree(Inside(child), child.tail, ChildrenText(e, i + 1));
      RegroupFour(Gathered(flow), NonBlank(Inside(child)), NonBlank(child.tail), NonBlank(ChildrenText(e, i + 1)));
    } else {
      assert Gathered(flow) + "" == Gathered(flow);
    }
  }

  lemma NonBlankOfThree(a: string, b: string, c: string)
    ensures NonBlank(a + b + c) == NonBlank(a) + NonBlank(b) + NonBlank(c)
  {
    NonBlankConcat(a + b, c);
    NonBlankConcat(a, b);
  }

  lemma RegroupFour(a: string, b: string, c: string, d: string)
    ensures a + b + c + d == a + (b + c + d)
  {
  }

  lemma {:induction false} ChildGathers(child: Element, childPath: string, path: string, flow: Flow)
    ensures Gathered(ChildContent(child, childPath, path, flow)) == Gathered(flow) + NonBlank(Inside(child))
    decreases child, 4
  {
    if Hidden(child) {
      assert Gathered(flow) + "" == Gathered(flow);
    } else if child.tag in BLOCKS {
      WalkGathers(child, childPath);
      var flushed := Flushed(flow, path, false);
      FlushGathers(flow, path, false);
      CollectedConcat(flushed.paragraphs, Walked(child, childPath));
    } else if child.tag == "br" {
      MorePieces(flow, " ");
    } else {
      ContentGathers(child, childPath, path, flow);
    }
  }

  /** Up to whitespace, the paragraphs in order are the document's visible text: nothing twice, nothing lost, the text
      behind hidden and block children included. */
  lemma ParagraphsAreTheVisibleText(root: Element)
    ensures Collected(Extracted(root)) == NonBlank(Visible(BodyOf(root)))
  {
    WalkGathers(BodyOf(root), "body");
  }
}
