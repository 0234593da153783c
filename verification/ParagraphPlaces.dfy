/** Where each piece of a document's text is collected: the location keys depend on the shape of the document alone
    (scripts/epub_quality_audit.py:82-134). */
module ParagraphPlaces {
  import opened Options
  import opened Strings
  import opened LongUnits
  import Packing
  import opened Paragraphs

  // ----- two documents of one shape -----

  /** The same elements in the same places, hidden alike; only their texts may differ. */
  predicate SameShape(a: Element, b: Element) {
    && a.tag == b.tag && a.concealed == b.concealed && |a.children| == |b.children|
    && forall i | 0 <= i < |a.children| :: SameShape(a.children[i], b.children[i])
  }

  predicate IsBreak(e: Element) {
    e.tag !in BLOCKS && e.tag == "br"
  }

  type Relation = (string, string) -> bool

  /** The visible runs of text inside `a` are related to those at the same places inside `b`. */
  ghost predicate RunsRelated(related: Relation, a: Element, b: Element) {
    && related(a.text, b.text) && |a.children| == |b.children|
    && forall i | 0 <= i < |a.children| ::
         && related(a.children[i].tail, b.children[i].tail)
         && (Hidden(a.children[i]) || IsBreak(a.children[i]) || RunsRelated(related, a.children[i], b.children[i]))
  }

  /** Runs related one by one are related when put together. */
  ghost predicate Composes(related: Relation) {
    && related("", "") && related(" ", " ")
    && forall a, b, c, d | related(a, b) && related(c, d) :: related(a + c, b + d)
  }

  /** One flush in both documents: what it finds pending in each. */
  datatype Pair = Pair(location: string, first: string, second: string, keepEmpty: bool)

  function Emitted(location: string, pending: string, keepEmpty: bool): seq<Paragraph> {
    if Normalized(pending) != "" || keepEmpty then [Paragraph(location, Normalized(pending))] else []
  }

  function FirstOf(pairs: seq<Pair>): seq<Paragraph> {
    if pairs == [] then []
    else FirstOf(pairs[..|pairs| - 1]) + Emitted(pairs[|pairs| - 1].location, pairs[|pairs| - 1].first, pairs[|pairs| - 1].keepEmpty)
  }

  function SecondOf(pairs: seq<Pair>): seq<Paragraph> {
    if pairs == [] then []
    else SecondOf(pairs[..|pairs| - 1]) + Emitted(pairs[|pairs| - 1].location, pairs[|pairs| - 1].second, pairs[|pairs| - 1].keepEmpty)
  }

  ghost predicate AllRelated(related: Relation, pairs: seq<Pair>) {
    forall k | 0 <= k < |pairs| :: related(pairs[k].first, pairs[k].second)
  }

  lemma {:induction false} PairsConcat(a: seq<Pair>, b: seq<Pair>)
    ensures FirstOf(a + b) == FirstOf(a) + FirstOf(b) && SecondOf(a + b) == SecondOf(a) + SecondOf(b)
  {
    if b == [] {
      assert a + b == a;
    } else {
      var n := |b| - 1;
      assert (a + b)[..|a + b| - 1] == a + b[..n] && (a + b)[|a + b| - 1] == b[n];
      PairsConcat(a, b[..n]);
      Regroup(FirstOf(a), FirstOf(b[..n]), Emitted(b[n].location, b[n].first, b[n].keepEmpty));
      Regroup(SecondOf(a), SecondOf(b[..n]), Emitted(b[n].location, b[n].second, b[n].keepEmpty));
    }
  }

  /** Both walks have come equally far: the same flushes behind them, related text pending. */
  ghost predicate Abreast(related: Relation, f: Flow, g: Flow, pairs: seq<Pair>) {
    && f.paragraphs == FirstOf(pairs) && g.paragraphs == SecondOf(pairs) && AllRelated(related, pairs)
    && f.fragment == g.fragment && f.hadBoundary == g.hadBoundary && related(f.pieces, g.pieces)
  }

  lemma MoreText(related: Relation, f: Flow, g: Flow, pairs: seq<Pair>, x: string, y: string)
    requires Composes(related) && Abreast(related, f, g, pairs) && related(x, y)
    ensures Abreast(related, f.(pieces := f.pieces + x), g.(pieces := g.pieces + y), pairs)
  {
  }

  lemma FlushBoth(related: Relation, f: Flow, g: Flow, pairs: seq<Pair>, path: string, keepEmpty: bool) returns (more: seq<Pair>)
    requires Composes(related) && Abreast(related, f, g, pairs)
    ensures Abreast(related, Flushed(f, path, keepEmpty), Flushed(g, path, keepEmpty), more)
  {
    var pair := Pair(Location(path, f.fragment), f.pieces, g.pieces, keepEmpty);
    more := pairs + [pair];
    assert more[..|pairs|] == pairs;
  }

  lemma {:induction false} WalkBoth(related: Relation, a: Element, b: Element, path: string) returns (pairs: seq<Pair>)
    requires Composes(related) && SameShape(a, b) && (Hidden(a) || RunsRelated(related, a, b))
    ensures Walked(a, path) == FirstOf(pairs) && Walked(b, path) == SecondOf(pairs) && AllRelated(related, pairs)
    decreases a, 3
  {
    pairs := [];
    if !Hidden(a) {
      var start := Flow([], "", 0, false);
      pairs := ContentBoth(related, a, b, path, path, start, start, []);
      var f, g := ContentOf(a, path, path, start), ContentOf(b, path, path, start);
      pairs := FlushBoth(related, f, g, pairs, path, !f.hadBoundary && a.tag in LEAF_BLOCKS);
    }
  }

  lemma {:induction false} ContentBoth(related: Relation, a: Element, b: Element, elementPath: string, path: string,
                                       f: Flow, g: Flow, pairs: seq<Pair>)
    returns (more: seq<Pair>)
    requires Composes(related) && SameShape(a, b) && RunsRelated(related, a, b) && Abreast(related, f, g, pairs)
    ensures Abreast(related, ContentOf(a, elementPath, path, f), ContentOf(b, elementPath, path, g), more)
    decreases a, 1
  {
    MoreText(related, f, g, pairs, a.text, b.text);
    more := ChildrenBoth(related, a, b, 0, elementPath, path, f.(pieces := f.pieces + a.text), g.(pieces := g.pieces + b.text), pairs);
  }

  lemma {:induction false} ChildrenBoth(related: Relation, a: Element, b: Element, i: nat, elementPath: string, path: string,
                                        f: Flow, g: Flow, pairs: seq<Pair>)
    returns (more: seq<Pair>)
    requires Composes(related) && SameShape(a, b) && RunsRelated(related, a, b) && i <= |a.children| && Abreast(related, f, g, pairs)
    ensures Abreast(related, ChildrenContent(a, i, elementPath, path, f), ChildrenContent(b, i, elementPath, path, g), more)
    decreases a, 0, |a.children| - i
  {
    more := pairs;
    if i < |a.children| {
      var c, d := a.children[i], b.children[i];
      var childPath := ChildPath(elementPath, c.tag, i);
      more := ChildBoth(related, c, d, childPath, path, f, g, pairs);
      var f1, g1 := ChildContent(c, childPath, path, f), ChildContent(d, childPath, path, g);
      MoreText(related, f1, g1, more, c.tail, d.tail);
      more := ChildrenBoth(related, a, b, i + 1, elementPath, path, f1.(pieces := f1.pieces + c.tail), g1.(pieces := g1.pieces + d.tail), more);
    }
  }

  /** A block child: a flush, then its own paragraphs. */
  lemma BlockBoth(related: Relation, f: Flow, g: Flow, pairs: seq<Pair>, path: string,
                  first: seq<Paragraph>, second: seq<Paragraph>, below: seq<Pair>)
    returns (more: seq<Pair>)
    requires Composes(related) && Abreast(related, f, g, pairs)
    requires first == FirstOf(below) && second == SecondOf(below) && AllRelated(related, below)
    ensures var f1, g1 := Flushed(f, path, false), Flushed(g, path, false);
      Abreast(related, f1.(paragraphs := f1.paragraphs + first, hadBoundary := true),
              g1.(paragraphs := g1.paragraphs + second, hadBoundary := true), more)
  {
    var flushed := FlushBoth(related, f, g, pairs, path, false);
    PairsConcat(flushed, below);
    more := flushed + below;
  }

  lemma {:induction false} ChildBoth(related: Relation, c: Element, d: Element, childPath: string, path: string,
                                     f: Flow, g: Flow, pairs: seq<Pair>)
    returns (more: seq<Pair>)
    requires Composes(related) && SameShape(c, d) && Abreast(related, f, g, pairs)
    requires Hidden(c) || IsBreak(c) || RunsRelated(related, c, d)
    ensures Abreast(related, ChildContent(c, childPath, path, f), ChildContent(d, childPath, path, g), more)
    decreases c, 4
  {
    more := pairs;
    if Hidden(c) {
    } else if c.tag in BLOCKS {
      var below := WalkBoth(related, c, d, childPath);
      more := BlockBoth(related, f, g, pairs, path, Walked(c, childPath), Walked(d, childPath), below);
    } else if c.tag == "br" {
      MoreText(related, f, g, pairs, " ", " ");
    } else {
      more := ContentBoth(related, c, d, childPath, path, f, g, pairs);
    }
  }

  // ----- the first body of both -----

  lemma {:induction false} SameFirstBody(a: Element, b: Element)
    requires SameShape(a, b)
    ensures FirstBody(a).Some? <==> FirstBody(b).Some?
    ensures FirstBody(a).Some? ==> SameShape(FirstBody(a).value, FirstBody(b).value)
    decreases a, 1
  {
    if a.tag != "body" {
      SameFirstBodyFrom(a, b, 0);
    }
  }

  lemma {:induction false} SameFirstBodyFrom(a: Element, b: Element, i: nat)
    requires SameShape(a, b) && i <= |a.children|
    ensures FirstBodyFrom(a, i).Some? <==> FirstBodyFrom(b, i).Some?
    ensures FirstBodyFrom(a, i).Some? ==> SameShape(FirstBodyFrom(a, i).value, FirstBodyFrom(b, i).value)
    decreases a, 0, |a.children| - i
  {
    if i < |a.children| {
      SameFirstBody(a.children[i], b.children[i]);
      SameFirstBodyFrom(a, b, i + 1);
    }
  }

  lemma ExtractBoth(related: Relation, a: Element, b: Element) returns (pairs: seq<Pair>)
    requires Composes(related) && SameShape(a, b) && RunsRelated(related, BodyOf(a), BodyOf(b))
    ensures Extracted(a) == FirstOf(pairs) && Extracted(b) == SecondOf(pairs) && AllRelated(related, pairs)
  {
    SameFirstBody(a, b);
    pairs := WalkBoth(related, BodyOf(a), BodyOf(b), "body");
  }

  // ----- deleting text moves no location -----

  /** Where the first run shows text, so does the second. */
  predicate ShowsToo(x: string, y: string) {
    !Blank(x) ==> !Blank(y)
  }

  lemma BlankConcat(a: string, b: string)
    ensures Blank(a + b) <==> Blank(a) && Blank(b)
  {
    var s := a + b;
    assert forall k | 0 <= k < |b| :: s[|a| + k] == b[k];
    assert forall k | 0 <= k < |a| :: s[k] == a[k];
  }

  lemma ShowsTooComposes()
    ensures Composes(ShowsToo)
  {
    forall a, b, c, d | ShowsToo(a, b) && ShowsToo(c, d) ensures ShowsToo(a + c, b + d) {
      BlankConcat(a, c);
      BlankConcat(b, d);
    }
  }

  lemma FlattenShows(words: seq<string>)
    requires Packing.NoEmpty(words)
    ensures words != [] ==> Flatten(words) != ""
  {
    if words != [] {
      assert words[0] != "";
    }
  }

  lemma NormalizedShows(text: string)
    ensures Normalized(text) != "" <==> !Blank(text)
  {
    CollapsedIsOneLine(text);
    if Normalized(text) == "" {
      BlankIfNoNonBlank(text);
    }
    if Blank(text) {
      NonBlankOfBlank(text);
      WordsKeepText(text, "");
      WordsNotEmpty(text, "");
      FlattenShows(Words(text));
    }
  }

  /** The locations of `first` are among those of `second`, in order: `places` says which. */
  ghost predicate FoundAt(first: seq<Paragraph>, second: seq<Paragraph>, places: seq<nat>) {
    && |places| == |first|
    && (forall i, j | 0 <= i < j < |places| :: places[i] < places[j])
    && forall i | 0 <= i < |places| :: places[i] < |second| && second[places[i]].location == first[i].location
  }

  lemma OneMoreFound(first: seq<Paragraph>, second: seq<Paragraph>, places: seq<nat>, pair: Pair) returns (more: seq<nat>)
    requires FoundAt(first, second, places) && ShowsToo(pair.first, pair.second)
    ensures FoundAt(first + Emitted(pair.location, pair.first, pair.keepEmpty),
                    second + Emitted(pair.location, pair.second, pair.keepEmpty), more)
  {
    var one, other := Emitted(pair.location, pair.first, pair.keepEmpty), Emitted(pair.location, pair.second, pair.keepEmpty);
    NormalizedShows(pair.first);
    NormalizedShows(pair.second);
    assert one != [] ==> other != [] && one[0].location == other[0].location;
    more := if one == [] then places else places + [|second|];
    LongerFound(first, second, places, one, other);
  }

  lemma LongerFound(first: seq<Paragraph>, second: seq<Paragraph>, places: seq<nat>, one: seq<Paragraph>, other: seq<Paragraph>)
    requires FoundAt(first, second, places) && |one| <= 1
    requires one != [] ==> other != [] && one[0].location == other[0].location
    ensures FoundAt(first + one, second + other, if one == [] then places else places + [|second|])
  {
    if one == [] {
      assert first + one == first;
    }
  }

  lemma {:induction false} FirstAmongSecond(pairs: seq<Pair>) returns (places: seq<nat>)
    requires AllRelated(ShowsToo, pairs)
    ensures FoundAt(FirstOf(pairs), SecondOf(pairs), places)
  {
    places := [];
    if pairs != [] {
      var front, last := pairs[..|pairs| - 1], pairs[|pairs| - 1];
      places := FirstAmongSecond(front);
      assert ShowsToo(last.first, last.second);
      places := OneMoreFound(FirstOf(front), SecondOf(front), places, last);
    }
  }

  /** Of two documents of one shape, if the second shows text wherever the first does, the first's locations are the
      second's with some left out: nothing that is deleted shifts the location of what stays. */
  lemma DeletingKeepsLocations(a: Element, b: Element) returns (places: seq<nat>)
    requires SameShape(a, b) && RunsRelated(ShowsToo, BodyOf(a), BodyOf(b))
    ensures FoundAt(Extracted(a), Extracted(b), places)
  {
    ShowsTooComposes();
    var pairs := ExtractBoth(ShowsToo, a, b);
    places := FirstAmongSecond(pairs);
  }

  /** The locations of the paragraphs that hold a given character. */
  function LocationsWith(ch: char, paragraphs: seq<Paragraph>): seq<string> {
    if paragraphs == [] then [] else
      var n := |paragraphs| - 1;
      var last := if ch in paragraphs[n].text then [paragraphs[n].location] else [];
      LocationsWith(ch, paragraphs[..n]) + last
  }

  /** Both runs hold the character or neither does. */
  function HoldAlike(ch: char): Relation {
    (x: string, y: string) => ch in x <==> ch in y
  }

  lemma HoldAlikeComposes(ch: char)
    ensures Composes(HoldAlike(ch))
  {
  }

  lemma {:induction false} VisibleStays(ch: char, s: string)
    requires !IsWhitespace(ch)
    ensures ch in NonBlank(s) <==> ch in s
  {
    if s != "" {
      VisibleStays(ch, s[1..]);
      assert s == [s[0]] + s[1..];
    }
  }

  lemma NormalizedHolds(ch: char, text: string)
    requires !IsWhitespace(ch)
    ensures ch in Normalized(text) <==> ch in text
  {
    CollapsedIsOneLine(text);
    VisibleStays(ch, text);
    VisibleStays(ch, Normalized(text));
  }

  lemma {:induction false} SameLocationsWith(ch: char, pairs: seq<Pair>)
    requires !IsWhitespace(ch) && AllRelated(HoldAlike(ch), pairs)
    ensures LocationsWith(ch, FirstOf(pairs)) == LocationsWith(ch, SecondOf(pairs))
  {
    if pairs != [] {
      var n := |pairs| - 1;
      var pair := pairs[n];
      SameLocationsWith(ch, pairs[..n]);
      NormalizedHolds(ch, pair.first);
      NormalizedHolds(ch, pair.second);
      assert HoldAlike(ch)(pair.first, pair.second);
      LocationsOfLast(ch, FirstOf(pairs[..n]), pair.location, pair.first, pair.keepEmpty);
      LocationsOfLast(ch, SecondOf(pairs[..n]), pair.location, pair.second, pair.keepEmpty);
    }
  }

  lemma LocationsOfLast(ch: char, paragraphs: seq<Paragraph>, location: string, pending: string, keepEmpty: bool)
    ensures LocationsWith(ch, paragraphs + Emitted(location, pending, keepEmpty))
         == LocationsWith(ch, paragraphs) + if ch in Normalized(pending) then [location] else []
  {
    var last := Emitted(location, pending, keepEmpty);
    if last == [] {
      assert paragraphs + last == paragraphs;
    } else {
      assert (paragraphs + last)[..|paragraphs|] == paragraphs;
    }
  }

  /** A character that stands in the same runs of two documents of one shape is collected at the same locations, whatever
      the rest of their texts: each run keeps its location however much is deleted elsewhere. */
  lemma RunsKeepLocations(a: Element, b: Element, ch: char)
    requires SameShape(a, b) && !IsWhitespace(ch) && RunsRelated(HoldAlike(ch), BodyOf(a), BodyOf(b))
    ensures LocationsWith(ch, Extracted(a)) == LocationsWith(ch, Extracted(b))
  {
    HoldAlikeComposes(ch);
    var pairs := ExtractBoth(HoldAlike(ch), a, b);
    SameLocationsWith(ch, pairs);
  }
}
