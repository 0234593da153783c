/** Sentence splitting for narration (crates/bookforge-audio/src/text.rs:710-828). */
module Sentences {
  import opened Strings

  /** The character and script tests that come from outside the chunker. */
  datatype Script = Script(isAlphanumeric: char -> bool, isSpaceDelimited: string -> bool) {
    ghost predicate Valid() {
      forall ch | IsWhitespace(ch) :: !isAlphanumeric(ch)
    }
  }

  // ----- the boundary tests -----

  predicate IsSentenceTerminator(ch: char) {
    ch == '.' || ch == '!' || ch == '?' || ch == '…' || ch == '。' || ch == '！' || ch == '？'
  }

  predicate IsFullWidthTerminator(ch: char) {
    ch == '。' || ch == '！' || ch == '？' || ch == '…'
  }

  predicate IsClosingPunctuation(ch: char) {
    || ch == '"' || ch == '\'' || ch == '”' || ch == '’' || ch == ')' || ch == ']'
    || ch == '」' || ch == '』' || ch == '）' || ch == '】' || ch == '》'
  }

  predicate FollowingIsBreak(chars: string, index: nat) {
    index + 1 < |chars| ==> IsWhitespace(chars[index + 1])
  }

  predicate IsListedAbbreviation(token: string) {
    token in {
      "mr", "mrs", "ms", "dr", "prof", "sr", "jr", "st", "mt", "vs", "etc", "eg", "ie", "cf", "al",
      "fig", "no", "vol", "pp", "ed", "approx", "dept", "est", "inc", "ltd", "capt", "sgt", "lt"
    }
  }

  function AsciiLower(s: string): string {
    seq(|s|, i requires 0 <= i < |s| => if 'A' <= s[i] <= 'Z' then s[i] - 'A' + 'a' else s[i])
  }

  /** The text before the last '.' of `s`; None when there is no '.'. */
  function BeforeLastDot(s: string): (r: seq<string>)
    ensures r == [] || (|r| == 1 && r[0] < s)
  {
    if s == "" then [] else if s[|s| - 1] == '.' then [s[..|s| - 1]] else BeforeLastDot(s[..|s| - 1])
  }

  function AlphanumericTail(script: Script, s: string): string {
    if s != "" && script.isAlphanumeric(s[|s| - 1]) then AlphanumericTail(script, s[..|s| - 1]) + [s[|s| - 1]] else ""
  }

  /** The dot belongs to the word before it: an initial or a listed abbreviation. */
  predicate IsAbbreviationBoundary(script: Script, current: string) {
    var before := BeforeLastDot(current);
    before != [] && before[0] != "" &&
    var token := AsciiLower(AlphanumericTail(script, before[0]));
    token != "" && (|token| == 1 || IsListedAbbreviation(token))
  }

  predicate TerminatorEndsSentence(script: Script, chars: string, index: nat, current: string)
    requires index < |chars|
  {
    if IsFullWidthTerminator(chars[index]) then true
    else FollowingIsBreak(chars, index) && !IsAbbreviationBoundary(script, current)
  }

  function SkipClosing(chars: string, index: nat): (r: nat)
    requires index <= |chars|
    ensures index <= r <= |chars|
    decreases |chars| - index
  {
    if index < |chars| && IsClosingPunctuation(chars[index]) then SkipClosing(chars, index + 1) else index
  }

  function SkipEllipses(chars: string, index: nat): (r: nat)
    requires index <= |chars|
    ensures index <= r <= |chars|
    decreases |chars| - index
  {
    if index < |chars| && chars[index] == '…' then SkipEllipses(chars, index + 1) else index
  }

  /** Where a sentence whose terminator is at `index` ends, trailing quotes and ellipses included. */
  function SentenceEnd(chars: string, index: nat): (r: nat)
    requires index < |chars|
    ensures index < r <= |chars|
  {
    SkipEllipses(chars, SkipClosing(chars, index + 1))
  }

  predicate BlankLineAt(chars: string, index: nat)
    requires index < |chars|
  {
    chars[index] == '\n' && (index + 1 == |chars| || chars[index + 1] == '\n')
  }

  /** Zero or one sentence: `current` trimmed, unless nothing is left. */
  function Trimmed(current: string): seq<string> {
    if Trim(current) == "" then [] else [Trim(current)]
  }

  function TrimmedAll(pieces: seq<string>): seq<string> {
    if pieces == [] then [] else Trimmed(pieces[0]) + TrimmedAll(pieces[1..])
  }

  /** One turn of the scan: the piece it completes, if any, and where it goes on with what in hand. */
  datatype Turn = Turn(done: seq<string>, index: nat, current: string)

  function Step(script: Script, chars: string, index: nat, current: string): (turn: Turn)
    requires index < |chars|
    ensures index < turn.index <= |chars|
  {
    var next := current + [chars[index]];
    if IsSentenceTerminator(chars[index]) && TerminatorEndsSentence(script, chars, index, next) then
      var end := SentenceEnd(chars, index);
      Turn([next + chars[index + 1..end]], end, "")
    else if BlankLineAt(chars, index) then Turn([next], index + 1, "")
    else Turn([], index + 1, next)
  }

  /** The pieces the text is cut into from `index` on, with `current` already carried. */
  function Pieces(script: Script, chars: string, index: nat, current: string): (pieces: seq<string>)
    requires index <= |chars|
    ensures pieces != []
    decreases |chars| - index
  {
    if index == |chars| then [current]
    else
      var turn := Step(script, chars, index, current);
      turn.done + Pieces(script, chars, turn.index, turn.current)
  }

  /** The sentences of a text: its pieces, trimmed, without the blank ones. */
  function Split(script: Script, text: string): seq<string> {
    TrimmedAll(Pieces(script, text, 0, ""))
  }

  // ----- the loop -----

  /** Attach the closing punctuation and the ellipses behind a terminator to its sentence. */
  method AttachTail(text: string, begun: nat, carried: string) returns (index: nat, current: string)
    requires begun < |text|
    ensures index == SentenceEnd(text, begun)
    ensures current == carried + text[begun + 1..index]
  {
    index, current := begun + 1, carried;
    while index < |text| && IsClosingPunctuation(text[index])
      invariant begun < index <= |text|
      invariant SkipClosing(text, begun + 1) == SkipClosing(text, index)
      invariant current == carried + text[begun + 1..index]
    {
      current := current + [text[index]];
      index := index + 1;
    }
    while index < |text| && text[index] == '…'
      invariant begun < index <= |text|
      invariant SentenceEnd(text, begun) == SkipEllipses(text, index)
      invariant current == carried + text[begun + 1..index]
    {
      current := current + [text[index]];
      index := index + 1;
      if !(index < |text| && text[index] == '…') {
        break;
      }
    }
  }

  /** The loop state still to be scanned completes `sentences` to the whole split. */
  ghost predicate Completes(script: Script, text: string, sentences: seq<string>, index: nat, current: string)
    requires index <= |text|
  {
    sentences + TrimmedAll(Pieces(script, text, index, current)) == Split(script, text)
  }

  lemma {:induction false} TrimmedAllConcat(a: seq<string>, b: seq<string>)
    ensures TrimmedAll(a + b) == TrimmedAll(a) + TrimmedAll(b)
  {
    if a == [] {
      assert a + b == b;
    } else {
      assert (a + b)[1..] == a[1..] + b;
      TrimmedAllConcat(a[1..], b);
    }
  }

  lemma TrimmedOne(piece: string)
    ensures TrimmedAll([piece]) == Trimmed(piece)
  {
    assert [piece][1..] == [];
  }

  lemma CarryOn(script: Script, text: string, sentences: seq<string>, index: nat, current: string)
    requires index < |text| && Completes(script, text, sentences, index, current)
    ensures var next := current + [text[index]];
      if IsSentenceTerminator(text[index]) && TerminatorEndsSentence(script, text, index, next) then
        var end := SentenceEnd(text, index);
        Completes(script, text, sentences + Trimmed(next + text[index + 1..end]), end, "")
      else if BlankLineAt(text, index) then
        Completes(script, text, sentences + Trimmed(next), index + 1, "")
      else
        Completes(script, text, sentences, index + 1, next)
  {
    var turn := Step(script, text, index, current);
    var rest := Pieces(script, text, turn.index, turn.current);
    TrimmedAllConcat(turn.done, rest);
    Regroup(sentences, TrimmedAll(turn.done), TrimmedAll(rest));
    if turn.done != [] {
      TrimmedOne(turn.done[0]);
    } else {
      assert sentences + [] == sentences;
    }
  }

  method SplitSentences(script: Script, text: string) returns (sentences: seq<string>)
    ensures sentences == Split(script, text)
  {
    sentences := [];
    var current := "";
    var index := 0;
    while index < |text|
      invariant index <= |text|
      invariant Completes(script, text, sentences, index, current)
    {
      var ch := text[index];
      CarryOn(script, text, sentences, index, current);
      current := current + [ch];
      if IsSentenceTerminator(ch) && TerminatorEndsSentence(script, text, index, current) {
        index, current := AttachTail(text, index, current);
        sentences := sentences + Trimmed(current);
        current := "";
        continue;
      }
      if ch == '\n' {
        if index + 1 == |text| || text[index + 1] == '\n' {
          sentences := sentences + Trimmed(current);
          current := "";
        }
      }
      index := index + 1;
    }
    TrimmedOne(current);
    sentences := sentences + Trimmed(current);
  }

  // ----- every visible character survives, in order -----

  lemma TrimmedNonBlank(s: string)
    ensures NonBlank(Flatten(Trimmed(s))) == NonBlank(s)
  {
    TrimNonBlank(s);
    if Trim(s) != "" {
      FlattenOne(Trim(s));
    } else {
      NonBlankOfBlank(s);
    }
  }

  lemma {:induction false} TrimmedAllNonBlank(pieces: seq<string>)
    ensures NonBlank(Flatten(TrimmedAll(pieces))) == NonBlank(Flatten(pieces))
  {
    if pieces != [] {
      TrimmedAllNonBlank(pieces[1..]);
      TrimmedNonBlank(pieces[0]);
      NonBlankFlattenConcat(Trimmed(pieces[0]), TrimmedAll(pieces[1..]));
      NonBlankConcat(pieces[0], Flatten(pieces[1..]));
    }
  }

  /** The pieces, put together, are the text: cutting drops nothing at all. */
  lemma {:induction false} PiecesAreTheText(script: Script, chars: string, index: nat, current: string)
    requires index <= |chars|
    ensures Flatten(Pieces(script, chars, index, current)) == current + chars[index..]
    decreases |chars| - index
  {
    if index == |chars| {
      FlattenOne(current);
      assert current + chars[index..] == current;
    } else {
      var turn := Step(script, chars, index, current);
      PiecesAreTheText(script, chars, turn.index, turn.current);
      FlattenConcat(turn.done, Pieces(script, chars, turn.index, turn.current));
      StepKeepsText(script, chars, index, current);
    }
  }

  lemma StepKeepsText(script: Script, chars: string, index: nat, current: string)
    requires index < |chars|
    ensures var turn := Step(script, chars, index, current);
      Flatten(turn.done) + (turn.current + chars[turn.index..]) == current + chars[index..]
  {
    var turn := Step(script, chars, index, current);
    var head, tail, rest := [chars[index]], chars[index + 1..turn.index], chars[turn.index..];
    assert chars[index..] == head + (tail + rest);
    FourParts(current, head, tail, rest);
    if turn.done != [] {
      FlattenOne(turn.done[0]);
      assert turn.done == [turn.done[0]];
      assert "" + rest == rest;
    }
    if turn.index == index + 1 {
      assert current + head + tail == current + head;
    }
  }

  lemma FourParts(a: string, b: string, c: string, d: string)
    ensures (a + b + c) + d == a + (b + (c + d))
  {
  }

  /** Splitting loses and reorders no visible character. */
  lemma SplitKeepsText(script: Script, text: string)
    ensures NonBlank(Flatten(Split(script, text))) == NonBlank(text)
  {
    PiecesAreTheText(script, text, 0, "");
    TrimmedAllNonBlank(Pieces(script, text, 0, ""));
    assert "" + text[0..] == text;
  }

  ghost predicate AllTrimmed(sentences: seq<string>) {
    forall k | 0 <= k < |sentences| :: sentences[k] != "" && IsTrimmed(sentences[k])
  }

  /** No sentence is empty or has whitespace at its ends. */
  lemma SplitIsTrimmed(script: Script, text: string)
    ensures AllTrimmed(Split(script, text))
  {
    TrimmedAllIsTrimmed(Pieces(script, text, 0, ""));
  }

  lemma {:induction false} TrimmedAllIsTrimmed(pieces: seq<string>)
    ensures AllTrimmed(TrimmedAll(pieces))
  {
    if pieces != [] {
      TrimIsTrimmed(pieces[0]);
      TrimmedAllIsTrimmed(pieces[1..]);
    }
  }

  // ----- a blank line separates: splitting distributes over it -----

  /** `chars` is what stands in `whole` from `offset` on. */
  ghost predicate StandsAt(chars: string, whole: string, offset: nat) {
    |whole| == offset + |chars| && forall k | 0 <= k < |chars| :: whole[offset + k] == chars[k]
  }

  /** Text before `index` that is no longer carried does not matter. */
  lemma {:induction false} PiecesShift(script: Script, whole: string, offset: nat, chars: string, index: nat, current: string)
    requires StandsAt(chars, whole, offset) && index <= |chars|
    ensures Pieces(script, whole, offset + index, current) == Pieces(script, chars, index, current)
    decreases |chars| - index
  {
    if index < |chars| {
      var done, next, carried := StepShift(script, whole, offset, chars, index, current);
      PiecesShift(script, whole, offset, chars, next, carried);
    }
  }

  lemma StepShift(script: Script, whole: string, offset: nat, chars: string, index: nat, current: string)
    returns (done: seq<string>, next: nat, carried: string)
    requires StandsAt(chars, whole, offset) && index < |chars|
    ensures index < next <= |chars|
    ensures Step(script, chars, index, current) == Turn(done, next, carried)
    ensures Step(script, whole, offset + index, current) == Turn(done, offset + next, carried)
  {
    var turn := Step(script, chars, index, current);
    done, next, carried := turn.done, turn.index, turn.current;
    var at := offset + index;
    assert whole[at] == chars[index];
    assert index + 1 < |chars| ==> whole[offset + (index + 1)] == chars[index + 1];
    EndShift(whole, offset, chars, index);
    SliceShift(whole, offset, chars, index + 1, SentenceEnd(chars, index));
  }

  lemma SliceShift(whole: string, offset: nat, chars: string, lo: nat, hi: nat)
    requires StandsAt(chars, whole, offset) && lo <= hi <= |chars|
    ensures whole[offset + lo..offset + hi] == chars[lo..hi]
  {
    forall k | lo <= k < hi ensures whole[offset + k] == chars[k] {
    }
  }

  lemma EndShift(whole: string, offset: nat, chars: string, index: nat)
    requires StandsAt(chars, whole, offset) && index < |chars|
    ensures SentenceEnd(whole, offset + index) == offset + SentenceEnd(chars, index)
  {
    ClosingShift(whole, offset, chars, index + 1);
    EllipsesShift(whole, offset, chars, SkipClosing(chars, index + 1));
  }

  lemma {:induction false} ClosingShift(whole: string, offset: nat, chars: string, index: nat)
    requires StandsAt(chars, whole, offset) && index <= |chars|
    ensures SkipClosing(whole, offset + index) == offset + SkipClosing(chars, index)
    decreases |chars| - index
  {
    if index < |chars| && IsClosingPunctuation(chars[index]) {
      ClosingShift(whole, offset, chars, index + 1);
    }
  }

  lemma {:induction false} EllipsesShift(whole: string, offset: nat, chars: string, index: nat)
    requires StandsAt(chars, whole, offset) && index <= |chars|
    ensures SkipEllipses(whole, offset + index) == offset + SkipEllipses(chars, index)
    decreases |chars| - index
  {
    if index < |chars| && chars[index] == '…' {
      EllipsesShift(whole, offset, chars, index + 1);
    }
  }

  /** A carried newline changes no cut, abbreviation tests included: it only begins the next piece. */
  lemma {:induction false} CarriedNewline(script: Script, chars: string, index: nat, current: string)
    requires script.Valid() && index <= |chars|
    ensures var pieces := Pieces(script, chars, index, current);
      Pieces(script, chars, index, "\n" + current) == ["\n" + pieces[0]] + pieces[1..]
    decreases |chars| - index
  {
    if index < |chars| {
      var turn := Step(script, chars, index, current);
      StepAfterNewline(script, chars, index, current);
      if turn.done == [] {
        CarriedNewline(script, chars, turn.index, turn.current);
      }
    }
  }

  lemma StepAfterNewline(script: Script, chars: string, index: nat, current: string)
    requires script.Valid() && index < |chars|
    ensures var turn := Step(script, chars, index, current);
      Step(script, chars, index, "\n" + current)
        == if turn.done == [] then turn.(current := "\n" + turn.current) else turn.(done := ["\n" + turn.done[0]])
  {
    var next := current + [chars[index]];
    assert "\n" + current + [chars[index]] == "\n" + next;
    AbbreviationAfterNewline(script, next);
    Regroup("\n", next, chars[index + 1..SentenceEnd(chars, index)]);
  }

  lemma AbbreviationAfterNewline(script: Script, s: string)
    requires script.Valid()
    ensures IsAbbreviationBoundary(script, "\n" + s) <==> IsAbbreviationBoundary(script, s)
  {
    DotAfterNewline(s);
    var before := BeforeLastDot(s);
    if before != [] {
      TailAfterNewline(script, before[0]);
    }
  }

  lemma {:induction false} DotAfterNewline(s: string)
    ensures BeforeLastDot("\n" + s) == if BeforeLastDot(s) == [] then [] else ["\n" + BeforeLastDot(s)[0]]
  {
    var t := "\n" + s;
    if s == "" {
      assert t[..|t| - 1] == "";
    } else {
      assert t[|t| - 1] == s[|s| - 1] && t[..|t| - 1] == "\n" + s[..|s| - 1];
      DotAfterNewline(s[..|s| - 1]);
    }
  }

  lemma {:induction false} TailAfterNewline(script: Script, s: string)
    requires script.Valid()
    ensures AlphanumericTail(script, "\n" + s) == AlphanumericTail(script, s)
  {
    var t := "\n" + s;
    if s == "" {
      assert t[|t| - 1] == '\n' && IsWhitespace('\n');
    } else {
      assert t[|t| - 1] == s[|s| - 1] && t[..|t| - 1] == "\n" + s[..|s| - 1];
      TailAfterNewline(script, s[..|s| - 1]);
    }
  }

  function LastPiece(pieces: seq<string>): string
    requires pieces != []
  {
    pieces[|pieces| - 1]
  }

  /** A newline-free paragraph is cut as if nothing followed its blank line; the first newline ends its last piece. */
  lemma {:induction false} PiecesOfParagraph(script: Script, para: string, rest: string, index: nat, current: string)
    requires '\n' !in para && index <= |para|
    ensures var pieces := Pieces(script, para, index, current);
      Pieces(script, para + "\n\n" + rest, index, current)
        == pieces[..|pieces| - 1] + ([LastPiece(pieces) + "\n"] + Pieces(script, para + "\n\n" + rest, |para| + 1, ""))
    decreases |para| - index
  {
    var whole := para + "\n\n" + rest;
    if index == |para| {
      StepAtBlankLine(script, para, rest, current);
    } else {
      var turn := Step(script, para, index, current);
      StepInParagraph(script, para, rest, index, current);
      PiecesOfParagraph(script, para, rest, turn.index, turn.current);
      var later := Pieces(script, para, turn.index, turn.current);
      var pieces := turn.done + later;
      assert pieces[..|pieces| - 1] == turn.done + later[..|later| - 1] && LastPiece(pieces) == LastPiece(later);
      Regroup(turn.done, later[..|later| - 1], [LastPiece(later) + "\n"] + Pieces(script, whole, |para| + 1, ""));
    }
  }

  lemma StepAtBlankLine(script: Script, para: string, rest: string, current: string)
    ensures Step(script, para + "\n\n" + rest, |para|, current) == Turn([current + "\n"], |para| + 1, "")
  {
    var whole := para + "\n\n" + rest;
    assert whole[|para|] == '\n' && whole[|para| + 1] == '\n';
    assert BlankLineAt(whole, |para|) && !IsSentenceTerminator(whole[|para|]);
  }

  lemma StepInParagraph(script: Script, para: string, rest: string, index: nat, current: string)
    requires '\n' !in para && index < |para|
    ensures Step(script, para + "\n\n" + rest, index, current) == Step(script, para, index, current)
  {
    var whole := para + "\n\n" + rest;
    assert whole[index] == para[index] && para[index] != '\n';
    assert index + 1 < |para| ==> whole[index + 1] == para[index + 1];
    assert index + 1 == |para| ==> whole[index + 1] == '\n' && IsWhitespace('\n');
    ClosingInParagraph(para, rest, index + 1);
    EllipsesInParagraph(para, rest, SkipClosing(para, index + 1));
    assert whole[index + 1..SentenceEnd(para, index)] == para[index + 1..SentenceEnd(para, index)];
  }

  lemma {:induction false} ClosingInParagraph(para: string, rest: string, index: nat)
    requires index <= |para|
    ensures SkipClosing(para + "\n\n" + rest, index) == SkipClosing(para, index)
    decreases |para| - index
  {
    if index < |para| && IsClosingPunctuation(para[index]) {
      ClosingInParagraph(para, rest, index + 1);
    }
  }

  lemma {:induction false} EllipsesInParagraph(para: string, rest: string, index: nat)
    requires index <= |para|
    ensures SkipEllipses(para + "\n\n" + rest, index) == SkipEllipses(para, index)
    decreases |para| - index
  {
    if index < |para| && para[index] == '…' {
      EllipsesInParagraph(para, rest, index + 1);
    }
  }

  /** One blank line: the sentences before it, then the sentences after it. */
  lemma SplitAtBlankLine(script: Script, para: string, rest: string)
    requires script.Valid() && '\n' !in para
    ensures Split(script, para + "\n\n" + rest) == Split(script, para) + Split(script, rest)
  {
    var pieces := Pieces(script, para, 0, "");
    var after := Pieces(script, para + "\n\n" + rest, |para| + 1, "");
    PiecesOfParagraph(script, para, rest, 0, "");
    AfterBlankLine(script, para, rest);
    EndedByNewline(pieces, after);
  }

  /** A newline at the end of the last piece is trimmed off. */
  lemma EndedByNewline(pieces: seq<string>, after: seq<string>)
    requires pieces != []
    ensures TrimmedAll(pieces[..|pieces| - 1] + ([LastPiece(pieces) + "\n"] + after)) == TrimmedAll(pieces) + TrimmedAll(after)
  {
    var front, last := pieces[..|pieces| - 1], LastPiece(pieces);
    assert pieces == front + [last];
    TrimAfter(last, '\n');
    TrimmedOne(last);
    TrimmedOne(last + "\n");
    TrimmedAllConcat(front, [last]);
    TrimmedAllConcat(front, [last + "\n"] + after);
    TrimmedAllConcat([last + "\n"], after);
    Regroup(TrimmedAll(front), Trimmed(last), TrimmedAll(after));
  }

  /** Behind a paragraph's blank line come the sentences of the rest. */
  lemma AfterBlankLine(script: Script, para: string, rest: string)
    requires script.Valid()
    ensures TrimmedAll(Pieces(script, para + "\n\n" + rest, |para| + 1, "")) == Split(script, rest)
  {
    var whole, second := para + "\n\n" + rest, |para| + 1;
    assert whole[second] == '\n';
    var turn := Step(script, whole, second, "");
    SecondNewline(script, whole, second);
    PiecesShift(script, whole, second + 1, rest, 0, turn.current);
    if turn.done != [] {
      TrimmedAllConcat(turn.done, Pieces(script, rest, 0, ""));
      assert [] + Split(script, rest) == Split(script, rest);
    } else {
      CarriedNewline(script, rest, 0, "");
      BegunByNewline(Pieces(script, rest, 0, ""));
      assert turn.done + Pieces(script, rest, 0, "\n" + "") == Pieces(script, rest, 0, "\n" + "");
    }
  }

  lemma BegunByNewline(pieces: seq<string>)
    requires pieces != []
    ensures TrimmedAll(["\n" + pieces[0]] + pieces[1..]) == TrimmedAll(pieces)
  {
    TrimBefore(pieces[0], '\n');
    assert (["\n" + pieces[0]] + pieces[1..])[1..] == pieces[1..];
  }

  /** The second newline of a blank line is a blank piece or is carried. */
  lemma SecondNewline(script: Script, whole: string, at: nat)
    requires at < |whole| && whole[at] == '\n'
    ensures var turn := Step(script, whole, at, "");
      && turn.index == at + 1
      && if turn.done == [] then turn.current == "\n" + "" else turn.current == "" && TrimmedAll(turn.done) == []
  {
    assert "" + ['\n'] == "\n" == "\n" + "";
    NewlineIsBlank();
  }

  lemma NewlineIsBlank()
    ensures TrimmedAll(["\n"]) == []
  {
    TrimmedOne("\n");
    assert TrimEnd("\n") == TrimEnd("\n"[..0]) == "";
  }

  function SplitEach(script: Script, paras: seq<string>): seq<string> {
    if paras == [] then [] else Split(script, paras[0]) + SplitEach(script, paras[1..])
  }

  /** Splitting newline-free paragraphs joined by blank lines is splitting each of them. */
  lemma {:induction false} SplitIsHomomorphic(script: Script, paras: seq<string>)
    requires script.Valid()
    requires forall p | p in paras :: '\n' !in p
    ensures Split(script, JoinWith(paras, "\n\n")) == SplitEach(script, paras)
  {
    if |paras| == 0 {
      TrimmedOne("");
      assert Pieces(script, "", 0, "") == [""];
    } else if |paras| == 1 {
      assert SplitEach(script, paras[1..]) == [];
    } else {
      SplitAtBlankLine(script, paras[0], JoinWith(paras[1..], "\n\n"));
      SplitIsHomomorphic(script, paras[1..]);
    }
  }
}
