/** Where a text is cut into sentences, said of the text alone (crates/bookforge-audio/src/text.rs:725-828). */
module SentenceCuts {
  import opened Strings
  import opened Selection
  import opened Sentences

  // ----- what ends a sentence -----

  /** From `lo` up to `hi` stand closing quotes and brackets only. */
  ghost predicate Closers(text: string, lo: nat, hi: nat)
    requires lo <= hi <= |text|
  {
    forall k | lo <= k < hi :: IsClosingPunctuation(text[k])
  }

  ghost predicate Ellipses(text: string, lo: nat, hi: nat)
    requires lo <= hi <= |text|
  {
    forall k | lo <= k < hi :: text[k] == '…'
  }

  /** All closing marks behind `t` and all ellipses behind these run up to `e`. */
  ghost predicate TailReaches(text: string, t: nat, e: nat)
    requires t < e <= |text|
  {
    exists c: nat | t < c <= e ::
      && Closers(text, t + 1, c) && (c == |text| || !IsClosingPunctuation(text[c]))
      && Ellipses(text, c, e) && (e == |text| || text[e] != '…')
  }

  /** `piece[w..d]` is the alphanumeric word before the last '.' of the piece. */
  ghost predicate WordBeforeLastDot(script: Script, piece: string, w: nat, d: nat)
    requires w < d < |piece|
  {
    && piece[d] == '.' && (forall k | d < k < |piece| :: piece[k] != '.')
    && (forall k | w <= k < d :: script.isAlphanumeric(piece[k]))
    && (w == 0 || !script.isAlphanumeric(piece[w - 1]))
  }

  /** One character, or an abbreviation of the list in capitals or not. */
  ghost predicate IsShortForm(word: string) {
    |word| == 1 || IsListedAbbreviation(AsciiLower(word))
  }

  /** The last dot of the piece belongs to an initial or an abbreviation. */
  ghost predicate EndsInShortForm(script: Script, piece: string) {
    exists w: nat, d: nat | w < d < |piece| :: WordBeforeLastDot(script, piece, w, d) && IsShortForm(piece[w..d])
  }

  /** The character at `t` ends the sentence begun at `s`: a full-width terminator always, any other before whitespace or
      the end only, and not in a piece whose last dot belongs to a short form. */
  ghost predicate EndsSentence(script: Script, text: string, s: nat, t: nat)
    requires s <= t < |text|
  {
    && IsSentenceTerminator(text[t])
    && (IsFullWidthTerminator(text[t])
        || ((t + 1 == |text| || IsWhitespace(text[t + 1])) && !EndsInShortForm(script, text[s..t + 1])))
  }

  /** At `t` stands the first newline of a blank line, or one that ends the text. */
  ghost predicate BeginsBlankLine(text: string, t: nat)
    requires t < |text|
  {
    text[t] == '\n' && (t + 1 == |text| || text[t + 1] == '\n')
  }

  /** The sentence begun at `s` may end at `e`. */
  ghost predicate MayEnd(script: Script, text: string, s: nat, e: nat)
    requires s < e <= |text|
  {
    || e == |text|
    || BeginsBlankLine(text, e - 1)
    || exists t: nat | s <= t < e :: EndsSentence(script, text, s, t) && TailReaches(text, t, e)
  }

  /** From `s` on, the first place where the sentence may end is `e`. */
  ghost predicate NextCut(script: Script, text: string, s: nat, e: nat) {
    && s < e <= |text|
    && forall k | s < k <= e :: MayEnd(script, text, s, k) <==> k == e
  }

  /** The cuts of a text from the first of them on, the end of the text included. */
  ghost predicate AreCuts(script: Script, text: string, cuts: seq<nat>) {
    && cuts != [] && cuts[|cuts| - 1] == |text|
    && forall k | 0 < k < |cuts| :: NextCut(script, text, cuts[k - 1], cuts[k])
  }

  // ----- the tests of the scan, on the text -----

  lemma {:induction false} LastDotIs(piece: string)
    ensures var before := BeforeLastDot(piece);
      if before == [] then forall k | 0 <= k < |piece| :: piece[k] != '.'
      else var d := |before[0]|; d < |piece| && before[0] == piece[..d] && piece[d] == '.' && forall k | d < k < |piece| :: piece[k] != '.'
  {
    if piece != "" && piece[|piece| - 1] != '.' {
      var front := piece[..|piece| - 1];
      LastDotIs(front);
      forall k | 0 <= k < |piece| - 1 ensures piece[k] == front[k] {
      }
    }
  }

  lemma {:induction false} TailWordIs(script: Script, s: string)
    ensures var w := |s| - |AlphanumericTail(script, s)|;
      && 0 <= w && AlphanumericTail(script, s) == s[w..]
      && (forall k | w <= k < |s| :: script.isAlphanumeric(s[k])) && (w == 0 || !script.isAlphanumeric(s[w - 1]))
  {
    if s != "" && script.isAlphanumeric(s[|s| - 1]) {
      TailWordIs(script, s[..|s| - 1]);
    }
  }

  lemma ShortFormIff(script: Script, piece: string)
    ensures EndsInShortForm(script, piece) <==> IsAbbreviationBoundary(script, piece)
  {
    var before := BeforeLastDot(piece);
    LastDotIs(piece);
    if before != [] {
      var d := |before[0]|;
      TailWordIs(script, before[0]);
      var w := d - |AlphanumericTail(script, before[0])|;
      var token := AlphanumericTail(script, before[0]);
      assert token == piece[w..d];
      assert |AsciiLower(token)| == |token|;
      if w < d {
        assert WordBeforeLastDot(script, piece, w, d);
      }
      forall v: nat, c: nat | v < c < |piece| && WordBeforeLastDot(script, piece, v, c) ensures c == d && v == w {
        assert c == d;
        assert w > 0 ==> !script.isAlphanumeric(before[0][w - 1]) && before[0][w - 1] == piece[w - 1];
      }
    }
  }

  lemma EndsIff(script: Script, text: string, s: nat, t: nat)
    requires s <= t < |text|
    ensures EndsSentence(script, text, s, t)
       <==> IsSentenceTerminator(text[t]) && TerminatorEndsSentence(script, text, t, text[s..t + 1])
  {
    ShortFormIff(script, text[s..t + 1]);
  }

  lemma {:induction false} ClosersRun(text: string, i: nat)
    requires i <= |text|
    ensures var c := SkipClosing(text, i); Closers(text, i, c) && (c == |text| || !IsClosingPunctuation(text[c]))
    decreases |text| - i
  {
    if i < |text| && IsClosingPunctuation(text[i]) {
      ClosersRun(text, i + 1);
    }
  }

  lemma {:induction false} EllipsesRun(text: string, i: nat)
    requires i <= |text|
    ensures var e := SkipEllipses(text, i); Ellipses(text, i, e) && (e == |text| || text[e] != '…')
    decreases |text| - i
  {
    if i < |text| && text[i] == '…' {
      EllipsesRun(text, i + 1);
    }
  }

  lemma TailIff(text: string, t: nat, e: nat)
    requires t < e <= |text|
    ensures TailReaches(text, t, e) <==> e == SentenceEnd(text, t)
  {
    var c0 := SkipClosing(text, t + 1);
    ClosersRun(text, t + 1);
    EllipsesRun(text, c0);
    if TailReaches(text, t, e) {
      var c: nat :| t < c <= e && Closers(text, t + 1, c) && (c == |text| || !IsClosingPunctuation(text[c]))
                    && Ellipses(text, c, e) && (e == |text| || text[e] != '…');
      assert c == c0;
    }
  }

  /** Nothing between `s` and `i` ends the sentence begun at `s`. */
  ghost predicate Undecided(script: Script, text: string, s: nat, i: nat)
    requires s <= i <= |text|
  {
    forall k: nat | s <= k < i :: !EndsSentence(script, text, s, k) && !BeginsBlankLine(text, k)
  }

  /** A terminator inside the tail of another one reaches no less far. */
  lemma TailOfTail(script: Script, text: string, s: nat, i: nat, t: nat, e: nat)
    requires s <= i < t < e <= |text| && e < SentenceEnd(text, i) && EndsSentence(script, text, s, t)
    ensures !TailReaches(text, t, e)
  {
    ClosersRun(text, i + 1);
    EllipsesRun(text, SkipClosing(text, i + 1));
    var c := SkipClosing(text, i + 1);
    assert t < c ==> IsClosingPunctuation(text[t]);
    assert text[e] == '…';
    ClosersRun(text, t + 1);
    TailIff(text, t, e);
    assert !IsClosingPunctuation('…');
  }

  lemma CutAtTerminator(script: Script, text: string, s: nat, i: nat)
    requires s <= i < |text| && Undecided(script, text, s, i) && EndsSentence(script, text, s, i)
    ensures NextCut(script, text, s, SentenceEnd(text, i))
  {
    var e := SentenceEnd(text, i);
    var c := SkipClosing(text, i + 1);
    TailIff(text, i, e);
    ClosersRun(text, i + 1);
    EllipsesRun(text, c);
    forall k | s < k < e ensures !MayEnd(script, text, s, k) {
      assert i < k - 1 ==> IsClosingPunctuation(text[k - 1]) || text[k - 1] == '…';
      assert !BeginsBlankLine(text, k - 1);
      forall t: nat | s <= t < k && EndsSentence(script, text, s, t) ensures !TailReaches(text, t, k) {
        if t == i {
          TailIff(text, i, k);
        } else {
          TailOfTail(script, text, s, i, t, k);
        }
      }
    }
  }

  lemma CutAtNewline(script: Script, text: string, s: nat, i: nat)
    requires s <= i < |text| && Undecided(script, text, s, i) && !EndsSentence(script, text, s, i)
    requires BeginsBlankLine(text, i) || i + 1 == |text|
    ensures NextCut(script, text, s, i + 1)
  {
    forall k | s < k < i + 1 ensures !MayEnd(script, text, s, k) {
      assert !BeginsBlankLine(text, k - 1);
    }
  }

  // ----- the scan cuts there -----

  function Between(text: string, s: nat, e: nat): string {
    if s <= e <= |text| then text[s..e] else ""
  }

  /** What stands between each cut and the next. */
  function Stretches(text: string, cuts: seq<nat>): seq<string> {
    seq(if cuts == [] then 0 else |cuts| - 1, k requires 0 <= k && k + 1 < |cuts| => Between(text, cuts[k], cuts[k + 1]))
  }

  lemma OneCutMore(script: Script, text: string, s: nat, cuts: seq<nat>)
    requires AreCuts(script, text, cuts) && NextCut(script, text, s, cuts[0])
    ensures AreCuts(script, text, [s] + cuts)
    ensures Stretches(text, [s] + cuts) == [text[s..cuts[0]]] + Stretches(text, cuts)
  {
    var all := [s] + cuts;
    forall k | 0 < k < |all| ensures NextCut(script, text, all[k - 1], all[k]) {
      assert k > 1 ==> all[k - 1] == cuts[k - 2];
    }
  }

  predicate HoldsText(piece: string) {
    !Blank(piece)
  }

  lemma NothingLeft(script: Script, text: string) returns (cuts: seq<nat>)
    ensures AreCuts(script, text, cuts) && cuts[0] == |text|
    ensures TrimmedAll([""]) == TrimmedAll(Stretches(text, cuts))
  {
    cuts := [|text|];
    TrimmedOne("");
    assert Stretches(text, cuts) == [];
  }

  /** At the end of the text the piece in hand is the last one. */
  lemma LastPieceIsCut(script: Script, text: string, s: nat) returns (cuts: seq<nat>)
    requires s < |text| && Undecided(script, text, s, |text|)
    ensures AreCuts(script, text, cuts) && cuts[0] == s && Stretches(text, cuts) == [text[s..]]
  {
    var last := |text| - 1;
    assert !EndsSentence(script, text, s, last);
    CutAtNewline(script, text, s, last);
    OneCutMore(script, text, s, [|text|]);
    cuts := [s] + [|text|];
    assert Stretches(text, [|text|]) == [] && text[s..|text|] == text[s..];
  }

  /** The scan goes on from `i` as the cuts do from the begin `s` of the piece in hand. */
  lemma {:induction false} ScanFollowsCuts(script: Script, text: string, s: nat, i: nat) returns (cuts: seq<nat>)
    requires s <= i <= |text| && Undecided(script, text, s, i)
    ensures AreCuts(script, text, cuts) && cuts[0] == s
    ensures TrimmedAll(Pieces(script, text, i, text[s..i])) == TrimmedAll(Stretches(text, cuts))
    decreases |text| - i
  {
    if s == |text| {
      cuts := NothingLeft(script, text);
      assert text[s..i] == "";
    } else if i == |text| {
      cuts := LastPieceIsCut(script, text, s);
      assert text[s..i] == text[s..];
    } else if EndsSentence(script, text, s, i) || BeginsBlankLine(text, i) {
      var turn := TurnAtCut(script, text, s, i);
      cuts := CutThere(script, text, s, i, turn);
    } else {
      NoCutYet(script, text, s, i);
      cuts := ScanFollowsCuts(script, text, s, i + 1);
    }
  }

  lemma TurnAtCut(script: Script, text: string, s: nat, i: nat) returns (turn: Turn)
    requires s <= i < |text| && Undecided(script, text, s, i)
    requires EndsSentence(script, text, s, i) || BeginsBlankLine(text, i)
    ensures turn == Step(script, text, i, text[s..i]) && i < turn.index <= |text|
    ensures turn.done == [text[s..turn.index]] && turn.current == "" && NextCut(script, text, s, turn.index)
  {
    EndsIff(script, text, s, i);
    assert text[s..i] + [text[i]] == text[s..i + 1];
    turn := Step(script, text, i, text[s..i]);
    if EndsSentence(script, text, s, i) {
      CutAtTerminator(script, text, s, i);
      assert text[s..i + 1] + text[i + 1..turn.index] == text[s..turn.index];
    } else {
      CutAtNewline(script, text, s, i);
    }
  }

  lemma NoCutYet(script: Script, text: string, s: nat, i: nat)
    requires s <= i < |text| && Undecided(script, text, s, i) && !EndsSentence(script, text, s, i) && !BeginsBlankLine(text, i)
    ensures Undecided(script, text, s, i + 1)
    ensures Pieces(script, text, i, text[s..i]) == Pieces(script, text, i + 1, text[s..i + 1])
  {
    EndsIff(script, text, s, i);
    assert text[s..i] + [text[i]] == text[s..i + 1];
    var rest := Pieces(script, text, i + 1, text[s..i + 1]);
    assert [] + rest == rest;
  }

  lemma CutThere(script: Script, text: string, s: nat, i: nat, turn: Turn) returns (cuts: seq<nat>)
    requires s <= i < |text| && turn == Step(script, text, i, text[s..i])
    requires turn.done == [text[s..turn.index]] && turn.current == "" && NextCut(script, text, s, turn.index)
    ensures AreCuts(script, text, cuts) && cuts[0] == s
    ensures TrimmedAll(Pieces(script, text, i, text[s..i])) == TrimmedAll(Stretches(text, cuts))
    decreases |text| - i, 0
  {
    var e := turn.index;
    var later := ScanFollowsCuts(script, text, e, e);
    cuts := [s] + later;
    OneCutMore(script, text, s, later);
    assert text[e..e] == "";
    PieceAhead(text[s..e], Stretches(text, later), Pieces(script, text, e, ""));
  }

  lemma PieceAhead(piece: string, a: seq<string>, b: seq<string>)
    requires TrimmedAll(a) == TrimmedAll(b)
    ensures TrimmedAll([piece] + a) == TrimmedAll([piece] + b)
  {
    TrimmedAllConcat([piece], a);
    TrimmedAllConcat([piece], b);
  }

  // ----- the sentences of a text -----

  /** The sentences are the stretches between the cuts that hold text, trimmed, in order. */
  ghost predicate AreSentences(sentences: seq<string>, text: string, cuts: seq<nat>) {
    exists picks :: Selects(sentences, Stretches(text, cuts), HoldsText, Trim, picks)
  }

  lemma {:induction false} TrimmedArePicked(pieces: seq<string>) returns (picks: seq<nat>)
    ensures Selects(TrimmedAll(pieces), pieces, HoldsText, Trim, picks)
  {
    if pieces == [] {
      picks := [];
    } else {
      var first, pick := SelectsOne(pieces[0], HoldsText, Trim);
      var later := TrimmedArePicked(pieces[1..]);
      TrimNonBlank(pieces[0]);
      SelectsConcat(first, [pieces[0]], pick, TrimmedAll(pieces[1..]), pieces[1..], later, HoldsText, Trim);
      assert [pieces[0]] + pieces[1..] == pieces;
      picks := pick + Shifted(later, 1);
    }
  }

  /** The sentences of every text are what stands between its cuts: a piece ends exactly where it first may. */
  lemma SentencesAreCut(script: Script, text: string) returns (cuts: seq<nat>)
    ensures AreCuts(script, text, cuts) && cuts[0] == 0
    ensures AreSentences(Split(script, text), text, cuts)
  {
    assert text[0..0] == "";
    cuts := ScanFollowsCuts(script, text, 0, 0);
    var picks := TrimmedArePicked(Stretches(text, cuts));
  }

  /** The rule leaves no choice: the cuts of a text are determined by where they begin. */
  lemma {:induction false} CutsAreUnique(script: Script, text: string, cuts: seq<nat>, others: seq<nat>)
    requires AreCuts(script, text, cuts) && AreCuts(script, text, others) && cuts[0] == others[0]
    ensures cuts == others
    decreases |cuts|
  {
    GoesOn(script, text, cuts);
    GoesOn(script, text, others);
    if |cuts| > 1 && |others| > 1 {
      var a, b := cuts[1..], others[1..];
      assert NextCut(script, text, cuts[0], cuts[1]) && NextCut(script, text, others[0], others[1]);
      assert cuts[1] == others[1] by {
        assert MayEnd(script, text, cuts[0], cuts[1]) && MayEnd(script, text, cuts[0], others[1]);
      }
      LaterCuts(script, text, cuts);
      LaterCuts(script, text, others);
      CutsAreUnique(script, text, a, b);
      assert cuts == [cuts[0]] + a && others == [others[0]] + b;
    }
  }

  lemma GoesOn(script: Script, text: string, cuts: seq<nat>)
    requires AreCuts(script, text, cuts)
    ensures |cuts| > 1 <==> cuts[0] != |text|
  {
    if |cuts| > 1 {
      assert NextCut(script, text, cuts[1 - 1], cuts[1]);
    }
  }

  lemma LaterCuts(script: Script, text: string, cuts: seq<nat>)
    requires AreCuts(script, text, cuts) && |cuts| > 1
    ensures AreCuts(script, text, cuts[1..])
  {
    var later := cuts[1..];
    forall k | 0 < k < |later| ensures NextCut(script, text, later[k - 1], later[k]) {
      var next := k + 1;
      assert NextCut(script, text, cuts[next - 1], cuts[next]);
    }
  }

  // ----- what never ends a sentence -----

  /** A '.', '!' or '?' with more text directly behind it never ends a sentence: "3.14" stays whole. */
  lemma NoCutInsideWord(script: Script, text: string, cuts: seq<nat>, t: nat)
    requires AreCuts(script, text, cuts) && t + 1 < |text|
    requires (text[t] == '.' || text[t] == '!' || text[t] == '?') && !IsWhitespace(text[t + 1])
    ensures t + 1 !in cuts[1..]
  {
    forall k | 0 < k < |cuts| ensures cuts[k] != t + 1 {
      var s := cuts[k - 1];
      assert NextCut(script, text, s, cuts[k]) && MayEnd(script, text, s, cuts[k]);
      if s <= t {
        NoEndInsideWord(script, text, s, t);
      }
    }
  }

  lemma NoEndInsideWord(script: Script, text: string, s: nat, t: nat)
    requires s <= t && t + 1 < |text|
    requires (text[t] == '.' || text[t] == '!' || text[t] == '?') && !IsWhitespace(text[t + 1])
    ensures !MayEnd(script, text, s, t + 1)
  {
    NoTailEndsBehindMark(script, text, s, t, t + 1);
    assert !EndsSentence(script, text, s, t);
  }

  /** A tail is made of closing marks and ellipses. */
  lemma TailIsMarks(text: string, t: nat, e: nat)
    requires t + 1 < e <= |text| && TailReaches(text, t, e)
    ensures IsClosingPunctuation(text[e - 1]) || text[e - 1] == '…'
  {
    var c: nat :| t < c <= e && Closers(text, t + 1, c) && Ellipses(text, c, e);
    var last := e - 1;
    if last < c {
      assert IsClosingPunctuation(text[last]);
    }
  }

  /** A Latin terminator is in no tail, so only its own test can end a sentence behind it. */
  lemma NoTailEndsBehindMark(script: Script, text: string, s: nat, t: nat, e: nat)
    requires s <= t < |text| && (text[t] == '.' || text[t] == '!' || text[t] == '?') && e == t + 1
    ensures forall k: nat | s <= k < t :: !TailReaches(text, k, e)
  {
    forall k: nat | s <= k < t && TailReaches(text, k, e) ensures IsClosingPunctuation(text[t]) || text[t] == '…' {
      TailIsMarks(text, k, e);
    }
  }

  /** Inside the text a cut stands behind a newline, a terminator or a closing mark. */
  lemma CutsStandBehindMarks(script: Script, text: string, s: nat, e: nat)
    requires s < e < |text| && MayEnd(script, text, s, e)
    ensures text[e - 1] == '\n' || IsSentenceTerminator(text[e - 1]) || IsClosingPunctuation(text[e - 1])
  {
    if !BeginsBlankLine(text, e - 1) {
      var t: nat :| s <= t < e && EndsSentence(script, text, s, t) && TailReaches(text, t, e);
      if t + 1 < e {
        TailIsMarks(text, t, e);
      }
    }
  }

  /** Characters that end sentences or close quotes are no letters or digits. */
  ghost predicate MarksAreNoLetters(script: Script) {
    forall ch | IsSentenceTerminator(ch) || IsClosingPunctuation(ch) || IsWhitespace(ch) :: !script.isAlphanumeric(ch)
  }

  /** A dot behind a single character or a listed abbreviation never ends a sentence unless the text ends there. */
  lemma NoCutBehindShortForm(script: Script, text: string, cuts: seq<nat>, w: nat, t: nat)
    requires MarksAreNoLetters(script) && AreCuts(script, text, cuts) && cuts[0] == 0 && w < t && t + 1 < |text|
    requires WordBeforeLastDot(script, text[..t + 1], w, t) && IsShortForm(text[w..t])
    ensures t + 1 !in cuts[1..]
  {
    forall k | 0 < k < |cuts| ensures cuts[k] != t + 1 {
      var s := cuts[k - 1];
      assert NextCut(script, text, s, cuts[k]);
      NoCutInsideLetters(script, text, cuts, k - 1, w, t);
      if s <= t {
        HeldBehindShortForm(script, text, s, w, t);
      }
    }
  }

  lemma SliceOfSlice(text: string, s: nat, w: nat, t: nat, e: nat)
    requires s <= w <= t <= e <= |text|
    ensures text[s..e][w - s..t - s] == text[w..t]
  {
    var piece := text[s..e];
    forall k | 0 <= k < t - w ensures piece[w - s..t - s][k] == text[w..t][k] {
      assert piece[w - s + k] == text[w + k];
    }
  }

  lemma HeldBehindShortForm(script: Script, text: string, s: nat, w: nat, t: nat)
    requires s <= w < t && t + 1 < |text|
    requires WordBeforeLastDot(script, text[..t + 1], w, t) && IsShortForm(text[w..t])
    ensures !MayEnd(script, text, s, t + 1)
  {
    var piece := text[s..t + 1];
    NoTailEndsBehindMark(script, text, s, t, t + 1);
    SliceOfSlice(text, s, w, t, t + 1);
    assert forall k | 0 <= k < |piece| :: piece[k] == text[..t + 1][s + k];
    assert WordBeforeLastDot(script, piece, w - s, t - s);
    assert text[t] == '.' && !EndsSentence(script, text, s, t);
  }

  /** No cut falls between two letters. */
  lemma NoCutInsideLetters(script: Script, text: string, cuts: seq<nat>, k: nat, w: nat, t: nat)
    requires MarksAreNoLetters(script) && AreCuts(script, text, cuts) && cuts[0] == 0 && k < |cuts| && w < t < |text|
    requires forall i | w <= i < t :: script.isAlphanumeric(text[i])
    ensures !(w < cuts[k] <= t)
  {
    if k > 0 {
      var e := cuts[k];
      assert NextCut(script, text, cuts[k - 1], e);
      if e < |text| {
        CutsStandBehindMarks(script, text, cuts[k - 1], e);
      }
    }
  }

  /** "Dr." stays with the name behind it, wherever it stands. */
  lemma DoctorStaysWithName(script: Script, front: string, rest: string, cuts: seq<nat>)
    requires MarksAreNoLetters(script) && script.isAlphanumeric('D') && script.isAlphanumeric('r')
    requires (front == "" || !script.isAlphanumeric(front[|front| - 1])) && rest != ""
    requires AreCuts(script, front + "Dr." + rest, cuts) && cuts[0] == 0
    ensures |front| + 3 !in cuts[1..]
  {
    var text, w := front + "Dr." + rest, |front|;
    assert text[..w + 3] == front + "Dr.";
    assert text[w..w + 2] == "Dr" && AsciiLower("Dr") == "dr";
    NoCutBehindShortForm(script, text, cuts, w, w + 2);
  }
}
