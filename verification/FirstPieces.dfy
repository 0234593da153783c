/** How the first piece of a cut title or heading depends on the limit
    (crates/bookforge-audio/src/text.rs:635-651, 840-928). */
module FirstPieces {
  import opened Strings
  import opened Sentences
  import opened Packing
  import opened LongUnits

  /** The texts a trimmed title or heading is cut into. */
  function HeadTexts(script: Script, text: string, max: nat): seq<string>
    requires max >= 1
  {
    if |text| > max then LongUnitPieces(script, text, max) else [text]
  }

  ghost predicate IsHeadText(text: string) {
    text != "" && IsTrimmed(text)
  }

  lemma HeadTextsFit(script: Script, text: string, max: nat)
    requires max >= 1 && IsHeadText(text)
    ensures HeadTexts(script, text, max) != [] && Within(HeadTexts(script, text, max), max)
  {
    LongUnitSplitsWell(script, text, max);
    HeadTextIsVisible(text);
  }

  lemma HeadTextIsVisible(text: string)
    requires IsHeadText(text)
    ensures NonBlank(text) != ""
  {
    if NonBlank(text) == "" {
      BlankIfNoNonBlank(text);
    }
  }

  // ----- how packing begins -----

  /** The first piece is what is in the buffer, alone or with a separator and more behind it. */
  lemma {:induction false} PackBegins(units: seq<string>, separator: string, max: nat, hard: HardSplit, current: string)
    requires current != ""
    ensures var pieces := Pack(units, separator, max, hard, current);
      pieces != [] && (pieces[0] == current || current + separator <= pieces[0])
  {
    if units != [] && |units[0]| <= max && |Separated(current, separator, units[0])| <= max {
      PackBegins(units[1..], separator, max, hard, Separated(current, separator, units[0]));
    }
  }

  /** The first word of `s` when `current` is what has been read of it. */
  function FirstWord(s: string, current: string): string {
    if s == "" || IsWhitespace(s[0]) then current else FirstWord(s[1..], current + [s[0]])
  }

  lemma {:induction false} FirstWordExtends(s: string, current: string)
    ensures current <= FirstWord(s, current)
    ensures if s == "" || IsWhitespace(s[0]) then FirstWord(s, current) == current else current + [s[0]] <= FirstWord(s, current)
  {
    if s != "" && !IsWhitespace(s[0]) {
      FirstWordExtends(s[1..], current + [s[0]]);
    }
  }

  lemma {:induction false} WordsBegin(s: string, current: string)
    requires current != ""
    ensures WordsFrom(s, current) != [] && WordsFrom(s, current)[0] == FirstWord(s, current)
  {
    if s != "" && !IsWhitespace(s[0]) {
      WordsBegin(s[1..], current + [s[0]]);
    }
  }

  /** The first word of a trimmed text begins with its first character, and has a second one exactly when the text's second
      character is not whitespace. */
  lemma FirstWordOf(text: string)
    requires IsHeadText(text)
    ensures Words(text) != [] && Words(text)[0] != "" && Words(text)[0][0] == text[0]
    ensures if |text| == 1 || IsWhitespace(text[1]) then Words(text)[0] == [text[0]]
            else |Words(text)[0]| >= 2 && Words(text)[0][1] == text[1]
  {
    assert "" + [text[0]] == [text[0]];
    WordsBegin(text[1..], [text[0]]);
    FirstWordExtends(text[1..], [text[0]]);
    assert Words(text) == WordsFrom(text[1..], [text[0]]);
  }

  /** The first piece of spaced text: as much of the first word as fits, or the word and then a space and more. */
  lemma SpacedBegins(script: Script, text: string, max: nat)
    requires max >= 1 && IsHeadText(text) && script.isSpaceDelimited(text)
    ensures Words(text) != [] && LongUnitPieces(script, text, max) != []
    ensures var word, first := Words(text)[0], LongUnitPieces(script, text, max)[0];
      if |word| > max then first == word[..max] else first == word || word + " " <= first
  {
    FirstWordOf(text);
    var words := Words(text);
    if |words[0]| > max {
      assert Slices(words[0], max)[0] == words[0][..max];
    } else {
      PackBegins(words[1..], " ", max, HardSlices(max), words[0]);
    }
  }

  /** The first piece of unspaced text is a prefix of it. */
  lemma UnspacedBegins(script: Script, text: string, max: nat)
    requires max >= 1 && IsHeadText(text) && !script.isSpaceDelimited(text)
    ensures HeadTexts(script, text, max) != [] && HeadTexts(script, text, max)[0] <= text
  {
    HeadTextsFit(script, text, max);
    UnspacedReproducesIff(script, text, max);
    FlattenOne(text);
  }

  // ----- the first two characters, whatever the limit -----

  lemma FirstCharacter(script: Script, text: string, max: nat)
    requires max >= 1 && IsHeadText(text)
    ensures HeadTexts(script, text, max) != [] && HeadTexts(script, text, max)[0] != ""
    ensures HeadTexts(script, text, max)[0][0] == text[0]
  {
    HeadTextsFit(script, text, max);
    if script.isSpaceDelimited(text) {
      FirstWordOf(text);
      SpacedBegins(script, text, max);
    } else {
      UnspacedBegins(script, text, max);
    }
  }

  predicate SecondIsSpace(piece: string) {
    |piece| >= 2 && piece[1] == ' '
  }

  /** When the first piece has a space in second place under some limit, then under every smaller one too, unless it has no
      second place. */
  lemma SpaceStaysSecond(script: Script, text: string, max: nat, less: nat)
    requires 1 <= less <= max && IsHeadText(text)
    requires HeadTexts(script, text, max) != [] && SecondIsSpace(HeadTexts(script, text, max)[0])
    ensures HeadTexts(script, text, less) != []
    ensures |HeadTexts(script, text, less)[0]| == 1 || SecondIsSpace(HeadTexts(script, text, less)[0])
  {
    FirstCharacter(script, text, less);
    if script.isSpaceDelimited(text) {
      FirstWordOf(text);
      SpacedBegins(script, text, max);
      SpacedBegins(script, text, less);
    } else {
      UnspacedBegins(script, text, max);
      UnspacedBegins(script, text, less);
    }
  }
}
