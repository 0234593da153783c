/** What a title becomes in a file name: its words of ASCII letters and digits, with single dashes between them
    (crates/bookforge-audio/src/stitch.rs:1289-1327). */
module TitleNames {
  import opened Strings
  import opened Sentences
  import opened StitchedNames

  /** The runs of ASCII letters and digits, `current` being the one begun. */
  function TitleWords(title: string, current: string): seq<string> {
    if title == "" then (if current == "" then [] else [current])
    else if IsAsciiAlphanumeric(title[0]) then TitleWords(title[1..], current + [title[0]])
    else (if current == "" then [] else [current]) + TitleWords(title[1..], "")
  }

  ghost predicate IsPlainWord(s: string) {
    forall k | 0 <= k < |s| :: IsAsciiAlphanumeric(s[k])
  }

  function TrimDashes(s: string): string {
    TrimDashesStart(TrimDashesEnd(s))
  }

  // ----- runs of dashes -----

  lemma {:induction false} WordBeforeRuns(current: string, rest: string)
    requires IsPlainWord(current)
    ensures SingleDashes(current + rest) == current + SingleDashes(rest)
  {
    var s := current + rest;
    if current == "" {
      assert s == rest;
    } else {
      assert s[1..] == current[1..] + rest && s[0] == current[0];
      WordBeforeRuns(current[1..], rest);
      assert current == [current[0]] + current[1..];
      Regroup([current[0]], current[1..], SingleDashes(rest));
    }
  }

  /** A dash before more dashes is swallowed, so one stands before what follows the run. */
  lemma {:induction false} DashBeforeRuns(rest: string)
    ensures SingleDashes("-" + rest) == (if rest != "" && rest[0] == '-' then SingleDashes(rest) else "-" + SingleDashes(rest))
  {
    assert ("-" + rest)[1..] == rest;
  }

  lemma {:induction false} TrimEndBehind(front: string, rest: string)
    ensures TrimDashesEnd(front + rest) == if TrimDashesEnd(rest) == "" then TrimDashesEnd(front) else front + TrimDashesEnd(rest)
  {
    var s := front + rest;
    if rest == "" {
      assert s == front;
    } else {
      assert s[|s| - 1] == rest[|rest| - 1] && s[..|s| - 1] == front + rest[..|rest| - 1];
      if rest[|rest| - 1] == '-' {
        TrimEndBehind(front, rest[..|rest| - 1]);
      }
    }
  }

  lemma WordStays(current: string)
    requires IsPlainWord(current)
    ensures TrimDashesEnd(current) == current && TrimDashesStart(current) == current
  {
    assert current != "" ==> IsAsciiAlphanumeric(current[0]) && IsAsciiAlphanumeric(current[|current| - 1]);
  }

  lemma {:induction false} RunsBeginSo(s: string)
    requires s != ""
    ensures SingleDashes(s) != "" && SingleDashes(s)[0] == s[0]
  {
    if |s| >= 2 && s[0] == '-' && s[1] == '-' {
      RunsBeginSo(s[1..]);
    }
  }

  /** Trimmed, a leading dash makes no difference. */
  lemma LeadingDash(s: string)
    ensures TrimDashes("-" + s) == TrimDashes(s)
  {
    TrimEndBehind("-", s);
    var t := TrimDashesEnd(s);
    if t != "" {
      assert ("-" + t)[1..] == t;
    } else {
      assert "-"[..0] == "" && TrimDashesEnd("-") == TrimDashesEnd("");
    }
  }

  /** A word, a run of dashes and the rest: trimmed, the rest follows behind one dash if anything is left of it. */
  lemma WordThenRest(current: string, runs: string)
    requires current != "" && IsPlainWord(current) && (runs != "" ==> runs[0] == '-')
    ensures TrimDashes(current + runs) == if TrimDashesEnd(runs) == "" then current else current + TrimDashesEnd(runs)
  {
    WordStays(current);
    TrimEndBehind(current, runs);
    var t := TrimDashesEnd(runs);
    assert (current + t)[0] == current[0] && IsAsciiAlphanumeric(current[0]);
  }

  lemma {:induction false} NoTwoDashes(s: string)
    ensures |SingleDashes(s)| >= 2 && SingleDashes(s)[0] == '-' ==> SingleDashes(s)[1] != '-'
  {
    if |s| >= 2 && s[0] == '-' && s[1] == '-' {
      NoTwoDashes(s[1..]);
    } else if |s| >= 2 {
      RunsBeginSo(s[1..]);
    }
  }

  lemma {:induction false} TrimEndIsPrefix(s: string)
    ensures TrimDashesEnd(s) <= s && (TrimDashesEnd(s) != "" ==> TrimDashesEnd(s)[|TrimDashesEnd(s)| - 1] != '-')
  {
    if s != "" && s[|s| - 1] == '-' {
      TrimEndIsPrefix(s[..|s| - 1]);
    }
  }

  /** What is left of a run of dashes and the text behind it is one dash and that text. */
  lemma OneDashIsLeft(runs: string)
    requires runs != "" && runs[0] == '-' && (|runs| >= 2 ==> runs[1] != '-')
    ensures TrimDashesEnd(runs) == if TrimDashes(runs) == "" then "" else "-" + TrimDashes(runs)
  {
    var t := TrimDashesEnd(runs);
    TrimEndIsPrefix(runs);
    if t != "" {
      assert t[0] == '-' && |t| >= 2 && t[1..][0] == t[1];
      assert TrimDashesStart(t) == t[1..];
    }
  }

  // ----- the words -----

  lemma {:induction false} WordsAreNotEmpty(title: string, current: string)
    ensures forall k | 0 <= k < |TitleWords(title, current)| :: TitleWords(title, current)[k] != ""
  {
    if title != "" {
      WordsAreNotEmpty(title[1..], current + [title[0]]);
      WordsAreNotEmpty(title[1..], "");
    }
  }

  lemma JoinedIsEmpty(words: seq<string>)
    requires forall k | 0 <= k < |words| :: words[k] != ""
    ensures JoinWith(words, "-") == "" <==> words == []
  {
    if words != [] {
      assert words[0] != "";
    }
  }

  lemma DashedTail(title: string)
    requires title != ""
    ensures Dashed(title) == [if IsAsciiAlphanumeric(title[0]) then title[0] else '-'] + Dashed(title[1..])
  {
  }

  /** The dash-separated title, trimmed, is its words with single dashes between them. */
  lemma {:induction false} DashedIsWords(title: string, current: string)
    requires IsPlainWord(current)
    ensures TrimDashes(SingleDashes(current + Dashed(title))) == JoinWith(TitleWords(title, current), "-")
    decreases |title|
  {
    if title == "" {
      WordBeforeRuns(current, "");
      WordStays(current);
      assert current + "" == current;
    } else if IsAsciiAlphanumeric(title[0]) {
      DashedTail(title);
      DashedIsWords(title[1..], current + [title[0]]);
      Regroup(current, [title[0]], Dashed(title[1..]));
    } else {
      DashedTail(title);
      DashedIsWords(title[1..], "");
      assert "" + Dashed(title[1..]) == Dashed(title[1..]);
      WordsAreNotEmpty(title[1..], "");
      WordThenWords(current, Dashed(title[1..]), TitleWords(title[1..], ""));
    }
  }

  lemma RunsBehindDash(rest: string)
    ensures var runs := SingleDashes("-" + rest);
      && runs != "" && runs[0] == '-' && TrimDashes(runs) == TrimDashes(SingleDashes(rest))
      && TrimDashesEnd(runs) == if TrimDashes(runs) == "" then "" else "-" + TrimDashes(runs)
  {
    DashBeforeRuns(rest);
    LeadingDash(SingleDashes(rest));
    RunsBeginSo("-" + rest);
    NoTwoDashes("-" + rest);
    OneDashIsLeft(SingleDashes("-" + rest));
  }

  lemma WordThenWords(current: string, rest: string, words: seq<string>)
    requires IsPlainWord(current) && TrimDashes(SingleDashes(rest)) == JoinWith(words, "-")
    requires forall k | 0 <= k < |words| :: words[k] != ""
    ensures TrimDashes(SingleDashes(current + ("-" + rest))) == JoinWith((if current == "" then [] else [current]) + words, "-")
  {
    var runs := SingleDashes("-" + rest);
    WordBeforeRuns(current, "-" + rest);
    RunsBehindDash(rest);
    JoinedIsEmpty(words);
    if current == "" {
      assert current + runs == runs && [] + words == words;
    } else {
      WordThenRest(current, runs);
      WordAhead(current, words);
    }
  }

  lemma WordAhead(current: string, words: seq<string>)
    ensures JoinWith([current] + words, "-") == if words == [] then current else current + ("-" + JoinWith(words, "-"))
  {
    if words != [] {
      assert ([current] + words)[1..] == words;
      assert current + ("-" + JoinWith(words, "-")) == current + "-" + JoinWith(words, "-");
    }
  }

  lemma {:induction false} CountConcat(a: string, b: string)
    ensures CountAlphanumeric(a + b) == CountAlphanumeric(a) + CountAlphanumeric(b)
  {
    if a == "" {
      assert a + b == b;
    } else {
      assert (a + b)[1..] == a[1..] + b;
      CountConcat(a[1..], b);
    }
  }

  lemma CountOfOne(ch: char)
    ensures CountAlphanumeric([ch]) == if IsAsciiAlphanumeric(ch) then 1 else 0
  {
    assert [ch][1..] == "";
  }

  lemma {:induction false} CountJoined(words: seq<string>)
    ensures CountAlphanumeric(JoinWith(words, "-")) == CountAlphanumeric(Flatten(words))
  {
    if |words| == 1 {
      FlattenOne(words[0]);
      assert words == [words[0]];
    } else if |words| > 1 {
      CountJoined(words[1..]);
      CountConcat(words[0] + "-", JoinWith(words[1..], "-"));
      CountConcat(words[0], "-");
      CountOfOne('-');
      CountConcat(words[0], Flatten(words[1..]));
    }
  }

  lemma {:induction false} CountWords(title: string, current: string)
    ensures CountAlphanumeric(Flatten(TitleWords(title, current))) == CountAlphanumeric(current) + CountAlphanumeric(title)
    decreases |title|
  {
    FlattenOne(current);
    if title != "" {
      if IsAsciiAlphanumeric(title[0]) {
        CountWords(title[1..], current + [title[0]]);
        CountConcat(current, [title[0]]);
        CountOfOne(title[0]);
      } else {
        CountWords(title[1..], "");
        if current != "" {
          CountConcat(current, Flatten(TitleWords(title[1..], "")));
          assert ([current] + TitleWords(title[1..], ""))[1..] == TitleWords(title[1..], "");
        } else {
          assert [] + TitleWords(title[1..], "") == TitleWords(title[1..], "");
        }
      }
    }
  }

  /** A title with at least three ASCII letters or digits becomes its words with single dashes between them, any other one
      its fallback: at most forty characters of it, in lower case. */
  lemma SanitizedIsWords(title: string, fallback: string -> string)
    ensures var chosen := if CountAlphanumeric(title) >= 3 then JoinWith(TitleWords(title, ""), "-") else fallback(title);
      Sanitized(title, fallback) == AsciiLower(if |chosen| <= 40 then chosen else chosen[..40])
  {
    assert "" + Dashed(title) == Dashed(title);
    DashedIsWords(title, "");
    CountWords(title, "");
    CountJoined(TitleWords(title, ""));
  }
}
