/** The names of stitched chapter files, and when a prune takes one for a stale chunk
    (crates/bookforge-audio/src/stitch.rs:404-419, 1289-1327; crates/bookforge-audio/src/cleanup.rs:31-57). */
module StitchedNames {
  import opened Options
  import opened Strings
  import opened Sentences
  import opened Numbers
  import opened Cleanup

  // ----- from a title to a file name -----

  predicate IsAsciiAlphanumeric(ch: char) {
    'a' <= ch <= 'z' || 'A' <= ch <= 'Z' || '0' <= ch <= '9'
  }

  /** Every character that is no ASCII letter or digit becomes a dash. */
  function Dashed(title: string): string {
    seq(|title|, i requires 0 <= i < |title| => if IsAsciiAlphanumeric(title[i]) then title[i] else '-')
  }

  predicate HasDoubleDash(s: string) {
    |s| >= 2 && ((s[0] == '-' && s[1] == '-') || HasDoubleDash(s[1..]))
  }

  /** `replace("--", "-")`. */
  function ReplaceDashes(s: string): string {
    if s == "" then ""
    else if |s| >= 2 && s[0] == '-' && s[1] == '-' then "-" + ReplaceDashes(s[2..])
    else [s[0]] + ReplaceDashes(s[1..])
  }

  /** One dash for every run of dashes. */
  function SingleDashes(s: string): string {
    if s == "" then ""
    else if |s| >= 2 && s[0] == '-' && s[1] == '-' then SingleDashes(s[1..])
    else [s[0]] + SingleDashes(s[1..])
  }

  lemma {:induction false} ReplaceKeepsRuns(s: string)
    ensures SingleDashes(ReplaceDashes(s)) == SingleDashes(s)
    ensures |ReplaceDashes(s)| <= |s| && (s != "" ==> ReplaceDashes(s) != "" && ReplaceDashes(s)[0] == s[0])
    ensures HasDoubleDash(s) ==> |ReplaceDashes(s)| < |s|
  {
    if |s| >= 2 && s[0] == '-' && s[1] == '-' {
      ReplaceKeepsRuns(s[2..]);
      var rest := ReplaceDashes(s[2..]);
      assert ("-" + rest)[1..] == rest && s[1..][1..] == s[2..];
    } else if s != "" {
      ReplaceKeepsRuns(s[1..]);
      assert ([s[0]] + ReplaceDashes(s[1..]))[1..] == ReplaceDashes(s[1..]);
    }
  }

  lemma {:induction false} NothingToCollapse(s: string)
    requires !HasDoubleDash(s)
    ensures SingleDashes(s) == s
  {
    if s != "" {
      NothingToCollapse(s[1..]);
    }
  }

  /** Replacing pairs until none is left turns every run of dashes into one. */
  method CollapseDashes(s: string) returns (collapsed: string)
    ensures collapsed == SingleDashes(s) && !HasDoubleDash(collapsed)
  {
    collapsed := s;
    while HasDoubleDash(collapsed)
      invariant SingleDashes(collapsed) == SingleDashes(s)
      decreases |collapsed|
    {
      ReplaceKeepsRuns(collapsed);
      collapsed := ReplaceDashes(collapsed);
    }
    NothingToCollapse(collapsed);
  }

  function TrimDashesStart(s: string): string {
    if s != "" && s[0] == '-' then TrimDashesStart(s[1..]) else s
  }

  function TrimDashesEnd(s: string): string {
    if s != "" && s[|s| - 1] == '-' then TrimDashesEnd(s[..|s| - 1]) else s
  }

  function CountAlphanumeric(s: string): nat {
    if s == "" then 0 else (if IsAsciiAlphanumeric(s[0]) then 1 else 0) + CountAlphanumeric(s[1..])
  }

  const LONGEST_TITLE: nat := 40

  function Sanitized(title: string, fallback: string -> string): string {
    var trimmed := TrimDashesStart(TrimDashesEnd(SingleDashes(Dashed(title))));
    var chosen := if CountAlphanumeric(trimmed) < 3 then fallback(title) else trimmed;
    AsciiLower(if |chosen| > LONGEST_TITLE then chosen[..LONGEST_TITLE] else chosen)
  }

  method SanitizeFilename(title: string, fallback: string -> string) returns (name: string)
    ensures name == Sanitized(title, fallback)
  {
    var dashed := CollapseDashes(Dashed(title));
    var trimmed := TrimDashesStart(TrimDashesEnd(dashed));
    if CountAlphanumeric(trimmed) < 3 {
      trimmed := fallback(title);
    }
    name := AsciiLower(if |trimmed| > LONGEST_TITLE then trimmed[..LONGEST_TITLE] else trimmed);
  }

  function StitchedStem(c: nat, s: string): string {
    "chapter" + ("-" + (Padded(c + 1) + ("-" + s)))
  }

  function StitchedName(c: nat, title: string, fallback: string -> string, extension: string): string {
    StitchedStem(c, Sanitized(title, fallback)) + "." + extension
  }

  // ----- the shape of the name -----

  /** `part-<digits>-<16 hexadecimal digits>`. */
  ghost predicate LooksLikePart(s: string) {
    exists digits, hash | s == "part" + ("-" + (digits + ("-" + hash))) ::
      digits != "" && AllDigits(digits) && |hash| == 16 && AllHex(hash)
  }

  lemma {:induction false} SplitJoins(begun: string, s: string)
    ensures SplitDashes(begun, s) != []
    ensures JoinWith(SplitDashes(begun, s), "-") == begun + s
    decreases s
  {
    if s == "" {
      assert begun + s == begun;
    } else if s[0] == '-' {
      SplitJoins("", s[1..]);
      assert ([begun] + SplitDashes("", s[1..]))[1..] == SplitDashes("", s[1..]);
      assert begun + "-" + ("" + s[1..]) == begun + s;
    } else {
      SplitJoins(begun + [s[0]], s[1..]);
      assert begun + [s[0]] + s[1..] == begun + s;
    }
  }

  lemma StitchedParts(c: nat, s: string)
    ensures SplitDashes("", StitchedStem(c, s)) == ["chapter", Padded(c + 1)] + SplitDashes("", s)
  {
    var index := Padded(c + 1);
    SplitBeforeDash("", "chapter", index + ("-" + s));
    SplitBeforeDash("", index, s);
    assert "" + "chapter" == "chapter" && "" + index == index;
    Regroup(["chapter"], [index], SplitDashes("", s));
  }

  lemma JoinOfThree(parts: seq<string>)
    requires |parts| == 3
    ensures JoinWith(parts, "-") == parts[0] + ("-" + (parts[1] + ("-" + parts[2])))
  {
    var a, b, c := parts[0], parts[1], parts[2];
    assert parts[1..] == [b, c] && [b, c][1..] == [c];
    assert JoinWith([b, c], "-") == b + "-" + c;
    assert a + "-" + (b + "-" + c) == a + ("-" + (b + ("-" + c)));
  }

  lemma StemIsManagedIff(c: nat, s: string)
    ensures IsManagedStem(SplitDashes("", StitchedStem(c, s))) <==> LooksLikePart(s)
  {
    var rest := SplitDashes("", s);
    StitchedParts(c, s);
    SplitJoins("", s);
    assert "" + s == s;
    if IsManagedStem(["chapter", Padded(c + 1)] + rest) {
      JoinOfThree(rest);
      assert s == "part" + ("-" + (rest[1] + ("-" + rest[2])));
    }
    if LooksLikePart(s) {
      var digits, hash :| s == "part" + ("-" + (digits + ("-" + hash)))
        && digits != "" && AllDigits(digits) && |hash| == 16 && AllHex(hash);
      SplitPart(digits, hash);
    }
  }

  lemma SplitPart(digits: string, hash: string)
    requires AllDigits(digits) && AllHex(hash)
    ensures SplitDashes("", "part" + ("-" + (digits + ("-" + hash)))) == ["part", digits, hash]
  {
    SplitBeforeDash("", "part", digits + ("-" + hash));
    SplitBeforeDash("", digits, hash);
    SplitWithoutDash("", hash);
    assert "" + "part" == "part" && "" + digits == digits && "" + hash == hash;
    assert ["part"] + ([digits] + [hash]) == ["part", digits, hash];
  }

  // ----- when a prune lists it -----

  lemma StitchedNameParts(c: nat, s: string, extension: string)
    requires extension in MANAGED_EXTENSIONS
    ensures var name := StitchedStem(c, s) + "." + extension;
      && (IsManagedChunkName(name) <==> LooksLikePart(s))
      && !IsDebrisName(name)
  {
    var stem := StitchedStem(c, s);
    var name := stem + "." + extension;
    ManagedExtension(extension);
    LastDotOf(stem, extension);
    assert name[..|stem|] == stem && name[|stem| + 1..] == extension;
    StemIsManagedIff(c, s);
    PlainEnds(extension);
    LastOfConcat(stem + ".", extension);
    PlainNameIsNotDebris(name);
  }

  lemma ManagedExtension(extension: string)
    requires extension in MANAGED_EXTENSIONS
    ensures '.' !in extension && AsciiLower(extension) == extension
  {
  }

  /** A stitched chapter file is listed for pruning exactly when its chapter's title, made a file name, reads like the rest
      of a chunk's name and the plan has no chunk of that very name. */
  lemma StitchedFileIsListedIff(c: nat, title: string, fallback: string -> string, extension: string, bytes: nat, kept: set<string>)
    requires extension in MANAGED_EXTENSIONS
    ensures var name := StitchedName(c, title, fallback, extension);
      IsListed(Entry(Some(name), true, bytes), kept) <==> LooksLikePart(Sanitized(title, fallback)) && name !in kept
  {
    StitchedNameParts(c, Sanitized(title, fallback), extension);
  }

  /** Stitched names of different chapters differ, whatever their titles. */
  lemma StitchedNameDetermines(c1: nat, title1: string, c2: nat, title2: string, fallback: string -> string, extension: string)
    requires '.' !in extension
    requires StitchedName(c1, title1, fallback, extension) == StitchedName(c2, title2, fallback, extension)
    ensures c1 == c2
  {
    var s1, s2 := Sanitized(title1, fallback), Sanitized(title2, fallback);
    StemOfName(c1, s1, extension);
    StemOfName(c2, s2, extension);
    IndexOfStem(c1, s1);
    IndexOfStem(c2, s2);
    PaddedIsInjective(c1 + 1, c2 + 1);
  }

  lemma IndexOfStem(c: nat, s: string)
    ensures var parts := SplitDashes("", StitchedStem(c, s)); |parts| > 1 && parts[1] == Padded(c + 1)
  {
    StitchedParts(c, s);
  }

  lemma StemOfName(c: nat, s: string, extension: string)
    requires '.' !in extension
    ensures var name := StitchedStem(c, s) + "." + extension;
      LastDot(name) == |StitchedStem(c, s)| && name[..LastDot(name)] == StitchedStem(c, s)
  {
    LastDotOf(StitchedStem(c, s), extension);
  }

  // ----- such titles -----

  function PartTitle(digits: string, hash: string): string {
    "part " + digits + " " + hash
  }

  predicate IsLowerHex(s: string) {
    AllHex(s) && forall k | 0 <= k < |s| :: !('A' <= s[k] <= 'F')
  }

  /** A title such as "part 002 0123456789abcdef" makes one. */
  lemma PartTitleIsListed(c: nat, digits: string, hash: string, fallback: string -> string, extension: string, bytes: nat,
                          kept: set<string>)
    requires extension in MANAGED_EXTENSIONS
    requires digits != "" && |digits| <= 18 && AllDigits(digits) && |hash| == 16 && IsLowerHex(hash)
    requires StitchedName(c, PartTitle(digits, hash), fallback, extension) !in kept
    ensures IsListed(Entry(Some(StitchedName(c, PartTitle(digits, hash), fallback, extension)), true, bytes), kept)
  {
    PartTitleSanitized(digits, hash, fallback);
    assert PartName(digits, hash) == "part" + ("-" + (digits + ("-" + hash)));
    assert LooksLikePart(PartName(digits, hash));
    StitchedFileIsListedIff(c, PartTitle(digits, hash), fallback, extension, bytes, kept);
  }

  function PartName(digits: string, hash: string): string {
    "part" + ("-" + (digits + ("-" + hash)))
  }

  lemma PartNameShape(digits: string, hash: string)
    requires digits != "" && AllDigits(digits) && |hash| == 16 && IsLowerHex(hash)
    ensures var s := PartName(digits, hash);
      && |s| == |digits| + 22 && s[..4] == "part" && s[|s| - 1] == hash[15]
      && (forall k | 0 <= k < |s| - 1 :: s[k] != '-' || s[k + 1] != '-')
      && (forall k | 0 <= k < |s| :: !('A' <= s[k] <= 'Z'))
  {
    var s := PartName(digits, hash);
    assert s[..4] == "part" && s[4] == '-' && s[5..5 + |digits|] == digits && s[5 + |digits|] == '-' && s[6 + |digits|..] == hash;
    forall k | 0 <= k < |s| && k != 4 && k != 5 + |digits| ensures s[k] != '-' && !('A' <= s[k] <= 'Z') {
      if k < 4 {
        assert s[k] == "part"[k];
      } else if k < 5 + |digits| {
        assert s[k] == digits[k - 5];
      } else {
        assert s[k] == hash[k - 6 - |digits|];
      }
    }
  }

  lemma DashedTitle(digits: string, hash: string)
    requires AllDigits(digits) && AllHex(hash)
    ensures Dashed(PartTitle(digits, hash)) == PartName(digits, hash)
  {
    DashedConcat("part ", digits + " " + hash);
    DashedConcat(digits, " " + hash);
    DashedConcat(" ", hash);
    assert PartTitle(digits, hash) == "part " + (digits + " " + hash) && digits + " " + hash == digits + (" " + hash);
    assert Dashed(digits) == digits && Dashed(hash) == hash && Dashed(" ") == "-" && Dashed("part ") == "part-";
    assert "part-" + (digits + ("-" + hash)) == PartName(digits, hash);
  }

  lemma DashedConcat(a: string, b: string)
    ensures Dashed(a + b) == Dashed(a) + Dashed(b)
  {
  }

  lemma PartTitleSanitized(digits: string, hash: string, fallback: string -> string)
    requires digits != "" && |digits| <= 18 && AllDigits(digits) && |hash| == 16 && IsLowerHex(hash)
    ensures Sanitized(PartTitle(digits, hash), fallback) == PartName(digits, hash)
  {
    var s := PartName(digits, hash);
    DashedTitle(digits, hash);
    PartNameShape(digits, hash);
    NoDoubleDash(s);
    NothingToCollapse(s);
    assert s[0] == "part"[0] && s[|s| - 1] != '-';
    FourLetters(s);
    AlreadyLower(s);
  }

  lemma AlreadyLower(s: string)
    requires forall k | 0 <= k < |s| :: !('A' <= s[k] <= 'Z')
    ensures AsciiLower(s) == s
  {
  }

  lemma {:induction false} NoDoubleDash(s: string)
    requires forall k | 0 <= k < |s| - 1 :: s[k] != '-' || s[k + 1] != '-'
    ensures !HasDoubleDash(s)
  {
    if s != "" {
      forall k | 0 <= k < |s[1..]| - 1 ensures s[1..][k] != '-' || s[1..][k + 1] != '-' {
        assert s[k + 1] != '-' || s[k + 2] != '-';
      }
      NoDoubleDash(s[1..]);
    }
  }

  lemma FourLetters(s: string)
    requires |s| >= 4 && s[..4] == "part"
    ensures CountAlphanumeric(s) >= 3
  {
    assert s[0] == s[..4][0] && s[1] == s[..4][1] && s[2] == s[..4][2];
    assert s[1..][0] == s[1] && s[1..][1..] == s[2..] && s[2..][0] == s[2];
    assert CountAlphanumeric(s) == 1 + CountAlphanumeric(s[1..]);
    assert CountAlphanumeric(s[1..]) == 1 + CountAlphanumeric(s[2..]);
    assert CountAlphanumeric(s[2..]) >= 1;
  }
}
