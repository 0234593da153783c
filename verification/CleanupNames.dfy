/** Which names a prune takes for a managed chunk or for debris, part by part
    (crates/bookforge-audio/src/cleanup.rs:31-110). */
module CleanupNames {
  import opened Options
  import opened Strings
  import opened Sentences
  import opened Numbers
  import opened Cleanup
  import opened StitchedNames

  // ----- managed chunks -----

  /** `chapter-<digits>-part-<digits>-<16 hexadecimal digits>.<extension>`, the extension in capitals or not. */
  ghost predicate HasChunkParts(name: string, chapter: string, part: string, hash: string, extension: string) {
    && name == ChunkStem(chapter, part, hash) + "." + extension
    && chapter != "" && AllDigits(chapter) && part != "" && AllDigits(part) && |hash| == 16 && AllHex(hash)
    && AsciiLower(extension) in {"mp3", "opus", "aac", "flac", "wav", "pcm"}
  }

  function ChunkStem(chapter: string, part: string, hash: string): string {
    "chapter" + ("-" + (chapter + ("-" + ("part" + ("-" + (part + ("-" + hash)))))))
  }

  lemma LowerKeepsDots(s: string)
    ensures '.' in AsciiLower(s) <==> '.' in s
  {
    assert |AsciiLower(s)| == |s|;
    if '.' in s {
      var k :| 0 <= k < |s| && s[k] == '.';
      assert AsciiLower(s)[k] == '.';
    }
    if '.' in AsciiLower(s) {
      var k :| 0 <= k < |s| && AsciiLower(s)[k] == '.';
      assert s[k] == '.';
    }
  }

  lemma NoDotInExtension(lowered: string)
    requires lowered in {"mp3", "opus", "aac", "flac", "wav", "pcm"}
    ensures '.' !in lowered
  {
  }

  lemma PartsOfStem(chapter: string, part: string, hash: string)
    requires AllDigits(chapter) && AllDigits(part) && AllHex(hash)
    ensures SplitDashes("", ChunkStem(chapter, part, hash)) == ["chapter", chapter, "part", part, hash]
  {
    var rest4 := part + ("-" + hash);
    var rest3 := "part" + ("-" + rest4);
    SplitBeforeDash("", "chapter", chapter + ("-" + rest3));
    SplitBeforeDash("", chapter, rest3);
    SplitBeforeDash("", "part", rest4);
    SplitBeforeDash("", part, hash);
    SplitWithoutDash("", hash);
    assert "" + "chapter" == "chapter" && "" + "part" == "part";
    assert "" + chapter == chapter && "" + part == part && "" + hash == hash;
    assert ["chapter"] + ([chapter] + (["part"] + ([part] + [hash]))) == ["chapter", chapter, "part", part, hash];
  }

  lemma JoinOfFive(parts: seq<string>)
    requires |parts| == 5 && parts[0] == "chapter" && parts[2] == "part"
    ensures JoinWith(parts, "-") == ChunkStem(parts[1], parts[3], parts[4])
  {
    var tail := parts[2..];
    JoinOfThree(tail);
    assert tail[0] == "part" && tail[1] == parts[3] && tail[2] == parts[4];
    assert parts[1..][1..] == tail && parts[1..][0] == parts[1];
    JoinOfMore(parts[1..]);
    JoinOfMore(parts);
    assert JoinWith(tail, "-") == "part" + ("-" + (parts[3] + ("-" + parts[4])));
    assert JoinWith(parts[1..], "-") == parts[1] + ("-" + JoinWith(tail, "-"));
  }

  lemma JoinOfMore(parts: seq<string>)
    requires |parts| > 1
    ensures JoinWith(parts, "-") == parts[0] + ("-" + JoinWith(parts[1..], "-"))
  {
    var later := JoinWith(parts[1..], "-");
    assert parts[0] + "-" + later == parts[0] + ("-" + later);
  }

  lemma NameAroundDot(name: string, dot: nat)
    requires dot < |name| && name[dot] == '.'
    ensures name == name[..dot] + "." + name[dot + 1..]
  {
    assert name[dot..dot + 1] == ".";
  }

  /** A name is taken for a managed chunk if and only if it has all parts of one, and none besides. */
  lemma ManagedIff(name: string)
    ensures IsManagedChunkName(name) <==> exists chapter, part, hash, extension :: HasChunkParts(name, chapter, part, hash, extension)
  {
    if IsManagedChunkName(name) {
      var dot := LastDot(name);
      var parts := SplitDashes("", name[..dot]);
      SplitJoins("", name[..dot]);
      assert "" + name[..dot] == name[..dot];
      JoinOfFive(parts);
      NameAroundDot(name, dot);
      assert HasChunkParts(name, parts[1], parts[3], parts[4], name[dot + 1..]);
    }
    forall chapter, part, hash, extension | HasChunkParts(name, chapter, part, hash, extension) ensures IsManagedChunkName(name) {
      PartsAreManaged(name, chapter, part, hash, extension);
    }
  }

  lemma PartsAreManaged(name: string, chapter: string, part: string, hash: string, extension: string)
    requires HasChunkParts(name, chapter, part, hash, extension)
    ensures IsManagedChunkName(name)
  {
    var stem := ChunkStem(chapter, part, hash);
    LowerKeepsDots(extension);
    NoDotInExtension(AsciiLower(extension));
    LastDotOf(stem, extension);
    assert name[..|stem|] == stem && name[|stem| + 1..] == extension;
    PartsOfStem(chapter, part, hash);
  }

  // ----- debris -----

  /** What a name of debris looks like, in capitals or not: an unfinished or replaced file, a hidden partial file, a
      normalized chapter, or a list made for the assembly of the book. */
  ghost predicate LooksLikeDebris(name: string) {
    var lowered := AsciiLower(name);
    || (exists front :: lowered == front + ".part.tmp")
    || (exists front :: lowered == front + ".replace.bak")
    || (name != "" && name[0] == '.' && exists front, rest :: lowered == front + (".part." + rest))
    || (exists rest :: lowered == ".normalized-chapter-" + rest)
    || (exists front :: lowered == front + ".concat.txt")
    || lowered == "chapters.ffmeta.txt"
  }

  lemma EndIff(s: string, suffix: string)
    ensures EndsWith(s, suffix) <==> exists front :: s == front + suffix
  {
    if EndsWith(s, suffix) {
      assert s == s[..|s| - |suffix|] + suffix;
    }
  }

  lemma BeginIff(s: string, prefix: string)
    ensures StartsWith(s, prefix) <==> exists rest :: s == prefix + rest
  {
    if StartsWith(s, prefix) {
      assert s == prefix + s[|prefix|..];
    }
  }

  lemma ContainsIff(s: string, part: string)
    ensures Contains(s, part) <==> exists front, rest :: s == front + (part + rest)
  {
    if Contains(s, part) {
      var i :| 0 <= i <= |s| && part <= s[i..];
      assert s[i..] == part + s[i..][|part|..] && s == s[..i] + s[i..];
    }
    forall front, rest | s == front + (part + rest) ensures Contains(s, part) {
      assert s[|front|..] == part + rest;
    }
  }

  /** A name is taken for debris if and only if it looks like it and is neither a lock nor the manifest. */
  lemma DebrisIff(name: string)
    ensures IsDebrisName(name) <==> LooksLikeDebris(name) && !(exists front :: name == front + ".lock") && name != "manifest.json"
  {
    var lowered := AsciiLower(name);
    EndIff(lowered, ".part.tmp");
    EndIff(lowered, ".replace.bak");
    EndIff(lowered, ".concat.txt");
    EndIff(name, ".lock");
    ContainsIff(lowered, ".part.");
    BeginIff(lowered, ".normalized-chapter-");
    FirstDot(name);
    LocksEndInLock(name);
  }

  lemma FirstDot(name: string)
    ensures StartsWith(name, ".") <==> name != "" && name[0] == '.'
  {
    if name != "" && name[0] == '.' {
      assert "." <= name;
    }
  }

  lemma LocksEndInLock(name: string)
    ensures IsProtectedLockName(name) <==> EndsWith(name, ".lock")
  {
    var long := ".bookforge-audio.lock";
    assert EndsWith(long, ".lock");
    if EndsWith(name, long) {
      assert name[|name| - 5..] == long[|long| - 5..];
    }
  }
}
