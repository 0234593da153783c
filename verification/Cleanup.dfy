/** Which files a prune may delete (crates/bookforge-audio/src/cleanup.rs:19-141). */
module Cleanup {
  import opened Options
  import opened Strings
  import opened Sentences
  import opened Numbers
  import opened Planning
  import opened PlanProperties
  import Sorting

  const LOCK_FILE_NAME := ".bookforge-audio.lock"
  const MANIFEST_NAME := "manifest.json"
  const MANAGED_EXTENSIONS: set<string> := {"mp3", "opus", "aac", "flac", "wav", "pcm"}

  // ----- string searches -----

  predicate EndsWith(s: string, suffix: string) {
    |suffix| <= |s| && s[|s| - |suffix|..] == suffix
  }

  predicate StartsWith(s: string, prefix: string) {
    prefix <= s
  }

  predicate Contains(s: string, part: string) {
    exists i | 0 <= i <= |s| :: part <= s[i..]
  }

  /** The index of the last dot, or |s| when there is none. */
  function LastDot(s: string): (r: nat)
    ensures r <= |s| && (r < |s| ==> s[r] == '.')
  {
    if s == "" then 0
    else if s[|s| - 1] == '.' then |s| - 1
    else
      var r := LastDot(s[..|s| - 1]);
      if r == |s| - 1 then |s| else r
  }

  /** `split('-')`: the parts between dashes, `begun` being what the first one started with. */
  function SplitDashes(begun: string, s: string): seq<string>
    decreases s
  {
    if s == "" then [begun]
    else if s[0] == '-' then [begun] + SplitDashes("", s[1..])
    else SplitDashes(begun + [s[0]], s[1..])
  }

  predicate IsHexDigit(ch: char) {
    '0' <= ch <= '9' || 'a' <= ch <= 'f' || 'A' <= ch <= 'F'
  }

  predicate AllHex(s: string) {
    forall k | 0 <= k < |s| :: IsHexDigit(s[k])
  }

  // ----- the name predicates -----

  predicate IsManagedStem(parts: seq<string>) {
    && |parts| == 5 && parts[0] == "chapter" && parts[2] == "part"
    && parts[1] != "" && AllDigits(parts[1])
    && parts[3] != "" && AllDigits(parts[3])
    && |parts[4]| == 16 && AllHex(parts[4])
  }

  predicate IsManagedChunkName(name: string) {
    var dot := LastDot(name);
    && dot < |name|
    && AsciiLower(name[dot + 1..]) in MANAGED_EXTENSIONS
    && IsManagedStem(SplitDashes("", name[..dot]))
  }

  predicate IsProtectedLockName(name: string) {
    name == LOCK_FILE_NAME || EndsWith(name, ".bookforge-audio.lock") || EndsWith(name, ".lock")
  }

  predicate IsDebrisName(name: string) {
    if IsProtectedLockName(name) || name == MANIFEST_NAME then false
    else
      var lowered := AsciiLower(name);
      || EndsWith(lowered, ".part.tmp")
      || EndsWith(lowered, ".replace.bak")
      || (StartsWith(name, ".") && Contains(lowered, ".part."))
      || StartsWith(lowered, ".normalized-chapter-")
      || EndsWith(lowered, ".concat.txt")
      || lowered == "chapters.ffmeta.txt"
  }

  // ----- listing -----

  /** A directory entry; a name that is not text is None. */
  datatype Entry = Entry(name: Option<string>, isFile: bool, bytes: nat)

  predicate IsListed(entry: Entry, kept: set<string>) {
    && entry.isFile && entry.name.Some?
    && (IsDebrisName(entry.name.value) || (IsManagedChunkName(entry.name.value) && entry.name.value !in kept))
  }

  function Kept(plan: seq<PlannedChunk>): set<string> {
    set k | 0 <= k < |plan| :: plan[k].file
  }

  ghost function ListedNames(entries: seq<Entry>, kept: set<string>): set<string> {
    set k | 0 <= k < |entries| && IsListed(entries[k], kept) :: entries[k].name.value
  }

  ghost predicate NamesAreDistinct(entries: seq<Entry>) {
    forall i, j | 0 <= i < j < |entries| && entries[i].name.Some? :: entries[i].name != entries[j].name
  }

  /** List the debris and the managed chunks outside the plan, in name order. */
  method FindStaleChunks(entries: seq<Entry>, plan: seq<PlannedChunk>) returns (stale: seq<string>)
    requires NamesAreDistinct(entries)
    ensures Sorting.Ascending(stale) && Sorting.Elements(stale) == ListedNames(entries, Kept(plan))
  {
    var kept := Kept(plan);
    stale := [];
    for k := 0 to |entries|
      invariant Sorting.Elements(stale) == ListedNames(entries[..k], kept)
      invariant forall i, j | 0 <= i < j < |stale| :: stale[i] != stale[j]
    {
      ListOneMore(entries, k, kept);
      if IsListed(entries[k], kept) {
        var name := entries[k].name.value;
        Sorting.InsertedElements(stale, |stale|, name);
        assert stale[..|stale|] + [name] + stale[|stale|..] == stale + [name];
        assert forall i | 0 <= i < |stale| :: stale[i] in Sorting.Elements(stale);
        stale := stale + [name];
      }
    }
    assert entries[..|entries|] == entries;
    stale := Sorting.Sort(stale);
  }

  lemma ListOneMore(entries: seq<Entry>, k: nat, kept: set<string>)
    requires k < |entries|
    ensures ListedNames(entries[..k + 1], kept)
         == ListedNames(entries[..k], kept) + (if IsListed(entries[k], kept) then {entries[k].name.value} else {})
  {
    var before, now := entries[..k], entries[..k + 1];
    assert forall i | 0 <= i < k :: now[i] == before[i];
    assert now[k] == entries[k];
  }

  // ----- planned names -----

  lemma {:induction false} SplitBeforeDash(begun: string, part: string, rest: string)
    requires '-' !in part
    ensures SplitDashes(begun, part + ("-" + rest)) == [begun + part] + SplitDashes("", rest)
    decreases |part|
  {
    var s := part + ("-" + rest);
    if part == "" {
      assert s[1..] == rest && begun + part == begun;
    } else {
      assert s[0] == part[0] && s[1..] == part[1..] + ("-" + rest);
      SplitBeforeDash(begun + [part[0]], part[1..], rest);
      assert begun + [part[0]] + part[1..] == begun + part;
    }
  }

  lemma {:induction false} SplitWithoutDash(begun: string, part: string)
    requires '-' !in part
    ensures SplitDashes(begun, part) == [begun + part]
    decreases |part|
  {
    if part == "" {
      assert begun + part == begun;
    } else {
      SplitWithoutDash(begun + [part[0]], part[1..]);
      assert begun + [part[0]] + part[1..] == begun + part;
    }
  }

  lemma {:induction false} LastDotOf(stem: string, extension: string)
    requires '.' !in extension
    ensures LastDot(stem + "." + extension) == |stem|
    decreases |extension|
  {
    var s := stem + "." + extension;
    if extension == "" {
      assert s[|s| - 1] == '.';
    } else {
      var front := extension[..|extension| - 1];
      assert s[|s| - 1] == extension[|extension| - 1] && s[..|s| - 1] == stem + "." + front;
      LastDotOf(stem, front);
    }
  }

  function Stem(c: nat, p: nat, hash16: string): string {
    "chapter-" + (Padded(c + 1) + ("-" + ("part-" + (Padded(p) + ("-" + hash16)))))
  }

  lemma StemIsManaged(c: nat, p: nat, hash16: string)
    requires |hash16| == 16 && AllHex(hash16)
    ensures IsManagedStem(SplitDashes("", Stem(c, p, hash16)))
  {
    var rest4 := Padded(p) + ("-" + hash16);
    var rest3 := "part" + ("-" + rest4);
    var rest2 := Padded(c + 1) + ("-" + rest3);
    assert "part-" + rest4 == rest3;
    assert Stem(c, p, hash16) == "chapter" + ("-" + rest2);
    SplitBeforeDash("", "chapter", rest2);
    SplitBeforeDash("", Padded(c + 1), rest3);
    SplitBeforeDash("", "part", rest4);
    SplitBeforeDash("", Padded(p), hash16);
    SplitWithoutDash("", hash16);
  }

  lemma LowerOfExtension(format: Format)
    ensures AsciiLower(format.Extension()) == format.Extension() && '.' !in format.Extension()
    ensures format.Extension() in MANAGED_EXTENSIONS
  {
  }

  lemma NameIsStemAndExtension(c: nat, p: nat, hash: string, extension: string)
    requires |hash| >= 16
    ensures FileName(c, p, hash, extension) == Stem(c, p, hash[..16]) + "." + extension
  {
    NameInTwo(Padded(c + 1), Padded(p), hash[..16], extension);
  }

  lemma NameInTwo(a: string, b: string, h: string, e: string)
    ensures "chapter-" + (a + ("-part-" + (b + ("-" + h + "." + e))))
         == "chapter-" + (a + ("-" + ("part-" + (b + ("-" + h))))) + "." + e
  {
    var tail := "." + e;
    var whole := "chapter-" + (a + ("-" + ("part-" + (b + ("-" + h)))));
    assert "-" + h + "." + e == "-" + (h + tail);
    assert "-part-" + (b + ("-" + (h + tail))) == "-" + ("part-" + (b + ("-" + (h + tail))));
    Regroup(whole, ".", e);
  }

  /** A planned name is recognised as a managed chunk, so an outdated one will be listed. */
  lemma PlannedNameIsManaged(c: nat, p: nat, hash: string, format: Format)
    requires |hash| >= 16 && AllHex(hash[..16])
    ensures IsManagedChunkName(FileName(c, p, hash, format.Extension()))
  {
    var stem, extension := Stem(c, p, hash[..16]), format.Extension();
    var name := FileName(c, p, hash, extension);
    NameIsStemAndExtension(c, p, hash, extension);
    LowerOfExtension(format);
    LastDotOf(stem, extension);
    assert name[..|stem|] == stem && name[|stem| + 1..] == extension;
    StemIsManaged(c, p, hash[..16]);
  }

  /** A planned name is neither debris nor a lock: no scratch name begins or ends as it does. */
  lemma PlannedNameIsNotDebris(c: nat, p: nat, hash: string, format: Format)
    ensures !IsDebrisName(FileName(c, p, hash, format.Extension()))
    ensures !IsProtectedLockName(FileName(c, p, hash, format.Extension()))
  {
    NameEnds(c, p, hash, format.Extension());
    PlainNameIsNotDebris(FileName(c, p, hash, format.Extension()));
  }

  lemma LowerAt(s: string, k: nat)
    requires k < |s| && !('A' <= s[k] <= 'Z')
    ensures |AsciiLower(s)| == |s| && AsciiLower(s)[k] == s[k]
  {
  }

  /** A name that begins and ends like a planned one is no scratch name and no lock. */
  lemma PlainNameIsNotDebris(name: string)
    requires name != "" && name[0] == 'c'
    requires IsPlainEnd(name[|name| - 1])
    ensures !IsDebrisName(name) && !IsProtectedLockName(name)
  {
    LowerAt(name, 0);
    LowerAt(name, |name| - 1);
    NoScratchEnd(name);
    NoScratchEnd(AsciiLower(name));
    assert ".normalized-chapter-"[0] == '.' && LOCK_FILE_NAME[0] == '.' && "."[0] == '.';
    assert "chapters.ffmeta.txt"[18] == 't' && |"chapters.ffmeta.txt"| == 19;
  }

  predicate IsPlainEnd(ch: char) {
    ch == '3' || ch == 's' || ch == 'c' || ch == 'v' || ch == 'm'
  }

  lemma NoScratchEnd(name: string)
    requires name != "" && IsPlainEnd(name[|name| - 1])
    ensures forall suffix | suffix in {".part.tmp", ".replace.bak", ".concat.txt", ".lock", ".bookforge-audio.lock"} :: !EndsWith(name, suffix)
  {
    forall suffix | suffix in {".part.tmp", ".replace.bak", ".concat.txt", ".lock", ".bookforge-audio.lock"}
      ensures !EndsWith(name, suffix)
    {
      assert suffix[|suffix| - 1] in {'p', 'k', 't'};
      if EndsWith(name, suffix) {
      }
    }
  }

  lemma NameEnds(c: nat, p: nat, hash: string, extension: string)
    requires extension in MANAGED_EXTENSIONS
    ensures FileName(c, p, hash, extension) != ""
    ensures FileName(c, p, hash, extension)[|FileName(c, p, hash, extension)| - 1] == extension[|extension| - 1]
    ensures IsPlainEnd(extension[|extension| - 1])
    ensures FileName(c, p, hash, extension)[0] == 'c'
  {
    var middle := Padded(c + 1) + ("-part-" + (Padded(p) + ("-" + Sixteen(hash) + ".")));
    NameInThree(Padded(c + 1), Padded(p), "-" + Sixteen(hash) + ".", extension);
    assert FileName(c, p, hash, extension) == "chapter-" + middle + extension;
    PlainEnds(extension);
    LastOfConcat("chapter-" + middle, extension);
    assert ("chapter-" + middle + extension)[0] == "chapter-"[0];
  }

  lemma NameInThree(a: string, b: string, c: string, extension: string)
    ensures "chapter-" + (a + ("-part-" + (b + (c + extension)))) == "chapter-" + (a + ("-part-" + (b + c))) + extension
  {
    Regroup(b, c, extension);
    Regroup("-part-", b + c, extension);
    Regroup(a, "-part-" + (b + c), extension);
    Regroup("chapter-", a + ("-part-" + (b + c)), extension);
  }

  lemma LastOfConcat(s: string, end: string)
    requires end != ""
    ensures (s + end)[|s + end| - 1] == end[|end| - 1]
  {
  }

  lemma PlainEnds(extension: string)
    requires extension in MANAGED_EXTENSIONS
    ensures extension != "" && IsPlainEnd(extension[|extension| - 1])
  {
  }

  // ----- pruning is safe -----

  /** Pruning with the full plan never lists a file that the full plan or any filtered plan uses, nor the manifest, nor
      the lock; every other managed chunk in the directory is listed. */
  lemma PruneIsSafe(script: Script, digest: Digest, chapters: seq<Chapter>, options: BuildOptions, entries: seq<Entry>)
    requires DistinctIndices(chapters)
    ensures var listed := ListedNames(entries, Kept(Plan(script, digest, chapters, Unfiltered(options))));
      && listed !! Kept(Plan(script, digest, chapters, options))
      && listed !! Kept(Plan(script, digest, chapters, Unfiltered(options)))
      && MANIFEST_NAME !in listed && LOCK_FILE_NAME !in listed
  {
    var full := Plan(script, digest, chapters, Unfiltered(options));
    var listed := ListedNames(entries, Kept(full));
    FullPlanIsNotListed(script, digest, chapters, options, entries);
    FilteredPlanIsRestriction(script, digest, chapters, options);
    RestrictedIsSubset(full, options.chapterFilter);
    SpecialNamesAreNotManaged();
  }

  lemma FullPlanIsNotListed(script: Script, digest: Digest, chapters: seq<Chapter>, options: BuildOptions, entries: seq<Entry>)
    requires DistinctIndices(chapters)
    ensures var full := Plan(script, digest, chapters, Unfiltered(options));
      ListedNames(entries, Kept(full)) !! Kept(full)
  {
    var full := Plan(script, digest, chapters, Unfiltered(options));
    PlanFilesAreDistinct(script, digest, chapters, Unfiltered(options));
    forall k | 0 <= k < |full| ensures !IsDebrisName(full[k].file) {
      PlannedNameIsNotDebris(full[k].chapterIndex, full[k].part, full[k].synthesis, options.format);
    }
  }

  lemma {:induction false} RestrictedIsSubset(plan: seq<PlannedChunk>, filter: Option<set<nat>>)
    ensures Kept(Restricted(plan, filter)) <= Kept(plan)
  {
    if plan != [] {
      RestrictedIsSubset(plan[1..], filter);
      assert plan[0].file in Kept(plan);
      forall f | f in Kept(plan[1..]) ensures f in Kept(plan) {
        var k :| 0 <= k < |plan[1..]| && plan[1..][k].file == f;
        assert plan[k + 1].file == f;
      }
    }
  }

  lemma SpecialNamesAreNotManaged()
    ensures !IsManagedChunkName(MANIFEST_NAME) && !IsManagedChunkName(LOCK_FILE_NAME)
    ensures !IsDebrisName(MANIFEST_NAME) && !IsDebrisName(LOCK_FILE_NAME)
  {
    assert MANIFEST_NAME == "manifest" + "." + "json" && LOCK_FILE_NAME == ".bookforge-audio" + "." + "lock";
    LastDotOf("manifest", "json");
    LastDotOf(".bookforge-audio", "lock");
    assert MANIFEST_NAME[9..] == "json" && LOCK_FILE_NAME[17..] == "lock";
    assert AsciiLower("json") == "json" && AsciiLower("lock") == "lock";
  }

  /** A managed chunk that the full plan does not use is listed: changing a setting leaves nothing behind for good. */
  lemma OutdatedChunkIsListed(entries: seq<Entry>, plan: seq<PlannedChunk>, k: nat, c: nat, p: nat, hash: string, format: Format)
    requires k < |entries| && entries[k].isFile && |hash| >= 16 && AllHex(hash[..16])
    requires entries[k].name == Some(FileName(c, p, hash, format.Extension())) && entries[k].name.value !in Kept(plan)
    ensures entries[k].name.value in ListedNames(entries, Kept(plan))
  {
    PlannedNameIsManaged(c, p, hash, format);
    assert IsListed(entries[k], Kept(plan));
  }
}
