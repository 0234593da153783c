/** Evaluation passages: in-order runs of translated blocks under a source-character budget
    (crates/bookforge-cli/examples/judge_translation.rs:352-456). */
module Passages {
  import opened Options
  import opened Strings
  import opened GreedyPacking

  datatype EvaluationBlock = EvaluationBlock(
    jobId: string, sectionId: string, sectionTitle: Option<string>, sectionPosition: nat,
    segmentId: string, blockId: string, sourceLanguage: string, targetLanguage: string,
    sourceText: string, translatedText: string)

  datatype Passage = Passage(
    passageId: string, contentHash: string, jobId: string, sectionId: string, sectionTitle: Option<string>,
    segmentIds: seq<string>, blockIds: seq<string>, sourceLanguage: string, targetLanguage: string,
    sourceText: string, translatedText: string, sourceChars: nat)

  /** The hexadecimal digest of a list of fields. */
  type Digest = s: string | |s| == 64 witness seq(64, _ => '0')
  type HashFields = seq<string> -> Digest

  // ----- what a passage says about its blocks -----

  function SourceTexts(blocks: seq<EvaluationBlock>): (texts: seq<string>) {
    seq(|blocks|, k requires 0 <= k < |blocks| => blocks[k].sourceText)
  }

  function TranslatedTexts(blocks: seq<EvaluationBlock>): (texts: seq<string>) {
    seq(|blocks|, k requires 0 <= k < |blocks| => blocks[k].translatedText)
  }

  function BlockIds(blocks: seq<EvaluationBlock>): (ids: seq<string>) {
    seq(|blocks|, k requires 0 <= k < |blocks| => blocks[k].blockId)
  }

  function SourceChars(blocks: seq<EvaluationBlock>): nat {
    if blocks == [] then 0 else |blocks[0].sourceText| + SourceChars(blocks[1..])
  }

  lemma {:induction false} SourceCharsConcat(a: seq<EvaluationBlock>, b: seq<EvaluationBlock>)
    ensures SourceChars(a + b) == SourceChars(a) + SourceChars(b)
  {
    if a == [] {
      assert a + b == b;
    } else {
      assert (a + b)[1..] == a[1..] + b;
      SourceCharsConcat(a[1..], b);
    }
  }

  /** How many times the segment changes up to block `k`. */
  function SegmentChanges(blocks: seq<EvaluationBlock>, k: nat): nat
    requires k < |blocks|
  {
    if k == 0 then 0
    else SegmentChanges(blocks, k - 1) + if blocks[k].segmentId == blocks[k - 1].segmentId then 0 else 1
  }

  /** `ids` names each stretch of one segment among the first `count` blocks once: block `k` is in the
      stretch reached after `SegmentChanges(blocks, k)` changes. */
  ghost predicate NameStretches(ids: seq<string>, blocks: seq<EvaluationBlock>, count: nat) {
    && count <= |blocks|
    && |ids| == (if count == 0 then 0 else SegmentChanges(blocks, count - 1) + 1)
    && forall k | 0 <= k < count :: IsNamed(ids, blocks, k)
  }

  ghost predicate IsNamed(ids: seq<string>, blocks: seq<EvaluationBlock>, k: nat)
    requires k < |blocks|
  {
    SegmentChanges(blocks, k) < |ids| && ids[SegmentChanges(blocks, k)] == blocks[k].segmentId
  }

  ghost predicate AreSegmentsOf(ids: seq<string>, blocks: seq<EvaluationBlock>) {
    NameStretches(ids, blocks, |blocks|)
  }

  method SegmentIds(blocks: seq<EvaluationBlock>) returns (ids: seq<string>)
    ensures AreSegmentsOf(ids, blocks)
  {
    ids := [];
    for k: nat := 0 to |blocks|
      invariant NameStretches(ids, blocks, k)
    {
      NextStretch(ids, blocks, k);
      if ids == [] || ids[|ids| - 1] != blocks[k].segmentId {
        ids := ids + [blocks[k].segmentId];
      }
    }
  }

  lemma NextStretch(ids: seq<string>, blocks: seq<EvaluationBlock>, k: nat)
    requires k < |blocks| && NameStretches(ids, blocks, k)
    ensures NameStretches(if ids == [] || ids[|ids| - 1] != blocks[k].segmentId then ids + [blocks[k].segmentId] else ids, blocks, k + 1)
  {
    var next := if ids == [] || ids[|ids| - 1] != blocks[k].segmentId then ids + [blocks[k].segmentId] else ids;
    if k > 0 {
      assert IsNamed(ids, blocks, k - 1);
    }
    forall j | 0 <= j < k ensures IsNamed(next, blocks, j) {
      assert IsNamed(ids, blocks, j);
    }
    assert IsNamed(next, blocks, k);
  }

  /** Only one list of segment ids fits, and no two neighbours in it are equal. */
  lemma {:induction false} SegmentIdsAreUnique(ids: seq<string>, other: seq<string>, blocks: seq<EvaluationBlock>)
    requires AreSegmentsOf(ids, blocks) && AreSegmentsOf(other, blocks)
    ensures ids == other
    ensures forall r | 0 < r < |ids| :: ids[r] != ids[r - 1]
  {
    if blocks != [] {
      forall r: nat | r < |ids| ensures ids[r] == other[r] && (r > 0 ==> ids[r] != ids[r - 1]) {
        StretchHasOneId(ids, other, blocks, r);
      }
    }
  }

  lemma StretchHasOneId(ids: seq<string>, other: seq<string>, blocks: seq<EvaluationBlock>, r: nat)
    requires AreSegmentsOf(ids, blocks) && AreSegmentsOf(other, blocks) && r < |ids|
    ensures ids[r] == other[r] && (r > 0 ==> ids[r] != ids[r - 1])
  {
    var k := FirstBlockOf(blocks, r, |blocks| - 1);
    SegmentOfBlock(ids, blocks, k);
    SegmentOfBlock(other, blocks, k);
    if r > 0 {
      SegmentOfBlock(ids, blocks, k - 1);
    }
  }

  lemma SegmentOfBlock(ids: seq<string>, blocks: seq<EvaluationBlock>, k: nat)
    requires AreSegmentsOf(ids, blocks) && k < |blocks|
    ensures IsNamed(ids, blocks, k)
  {
  }

  /** The block that opens stretch `r`. */
  lemma {:induction false} FirstBlockOf(blocks: seq<EvaluationBlock>, r: nat, last: nat) returns (k: nat)
    requires last < |blocks| && r <= SegmentChanges(blocks, last)
    ensures k <= last && SegmentChanges(blocks, k) == r
    ensures r > 0 ==> k > 0 && SegmentChanges(blocks, k - 1) == r - 1 && blocks[k].segmentId != blocks[k - 1].segmentId
  {
    if last == 0 || (SegmentChanges(blocks, last) == r && SegmentChanges(blocks, last - 1) < r) {
      k := last;
    } else {
      k := FirstBlockOf(blocks, r, last - 1);
    }
  }

  function PassageIdentity(jobId: string, sectionId: string, blockIds: seq<string>, sourceText: string, hash: HashFields): string {
    "passage_" + hash([jobId, sectionId] + blockIds + [sourceText])[..20]
  }

  /** `p` is the passage that `blocks`, taken together, make. */
  ghost predicate Describes(p: Passage, blocks: seq<EvaluationBlock>, hash: HashFields) {
    && blocks != []
    && p.jobId == blocks[0].jobId && p.sectionId == blocks[0].sectionId && p.sectionTitle == blocks[0].sectionTitle
    && p.sourceLanguage == blocks[0].sourceLanguage && p.targetLanguage == blocks[0].targetLanguage
    && p.blockIds == BlockIds(blocks)
    && AreSegmentsOf(p.segmentIds, blocks)
    && p.sourceText == JoinWith(SourceTexts(blocks), "\n\n")
    && p.translatedText == JoinWith(TranslatedTexts(blocks), "\n\n")
    && p.sourceChars == SourceChars(blocks)
    && p.passageId == PassageIdentity(p.jobId, p.sectionId, p.blockIds, p.sourceText, hash)
    && p.contentHash == hash([p.sourceText, p.translatedText])
  }

  /** Already the twenty digits that an identity shows tell any two lists of fields apart. */
  ghost predicate ShowsFields(hash: HashFields) {
    forall a, b :: hash(a)[..20] == hash(b)[..20] ==> a == b
  }

  /** Two passages have the same identity if and only if they have the same job, section, blocks and source text: another
      translation of the same blocks keeps it. */
  lemma IdentityIff(p: Passage, blocksP: seq<EvaluationBlock>, q: Passage, blocksQ: seq<EvaluationBlock>, hash: HashFields)
    requires ShowsFields(hash) && Describes(p, blocksP, hash) && Describes(q, blocksQ, hash)
    ensures p.passageId == q.passageId <==>
      p.jobId == q.jobId && p.sectionId == q.sectionId && p.blockIds == q.blockIds && p.sourceText == q.sourceText
  {
    var fieldsP := [p.jobId, p.sectionId] + p.blockIds + [p.sourceText];
    var fieldsQ := [q.jobId, q.sectionId] + q.blockIds + [q.sourceText];
    assert p.passageId[8..] == hash(fieldsP)[..20] && q.passageId[8..] == hash(fieldsQ)[..20];
    if p.passageId == q.passageId {
      assert fieldsP == fieldsQ;
      assert fieldsP[0] == p.jobId && fieldsP[1] == p.sectionId && fieldsP[|fieldsP| - 1] == p.sourceText;
      assert fieldsQ[0] == q.jobId && fieldsQ[1] == q.sectionId && fieldsQ[|fieldsQ| - 1] == q.sourceText;
      assert fieldsP[2..|fieldsP| - 1] == p.blockIds && fieldsQ[2..|fieldsQ| - 1] == q.blockIds;
    }
  }

  /** Appends the passage for `blocks`, unless there are none. */
  method PushPassage(passages: seq<Passage>, blocks: seq<EvaluationBlock>, hash: HashFields) returns (r: seq<Passage>)
    ensures blocks == [] ==> r == passages
    ensures blocks != [] ==> |r| == |passages| + 1 && r[..|passages|] == passages && Describes(r[|passages|], blocks, hash)
  {
    if blocks == [] {
      return passages;
    }
    var first := blocks[0];
    var sourceText := JoinWith(SourceTexts(blocks), "\n\n");
    var translatedText := JoinWith(TranslatedTexts(blocks), "\n\n");
    var blockIds := BlockIds(blocks);
    var segmentIds := SegmentIds(blocks);
    var passageId := PassageIdentity(first.jobId, first.sectionId, blockIds, sourceText, hash);
    r := passages + [Passage(passageId, hash([sourceText, translatedText]), first.jobId, first.sectionId, first.sectionTitle,
                             segmentIds, blockIds, first.sourceLanguage, first.targetLanguage,
                             sourceText, translatedText, SourceChars(blocks))];
  }

  // ----- which runs of blocks may be one passage -----

  predicate Continuous(previous: EvaluationBlock, next: EvaluationBlock) {
    previous.jobId == next.jobId && previous.sectionId == next.sectionId && previous.sectionPosition + 1 == next.sectionPosition
  }

  ghost predicate IsRun(blocks: seq<EvaluationBlock>) {
    forall k | 0 < k < |blocks| :: Continuous(blocks[k - 1], blocks[k])
  }

  /** Blocks `lo` up to `hi` follow one another and stay in the budget; a single block always may. */
  ghost function MayShare(blocks: seq<EvaluationBlock>, budget: nat): (nat, nat) -> bool {
    (lo: nat, hi: nat) => lo < hi <= |blocks| && IsRun(blocks[lo..hi]) && (hi == lo + 1 || SourceChars(blocks[lo..hi]) <= budget)
  }

  lemma MayShareIsHereditary(blocks: seq<EvaluationBlock>, budget: nat)
    ensures Hereditary(|blocks|, MayShare(blocks, budget))
  {
    forall lo: nat, hi: nat, inLo: nat, inHi: nat | lo <= inLo < inHi <= hi <= |blocks| && MayShare(blocks, budget)(lo, hi)
      ensures MayShare(blocks, budget)(inLo, inHi)
    {
      InnerChars(blocks, lo, inLo, inHi, hi);
      InnerRun(blocks, lo, inLo, inHi, hi);
    }
  }

  lemma InnerChars(blocks: seq<EvaluationBlock>, lo: nat, inLo: nat, inHi: nat, hi: nat)
    requires lo <= inLo <= inHi <= hi <= |blocks|
    ensures SourceChars(blocks[inLo..inHi]) <= SourceChars(blocks[lo..hi])
  {
    SplitRange(blocks, lo, inLo, hi);
    SplitRange(blocks, inLo, inHi, hi);
    SourceCharsConcat(blocks[lo..inLo], blocks[inLo..hi]);
    SourceCharsConcat(blocks[inLo..inHi], blocks[inHi..hi]);
  }

  lemma InnerRun(blocks: seq<EvaluationBlock>, lo: nat, inLo: nat, inHi: nat, hi: nat)
    requires lo <= inLo <= inHi <= hi <= |blocks| && IsRun(blocks[lo..hi])
    ensures IsRun(blocks[inLo..inHi])
  {
    var outer, inner := blocks[lo..hi], blocks[inLo..inHi];
    forall k | 0 < k < |inner| ensures Continuous(inner[k - 1], inner[k]) {
      assert inner[k - 1] == outer[inLo - lo + k - 1] && inner[k] == outer[inLo - lo + k];
      assert Continuous(outer[inLo - lo + k - 1], outer[inLo - lo + k]);
    }
  }

  /** A run is one job and one section, its blocks at consecutive positions. */
  lemma {:induction false} RunIsOneSection(blocks: seq<EvaluationBlock>, k: nat)
    requires IsRun(blocks) && k < |blocks|
    ensures blocks[k].jobId == blocks[0].jobId && blocks[k].sectionId == blocks[0].sectionId
    ensures blocks[k].sectionPosition == blocks[0].sectionPosition + k
  {
    if k > 0 {
      RunIsOneSection(blocks, k - 1);
      assert Continuous(blocks[k - 1], blocks[k]);
    }
  }

  // ----- assembly -----

  function GroupStart(ends: seq<nat>, k: nat): nat
    requires k <= |ends|
  {
    if k == 0 then 0 else ends[k - 1]
  }

  ghost predicate DescribesGroup(p: Passage, ends: seq<nat>, k: nat, blocks: seq<EvaluationBlock>, hash: HashFields) {
    k < |ends| && GroupStart(ends, k) < ends[k] <= |blocks| && Describes(p, blocks[GroupStart(ends, k)..ends[k]], hash)
  }

  /** One passage for each of the groups that `ends` cuts the blocks into. */
  ghost predicate DescribeGroups(passages: seq<Passage>, ends: seq<nat>, blocks: seq<EvaluationBlock>, hash: HashFields) {
    |passages| == |ends| && forall k | 0 <= k < |passages| :: DescribesGroup(passages[k], ends, k, blocks, hash)
  }

  /** `ends` are the cuts made before block `k`, the last of them, if any, at `from`. */
  ghost predicate OnCourse(ends: seq<nat>, from: nat, k: nat, n: nat, fits: (nat, nat) -> bool) {
    && from == GroupStart(ends, |ends|) && from <= k <= n
    && (k == 0 ==> ends == [])
    && (k > 0 ==> from < k && fits(from, k) && ends + Cuts(from, k, n, fits) == Cuts(0, 1, n, fits))
  }

  lemma StayOnCourse(ends: seq<nat>, from: nat, k: nat, n: nat, fits: (nat, nat) -> bool)
    requires k < n && SinglesFit(n, fits) && OnCourse(ends, from, k, n, fits)
    ensures k == 0 || fits(from, k + 1) ==> OnCourse(ends, from, k + 1, n, fits)
    ensures k > 0 && !fits(from, k + 1) ==> OnCourse(ends + [k], k, k + 1, n, fits)
  {
    if k > 0 && !fits(from, k + 1) {
      Regroup(ends, [k], Cuts(k, k + 1, n, fits));
    }
  }

  lemma FinishCourse(ends: seq<nat>, from: nat, n: nat, fits: (nat, nat) -> bool)
    requires n > 0 && SinglesFit(n, fits) && OnCourse(ends, from, n, n, fits)
    ensures IsGrouping(ends + [n], 0, n, fits) && IsGreedy(ends + [n], 0, n, fits)
  {
    CutsAreGreedy(0, 1, n, fits);
  }

  /** Greedy passage assembly: the blocks are cut, in order, into runs, and only where they must be. */
  method AssemblePassages(blocks: seq<EvaluationBlock>, budget: nat, hash: HashFields) returns (passages: seq<Passage>)
    ensures exists ends ::
      && IsGrouping(ends, 0, |blocks|, MayShare(blocks, budget))
      && IsGreedy(ends, 0, |blocks|, MayShare(blocks, budget))
      && DescribeGroups(passages, ends, blocks, hash)
  {
    ghost var ends: seq<nat> := [];
    ghost var from: nat := 0;
    SinglesMayShare(blocks, budget);
    passages := [];
    var current: seq<EvaluationBlock> := [];
    for k: nat := 0 to |blocks|
      invariant Assembled(passages, current, ends, from, k, blocks, budget, hash)
    {
      var block := blocks[k];
      var sourceChars := |block.sourceText|;
      var currentChars := SourceChars(current);
      var discontinuous := current != [] && !Continuous(current[|current| - 1], block);
      var overBudget := current != [] && currentChars + sourceChars > budget;
      TestsAreExact(blocks, budget, from, k);
      JoinsOrCuts(ends, from, k, blocks, budget, MayJoin(current, block, budget), MayShare(blocks, budget));
      if discontinuous || overBudget {
        var grown := PushPassage(passages, current, hash);
        DescribeOneMore(passages, grown, ends, k, blocks, hash);
        passages := grown;
        ends := ends + [k];
        from := k;
        current := [];
      }
      current := current + [block];
    }
    var grown := PushPassage(passages, current, hash);
    ghost var n, fits := |blocks|, MayShare(blocks, budget);
    if blocks == [] {
      assert IsGrouping([], 0, n, fits) && IsGreedy([], 0, n, fits);
    } else {
      DescribeOneMore(passages, grown, ends, n, blocks, hash);
      FinishCourse(ends, from, n, fits);
      ends := ends + [n];
    }
    passages := grown;
  }

  /** The loop's state before block `k`: the passages made so far and the run in hand. */
  ghost predicate Assembled(passages: seq<Passage>, current: seq<EvaluationBlock>, ends: seq<nat>, from: nat, k: nat,
                            blocks: seq<EvaluationBlock>, budget: nat, hash: HashFields) {
    && OnCourse(ends, from, k, |blocks|, MayShare(blocks, budget)) && current == blocks[from..k]
    && DescribeGroups(passages, ends, blocks, hash)
  }

  /** What the loop's two tests ask. */
  predicate MayJoin(current: seq<EvaluationBlock>, block: EvaluationBlock, budget: nat) {
    current != [] ==> Continuous(current[|current| - 1], block) && SourceChars(current) + |block.sourceText| <= budget
  }

  /** The two tests are exactly whether the run in hand, made longer by block `k`, may be one passage. */
  lemma TestsAreExact(blocks: seq<EvaluationBlock>, budget: nat, from: nat, k: nat)
    requires from <= k < |blocks| && (from < k ==> MayShare(blocks, budget)(from, k))
    ensures MayShare(blocks, budget)(from, k + 1) <==> MayJoin(blocks[from..k], blocks[k], budget)
  {
    OneBlockMore(blocks, budget, from, k);
    assert from < k ==> blocks[from..k][k - 1 - from] == blocks[k - 1];
  }

  /** Block `k` joins the run in hand, or opens a new one behind a cut. */
  lemma JoinsOrCuts(ends: seq<nat>, from: nat, k: nat, blocks: seq<EvaluationBlock>, budget: nat, joins: bool, fits: (nat, nat) -> bool)
    requires k < |blocks| && OnCourse(ends, from, k, |blocks|, fits) && SinglesFit(|blocks|, fits)
    requires joins <==> fits(from, k + 1)
    ensures
      if joins then OnCourse(ends, from, k + 1, |blocks|, fits) && blocks[from..k] + [blocks[k]] == blocks[from..k + 1]
      else OnCourse(ends + [k], k, k + 1, |blocks|, fits) && [] + [blocks[k]] == blocks[k..k + 1]
  {
    StayOnCourse(ends, from, k, |blocks|, fits);
    SliceOneMore(blocks, from, k);
    SliceOneMore(blocks, k, k);
  }

  lemma SliceOneMore(blocks: seq<EvaluationBlock>, from: nat, k: nat)
    requires from <= k < |blocks|
    ensures blocks[from..k + 1] == blocks[from..k] + [blocks[k]]
    ensures from == k ==> blocks[from..k] == []
  {
  }

  lemma DescribeOneMore(passages: seq<Passage>, grown: seq<Passage>, ends: seq<nat>, k: nat, blocks: seq<EvaluationBlock>, hash: HashFields)
    requires DescribeGroups(passages, ends, blocks, hash)
    requires |grown| == |passages| + 1 && grown[..|passages|] == passages
    requires GroupStart(ends, |ends|) < k <= |blocks| && Describes(grown[|passages|], blocks[GroupStart(ends, |ends|)..k], hash)
    ensures DescribeGroups(grown, ends + [k], blocks, hash)
  {
    var more := ends + [k];
    forall g | 0 <= g < |passages| ensures DescribesGroup(grown[g], more, g, blocks, hash) {
      assert DescribesGroup(passages[g], ends, g, blocks, hash);
      assert grown[g] == passages[g];
      assert GroupStart(more, g) == GroupStart(ends, g) && more[g] == ends[g];
    }
    assert GroupStart(more, |ends|) == GroupStart(ends, |ends|) && more[|ends|] == k;
    assert DescribesGroup(grown[|ends|], more, |ends|, blocks, hash);
  }

  lemma SinglesMayShare(blocks: seq<EvaluationBlock>, budget: nat)
    ensures SinglesFit(|blocks|, MayShare(blocks, budget))
  {
  }

  /** The two tests before a block joins are exactly whether the longer run may be one passage. */
  lemma OneBlockMore(blocks: seq<EvaluationBlock>, budget: nat, from: nat, k: nat)
    requires from <= k < |blocks|
    requires from < k ==> MayShare(blocks, budget)(from, k)
    ensures blocks[from..k + 1] == blocks[from..k] + [blocks[k]]
    ensures MayShare(blocks, budget)(from, k + 1)
       <==> from == k || (Continuous(blocks[k - 1], blocks[k]) && SourceChars(blocks[from..k]) + |blocks[k].sourceText| <= budget)
  {
    var run, longer := blocks[from..k], blocks[from..k + 1];
    assert longer == run + [blocks[k]];
    OneBlockChars(run, blocks[k]);
    if from < k {
      OneBlockRuns(run, blocks[k]);
      assert run[|run| - 1] == blocks[k - 1];
    }
  }

  lemma OneBlockChars(run: seq<EvaluationBlock>, block: EvaluationBlock)
    ensures SourceChars(run + [block]) == SourceChars(run) + |block.sourceText|
  {
    SourceCharsConcat(run, [block]);
    assert SourceChars([block]) == |block.sourceText| + SourceChars([]);
  }

  lemma OneBlockRuns(run: seq<EvaluationBlock>, block: EvaluationBlock)
    requires run != [] && IsRun(run)
    ensures IsRun(run + [block]) <==> Continuous(run[|run| - 1], block)
  {
    var longer := run + [block];
    forall j | 0 < j < |run| ensures Continuous(longer[j - 1], longer[j]) {
      assert Continuous(run[j - 1], run[j]);
    }
    assert longer[|run| - 1] == run[|run| - 1] && longer[|run|] == block;
  }

  // ----- what the assembled passages are -----

  /** No cutting into runs within the budget has fewer passages. */
  lemma PassagesAreFewest(blocks: seq<EvaluationBlock>, budget: nat, hash: HashFields, passages: seq<Passage>, ends: seq<nat>, other: seq<nat>)
    requires IsGrouping(ends, 0, |blocks|, MayShare(blocks, budget)) && IsGreedy(ends, 0, |blocks|, MayShare(blocks, budget))
    requires DescribeGroups(passages, ends, blocks, hash)
    requires IsGrouping(other, 0, |blocks|, MayShare(blocks, budget))
    ensures |passages| <= |other|
  {
    MayShareIsHereditary(blocks, budget);
    GreedyIsFewest(ends, 0, other, 0, |blocks|, MayShare(blocks, budget));
  }

  function TotalChars(passages: seq<Passage>): nat {
    if passages == [] then 0 else passages[0].sourceChars + TotalChars(passages[1..])
  }

  function AllBlockIds(passages: seq<Passage>): seq<string> {
    if passages == [] then [] else passages[0].blockIds + AllBlockIds(passages[1..])
  }

  function PassageTexts(passages: seq<Passage>): seq<string> {
    seq(|passages|, k requires 0 <= k < |passages| => passages[k].sourceText)
  }

  /** Every block is in exactly one passage and the order stays: the passages' block ids, sizes and
      joined texts, put together again, are those of all blocks. */
  lemma PassagesPartitionBlocks(passages: seq<Passage>, ends: seq<nat>, blocks: seq<EvaluationBlock>, budget: nat, hash: HashFields)
    requires IsGrouping(ends, 0, |blocks|, MayShare(blocks, budget)) && DescribeGroups(passages, ends, blocks, hash)
    ensures PutTogether(passages, blocks)
  {
    GroupingEnds(ends, 0, |blocks|, MayShare(blocks, budget));
    PassagesFrom(passages, ends, blocks, hash, 0);
    assert passages[0..] == passages && blocks[0..] == blocks;
  }

  lemma {:induction false} GroupingEnds(ends: seq<nat>, from: nat, n: nat, fits: (nat, nat) -> bool)
    requires IsGrouping(ends, from, n, fits)
    ensures if ends == [] then from == n else ends[|ends| - 1] == n
    decreases |ends|
  {
    if ends != [] {
      GroupingEnds(ends[1..], ends[0], n, fits);
    }
  }

  lemma {:induction false} PassagesFrom(passages: seq<Passage>, ends: seq<nat>, blocks: seq<EvaluationBlock>, hash: HashFields, k: nat)
    requires DescribeGroups(passages, ends, blocks, hash) && k <= |ends| && GroupStart(ends, |ends|) == |blocks|
    ensures GroupStart(ends, k) <= |blocks| && (k < |ends| ==> GroupStart(ends, k) < |blocks|)
    ensures PutTogether(passages[k..], blocks[GroupStart(ends, k)..])
    decreases |ends| - k
  {
    if k < |ends| {
      PassagesFrom(passages, ends, blocks, hash, k + 1);
      OneGroupMore(passages, ends, blocks, hash, k);
    }
  }

  lemma OneGroupMore(passages: seq<Passage>, ends: seq<nat>, blocks: seq<EvaluationBlock>, hash: HashFields, k: nat)
    requires DescribeGroups(passages, ends, blocks, hash) && k < |ends|
    requires ends[k] <= |blocks| && PutTogether(passages[k + 1..], blocks[ends[k]..])
    ensures GroupStart(ends, k) < |blocks| && PutTogether(passages[k..], blocks[GroupStart(ends, k)..])
  {
    assert DescribesGroup(passages[k], ends, k, blocks, hash);
    var later, group, rest := passages[k + 1..], blocks[GroupStart(ends, k)..ends[k]], blocks[ends[k]..];
    OnePassageMore(passages[k], later, group, rest, hash);
    SplitTail(passages, k, k + 1);
    SplitTail(blocks, GroupStart(ends, k), ends[k]);
  }

  lemma SplitTail<T>(s: seq<T>, lo: nat, mid: nat)
    requires lo <= mid <= |s|
    ensures s[lo..] == s[lo..mid] + s[mid..]
    ensures mid == lo + 1 ==> s[lo..mid] == [s[lo]]
  {
  }

  /** The passages, put together again, give the blocks' ids, size and joined text. */
  ghost predicate PutTogether(passages: seq<Passage>, blocks: seq<EvaluationBlock>) {
    && AllBlockIds(passages) == BlockIds(blocks)
    && TotalChars(passages) == SourceChars(blocks)
    && JoinWith(PassageTexts(passages), "\n\n") == JoinWith(SourceTexts(blocks), "\n\n")
    && (passages == [] <==> blocks == [])
  }

  lemma OnePassageMore(p: Passage, later: seq<Passage>, group: seq<EvaluationBlock>, rest: seq<EvaluationBlock>, hash: HashFields)
    requires Describes(p, group, hash) && PutTogether(later, rest)
    ensures PutTogether([p] + later, group + rest)
  {
    var passages := [p] + later;
    assert passages[1..] == later;
    BlockIdsConcat(group, rest);
    SourceCharsConcat(group, rest);
    TextsOfGroupAndRest(passages, group, rest);
  }

  lemma BlockIdsConcat(group: seq<EvaluationBlock>, rest: seq<EvaluationBlock>)
    ensures BlockIds(group + rest) == BlockIds(group) + BlockIds(rest)
  {
  }

  lemma TextsOfGroupAndRest(passages: seq<Passage>, group: seq<EvaluationBlock>, rest: seq<EvaluationBlock>)
    requires passages != [] && group != [] && passages[0].sourceText == JoinWith(SourceTexts(group), "\n\n")
    requires |passages| == 1 <==> rest == []
    requires JoinWith(PassageTexts(passages[1..]), "\n\n") == JoinWith(SourceTexts(rest), "\n\n")
    ensures JoinWith(PassageTexts(passages), "\n\n") == JoinWith(SourceTexts(group + rest), "\n\n")
  {
    assert SourceTexts(group + rest) == SourceTexts(group) + SourceTexts(rest);
    assert PassageTexts(passages)[1..] == PassageTexts(passages[1..]);
    if rest == [] {
      assert SourceTexts(group) + SourceTexts(rest) == SourceTexts(group);
    } else {
      JoinConcat(SourceTexts(group), SourceTexts(rest), "\n\n");
    }
  }
}
