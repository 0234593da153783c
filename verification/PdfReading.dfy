/** Which blocks of a book printed page by page are read out, said of the blocks before them alone
    (crates/bookforge-audio/src/text.rs:144-265). */
module PdfReading {
  import opened Options
  import opened Strings
  import opened Selection
  import opened Chunking
  import opened Planning
  import opened Chapters

  // ----- what becomes of a block -----

  /** Silent: it says nothing. RomanNumber: a page number of the table of contents. Label: the title of a chapter.
      Contents: a line of the table of contents. Passage: text that is read out. Dropped: text that is not. */
  datatype Role = Silent | RomanNumber | Label | Contents | Passage | Dropped

  predicate IsRead(role: Role) {
    role.Label? || role.Passage?
  }

  /** Behind the last line of the table of contents nothing has been read out. */
  ghost predicate TocOpen(before: seq<Role>) {
    exists t :: 0 <= t < |before| && before[t].Contents? && forall j | t < j < |before| :: !IsRead(before[j])
  }

  /** Behind the last roman page number stands no line of the table of contents, and nothing has been read out. */
  ghost predicate BehindRoman(before: seq<Role>) {
    exists r :: 0 <= r < |before| && before[r].RomanNumber?
      && forall j | r < j < |before| :: !before[j].Contents? && !IsRead(before[j])
  }

  ghost predicate AnyRead(before: seq<Role>) {
    exists b :: 0 <= b < |before| && IsRead(before[b])
  }

  /** A label has followed something read out, and so closed a chapter. */
  ghost predicate ChapterClosed(before: seq<Role>) {
    exists l, b :: 0 <= b < l < |before| && before[l].Label? && IsRead(before[b])
  }

  /** Furniture, empty blocks and page numbers say nothing. */
  ghost predicate SaysNothing(h: Heuristics, block: SourceBlock) {
    block.kind.PageFurniture? || block.text == "" || h.isFolio(block.text)
  }

  /** A block's text from an embedded chapter label on, where there is one. */
  function TextOf(h: Heuristics, block: SourceBlock): string {
    match h.labelOffset(block.text)
    case None => block.text
    case Some(offset) => if offset <= |block.text| then Trim(block.text[offset..]) else block.text
  }

  /** The role of a block behind blocks of the roles `before`; `often` tells text that stands on three pages. */
  ghost predicate HasRole(h: Heuristics, often: string -> bool, block: SourceBlock, before: seq<Role>, role: Role) {
    var text := TextOf(h, block);
    var says := !SaysNothing(h, block) && !(TocOpen(before) && h.isRomanFolio(block.text));
    var contents := !h.isLabel(text) && h.isTocLine(text) && !ChapterClosed(before);
    && (role.Silent? <==> SaysNothing(h, block))
    && (role.RomanNumber? <==> !SaysNothing(h, block) && TocOpen(before) && h.isRomanFolio(block.text))
    && (role.Label? <==> says && h.isLabel(text))
    && (role.Contents? <==> says && contents)
    && (role.Passage? <==> (says && !h.isLabel(text) && !contents
                            && if TocOpen(before) then h.isFrontMatter(text) || BehindRoman(before) else !often(text)))
  }

  /** Each block has the role that the roles before it leave it. */
  ghost predicate AreRoles(h: Heuristics, often: string -> bool, all: seq<SourceBlock>, roles: seq<Role>) {
    |roles| == |all| && forall i | 0 <= i < |all| :: HasRole(h, often, all[i], roles[..i], roles[i])
  }

  // ----- one block more -----

  lemma TocOpenNext(before: seq<Role>, role: Role)
    ensures TocOpen(before + [role]) <==> role.Contents? || (TocOpen(before) && !IsRead(role))
  {
    var after, n := before + [role], |before|;
    if role.Contents? {
      assert after[n].Contents?;
    } else if TocOpen(before) && !IsRead(role) {
      var t :| 0 <= t < n && before[t].Contents? && forall j | t < j < n :: !IsRead(before[j]);
      assert after[t].Contents?;
    }
    if TocOpen(after) && !role.Contents? {
      var t :| 0 <= t <= n && after[t].Contents? && forall j | t < j <= n :: !IsRead(after[j]);
      assert before[t].Contents? && !IsRead(after[n]);
      assert forall j | t < j < n :: before[j] == after[j];
    }
  }

  lemma BehindRomanNext(before: seq<Role>, role: Role)
    ensures BehindRoman(before + [role]) <==> role.RomanNumber? || (BehindRoman(before) && !role.Contents? && !IsRead(role))
  {
    var after, n := before + [role], |before|;
    if role.RomanNumber? {
      assert after[n].RomanNumber?;
    } else if BehindRoman(before) && !role.Contents? && !IsRead(role) {
      var r :| 0 <= r < n && before[r].RomanNumber? && forall j | r < j < n :: !before[j].Contents? && !IsRead(before[j]);
      assert after[r].RomanNumber?;
    }
    if BehindRoman(after) && !role.RomanNumber? {
      var r :| 0 <= r <= n && after[r].RomanNumber? && forall j | r < j <= n :: !after[j].Contents? && !IsRead(after[j]);
      assert before[r].RomanNumber? && !IsRead(after[n]);
      assert forall j | r < j < n :: before[j] == after[j];
    }
  }

  lemma AnyReadNext(before: seq<Role>, role: Role)
    ensures AnyRead(before + [role]) <==> AnyRead(before) || IsRead(role)
  {
    var after := before + [role];
    assert IsRead(after[|before|]) <==> IsRead(role);
    assert forall b | 0 <= b < |before| :: after[b] == before[b];
  }

  lemma ChapterClosedNext(before: seq<Role>, role: Role)
    ensures ChapterClosed(before + [role]) <==> ChapterClosed(before) || (role.Label? && AnyRead(before))
  {
    var after, n := before + [role], |before|;
    assert forall b | 0 <= b < n :: after[b] == before[b];
    if role.Label? && AnyRead(before) {
      var b :| 0 <= b < n && IsRead(before[b]);
      assert after[n].Label? && IsRead(after[b]);
    } else if ChapterClosed(before) {
      var l, b :| 0 <= b < l < n && before[l].Label? && IsRead(before[b]);
      assert after[l].Label? && IsRead(after[b]);
    }
    if ChapterClosed(after) {
      var l, b :| 0 <= b < l <= n && after[l].Label? && IsRead(after[b]);
      assert IsRead(before[b]);
    }
  }

  // ----- the scan gives these roles -----

  /** The flags of the scan behind blocks of the roles `before`. */
  ghost predicate FlagsOf(flags: Flags, before: seq<Role>) {
    && flags.printedToc == TocOpen(before) && flags.romanFolio == BehindRoman(before)
    && flags.anyChapter == ChapterClosed(before) && flags.anyBlock == AnyRead(before)
    && (flags.romanFolio ==> flags.printedToc)
  }

  ghost predicate Counts(h: Heuristics, occurrences: Occurrences, often: string -> bool) {
    forall text :: often(text) <==> CountOf(occurrences, h.lower(text)) >= 3
  }

  lemma FlagsNext(before: seq<Role>, role: Role, flags: Flags, next: Flags)
    requires FlagsOf(flags, before)
    requires next.printedToc == (role.Contents? || (flags.printedToc && !IsRead(role)))
    requires next.romanFolio == (role.RomanNumber? || (flags.romanFolio && !role.Contents? && !IsRead(role)))
    requires next.anyChapter == (flags.anyChapter || (role.Label? && flags.anyBlock))
    requires next.anyBlock == (flags.anyBlock || IsRead(role))
    requires next.romanFolio ==> next.printedToc
    ensures FlagsOf(next, before + [role])
  {
    TocOpenNext(before, role);
    BehindRomanNext(before, role);
    AnyReadNext(before, role);
    ChapterClosedNext(before, role);
  }

  function KeptOf(h: Heuristics, block: SourceBlock, role: Role): seq<Kept> {
    if IsRead(role) then [Kept(TextOf(h, block), role.Label?, block.kind)] else []
  }

  lemma SiftGivesRole(h: Heuristics, occurrences: Occurrences, often: string -> bool, flags: Flags, block: SourceBlock, before: seq<Role>)
    returns (role: Role)
    requires Counts(h, occurrences, often) && FlagsOf(flags, before)
    ensures HasRole(h, often, block, before, role)
    ensures var (next, kept) := Sift(h, occurrences, flags, block);
      && (if kept.Some? then [kept.value] else []) == KeptOf(h, block, role) && FlagsOf(next, before + [role])
  {
    var text := FromLabel(h, block.text);
    assert text == TextOf(h, block);
    assert often(text) <==> CountOf(occurrences, h.lower(text)) >= 3;
    var (next, kept) := Sift(h, occurrences, flags, block);
    role := if SaysNothing(h, block) then Silent
            else if flags.printedToc && h.isRomanFolio(block.text) then RomanNumber
            else if h.isLabel(text) then Label
            else if !flags.anyChapter && h.isTocLine(text) then Contents
            else if kept.Some? then Passage else Dropped;
    FlagsNext(before, role, flags, next);
  }

  /** The same for blocks that stand behind others. */
  ghost predicate AreRolesBehind(h: Heuristics, often: string -> bool, before: seq<Role>, blocks: seq<SourceBlock>, roles: seq<Role>) {
    |roles| == |blocks| && forall i | 0 <= i < |blocks| :: HasRole(h, often, blocks[i], before + roles[..i], roles[i])
  }

  lemma RolesConcat(h: Heuristics, often: string -> bool, before: seq<Role>, a: seq<SourceBlock>, rolesA: seq<Role>,
                    b: seq<SourceBlock>, rolesB: seq<Role>)
    requires AreRolesBehind(h, often, before, a, rolesA) && AreRolesBehind(h, often, before + rolesA, b, rolesB)
    ensures AreRolesBehind(h, often, before, a + b, rolesA + rolesB)
  {
    var blocks, roles := a + b, rolesA + rolesB;
    forall i | 0 <= i < |blocks| ensures HasRole(h, often, blocks[i], before + roles[..i], roles[i]) {
      if i < |a| {
        assert roles[..i] == rolesA[..i];
      } else {
        assert before + roles[..i] == (before + rolesA) + rolesB[..i - |a|];
      }
    }
  }

  function KeptAll(h: Heuristics, blocks: seq<SourceBlock>, roles: seq<Role>): seq<Kept>
    requires |roles| == |blocks|
  {
    if blocks == [] then [] else KeptOf(h, blocks[0], roles[0]) + KeptAll(h, blocks[1..], roles[1..])
  }

  lemma {:induction false} KeptConcat(h: Heuristics, a: seq<SourceBlock>, rolesA: seq<Role>, b: seq<SourceBlock>, rolesB: seq<Role>)
    requires |rolesA| == |a| && |rolesB| == |b|
    ensures KeptAll(h, a + b, rolesA + rolesB) == KeptAll(h, a, rolesA) + KeptAll(h, b, rolesB)
  {
    if a == [] {
      assert a + b == b && rolesA + rolesB == rolesB;
    } else {
      assert (a + b)[1..] == a[1..] + b && (rolesA + rolesB)[1..] == rolesA[1..] + rolesB;
      KeptConcat(h, a[1..], rolesA[1..], b, rolesB);
    }
  }

  lemma FirstRole(h: Heuristics, often: string -> bool, before: seq<Role>, block: SourceBlock, role: Role,
                  blocks: seq<SourceBlock>, roles: seq<Role>)
    requires HasRole(h, often, block, before, role) && AreRolesBehind(h, often, before + [role], blocks, roles)
    ensures AreRolesBehind(h, often, before, [block] + blocks, [role] + roles)
    ensures before + ([role] + roles) == (before + [role]) + roles
    ensures KeptAll(h, [block] + blocks, [role] + roles) == KeptOf(h, block, role) + KeptAll(h, blocks, roles)
  {
    assert before + [role][..0] == before;
    RolesConcat(h, often, before, [block], [role], blocks, roles);
    assert ([block] + blocks)[1..] == blocks && ([role] + roles)[1..] == roles;
  }

  lemma PageUnfolds(h: Heuristics, occurrences: Occurrences, flags: Flags, page: Page)
    requires page != []
    ensures var (next, kept) := Sift(h, occurrences, flags, page[0]);
      var (last, rest) := SiftPage(h, occurrences, next, page[1..]);
      SiftPage(h, occurrences, flags, page) == (last, (if kept.Some? then [kept.value] else []) + rest)
  {
  }

  lemma {:induction false} PageGivesRoles(h: Heuristics, occurrences: Occurrences, often: string -> bool, flags: Flags, page: Page, before: seq<Role>)
    returns (roles: seq<Role>)
    requires Counts(h, occurrences, often) && FlagsOf(flags, before)
    ensures AreRolesBehind(h, often, before, page, roles)
    ensures SiftPage(h, occurrences, flags, page).1 == KeptAll(h, page, roles)
    ensures FlagsOf(SiftPage(h, occurrences, flags, page).0, before + roles)
    decreases |page|
  {
    if page == [] {
      roles := [];
      assert before + [] == before;
    } else {
      var first := SiftGivesRole(h, occurrences, often, flags, page[0], before);
      var next := Sift(h, occurrences, flags, page[0]).0;
      var rest := PageGivesRoles(h, occurrences, often, next, page[1..], before + [first]);
      roles := [first] + rest;
      FirstOfPage(h, occurrences, often, flags, page, before, first, rest);
    }
  }

  lemma FirstOfPage(h: Heuristics, occurrences: Occurrences, often: string -> bool, flags: Flags, page: Page, before: seq<Role>,
                    first: Role, rest: seq<Role>)
    requires page != [] && HasRole(h, often, page[0], before, first)
    requires AreRolesBehind(h, often, before + [first], page[1..], rest)
    requires var (next, kept) := Sift(h, occurrences, flags, page[0]);
      && (if kept.Some? then [kept.value] else []) == KeptOf(h, page[0], first)
      && SiftPage(h, occurrences, next, page[1..]).1 == KeptAll(h, page[1..], rest)
      && FlagsOf(SiftPage(h, occurrences, next, page[1..]).0, (before + [first]) + rest)
    ensures AreRolesBehind(h, often, before, page, [first] + rest)
    ensures SiftPage(h, occurrences, flags, page).1 == KeptAll(h, page, [first] + rest)
    ensures FlagsOf(SiftPage(h, occurrences, flags, page).0, before + ([first] + rest))
  {
    PageUnfolds(h, occurrences, flags, page);
    FirstRole(h, often, before, page[0], first, page[1..], rest);
    assert page == [page[0]] + page[1..];
  }

  lemma {:induction false} PagesGiveRoles(h: Heuristics, occurrences: Occurrences, often: string -> bool, flags: Flags, pages: seq<Page>, before: seq<Role>)
    returns (roles: seq<Role>)
    requires Counts(h, occurrences, often) && FlagsOf(flags, before)
    ensures AreRolesBehind(h, often, before, Flatten(pages), roles)
    ensures SiftPages(h, occurrences, flags, pages) == KeptAll(h, Flatten(pages), roles)
    decreases |pages|
  {
    if pages == [] {
      roles := [];
    } else {
      var first := PageGivesRoles(h, occurrences, often, flags, pages[0], before);
      var rest := PagesGiveRoles(h, occurrences, often, SiftPage(h, occurrences, flags, pages[0]).0, pages[1..], before + first);
      roles := first + rest;
      RolesConcat(h, often, before, pages[0], first, Flatten(pages[1..]), rest);
      KeptConcat(h, pages[0], first, Flatten(pages[1..]), rest);
    }
  }

  // ----- what the chapters read out -----

  /** `positions` are the blocks that are read out, and `kept` what of them. */
  ghost predicate ReadAt(h: Heuristics, all: seq<SourceBlock>, roles: seq<Role>, positions: seq<nat>, kept: seq<Kept>) {
    && |roles| == |all| && PicksExactly(roles, IsRead, positions) && |kept| == |positions|
    && forall k | 0 <= k < |positions| ::
         kept[k] == Kept(TextOf(h, all[positions[k]]), roles[positions[k]].Label?, all[positions[k]].kind)
  }

  lemma ReadAtConcat(h: Heuristics, a: seq<SourceBlock>, rolesA: seq<Role>, positionsA: seq<nat>, keptA: seq<Kept>,
                     b: seq<SourceBlock>, rolesB: seq<Role>, positionsB: seq<nat>, keptB: seq<Kept>)
    requires ReadAt(h, a, rolesA, positionsA, keptA) && ReadAt(h, b, rolesB, positionsB, keptB)
    ensures ReadAt(h, a + b, rolesA + rolesB, positionsA + Shifted(positionsB, |a|), keptA + keptB)
  {
    PicksConcat(rolesA, rolesB, IsRead, positionsA, positionsB);
    var all, roles, positions, kept := a + b, rolesA + rolesB, positionsA + Shifted(positionsB, |a|), keptA + keptB;
    forall k | 0 <= k < |positions|
      ensures kept[k] == Kept(TextOf(h, all[positions[k]]), roles[positions[k]].Label?, all[positions[k]].kind)
    {
      if k >= |positionsA| {
        assert all[positions[k]] == b[positionsB[k - |positionsA|]] && roles[positions[k]] == rolesB[positionsB[k - |positionsA|]];
      }
    }
  }

  lemma {:induction false} KeptAreRead(h: Heuristics, all: seq<SourceBlock>, roles: seq<Role>) returns (positions: seq<nat>)
    requires |roles| == |all|
    ensures ReadAt(h, all, roles, positions, KeptAll(h, all, roles))
  {
    if all == [] {
      positions := [];
    } else {
      var first: seq<nat> := if IsRead(roles[0]) then [0] else [];
      var later := KeptAreRead(h, all[1..], roles[1..]);
      assert [all[0]] + all[1..] == all && [roles[0]] + roles[1..] == roles;
      ReadAtConcat(h, [all[0]], [roles[0]], first, KeptOf(h, all[0], roles[0]), all[1..], roles[1..], later, KeptAll(h, all[1..], roles[1..]));
      positions := first + Shifted(later, 1);
    }
  }

  function End(starts: seq<nat>, c: nat, n: nat): nat {
    if c + 1 < |starts| then starts[c + 1] else n
  }

  function Stretch(texts: seq<string>, lo: nat, hi: nat): seq<string> {
    if lo <= hi <= |texts| then texts[lo..hi] else []
  }

  /** `starts` are the first text and every label. */
  ghost predicate StartAtLabels(labels: seq<bool>, starts: seq<nat>) {
    && (forall c | 0 <= c < |starts| :: starts[c] < |labels|)
    && (forall c, d | 0 <= c < d < |starts| :: starts[c] < starts[d])
    && forall k: nat | k < |labels| :: k in starts <==> k == 0 || labels[k]
  }

  /** Each stretch from one start to the next is read out with single spaces. */
  ghost predicate SpokenBetween(spoken: seq<string>, texts: seq<string>, starts: seq<nat>) {
    && |spoken| == |starts|
    && forall c: nat | c < |starts| :: spoken[c] == JoinWith(Stretch(texts, starts[c], End(starts, c, |texts|)), " ")
  }

  /** The texts are cut before each label and nowhere else. */
  ghost predicate CutBeforeLabels(spoken: seq<string>, texts: seq<string>, labels: seq<bool>, starts: seq<nat>) {
    |labels| == |texts| && StartAtLabels(labels, starts) && SpokenBetween(spoken, texts, starts)
  }

  lemma EarlierStretch(texts: seq<string>, text: string, starts: seq<nat>, more: seq<nat>, c: nat)
    requires c < |starts| && starts <= more && c + 1 < |more| && more[c + 1] <= |texts|
    requires c + 1 == |starts| ==> more[c + 1] == |texts|
    ensures Stretch(texts + [text], more[c], End(more, c, |texts| + 1)) == Stretch(texts, starts[c], End(starts, c, |texts|))
  {
  }

  lemma StretchBegun(spoken: seq<string>, texts: seq<string>, labels: seq<bool>, starts: seq<nat>, text: string, begins: bool)
    requires CutBeforeLabels(spoken, texts, labels, starts) && (begins || texts == [])
    ensures CutBeforeLabels(spoken + [text], texts + [text], labels + [begins], starts + [|texts|])
  {
    var n, more, all := |texts|, starts + [|texts|], texts + [text];
    forall c: nat | c < |more| ensures (spoken + [text])[c] == JoinWith(Stretch(all, more[c], End(more, c, |all|)), " ") {
      if c < |starts| {
        EarlierStretch(texts, text, starts, more, c);
      } else {
        assert Stretch(all, n, n + 1) == [text];
      }
    }
    forall k: nat | k < |all| ensures k in more <==> k == 0 || (labels + [begins])[k] {
      if k < n {
        assert k in starts <==> k == 0 || labels[k];
      }
    }
  }

  lemma LastStretch(texts: seq<string>, text: string, lo: nat)
    requires lo < |texts|
    ensures JoinWith(Stretch(texts + [text], lo, |texts| + 1), " ") == JoinWith(Stretch(texts, lo, |texts|), " ") + " " + text
  {
    assert Stretch(texts + [text], lo, |texts| + 1) == Stretch(texts, lo, |texts|) + [text];
    JoinConcat(Stretch(texts, lo, |texts|), [text], " ");
  }

  lemma SameStretch(texts: seq<string>, text: string, lo: nat, hi: nat)
    requires hi <= |texts|
    ensures Stretch(texts + [text], lo, hi) == Stretch(texts, lo, hi)
  {
  }

  lemma SameStarts(starts: seq<nat>, labels: seq<bool>)
    requires labels != [] && StartAtLabels(labels, starts)
    ensures StartAtLabels(labels + [false], starts) && starts != []
  {
    assert 0 in starts;
  }

  lemma SpokenLonger(spoken: seq<string>, texts: seq<string>, starts: seq<nat>, text: string)
    requires SpokenBetween(spoken, texts, starts) && starts != []
    requires forall c | 0 <= c < |starts| :: starts[c] < |texts|
    ensures SpokenBetween(spoken[|spoken| - 1 := spoken[|spoken| - 1] + " " + text], texts + [text], starts)
  {
    var all, last := texts + [text], |starts| - 1;
    var longer := spoken[last := spoken[last] + " " + text];
    forall c: nat | c < |starts| ensures longer[c] == JoinWith(Stretch(all, starts[c], End(starts, c, |all|)), " ") {
      if c < last {
        SameStretch(texts, text, starts[c], starts[c + 1]);
      } else {
        LastStretch(texts, text, starts[c]);
      }
    }
  }

  lemma StretchContinued(spoken: seq<string>, texts: seq<string>, labels: seq<bool>, starts: seq<nat>, text: string)
    requires CutBeforeLabels(spoken, texts, labels, starts) && texts != []
    ensures spoken != []
    ensures CutBeforeLabels(spoken[|spoken| - 1 := spoken[|spoken| - 1] + " " + text], texts + [text], labels + [false], starts)
  {
    SameStarts(starts, labels);
    SpokenLonger(spoken, texts, starts, text);
  }

  function KeptTexts(kept: seq<Kept>): (r: seq<string>)
    ensures |r| == |kept|
  {
    seq(|kept|, k requires 0 <= k < |kept| => kept[k].text)
  }

  function KeptLabels(kept: seq<Kept>): (r: seq<bool>)
    ensures |r| == |kept|
  {
    seq(|kept|, k requires 0 <= k < |kept| => kept[k].opensChapter)
  }

  lemma {:induction false} ReadIsCut(kept: seq<Kept>) returns (starts: seq<nat>)
    ensures CutBeforeLabels(Read([], kept), KeptTexts(kept), KeptLabels(kept), starts)
    decreases |kept|
  {
    if kept == [] {
      starts := [];
    } else {
      var front, last := kept[..|kept| - 1], kept[|kept| - 1];
      starts := ReadIsCut(front);
      ReadConcat([], front, [last]);
      assert front + [last] == kept;
      assert Read(Read([], front), [last]) == ReadOne(Read([], front), last);
      assert KeptTexts(kept) == KeptTexts(front) + [last.text] && KeptLabels(kept) == KeptLabels(front) + [last.opensChapter];
      if last.opensChapter || front == [] {
        StretchBegun(Read([], front), KeptTexts(front), KeptLabels(front), starts, last.text, last.opensChapter);
        starts := starts + [|front|];
      } else {
        StretchContinued(Read([], front), KeptTexts(front), KeptLabels(front), starts, last.text);
      }
    }
  }

  /** Each block has its role, `positions` are the labels and passages, and the chapters read out exactly these, in order,
      cut before each label. */
  ghost predicate ReadsOut(h: Heuristics, pages: seq<Page>, chapters: seq<Chapter>, roles: seq<Role>, positions: seq<nat>, starts: seq<nat>) {
    var all := Flatten(pages);
    && AreRoles(h, OnThreePages(h, pages), all, roles) && PicksExactly(roles, IsRead, positions)
    && CutBeforeLabels(SpokenChapters(chapters), TextsAt(h, all, positions), LabelsAt(roles, positions), starts)
  }

  function TextsAt(h: Heuristics, all: seq<SourceBlock>, positions: seq<nat>): (r: seq<string>)
    ensures |r| == |positions|
  {
    seq(|positions|, k requires 0 <= k < |positions| => if positions[k] < |all| then TextOf(h, all[positions[k]]) else "")
  }

  function LabelsAt(roles: seq<Role>, positions: seq<nat>): (r: seq<bool>)
    ensures |r| == |positions|
  {
    seq(|positions|, k requires 0 <= k < |positions| => positions[k] < |roles| && roles[positions[k]].Label?)
  }

  lemma KeptAreAt(h: Heuristics, all: seq<SourceBlock>, roles: seq<Role>, positions: seq<nat>, kept: seq<Kept>)
    requires ReadAt(h, all, roles, positions, kept)
    ensures KeptTexts(kept) == TextsAt(h, all, positions) && KeptLabels(kept) == LabelsAt(roles, positions)
  {
  }

  /** Text that stands on three or more of the pages. */
  ghost function OnThreePages(h: Heuristics, pages: seq<Page>): string -> bool {
    text => PagesWith(h, pages, h.lower(text)) >= 3
  }

  lemma FromTheFirst(h: Heuristics, often: string -> bool, all: seq<SourceBlock>, roles: seq<Role>)
    requires AreRolesBehind(h, often, [], all, roles)
    ensures AreRoles(h, often, all, roles)
  {
    forall i | 0 <= i < |all| ensures HasRole(h, often, all[i], roles[..i], roles[i]) {
      assert [] + roles[..i] == roles[..i];
    }
  }

  /** For all pages and heuristics: the chapters read out exactly the labels and passages of the book. */
  lemma PdfChaptersReadOut(h: Heuristics, occurrences: Occurrences, bookTitle: Option<string>, pages: seq<Page>)
    returns (roles: seq<Role>, positions: seq<nat>, starts: seq<nat>)
    requires forall text :: CountOf(occurrences, text) == PagesWith(h, pages, text)
    ensures ReadsOut(h, pages, PdfChapters(h, occurrences, bookTitle, pages), roles, positions, starts)
  {
    var all, often := Flatten(pages), OnThreePages(h, pages);
    roles := PagesGiveRoles(h, occurrences, often, AT_START, pages, []);
    FromTheFirst(h, often, all, roles);
    var kept := KeptAll(h, all, roles);
    positions := KeptAreRead(h, all, roles);
    starts := ReadIsCut(kept);
    PdfChaptersReadWhatIsKept(h, occurrences, bookTitle, pages);
    KeptAreAt(h, all, roles, positions, kept);
  }

  /** The rule leaves no choice of roles. */
  lemma {:induction false} RolesAreUnique(h: Heuristics, often: string -> bool, all: seq<SourceBlock>, roles: seq<Role>, others: seq<Role>, n: nat)
    requires AreRoles(h, often, all, roles) && AreRoles(h, often, all, others) && n <= |all|
    ensures roles[..n] == others[..n]
  {
    if n > 0 {
      var last := n - 1;
      RolesAreUnique(h, often, all, roles, others, last);
      assert HasRole(h, often, all[last], roles[..last], roles[last]) && HasRole(h, often, all[last], roles[..last], others[last]);
      assert roles[..n] == roles[..last] + [roles[last]] && others[..n] == others[..last] + [others[last]];
    }
  }
}
