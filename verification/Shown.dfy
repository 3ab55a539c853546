/** What is read in a context that was built: each block of a step, byte for byte, and
    what citing its mark does. */
module Shown {
  import opened Wrappers
  import opened Decimals
  import opened Records
  import opened Reals
  import opened Compression
  import opened Levels
  import opened Citations
  import opened Truncation
  import opened WindowFit
  import opened ContextBuild
  import opened ContextRuns
  import Decay
  import Render
  import Mutators = CompressionRuns

  // ------------------------------------------------ every block is fresh from the store

  /** The block is what its step is rendered with from the store at its level. */
  predicate FromItsStep(texts: Render.Texts, block: Render.Block) {
    && block.stepId in texts.steps && 0 <= block.level <= 3
    && Render.Fresh(texts, block.stepId, block.level) == Some(block)
  }

  lemma HistoryBlockFresh(texts: Render.Texts, refs: Refs, ids: seq<int>, tailKeepSteps: nat, p: nat)
    requires p < |ids|
    ensures var block := HistoryBlock(texts, refs, ids, tailKeepSteps, p);
            block.Some? ==> FromItsStep(texts, block.value) && block.value.stepId == ids[p] &&
                            ShowsStep(refs, ids, tailKeepSteps, p, block.value)
  {
  }

  /** The block of the history at this place is that of some active step. */
  ghost predicate OfSomeStep(texts: Render.Texts, refs: Refs, ids: seq<int>, tailKeepSteps: nat, block: Render.Block) {
    exists p :: 0 <= p < |ids| && HistoryBlock(texts, refs, ids, tailKeepSteps, p) == Some(block)
  }

  lemma {:induction false} PresentOfSteps(texts: Render.Texts, refs: Refs, ids: seq<int>, tailKeepSteps: nat, n: nat, i: nat)
    requires n <= |ids| && i < |Present(HistoryBlocks(texts, refs, ids, tailKeepSteps)[..n])|
    ensures OfSomeStep(texts, refs, ids, tailKeepSteps, Present(HistoryBlocks(texts, refs, ids, tailKeepSteps)[..n])[i])
  {
    var all := HistoryBlocks(texts, refs, ids, tailKeepSteps);
    if n > 0 {
      assert all[..n][..n - 1] == all[..n - 1];
      if i < |Present(all[..n - 1])| {
        PresentOfSteps(texts, refs, ids, tailKeepSteps, n - 1, i);
      } else {
        assert all[n - 1] == HistoryBlock(texts, refs, ids, tailKeepSteps, n - 1);
      }
    }
  }

  /** Before the fit. */
  lemma UnfittedOfSteps(texts: Render.Texts, refs: Refs, tailKeepSteps: nat, front: seq<Render.Block>,
                        back: seq<Render.Block>, i: nat)
    requires Elsewhere(front) && Elsewhere(back) && i < |Unfitted(texts, refs, tailKeepSteps, front, back)|
    requires Unfitted(texts, refs, tailKeepSteps, front, back)[i].stepId > 0
    ensures OfSomeStep(texts, refs, ActiveIds(refs), tailKeepSteps, Unfitted(texts, refs, tailKeepSteps, front, back)[i])
  {
    var ids := ActiveIds(refs);
    var blocks := HistoryBlocks(texts, refs, ids, tailKeepSteps);
    var history := Present(blocks);
    assert Unfitted(texts, refs, tailKeepSteps, front, back) == front + history + back;
    InTheMiddle(front, history, back, i);
    assert blocks[..|ids|] == blocks;
    PresentOfSteps(texts, refs, ids, tailKeepSteps, |ids|, i - |front|);
  }

  lemma InTheMiddle(front: seq<Render.Block>, history: seq<Render.Block>, back: seq<Render.Block>, i: nat)
    requires Elsewhere(front) && Elsewhere(back) && i < |front + history + back| && (front + history + back)[i].stepId > 0
    ensures |front| <= i < |front| + |history| && (front + history + back)[i] == history[i - |front|]
  {
    var all := front + history + back;
    forall j | 0 <= j < |front| ensures all[j].stepId <= 0 {
      assert all[j] == front[j];
    }
    forall j | |front| + |history| <= j < |all| ensures all[j].stepId <= 0 {
      assert all[j] == back[j - |front| - |history|];
    }
  }

  /** The fit raises the block of an active step to one rendered from the store, and
      never cuts it. */
  lemma RaisedFromItsStep(texts: Render.Texts, active: set<int>, block: Render.Block)
    requires FromItsStep(texts, block) && block.stepId in active && block.stepId > 0
    ensures var after := RaisedBlock(texts, active, block);
            && FromItsStep(texts, after) && after.stepId == block.stepId
            && after.level == block.level + if block.level < 3 then 1 else 0
  {
    Render.FreshShape(texts, block.stepId, block.level + 1);
  }

  // --------------------------------------------------------------- over every run

  /** The `i`-th block of the context shows a step, from the store: an active one, in the
      tail at level 0 and before it at the level stored, and one level higher if the
      window is too small for the blocks up to there. */
  ghost predicate ShowsAStep(u: Setup, s: State, front: seq<Render.Block>, back: seq<Render.Block>, window: int, i: nat,
                             block: Render.Block)
  {
    var refs, ids, tail := RefsFor(u, s), ActiveIds(RefsFor(u, s)), u.cfg.tailKeepSteps;
    && FromItsStep(TextsOf(u, s), block) && !s.mem.steps[block.stepId].transient
    && exists p :: && 0 <= p < |ids| && ids[p] == block.stepId && ids[p] in refs
                   && block.level == LevelShown(if InTail(u, s, p) then 0 else refs[ids[p]].level,
                                                Overflows(u, s, front, back, window, i))
  }

  function LevelShown(level: int, overflows: bool): int {
    if overflows && level < 3 then level + 1 else level
  }

  lemma FitAt(u: Setup, s: State, front: seq<Render.Block>, back: seq<Render.Block>, window: int, i: nat)
    requires Render.Coherent(s.cache, TextsOf(u, s))
    ensures var texts, refs := TextsOf(u, s), RefsFor(u, s);
            var all, blocks := Unfitted(texts, refs, u.cfg.tailKeepSteps, front, back), Build(u, s, front, back, window).blocks;
            && |blocks| == |all|
            && (i < |all| ==>
                  blocks[i] == if Overflows(u, s, front, back, window, i) then RaisedBlock(texts, refs.Keys, all[i]) else all[i])
  {
    var texts, refs, tail := TextsOf(u, s), RefsFor(u, s), u.cfg.tailKeepSteps;
    BuiltFresh(s.cache, texts, refs, tail, u.sharing, front, back, window);
    var all := Unfitted(texts, refs, tail, front, back);
    var raised := AllRaised(texts, refs.Keys, all);
    NeededIsLeast(Totals(raised, all), window, 0);
    ThroughNeeded(u, s, front, back, window);
    if i < |all| {
      ThroughIff(u, s, front, back, window, i);
    }
  }

  lemma ThroughNeeded(u: Setup, s: State, front: seq<Render.Block>, back: seq<Render.Block>, window: int)
    requires Render.Coherent(s.cache, TextsOf(u, s))
    ensures var texts, refs := TextsOf(u, s), RefsFor(u, s);
            var all := Unfitted(texts, refs, u.cfg.tailKeepSteps, front, back);
            Through(u, s, front, back, window) == Needed(Totals(AllRaised(texts, refs.Keys, all), all), window, 0)
  {
    var texts, refs, tail := TextsOf(u, s), RefsFor(u, s), u.cfg.tailKeepSteps;
    var (after, all) := Assembled(s.cache, texts, refs, tail, front, back);
    AssembledFresh(s.cache, texts, refs, tail, front, back);
    var raised := AllRaised(texts, refs.Keys, all);
    assert Mixed(raised, all, 0) == all;
    FitThroughMixed(after, texts, refs.Keys, raised, all, Totals(raised, all), window, 0);
  }

  /** Before the fit the `i`-th block, if it is a step's, shows the `p`-th active one. */
  lemma UnfittedAt(u: Setup, s: State, front: seq<Render.Block>, back: seq<Render.Block>, i: nat) returns (p: int)
    requires Elsewhere(front) && Elsewhere(back)
    requires i < |Unfitted(TextsOf(u, s), RefsFor(u, s), u.cfg.tailKeepSteps, front, back)|
    requires Unfitted(TextsOf(u, s), RefsFor(u, s), u.cfg.tailKeepSteps, front, back)[i].stepId > 0
    ensures var refs, ids := RefsFor(u, s), ActiveIds(RefsFor(u, s));
            var block := Unfitted(TextsOf(u, s), refs, u.cfg.tailKeepSteps, front, back)[i];
            && 0 <= p < |ids| && ids[p] == block.stepId && ids[p] in refs
            && FromItsStep(TextsOf(u, s), block) && !s.mem.steps[block.stepId].transient
            && block.level == if InTail(u, s, p) then 0 else refs[ids[p]].level
  {
    var texts, refs, tail := TextsOf(u, s), RefsFor(u, s), u.cfg.tailKeepSteps;
    var ids, block := ActiveIds(refs), Unfitted(texts, refs, tail, front, back)[i];
    UnfittedOfSteps(texts, refs, tail, front, back, i);
    p :| 0 <= p < |ids| && HistoryBlock(texts, refs, ids, tail, p) == Some(block);
    HistoryBlockFresh(texts, refs, ids, tail, p);
    SortedIdsAscend(refs.Keys);
    assert ids[p] in ids;
  }

  lemma RaisedKeepsStep(texts: Render.Texts, active: set<int>, block: Render.Block)
    ensures RaisedBlock(texts, active, block).stepId == block.stepId
  {
    Render.FreshShape(texts, block.stepId, block.level + 1);
  }

  lemma StepShown(u: Setup, s: State, front: seq<Render.Block>, back: seq<Render.Block>, window: int, i: nat)
    requires Render.Coherent(s.cache, TextsOf(u, s)) && Elsewhere(front) && Elsewhere(back)
    requires i < |Build(u, s, front, back, window).blocks| && Build(u, s, front, back, window).blocks[i].stepId > 0
    ensures ShowsAStep(u, s, front, back, window, i, Build(u, s, front, back, window).blocks[i])
  {
    var texts, refs := TextsOf(u, s), RefsFor(u, s);
    FitAt(u, s, front, back, window, i);
    var block := Unfitted(texts, refs, u.cfg.tailKeepSteps, front, back)[i];
    RaisedKeepsStep(texts, refs.Keys, block);
    var p := UnfittedAt(u, s, front, back, i);
    RaisedFromItsStep(texts, refs.Keys, block);
    ShownAt(u, s, front, back, window, i, p, Build(u, s, front, back, window).blocks[i]);
  }

  lemma ShownAt(u: Setup, s: State, front: seq<Render.Block>, back: seq<Render.Block>, window: int, i: nat, p: int,
                block: Render.Block)
    requires FromItsStep(TextsOf(u, s), block) && !s.mem.steps[block.stepId].transient
    requires var refs, ids := RefsFor(u, s), ActiveIds(RefsFor(u, s));
             && 0 <= p < |ids| && ids[p] == block.stepId && ids[p] in refs
             && block.level == LevelShown(if InTail(u, s, p) then 0 else refs[ids[p]].level,
                                          Overflows(u, s, front, back, window, i))
    ensures ShowsAStep(u, s, front, back, window, i, block)
  {
  }

  /** The records that the context is built from: those stored, but under pressure the
      level of a stored step is also reached that its weight asks for, unless it is
      locked, at its cap, or among the newest numbers. */
  lemma BuiltFromIff(u: Setup, s: State, id: int, level: int)
    requires id in s.mem.refs && level >= 1
    ensures var before, after, steps, refs := s.mem.refs[id], RefsFor(u, s)[id], s.mem.steps, s.mem.refs;
            && after == before.(level := after.level)
            && (after.level >= level <==>
                  before.level >= level ||
                  (&& u.threshold > 0.0 && u.windowTokens > 0
                   && TotalTokens(steps, SortedIds(refs.Keys)) as real > Times(u.threshold, u.windowTokens as real)
                   && id in steps && !before.lockL0 && before.level < Decay.MaxLevelForType(steps[id].kind)
                   && (PassesOver(steps, refs, false, u.cfg) || id <= s.mem.current - Retained(|refs|, u.cfg))
                   && Reached(Weight(steps[id].tokenCount * |refs|, before), steps[id].kind, level, u.cfg.thresholds)))
  {
    PressedIff(s.mem.steps, s.mem.refs, u.windowTokens, u.threshold);
    ReorganizedIff(s.mem.steps, s.mem.refs, s.mem.current, false, u.cfg, id, level);
  }

  // --------------------------------------------------------------- byte for byte

  /** The mark: brackets around a section sign and the number, the type, and L and the
      level, with dots between them, in UTF-8. */
  function MarkBytes(id: nat, kind: string, level: nat): string {
    [0xE2 as char, 0x9F as char, 0xA8 as char] + [0xC2 as char, 0xA7 as char] + Decimal(id)
    + [0xC2 as char, 0xB7 as char] + kind + [0xC2 as char, 0xB7 as char] + ['L'] + Decimal(level)
    + [0xE2 as char, 0x9F as char, 0xA9 as char]
  }

  /** What is stored for the step at the level: its content at level 0, and at a level
      that nothing was written for; else the text, the facts one to a line, or the
      mask. */
  predicate StoredText(texts: Render.Texts, id: int, level: int, text: string)
    requires id in texts.steps
  {
    if level == 1 && id in texts.l1 then text == texts.l1[id]
    else if level == 2 && id in texts.l2 then text == Render.Joined(texts.l2[id])
    else if level == 3 && id in texts.l3 then text == texts.l3[id]
    else text == texts.steps[id].content
  }

  /** The block reads as its step's mark at its level, a space, and the stored text. */
  ghost predicate Reads(texts: Render.Texts, block: Render.Block, text: string) {
    && block.stepId in texts.steps && block.stepId >= 0 && 0 <= block.level <= 3
    && StoredText(texts, block.stepId, block.level, text)
    && block.content ==
       MarkBytes(block.stepId, Render.KindName(texts.steps[block.stepId].kind), block.level) + [' '] + text
  }

  lemma FreshReads(texts: Render.Texts, block: Render.Block) returns (text: string)
    requires FromItsStep(texts, block) && block.stepId >= 0 && texts.mark == Render.Marker
    ensures Reads(texts, block, text)
  {
    text := Render.FromStore(texts, block.stepId, block.level).value;
    MarkerIs(block.stepId, texts.steps[block.stepId].kind, block.level);
  }

  lemma MarkerIs(id: nat, kind: StepType, level: nat)
    ensures Render.Marker(id, kind, level) == MarkBytes(id, Render.KindName(kind), level)
  {
  }

  /** Main result: after every run without a noticed write, whatever is cached, every
      block of a step in the context built next shows an active step, and reads as that
      step's mark at the block's level, a space, and the text stored for that level. */
  lemma ContextReads(u: Setup, ops: seq<Op>, front: seq<Render.Block>, back: seq<Render.Block>, window: int, i: nat)
    returns (text: string)
    requires Decay.NonNegative(u.cfg.decay) && Disciplined(u, ops) && u.mark == Render.Marker && Elsewhere(front) && Elsewhere(back)
    requires i < |Build(u, Run(u, ops), front, back, window).blocks|
    requires Build(u, Run(u, ops), front, back, window).blocks[i].stepId > 0
    ensures var s := Run(u, ops); var block := Build(u, s, front, back, window).blocks[i];
            ShowsAStep(u, s, front, back, window, i, block) && Reads(TextsOf(u, s), block, text)
  {
    var s := Run(u, ops);
    RunCoherent(u, ops);
    StepShown(u, s, front, back, window, i);
    text := FreshReads(TextsOf(u, s), Build(u, s, front, back, window).blocks[i]);
  }

  // ------------------------------------------------------------ citing a block's mark

  predicate Known(kind: StepType) {
    !kind.Other?
  }

  lemma NamesAre()
    ensures Render.KindName(User) == "user" && Render.KindName(Tool) == "tool" && Render.KindName(Reasoning) == "reasoning"
    ensures Render.KindName(Plan) == "plan" && Render.KindName(Failed) == "failed"
    ensures forall name :: Render.KindName(Other(name)) == name
  {
  }

  lemma {:induction false} CloseBehind(text: string, rest: string)
    requires forall i | 0 <= i < |text| :: text[i] != 0xE2 as char
    ensures CloseIndex(text + Render.MARKER_CLOSE + rest) == |text|
  {
    var all := text + Render.MARKER_CLOSE + rest;
    if text == "" {
      assert all == Render.MARKER_CLOSE + rest;
    } else {
      CloseBehind(text[1..], rest);
      assert all[1..] == text[1..] + Render.MARKER_CLOSE + rest;
      assert all[0] == text[0] && Render.MARKER_CLOSE[0] == 0xE2 as char;
    }
  }

  lemma CloseBehindOpen(text: string, rest: string)
    requires forall i | 0 <= i < |text| :: text[i] != 0xE2 as char
    ensures CloseIndex(Render.MARKER_OPEN + text + Render.MARKER_CLOSE + rest) == 3 + |text|
  {
    var all := Render.MARKER_OPEN + text + Render.MARKER_CLOSE + rest;
    var tail := [0x9F as char, 0xA8 as char] + text;
    CloseBehind(tail, rest);
    assert all[1..] == tail + Render.MARKER_CLOSE + rest;
    assert all[2] == 0xA8 as char && Render.MARKER_CLOSE[2] == 0xA9 as char;
    assert !(Render.MARKER_CLOSE <= all);
  }

  /** The part of a mark between its brackets. */
  function Inside(id: nat, kind: string, level: nat): string {
    [0xC2 as char, 0xA7 as char] + Decimal(id) + [0xC2 as char, 0xB7 as char] + kind + [0xC2 as char, 0xB7 as char]
    + ['L'] + Decimal(level)
  }

  lemma InsideHasNoBracket(id: nat, kind: StepType, level: nat)
    requires Known(kind)
    ensures forall i | 0 <= i < |Inside(id, Render.KindName(kind), level)| ::
              Inside(id, Render.KindName(kind), level)[i] != 0xE2 as char
  {
    NamesAre();
    DecimalDigits(id);
    DecimalDigits(level);
    var a, b, c := Decimal(id), Render.KindName(kind), Decimal(level);
    assert forall i | 0 <= i < |a| :: a[i] != 0xE2 as char;
    assert forall i | 0 <= i < |b| :: b[i] != 0xE2 as char;
    assert forall i | 0 <= i < |c| :: c[i] != 0xE2 as char;
    NoBracket([0xC2 as char, 0xA7 as char], a);
    NoBracket([0xC2 as char, 0xA7 as char] + a, [0xC2 as char, 0xB7 as char]);
    NoBracket([0xC2 as char, 0xA7 as char] + a + [0xC2 as char, 0xB7 as char], b);
    NoBracket([0xC2 as char, 0xA7 as char] + a + [0xC2 as char, 0xB7 as char] + b, [0xC2 as char, 0xB7 as char]);
    NoBracket([0xC2 as char, 0xA7 as char] + a + [0xC2 as char, 0xB7 as char] + b + [0xC2 as char, 0xB7 as char], ['L']);
    NoBracket([0xC2 as char, 0xA7 as char] + a + [0xC2 as char, 0xB7 as char] + b + [0xC2 as char, 0xB7 as char] + ['L'], c);
  }

  lemma NoBracket(a: string, b: string)
    requires forall i | 0 <= i < |a| :: a[i] != 0xE2 as char
    requires forall i | 0 <= i < |b| :: b[i] != 0xE2 as char
    ensures forall i | 0 <= i < |a + b| :: (a + b)[i] != 0xE2 as char
  {
  }

  /** A block up to its first closing bracket is its mark, which cites its step and
      nothing else; behind it are a space and the text. */
  lemma BlockIsMarked(texts: Render.Texts, block: Render.Block, text: string)
    requires Reads(texts, block, text) && Known(texts.steps[block.stepId].kind)
    ensures var kind, n := Render.KindName(texts.steps[block.stepId].kind), CloseIndex(block.content) + 3;
            && n <= |block.content| && block.content[..n] == MarkBytes(block.stepId, kind, block.level)
            && CitedIn(block.content[..n]) == [block.stepId] && block.content[n..] == [' '] + text
  {
    var id, kind, level := block.stepId, texts.steps[block.stepId].kind, block.level;
    var name, mark := Render.KindName(kind), MarkBytes(id, Render.KindName(kind), level);
    InsideHasNoBracket(id, kind, level);
    MarkRegrouped(id, name, level, [' '] + text);
    CloseBehindOpen(Inside(id, name, level), [' '] + text);
    assert block.content == mark + ([' '] + text);
    assert |mark| == 3 + |Inside(id, name, level)| + 3;
    assert block.content[..|mark|] == mark && block.content[|mark|..] == [' '] + text;
    MarkerIs(id, kind, level);
    MarkCitesStep(id, kind, level);
  }

  lemma MarkRegrouped(id: nat, kind: string, level: nat, rest: string)
    ensures MarkBytes(id, kind, level) == Render.MARKER_OPEN + Inside(id, kind, level) + Render.MARKER_CLOSE
  {
    assert Render.MARKER_OPEN == [0xE2 as char, 0x9F as char, 0xA8 as char];
    assert Render.MARKER_CLOSE == [0xE2 as char, 0x9F as char, 0xA9 as char];
  }

  /** After the marks in `quoted` were read, the step has one citation more, at the
      newest step, and no other record has changed. */
  predicate CitesOnly(mem: Mutators.State, quoted: string, id: int, group: int, cfg: Config)
    requires Decay.NonNegative(cfg.decay)
  {
    var before, after := mem.refs, Mutators.Step(mem, Mutators.CiteOp(CitedIn(quoted)), group, cfg).refs;
    && id in before && after.Keys == before.Keys && (forall x | x in before && x != id :: after[x] == before[x])
    && after[id].refCount == before[id].refCount + 1 && after[id].lastRefAtStep == Some(mem.current)
  }

  lemma MarkCitesOnly(mem: Mutators.State, texts: Render.Texts, block: Render.Block, text: string, group: int, cfg: Config)
    requires Decay.NonNegative(cfg.decay) && block.stepId > 0 && block.stepId in mem.refs
    requires Reads(texts, block, text) && Known(texts.steps[block.stepId].kind)
    ensures var n := CloseIndex(block.content) + 3;
            n <= |block.content| && CitesOnly(mem, block.content[..n], block.stepId, group, cfg)
  {
    BlockIsMarked(texts, block, text);
    OneCited(mem.refs, block.stepId, mem.current, group, cfg);
  }

  lemma ShownIsActive(u: Setup, s: State, front: seq<Render.Block>, back: seq<Render.Block>, window: int, i: nat,
                      block: Render.Block)
    requires ShowsAStep(u, s, front, back, window, i, block)
    ensures block.stepId in s.mem.refs
  {
    assert RefsFor(u, s).Keys == s.mem.refs.Keys;
  }

  /** The round trip: a model that quotes the mark of a block in the context cites the
      step that the block shows, and no other record changes. */
  lemma QuotedBlockIsCited(u: Setup, ops: seq<Op>, front: seq<Render.Block>, back: seq<Render.Block>, window: int, i: nat)
    requires Decay.NonNegative(u.cfg.decay) && Disciplined(u, ops) && u.mark == Render.Marker && Elsewhere(front) && Elsewhere(back)
    requires i < |Build(u, Run(u, ops), front, back, window).blocks|
    requires var id := Build(u, Run(u, ops), front, back, window).blocks[i].stepId;
             id > 0 && (id in Run(u, ops).mem.steps ==> Known(Run(u, ops).mem.steps[id].kind))
    ensures var mem, block := Run(u, ops).mem, Build(u, Run(u, ops), front, back, window).blocks[i];
            var n := CloseIndex(block.content) + 3;
            n <= |block.content| && CitesOnly(mem, block.content[..n], block.stepId, u.group, u.cfg)
  {
    var s := Run(u, ops);
    var block := Build(u, s, front, back, window).blocks[i];
    var text := ContextReads(u, ops, front, back, window, i);
    ShownIsActive(u, s, front, back, window, i, block);
    MarkCitesOnly(s.mem, TextsOf(u, s), block, text, u.group, u.cfg);
  }

  lemma OneCited(refs: Refs, id: int, current: int, group: int, cfg: Config)
    requires id > 0 && id in refs
    ensures var after := CitedRefs(refs, [id], current, group, cfg);
            && after.Keys == refs.Keys && (forall x | x in refs && x != id :: after[x] == refs[x])
            && after[id].refCount == refs[id].refCount + 1 && after[id].lastRefAtStep == Some(current)
  {
    assert [id][..0] == [] && CitedRefs(refs, [], current, group, cfg) == refs;
  }

  lemma TwelfthText()
    ensures MarkBytes(12, "tool", 1) + [' '] + "ok" ==
            [0xE2 as char, 0x9F as char, 0xA8 as char, 0xC2 as char, 0xA7 as char, '1', '2', 0xC2 as char, 0xB7 as char,
             't', 'o', 'o', 'l', 0xC2 as char, 0xB7 as char, 'L', '1', 0xE2 as char, 0x9F as char, 0xA9 as char,
             ' ', 'o', 'k']
  {
    assert Decimal(12) == Decimal(1) + ['2'] && Decimal(1) == ['1'];
  }

  /** The twelfth step, an output with a text of its own at level 1. */
  lemma TwelfthBlock(texts: Render.Texts)
    requires texts.mark == Render.Marker && 12 in texts.steps && texts.steps[12].kind == Tool
    requires 12 in texts.l1 && texts.l1[12] == "ok"
    ensures Render.Fresh(texts, 12, 1) ==
            Some(Render.Block(12, 1, [0xE2 as char, 0x9F as char, 0xA8 as char, 0xC2 as char, 0xA7 as char, '1', '2',
                                      0xC2 as char, 0xB7 as char, 't', 'o', 'o', 'l', 0xC2 as char, 0xB7 as char, 'L', '1',
                                      0xE2 as char, 0x9F as char, 0xA9 as char, ' ', 'o', 'k']))
  {
    MarkerIs(12, Tool, 1);
    NamesAre();
    TwelfthText();
    assert Render.FromStore(texts, 12, 1) == Some("ok");
  }
}
