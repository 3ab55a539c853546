/** Building the context: the history rendered through the cache, between blocks
    that come from elsewhere, and fitted into the window. */
module ContextBuild {
  import opened Wrappers
  import opened Records
  import opened Reals
  import opened Compression
  import opened Render
  import opened WindowFit

  /** The block of the `i`-th active step: the original text in the tail, the
      stored level before it; nothing for a transient step, or one that cannot be
      rendered. */
  function HistoryBlock(texts: Texts, refs: Refs, ids: seq<int>, tailKeepSteps: nat, i: nat): Option<Block>
    requires i < |ids|
  {
    var id := ids[i];
    if id !in texts.steps || texts.steps[id].transient then None
    else if i >= |ids| - tailKeepSteps then Some(RenderBlock(texts.mark, id, 0, texts.steps[id].content, texts.steps[id].kind))
    else if id in refs then Fresh(texts, id, refs[id].level)
    else None
  }

  function HistoryBlocks(texts: Texts, refs: Refs, ids: seq<int>, tailKeepSteps: nat): (r: seq<Option<Block>>)
    ensures |r| == |ids|
    ensures forall i | 0 <= i < |r| :: r[i] == HistoryBlock(texts, refs, ids, tailKeepSteps, i)
  {
    seq(|ids|, i requires 0 <= i < |ids| => HistoryBlock(texts, refs, ids, tailKeepSteps, i))
  }

  function HistoryBlockThrough(cache: Cache, texts: Texts, refs: Refs, ids: seq<int>, tailKeepSteps: nat, i: nat)
    : (Cache, Option<Block>)
    requires i < |ids|
  {
    var id := ids[i];
    if id !in texts.steps || texts.steps[id].transient then (cache, None)
    else if i >= |ids| - tailKeepSteps then
      (cache, Some(RenderBlock(texts.mark, id, 0, texts.steps[id].content, texts.steps[id].kind)))
    else if id in refs then Rendered(cache, texts, id, refs[id].level)
    else (cache, None)
  }

  /** The history of the first `n` active steps, whatever the cache holds. */
  function HistoryThrough(cache: Cache, texts: Texts, refs: Refs, ids: seq<int>, tailKeepSteps: nat, n: nat)
    : (Cache, seq<Option<Block>>)
    requires n <= |ids|
  {
    if n == 0 then (cache, [])
    else
      var (before, blocks) := HistoryThrough(cache, texts, refs, ids, tailKeepSteps, n - 1);
      var (after, block) := HistoryBlockThrough(before, texts, refs, ids, tailKeepSteps, n - 1);
      (after, blocks + [block])
  }

  lemma HistoryBlockThroughFresh(cache: Cache, texts: Texts, refs: Refs, ids: seq<int>, tailKeepSteps: nat, i: nat)
    requires i < |ids| && Coherent(cache, texts)
    ensures var (after, block) := HistoryBlockThrough(cache, texts, refs, ids, tailKeepSteps, i);
            block == HistoryBlock(texts, refs, ids, tailKeepSteps, i) && Coherent(after, texts)
  {
    if ids[i] in refs {
      RenderedFresh(cache, texts, ids[i], refs[ids[i]].level);
    }
  }

  lemma {:induction false} HistoryThroughFresh(cache: Cache, texts: Texts, refs: Refs, ids: seq<int>,
                                               tailKeepSteps: nat, n: nat)
    requires n <= |ids| && Coherent(cache, texts)
    ensures var (after, blocks) := HistoryThrough(cache, texts, refs, ids, tailKeepSteps, n);
            blocks == HistoryBlocks(texts, refs, ids, tailKeepSteps)[..n] && Coherent(after, texts)
  {
    if n > 0 {
      HistoryThroughFresh(cache, texts, refs, ids, tailKeepSteps, n - 1);
      HistoryBlockThroughFresh(HistoryThrough(cache, texts, refs, ids, tailKeepSteps, n - 1).0, texts, refs, ids,
                               tailKeepSteps, n - 1);
    }
  }

  /** What is known of the block of a step before it is rendered: its number, its
      level, and that there is one if the level can be rendered. */
  predicate HistoryShape(texts: Texts, refs: Refs, ids: seq<int>, tailKeepSteps: nat, i: nat, block: Option<Block>)
    requires i < |ids|
  {
    var id := ids[i];
    && (block.Some? ==> block.value.stepId == id && id in texts.steps &&
                        (i >= |ids| - tailKeepSteps ==> block.value.level == 0) &&
                        (i < |ids| - tailKeepSteps ==> id in refs && block.value.level == refs[id].level))
    && (id in texts.steps && !texts.steps[id].transient && id in refs && 0 <= refs[id].level <= 3 ==> block.Some?)
  }

  lemma HistoryBlockThroughShape(cache: Cache, texts: Texts, refs: Refs, ids: seq<int>, tailKeepSteps: nat, i: nat)
    requires i < |ids|
    ensures HistoryShape(texts, refs, ids, tailKeepSteps, i, HistoryBlockThrough(cache, texts, refs, ids, tailKeepSteps, i).1)
  {
    if ids[i] in refs {
      FreshShape(texts, ids[i], refs[ids[i]].level);
    }
  }

  lemma {:induction false} HistoryThroughShape(cache: Cache, texts: Texts, refs: Refs, ids: seq<int>,
                                               tailKeepSteps: nat, n: nat)
    requires n <= |ids|
    ensures var blocks := HistoryThrough(cache, texts, refs, ids, tailKeepSteps, n).1;
            |blocks| == n && forall i | 0 <= i < n :: HistoryShape(texts, refs, ids, tailKeepSteps, i, blocks[i])
  {
    if n > 0 {
      HistoryThroughShape(cache, texts, refs, ids, tailKeepSteps, n - 1);
      HistoryBlockThroughShape(HistoryThrough(cache, texts, refs, ids, tailKeepSteps, n - 1).0, texts, refs, ids,
                               tailKeepSteps, n - 1);
    }
  }

  /** The blocks that there are. */
  function Present(blocks: seq<Option<Block>>): seq<Block> {
    if blocks == [] then []
    else Present(blocks[..|blocks| - 1]) +
         if blocks[|blocks| - 1].Some? then [blocks[|blocks| - 1].value] else []
  }

  /** Everything that is built, before it is fitted. */
  function Unfitted(texts: Texts, refs: Refs, tailKeepSteps: nat, front: seq<Block>, back: seq<Block>): seq<Block> {
    var ids := ActiveIds(refs);
    front + Present(HistoryBlocks(texts, refs, ids, tailKeepSteps)) + back
  }

  /** The context as rendered from the store. */
  function Context(texts: Texts, refs: Refs, tailKeepSteps: nat, front: seq<Block>, back: seq<Block>, window: int)
    : seq<Block>
  {
    Fitted(texts, refs.Keys, Unfitted(texts, refs, tailKeepSteps, front, back), window)
  }

  /** What a build leaves: the cache, the context, and the records. */
  datatype Built = Built(cache: Cache, blocks: seq<Block>, refs: Refs)

  /** Everything before the fit, through the cache. */
  function Assembled(cache: Cache, texts: Texts, refs: Refs, tailKeepSteps: nat, front: seq<Block>, back: seq<Block>)
    : (Cache, seq<Block>)
  {
    var ids := ActiveIds(refs);
    var (after, history) := HistoryThrough(cache, texts, refs, ids, tailKeepSteps, |ids|);
    (after, front + Present(history) + back)
  }

  /** A build, whatever the cache holds; `sharing` tells a store that hands out its
      own records. */
  function BuiltThrough(cache: Cache, texts: Texts, refs: Refs, tailKeepSteps: nat, sharing: bool, front: seq<Block>,
                        back: seq<Block>, window: int): Built
  {
    var (after, all) := Assembled(cache, texts, refs, tailKeepSteps, front, back);
    var fit := FitThrough(after, texts, refs.Keys, all, window, 0);
    Built(fit.cache, fit.blocks, if sharing then FitRefs(refs, all, fit.through) else refs)
  }

  lemma AssembledFresh(cache: Cache, texts: Texts, refs: Refs, tailKeepSteps: nat, front: seq<Block>, back: seq<Block>)
    requires Coherent(cache, texts)
    ensures var (after, all) := Assembled(cache, texts, refs, tailKeepSteps, front, back);
            all == Unfitted(texts, refs, tailKeepSteps, front, back) && Coherent(after, texts)
  {
    var ids := ActiveIds(refs);
    HistoryThroughFresh(cache, texts, refs, ids, tailKeepSteps, |ids|);
    var all := HistoryBlocks(texts, refs, ids, tailKeepSteps);
    assert all[..|ids|] == all;
  }

  /** Through a coherent cache the context built is the one rendered from the store,
      and the cache stays coherent. */
  lemma BuiltFresh(cache: Cache, texts: Texts, refs: Refs, tailKeepSteps: nat, sharing: bool, front: seq<Block>,
                   back: seq<Block>, window: int)
    requires Coherent(cache, texts)
    ensures var built := BuiltThrough(cache, texts, refs, tailKeepSteps, sharing, front, back, window);
            built.blocks == Context(texts, refs, tailKeepSteps, front, back, window) && Coherent(built.cache, texts)
  {
    AssembledFresh(cache, texts, refs, tailKeepSteps, front, back);
    FitThroughFresh(Assembled(cache, texts, refs, tailKeepSteps, front, back).0, texts, refs.Keys,
                    Unfitted(texts, refs, tailKeepSteps, front, back), window);
  }

  // ---------------------------------------------------- each step in its place once

  function Count(blocks: seq<Block>, id: int): nat {
    if blocks == [] then 0
    else Count(blocks[..|blocks| - 1], id) + if blocks[|blocks| - 1].stepId == id then 1 else 0
  }

  lemma {:induction false} CountSum(a: seq<Block>, b: seq<Block>, id: int)
    ensures Count(a + b, id) == Count(a, id) + Count(b, id)
  {
    if b == [] {
      assert a + b == a;
    } else {
      CountSum(a, b[..|b| - 1], id);
      assert (a + b)[..|a + b| - 1] == a + b[..|b| - 1];
    }
  }

  lemma {:induction false} CountNone(blocks: seq<Block>, id: int)
    requires forall i | 0 <= i < |blocks| :: blocks[i].stepId != id
    ensures Count(blocks, id) == 0
  {
    if blocks != [] {
      CountNone(blocks[..|blocks| - 1], id);
    }
  }

  lemma {:induction false} CountSameIds(a: seq<Block>, b: seq<Block>, id: int)
    requires |a| == |b| && forall i | 0 <= i < |a| :: a[i].stepId == b[i].stepId
    ensures Count(a, id) == Count(b, id)
  {
    if a != [] {
      CountSameIds(a[..|a| - 1], b[..|b| - 1], id);
    }
  }

  lemma PresentNext(blocks: seq<Option<Block>>, n: nat, id: int)
    requires n < |blocks|
    ensures Count(Present(blocks[..n + 1]), id) ==
            Count(Present(blocks[..n]), id) + if blocks[n].Some? && blocks[n].value.stepId == id then 1 else 0
  {
    assert blocks[..n + 1][..n] == blocks[..n];
    var last := if blocks[n].Some? then [blocks[n].value] else [];
    CountSum(Present(blocks[..n]), last, id);
    assert last != [] ==> last[..0] == [];
  }

  /** A step at one place has one block if there is one for that place, and none
      otherwise. */
  lemma {:induction false} CountPresent(blocks: seq<Option<Block>>, ids: seq<int>, n: nat, id: int, p: int)
    requires |blocks| == |ids| && n <= |ids|
    requires forall i | 0 <= i < |ids| :: ids[i] == id <==> i == p
    requires forall i | 0 <= i < |blocks| && blocks[i].Some? :: blocks[i].value.stepId == ids[i]
    ensures Count(Present(blocks[..n]), id) == if 0 <= p < n && blocks[p].Some? then 1 else 0
  {
    if n > 0 {
      CountPresent(blocks, ids, n - 1, id, p);
      PresentNext(blocks, n - 1, id);
    }
  }

  /** The other blocks of a context carry numbers that are no step's. */
  predicate Elsewhere(blocks: seq<Block>) {
    forall i | 0 <= i < |blocks| :: blocks[i].stepId <= 0
  }

  /** A cache of what was rendered at the levels that there are. */
  predicate Renderable(cache: Cache) {
    forall id | id in cache :: 0 <= cache[id].level <= 3
  }

  /** The `i`-th active step is shown: in the tail, or at a level that there is. */
  predicate ShownAt(texts: Texts, refs: Refs, ids: seq<int>, tailKeepSteps: nat, i: nat)
    requires i < |ids|
  {
    var id := ids[i];
    && id in texts.steps && !texts.steps[id].transient
    && (i >= |ids| - tailKeepSteps || (id in refs && 0 <= refs[id].level <= 3))
  }

  lemma RenderedShown(cache: Cache, texts: Texts, id: int, level: int)
    requires Renderable(cache) && id in texts.steps
    ensures var (after, block) := Rendered(cache, texts, id, level);
            Renderable(after) && (block.Some? <==> 0 <= level <= 3)
  {
    FreshShape(texts, id, level);
  }

  lemma {:induction false} HistoryThroughShown(cache: Cache, texts: Texts, refs: Refs, ids: seq<int>,
                                               tailKeepSteps: nat, n: nat)
    requires n <= |ids| && Renderable(cache)
    ensures var (after, blocks) := HistoryThrough(cache, texts, refs, ids, tailKeepSteps, n);
            && Renderable(after) && |blocks| == n
            && forall i | 0 <= i < n :: blocks[i].Some? <==> ShownAt(texts, refs, ids, tailKeepSteps, i)
  {
    if n > 0 {
      HistoryThroughShown(cache, texts, refs, ids, tailKeepSteps, n - 1);
      if ids[n - 1] in refs && ids[n - 1] in texts.steps {
        RenderedShown(HistoryThrough(cache, texts, refs, ids, tailKeepSteps, n - 1).0, texts, ids[n - 1],
                      refs[ids[n - 1]].level);
      }
    }
  }

  lemma CountAround(front: seq<Block>, history: seq<Block>, back: seq<Block>, id: int)
    requires Elsewhere(front) && Elsewhere(back) && id > 0
    ensures Count(front + history + back, id) == Count(history, id)
  {
    CountNone(front, id);
    CountNone(back, id);
    CountSum(front, history, id);
    CountSum(front + history, back, id);
  }

  /** A step is shown: active, ingested, not transient, and in the tail or at a level
      that there is. */
  predicate Shown(texts: Texts, refs: Refs, tailKeepSteps: nat, id: int) {
    && id in refs && id in texts.steps && !texts.steps[id].transient
    && (id !in BeforeTail(ActiveIds(refs), tailKeepSteps) || 0 <= refs[id].level <= 3)
  }

  /** The place of a step among the active ones. */
  lemma Place(refs: Refs, tailKeepSteps: nat, id: int) returns (p: int)
    ensures var ids := ActiveIds(refs);
            && (forall i | 0 <= i < |ids| :: ids[i] == id <==> i == p)
            && (id in refs <==> 0 <= p < |ids|)
            && (id in BeforeTail(ids, tailKeepSteps) <==> 0 <= p < |ids| - tailKeepSteps)
  {
    var ids := ActiveIds(refs);
    SortedIdsAscend(refs.Keys);
    p := -1;
    if id in refs {
      p :| 0 <= p < |ids| && ids[p] == id;
    }
    if 0 <= p < |ids| - tailKeepSteps {
      assert BeforeTail(ids, tailKeepSteps)[p] == id;
    }
  }

  /** Through a cache of what was rendered at the levels that there are, coherent or
      not, and whatever the window is, a step has exactly one block in the context
      built if it is shown, and none otherwise. */
  lemma BuiltCount(cache: Cache, texts: Texts, refs: Refs, tailKeepSteps: nat, sharing: bool, front: seq<Block>,
                   back: seq<Block>, window: int, id: int)
    requires Elsewhere(front) && Elsewhere(back) && id > 0 && Renderable(cache)
    ensures Count(BuiltThrough(cache, texts, refs, tailKeepSteps, sharing, front, back, window).blocks, id) ==
            if Shown(texts, refs, tailKeepSteps, id) then 1 else 0
  {
    var ids := ActiveIds(refs);
    var (after, history) := HistoryThrough(cache, texts, refs, ids, tailKeepSteps, |ids|);
    HistoryCount(cache, texts, refs, tailKeepSteps, id);
    CountAround(front, Present(history), back, id);
    var all := front + Present(history) + back;
    FitThroughSteps(after, texts, refs.Keys, all, window);
    CountSameIds(FitThrough(after, texts, refs.Keys, all, window, 0).blocks, all, id);
  }

  lemma HistoryCount(cache: Cache, texts: Texts, refs: Refs, tailKeepSteps: nat, id: int)
    requires Renderable(cache)
    ensures var ids := ActiveIds(refs);
            Count(Present(HistoryThrough(cache, texts, refs, ids, tailKeepSteps, |ids|).1), id) ==
            if Shown(texts, refs, tailKeepSteps, id) then 1 else 0
  {
    var ids := ActiveIds(refs);
    var history := HistoryThrough(cache, texts, refs, ids, tailKeepSteps, |ids|).1;
    HistoryThroughShown(cache, texts, refs, ids, tailKeepSteps, |ids|);
    HistoryThroughShape(cache, texts, refs, ids, tailKeepSteps, |ids|);
    var p := Place(refs, tailKeepSteps, id);
    forall i | 0 <= i < |ids| && history[i].Some? ensures history[i].value.stepId == ids[i] {
      assert HistoryShape(texts, refs, ids, tailKeepSteps, i, history[i]);
    }
    CountPresent(history, ids, |ids|, id, p);
    assert history[..|ids|] == history;
    assert 0 <= p < |ids| ==> (history[p].Some? <==> ShownAt(texts, refs, ids, tailKeepSteps, p));
  }

  // ---------------------------------------------------- what is shown of a step

  /** The block shows the `p`-th active step: in the tail at level 0, before it at
      the level stored. */
  predicate ShowsStep(refs: Refs, ids: seq<int>, tailKeepSteps: nat, p: int, block: Block) {
    && 0 <= p < |ids| && block.stepId == ids[p]
    && if p >= |ids| - tailKeepSteps then block.level == 0 else ids[p] in refs && block.level == refs[ids[p]].level
  }

  ghost predicate ShowsSome(refs: Refs, ids: seq<int>, tailKeepSteps: nat, n: nat, block: Block) {
    exists p :: 0 <= p < n && ShowsStep(refs, ids, tailKeepSteps, p, block)
  }

  predicate InOrder(blocks: seq<Block>) {
    forall i, j | 0 <= i < j < |blocks| :: blocks[i].stepId < blocks[j].stepId
  }

  /** The history shows active steps, in ascending order. */
  ghost predicate History(refs: Refs, ids: seq<int>, tailKeepSteps: nat, n: nat, blocks: seq<Block>) {
    (forall i | 0 <= i < |blocks| :: ShowsSome(refs, ids, tailKeepSteps, n, blocks[i])) && InOrder(blocks)
  }

  lemma HistoryNext(refs: Refs, ids: seq<int>, tailKeepSteps: nat, n: nat, blocks: seq<Block>, more: seq<Block>)
    requires Ascending(ids) && n < |ids| && History(refs, ids, tailKeepSteps, n, blocks)
    requires more == [] || (|more| == 1 && ShowsStep(refs, ids, tailKeepSteps, n, more[0]))
    ensures History(refs, ids, tailKeepSteps, n + 1, blocks + more)
  {
    forall i | 0 <= i < |blocks + more| ensures ShowsSome(refs, ids, tailKeepSteps, n + 1, (blocks + more)[i]) {
      assert i < |blocks| ==> ShowsSome(refs, ids, tailKeepSteps, n, blocks[i]);
      assert i == |blocks| ==> ShowsStep(refs, ids, tailKeepSteps, n, more[0]);
    }
    forall i | 0 <= i < |blocks| ensures blocks[i].stepId < ids[n] {
      assert ShowsSome(refs, ids, tailKeepSteps, n, blocks[i]);
    }
  }

  lemma {:induction false} PresentHistory(texts: Texts, refs: Refs, ids: seq<int>, tailKeepSteps: nat,
                                          blocks: seq<Option<Block>>, n: nat)
    requires Ascending(ids) && |blocks| == |ids| && n <= |ids|
    requires forall i | 0 <= i < |ids| :: HistoryShape(texts, refs, ids, tailKeepSteps, i, blocks[i])
    ensures History(refs, ids, tailKeepSteps, n, Present(blocks[..n]))
  {
    if n > 0 {
      PresentHistory(texts, refs, ids, tailKeepSteps, blocks, n - 1);
      assert blocks[..n][..n - 1] == blocks[..n - 1];
      assert HistoryShape(texts, refs, ids, tailKeepSteps, n - 1, blocks[n - 1]);
      HistoryNext(refs, ids, tailKeepSteps, n - 1, Present(blocks[..n - 1]),
                  if blocks[n - 1].Some? then [blocks[n - 1].value] else []);
    }
  }

  /** Between blocks from elsewhere, only the history can be raised. */
  lemma AroundHistory(refs: Refs, ids: seq<int>, tailKeepSteps: nat, front: seq<Block>, history: seq<Block>,
                      back: seq<Block>)
    requires Elsewhere(front) && Elsewhere(back) && History(refs, ids, tailKeepSteps, |ids|, history)
    ensures var all := front + history + back;
            && OneEach(all)
            && (forall i | 0 <= i < |all| && Raisable(all[i]) :: ShowsSome(refs, ids, tailKeepSteps, |ids|, all[i]))
  {
    var all := front + history + back;
    forall i | 0 <= i < |all| ensures Raisable(all[i]) ==> |front| <= i < |front| + |history| && all[i] == history[i - |front|] {
      if i < |front| {
        assert all[i] == front[i];
      } else if i >= |front| + |history| {
        assert all[i] == back[i - |front| - |history|];
      }
    }
  }

  /** What is built holds one block at most of each step, and each that can be
      raised shows its step as the history does. */
  lemma AssembledShape(cache: Cache, texts: Texts, refs: Refs, tailKeepSteps: nat, front: seq<Block>, back: seq<Block>)
    requires Elsewhere(front) && Elsewhere(back)
    ensures var ids, all := ActiveIds(refs), Assembled(cache, texts, refs, tailKeepSteps, front, back).1;
            && Ascending(ids) && OneEach(all)
            && (forall i | 0 <= i < |all| && Raisable(all[i]) :: ShowsSome(refs, ids, tailKeepSteps, |ids|, all[i]))
  {
    var ids := ActiveIds(refs);
    var blocks := HistoryThrough(cache, texts, refs, ids, tailKeepSteps, |ids|).1;
    SortedIdsAscend(refs.Keys);
    HistoryThroughShape(cache, texts, refs, ids, tailKeepSteps, |ids|);
    PresentHistory(texts, refs, ids, tailKeepSteps, blocks, |ids|);
    assert blocks[..|ids|] == blocks;
    AroundHistory(refs, ids, tailKeepSteps, front, Present(blocks), back);
  }

  // ------------------------------------------------------------------ pressure

  /** Whether the active steps press on the window, so that a mechanical
      reorganisation comes before a build. */
  predicate Pressed(steps: Steps, refs: Refs, windowTokens: int, threshold: real) {
    && threshold > 0.0 && windowTokens > 0
    && TotalTokens(steps, ActiveIds(refs)) > 0
    && Over(TotalTokens(steps, ActiveIds(refs)) as real, windowTokens as real) > threshold
  }

  /** That is, more than the share of the window. */
  lemma PressedIff(steps: Steps, refs: Refs, windowTokens: int, threshold: real)
    ensures Pressed(steps, refs, windowTokens, threshold) <==>
            && threshold > 0.0 && windowTokens > 0
            && TotalTokens(steps, SortedIds(refs.Keys)) as real > Times(threshold, windowTokens as real)
  {
    if windowTokens > 0 {
      var total := TotalTokens(steps, ActiveIds(refs)) as real;
      OverTimes(total, windowTokens as real);
      TimesOrder(Over(total, windowTokens as real), threshold, windowTokens as real);
    }
  }

  /** The records that a context is built from. */
  function BuildRefs(steps: Steps, refs: Refs, current: int, cfg: Config, windowTokens: int, threshold: real): Refs {
    if Pressed(steps, refs, windowTokens, threshold)
    then MechanicalReorganization(steps, refs, current, false, cfg)
    else refs
  }
}
