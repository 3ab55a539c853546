/** The code that builds a context: the history loop and the in-place fit, both
    through the render cache, whatever the cache holds. */
module ContextBuilder {
  import opened Wrappers
  import opened Records
  import opened Reals
  import opened Compression
  import opened CompressionEngine
  import opened Render
  import opened WindowFit
  import opened ContextBuild

  class Builder {
    const manager: HybridManager
    const cache: RenderedCache
    /** Whether the store hands out its own records rather than copies. */
    const sharing: bool
    const windowTokens: int
    const pressureThreshold: real

    constructor (manager: HybridManager, sharing: bool, windowTokens: int, pressureThreshold: real)
      ensures this.manager == manager && this.sharing == sharing
      ensures this.windowTokens == windowTokens && this.pressureThreshold == pressureThreshold
      ensures fresh(cache) && cache.items == map[]
    {
      this.manager, this.sharing := manager, sharing;
      this.windowTokens, this.pressureThreshold := windowTokens, pressureThreshold;
      cache := new RenderedCache();
    }

    /** The record of the step, as the fit sees it: it is about to raise its level. */
    method RecordFor(stepId: int, level: int) returns (found: bool)
      modifies manager.store`refs
      ensures found == (stepId in old(manager.store.refs))
      ensures manager.store.refs ==
              var refs := old(manager.store.refs);
              if sharing && found then refs[stepId := refs[stepId].(level := level)] else refs
    {
      found := stepId in manager.store.refs;
      if sharing && found {
        manager.store.refs := manager.store.refs[stepId := manager.store.refs[stepId].(level := level)];
      }
    }

    /** One round of the loop of the fit, for a block that can be raised. */
    method FitBlock(texts: Texts, b: Block) returns (block: Block)
      requires Raisable(b)
      modifies cache, manager.store`refs
      ensures (cache.items, block) == RaisedThrough(old(cache.items), texts, old(manager.store.refs).Keys, b)
      ensures manager.store.refs == if sharing then FitRefs(old(manager.store.refs), [b], 1) else old(manager.store.refs)
    {
      ghost var refs := manager.store.refs;
      assert FitRefs(refs, [b], 0) == refs;
      var found := RecordFor(b.stepId, b.level + 1);
      if found {
        var rendered := cache.RenderStepWithCache(b.stepId, b.level + 1, texts);
        if rendered.Some? {
          return rendered.value;
        }
      }
      block := Shortened(texts.tags, b);
    }

    method TotalTokens(blocks: array<Block>) returns (total: int)
      ensures total == Total(blocks[..])
    {
      total := 0;
      for i := 0 to blocks.Length
        invariant total == Total(blocks[..i])
      {
        assert blocks[..i + 1][..i] == blocks[..i];
        total := total + |blocks[i].content| / 4;
      }
      assert blocks[..blocks.Length] == blocks[..];
    }

    /** The block is raised in its place; what that adds to the total is returned. */
    method FitAt(texts: Texts, blocks: array<Block>, i: nat) returns (added: int)
      requires i < blocks.Length && Raisable(blocks[i])
      modifies blocks, cache, manager.store`refs
      ensures (cache.items, blocks[i]) == RaisedThrough(old(cache.items), texts, old(manager.store.refs).Keys, old(blocks[i]))
      ensures blocks[..] == old(blocks[..])[i := blocks[i]]
      ensures added == |blocks[i].content| / 4 - |old(blocks[i]).content| / 4
      ensures manager.store.refs ==
              if sharing then FitRefs(old(manager.store.refs), [old(blocks[i])], 1) else old(manager.store.refs)
    {
      var oldTokens := |blocks[i].content| / 4;
      var block := FitBlock(texts, blocks[i]);
      added := |block.content| / 4 - oldTokens;
      blocks[i] := block;
    }

    /** One round of the loop: the block is raised, and the total goes with it. */
    method FitNext(texts: Texts, blocks: array<Block>, window: int, i: nat, total: int, ghost fit: Fit, ghost refs: Refs,
                   ghost before: seq<Block>) returns (next: int)
      requires i < blocks.Length == |before| && Raisable(blocks[i]) && total == Total(blocks[..]) > window
      requires FitGoesOn(fit, cache.items, texts, refs, before, blocks[..], window, i)
      requires manager.store.refs == if sharing then FitRefs(refs, before, i) else refs
      modifies blocks, cache, manager.store`refs
      ensures next == Total(blocks[..])
      ensures FitGoesOn(fit, cache.items, texts, refs, before, blocks[..], window, i + 1)
      ensures manager.store.refs == if sharing then FitRefs(refs, before, i + 1) else refs
      ensures next <= window ==> fit == Fit(cache.items, blocks[..], i + 1)
    {
      ghost var now, items := blocks[..], cache.items;
      FitRefsNext(refs, before, i);
      var added := FitAt(texts, blocks, i);
      FitRaised(fit, items, texts, refs, before, now, window, i, cache.items, blocks[i]);
      next := total + added;
    }

    /** The loop with its running total, in place: it leaves the blocks, the cache and
        the records as the fit does that counts afresh before every block. */
    method FitToWindow(texts: Texts, blocks: array<Block>, window: int)
      modifies blocks, cache, manager.store`refs
      ensures var before, refs := old(blocks[..]), old(manager.store.refs);
              var fit := FitThrough(old(cache.items), texts, refs.Keys, before, window, 0);
              && blocks[..] == fit.blocks && cache.items == fit.cache
              && manager.store.refs == if sharing then FitRefs(refs, before, fit.through) else refs
    {
      var total := TotalTokens(blocks);
      ghost var before, refs := blocks[..], manager.store.refs;
      if total <= window {
        return;
      }
      ghost var fit := FitThrough(cache.items, texts, refs.Keys, before, window, 0);
      for i := 0 to blocks.Length
        invariant |before| == blocks.Length && total == Total(blocks[..]) > window
        invariant FitGoesOn(fit, cache.items, texts, refs, before, blocks[..], window, i)
        invariant manager.store.refs == if sharing then FitRefs(refs, before, i) else refs
      {
        if blocks[i].stepId <= 0 || blocks[i].level >= 3 {
          FitRefsNext(refs, before, i);
          FitPassed(fit, cache.items, texts, refs, before, blocks[..], window, i);
          continue;
        }
        total := FitNext(texts, blocks, window, i, total, fit, refs, before);
        if total <= window {
          break;
        }
      }
    }

    /** The block of one step of the history. */
    method HistoryOne(texts: Texts, ids: seq<int>, i: nat) returns (block: Option<Block>)
      requires i < |ids|
      modifies cache
      ensures (cache.items, block) ==
              HistoryBlockThrough(old(cache.items), texts, manager.store.refs, ids, manager.cfg.tailKeepSteps, i)
    {
      var id := ids[i];
      var tailStart := |ids| - manager.cfg.tailKeepSteps;
      if tailStart < 0 {
        tailStart := 0;
      }
      if id !in texts.steps {
        return None;
      }
      var step := texts.steps[id];
      if step.transient {
        return None;
      }
      if i >= tailStart {
        return Some(RenderBlock(texts.mark, id, 0, step.content, step.kind));
      }
      if id !in manager.store.refs {
        return None;
      }
      block := cache.RenderStepWithCache(id, manager.store.refs[id].level, texts);
    }

    method RenderHistory(texts: Texts) returns (blocks: seq<Block>)
      modifies cache
      ensures var refs, ids := manager.store.refs, ActiveIds(manager.store.refs);
              var (after, history) := HistoryThrough(old(cache.items), texts, refs, ids, manager.cfg.tailKeepSteps, |ids|);
              blocks == Present(history) && cache.items == after
    {
      var ids := manager.store.AllActiveStepIDs();
      blocks := [];
      ghost var history := [];
      for i := 0 to |ids|
        invariant (cache.items, history) ==
                  HistoryThrough(old(cache.items), texts, manager.store.refs, ids, manager.cfg.tailKeepSteps, i)
        invariant blocks == Present(history)
      {
        var block := HistoryOne(texts, ids, i);
        assert (history + [block])[..|history|] == history;
        history := history + [block];
        if block.Some? {
          blocks := blocks + [block.value];
        }
      }
    }

    /** Whether the active steps press on the window, so that a mechanical
        reorganisation comes first. */
    method UnderPressure() returns (pressed: bool)
      ensures pressed == Pressed(manager.store.steps, manager.store.refs, windowTokens, pressureThreshold)
    {
      if pressureThreshold <= 0.0 || windowTokens <= 0 {
        return false;
      }
      var total := manager.store.TotalActiveTokens();
      if total <= 0 {
        return false;
      }
      return Over(total as real, windowTokens as real) > pressureThreshold;
    }

    /** `front` are the blocks of the constitution, the head and the facts, `back`
        those of the backtrack and the hint. */
    method BuildContext(front: seq<Block>, back: seq<Block>, window: int) returns (blocks: seq<Block>)
      modifies cache, manager.store`refs
      ensures manager.store.TextsNow() == old(manager.store.TextsNow())
      ensures var texts, cfg := manager.store.TextsNow(), manager.cfg;
              var refs := BuildRefs(texts.steps, old(manager.store.refs), manager.currentStep, cfg, windowTokens,
                                    pressureThreshold);
              Built(cache.items, blocks, manager.store.refs) ==
              BuiltThrough(old(cache.items), texts, refs, cfg.tailKeepSteps, sharing, front, back, window)
    {
      var pressed := UnderPressure();
      if pressed {
        var adjusted := manager.MechanicalReorganize(false);
      }
      var texts := manager.store.TextsNow();
      var history := RenderHistory(texts);
      var all := front + history + back;
      var blockArray := new Block[|all|](i requires 0 <= i < |all| => all[i]);
      assert blockArray[..] == all;
      FitToWindow(texts, blockArray, window);
      blocks := blockArray[..];
    }
  }

  /** The fit that is to come out goes on from the `i`-th block with these blocks. */
  ghost predicate FitGoesOn(fit: Fit, items: Cache, texts: Texts, refs: Refs, before: seq<Block>, now: seq<Block>,
                            window: int, i: nat)
  {
    && i <= |before| == |now|
    && fit == FitThrough(items, texts, refs.Keys, now, window, i)
    && forall j | i <= j < |now| :: now[j] == before[j]
  }

  lemma FitPassed(fit: Fit, items: Cache, texts: Texts, refs: Refs, before: seq<Block>, now: seq<Block>, window: int,
                  i: nat)
    requires FitGoesOn(fit, items, texts, refs, before, now, window, i) && i < |now| && Total(now) > window
    requires !Raisable(now[i])
    ensures FitGoesOn(fit, items, texts, refs, before, now, window, i + 1)
    ensures now[i] == before[i]
  {
    assert now[i := now[i]] == now;
  }

  lemma FitRaised(fit: Fit, items: Cache, texts: Texts, refs: Refs, before: seq<Block>, now: seq<Block>, window: int,
                  i: nat, after: Cache, block: Block)
    requires FitGoesOn(fit, items, texts, refs, before, now, window, i) && i < |now| && Total(now) > window
    requires (after, block) == RaisedThrough(items, texts, refs.Keys, now[i])
    ensures var next := now[i := block];
            && FitGoesOn(fit, after, texts, refs, before, next, window, i + 1)
            && (Total(next) <= window ==> fit == Fit(after, next, i + 1))
            && Total(next) == Total(now) - |now[i].content| / 4 + |block.content| / 4
    ensures now[i] == before[i]
  {
    TotalUpdated(now, i, block);
  }

  lemma FitRefsNext(refs: Refs, blocks: seq<Block>, n: nat)
    requires n < |blocks|
    ensures FitRefs(refs, blocks, n).Keys == refs.Keys
    ensures FitRefs(refs, blocks, n + 1) == FitRefs(FitRefs(refs, blocks, n), [blocks[n]], 1)
    ensures !Raisable(blocks[n]) ==> FitRefs(refs, blocks, n + 1) == FitRefs(refs, blocks, n)
  {
    FitRefsKeys(refs, blocks, n);
    assert FitRefs(FitRefs(refs, blocks, n), [blocks[n]], 0) == FitRefs(refs, blocks, n);
  }
}
