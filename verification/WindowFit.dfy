/** Fitting rendered blocks into a window, by raising levels from the front. */
module WindowFit {
  import opened Wrappers
  import opened Records
  import opened Decay
  import opened Compression
  import opened Render
  import opened Truncation

  function Tokens(block: Block): nat {
    |block.content| / 4
  }

  function Total(blocks: seq<Block>): nat {
    if blocks == [] then 0 else Total(blocks[..|blocks| - 1]) + Tokens(blocks[|blocks| - 1])
  }

  /** A block of a step that can be rendered one level up. */
  predicate Raisable(block: Block) {
    block.stepId > 0 && block.level < 3
  }

  function Shortened(tags: seq<string>, block: Block): Block {
    block.(content := Truncated(block.content, |block.content| / 2, tags))
  }

  /** What the fit makes of a block; `active` are the steps that have a record. */
  function RaisedBlock(texts: Texts, active: set<int>, block: Block): Block {
    if !Raisable(block) then block
    else if block.stepId !in active then Shortened(texts.tags, block)
    else
      match Fresh(texts, block.stepId, block.level + 1)
      case Some(raised) => raised
      case None => Shortened(texts.tags, block)
  }

  function AllRaised(texts: Texts, active: set<int>, blocks: seq<Block>): (r: seq<Block>)
    ensures |r| == |blocks|
    ensures forall i | 0 <= i < |r| :: r[i] == RaisedBlock(texts, active, blocks[i])
  {
    seq(|blocks|, i requires 0 <= i < |blocks| => RaisedBlock(texts, active, blocks[i]))
  }

  /** The blocks with the first `n` raised. */
  function Mixed(raised: seq<Block>, blocks: seq<Block>, n: nat): (r: seq<Block>)
    requires |raised| == |blocks|
    ensures |r| == |blocks|
    ensures forall i | 0 <= i < |r| :: r[i] == if i < n then raised[i] else blocks[i]
  {
    seq(|blocks|, i requires 0 <= i < |blocks| => if i < n then raised[i] else blocks[i])
  }

  /** The totals with none, one, and more of the first blocks raised, up to all. */
  function Totals(raised: seq<Block>, blocks: seq<Block>): (totals: seq<nat>)
    requires |raised| == |blocks|
    ensures |totals| == |blocks| + 1
    ensures forall n | 0 <= n < |totals| :: totals[n] == Total(Mixed(raised, blocks, n))
  {
    seq(|blocks| + 1, n requires 0 <= n < |blocks| + 1 => Total(Mixed(raised, blocks, n)))
  }

  /** A block that is cut keeps half of its bytes behind the mark, and its closing tag. */
  lemma ShortenedLength(tags: seq<string>, block: Block)
    ensures var half, cuttable := |block.content| / 2, Cuttable(block.content, tags);
            && Shortened(tags, block) == block.(content := Shortened(tags, block).content)
            && |Shortened(tags, block).content| ==
               |block.content| + (if 0 < half < cuttable then half + 15 - cuttable else 0)
  {
    TruncatedLength(block.content, |block.content| / 2, tags);
    assert |CUT| == 15;
  }

  /** The least number of blocks, `n` or more, that have to be raised; all if even
      that is not enough. */
  function Needed(totals: seq<nat>, window: int, n: nat): (k: nat)
    requires n < |totals|
    ensures n <= k < |totals|
    decreases |totals| - n
  {
    if n + 1 == |totals| || totals[n] <= window then n else Needed(totals, window, n + 1)
  }

  function Fitted(texts: Texts, active: set<int>, blocks: seq<Block>, window: int): (r: seq<Block>)
    ensures |r| == |blocks|
  {
    var raised := AllRaised(texts, active, blocks);
    Mixed(raised, blocks, Needed(Totals(raised, blocks), window, 0))
  }

  lemma {:induction false} NeededIsLeast(totals: seq<nat>, window: int, n: nat)
    requires n < |totals|
    ensures var k := Needed(totals, window, n);
            (forall m | n <= m < k :: totals[m] > window) && (k + 1 < |totals| ==> totals[k] <= window)
    decreases |totals| - n
  {
    if n + 1 < |totals| && totals[n] > window {
      NeededIsLeast(totals, window, n + 1);
    }
  }

  /** Raised one level, or truncated. */
  predicate Squeezed(tags: seq<string>, before: Block, after: Block) {
    after.stepId == before.stepId && (after.level == before.level + 1 || after == Shortened(tags, before))
  }

  predicate SqueezedOrSame(tags: seq<string>, before: Block, after: Block) {
    if Raisable(before) then Squeezed(tags, before, after) else after == before
  }

  lemma RaisedAreSqueezed(texts: Texts, active: set<int>, blocks: seq<Block>)
    ensures forall i | 0 <= i < |blocks| :: SqueezedOrSame(texts.tags, blocks[i], AllRaised(texts, active, blocks)[i])
  {
    forall i | 0 <= i < |blocks| ensures SqueezedOrSame(texts.tags, blocks[i], AllRaised(texts, active, blocks)[i]) {
      FreshShape(texts, blocks[i].stepId, blocks[i].level + 1);
    }
  }

  /** Fitting keeps the number of blocks, their order and their steps.  It raises
      as few blocks from the front as it takes, one level each or else truncated,
      and leaves the others alone; if the result still does not fit, then every
      block that could be was raised or truncated. */
  lemma FitKeepsAndRaises(texts: Texts, active: set<int>, blocks: seq<Block>, window: int)
    ensures var raised, after := AllRaised(texts, active, blocks), Fitted(texts, active, blocks, window);
            var k := Needed(Totals(raised, blocks), window, 0);
            && |after| == |blocks|
            && (forall i | k <= i < |blocks| :: after[i] == blocks[i])
            && (forall i | 0 <= i < k :: SqueezedOrSame(texts.tags, blocks[i], after[i]))
            && (forall m | 0 <= m < k :: Total(Mixed(raised, blocks, m)) > window)
            && (Total(after) > window ==> k == |blocks|)
  {
    RaisedAreSqueezed(texts, active, blocks);
    NeededIsLeast(Totals(AllRaised(texts, active, blocks), blocks), window, 0);
  }

  lemma FitKeepsSteps(texts: Texts, active: set<int>, blocks: seq<Block>, window: int)
    ensures var after := Fitted(texts, active, blocks, window);
            forall i | 0 <= i < |blocks| :: after[i].stepId == blocks[i].stepId
  {
    RaisedAreSqueezed(texts, active, blocks);
    var raised := AllRaised(texts, active, blocks);
    forall i | 0 <= i < |blocks| ensures raised[i].stepId == blocks[i].stepId {
      assert SqueezedOrSame(texts.tags, blocks[i], raised[i]);
    }
  }

  /** What already fits is not touched. */
  lemma FitLeavesFitting(texts: Texts, active: set<int>, blocks: seq<Block>, window: int)
    requires Total(blocks) <= window
    ensures Fitted(texts, active, blocks, window) == blocks
  {
    assert Mixed(AllRaised(texts, active, blocks), blocks, 0) == blocks;
  }

  lemma {:induction false} TotalUpdated(blocks: seq<Block>, i: nat, block: Block)
    requires i < |blocks|
    ensures Total(blocks[i := block]) == Total(blocks) - Tokens(blocks[i]) + Tokens(block)
  {
    var n := |blocks| - 1;
    if i == n {
      assert blocks[i := block][..n] == blocks[..n];
    } else {
      TotalUpdated(blocks[..n], i, block);
      assert blocks[i := block][..n] == blocks[..n][i := block];
    }
  }

  /** The bytes of all blocks. */
  function Bytes(blocks: seq<Block>): nat {
    if blocks == [] then 0 else Bytes(blocks[1..]) + |blocks[0].content|
  }

  lemma {:induction false} BytesLast(blocks: seq<Block>)
    requires blocks != []
    ensures Bytes(blocks) == Bytes(blocks[..|blocks| - 1]) + |blocks[|blocks| - 1].content|
  {
    if |blocks| > 1 {
      BytesLast(blocks[1..]);
      assert blocks[1..][..|blocks| - 2] == blocks[..|blocks| - 1][1..];
    }
  }

  /** A token for every four bytes of a block, rounded down in each. */
  lemma {:induction false} TotalOfBytes(blocks: seq<Block>)
    ensures 4 * Total(blocks) <= Bytes(blocks) <= 4 * Total(blocks) + 3 * |blocks|
  {
    if blocks != [] {
      TotalOfBytes(blocks[..|blocks| - 1]);
      BytesLast(blocks);
    }
  }

  lemma MixedNext(raised: seq<Block>, blocks: seq<Block>, i: nat)
    requires |raised| == |blocks| && i < |blocks|
    ensures Mixed(raised, blocks, i)[i] == blocks[i]
    ensures Mixed(raised, blocks, i + 1) == Mixed(raised, blocks, i)[i := raised[i]]
  {
  }

  // -------------------------------------------------------- the fit through a cache

  /** What a fit leaves: the cache, the blocks, and how many blocks it went through. */
  datatype Fit = Fit(cache: Cache, blocks: seq<Block>, through: nat)

  function RaisedThrough(cache: Cache, texts: Texts, active: set<int>, block: Block): (Cache, Block) {
    if !Raisable(block) then (cache, block)
    else if block.stepId !in active then (cache, Shortened(texts.tags, block))
    else
      match Rendered(cache, texts, block.stepId, block.level + 1)
      case (after, Some(raised)) => (after, raised)
      case (after, None) => (after, Shortened(texts.tags, block))
  }

  /** The fit from the `i`-th block on, whatever the cache holds. */
  function FitThrough(cache: Cache, texts: Texts, active: set<int>, blocks: seq<Block>, window: int, i: nat): (fit: Fit)
    requires i <= |blocks|
    ensures |fit.blocks| == |blocks| && i <= fit.through <= |blocks|
    decreases |blocks| - i
  {
    if i == |blocks| || Total(blocks) <= window then Fit(cache, blocks, i)
    else
      var (after, block) := RaisedThrough(cache, texts, active, blocks[i]);
      FitThrough(after, texts, active, blocks[i := block], window, i + 1)
  }

  lemma RaisedThroughFresh(cache: Cache, texts: Texts, active: set<int>, block: Block)
    requires Coherent(cache, texts)
    ensures RaisedThrough(cache, texts, active, block).1 == RaisedBlock(texts, active, block)
    ensures Coherent(RaisedThrough(cache, texts, active, block).0, texts)
  {
    RenderedFresh(cache, texts, block.stepId, block.level + 1);
  }

  lemma FitThroughNext(cache: Cache, texts: Texts, active: set<int>, raised: seq<Block>, before: seq<Block>,
                       window: int,
                       i: nat)
    requires Coherent(cache, texts) && |raised| == |before| && i < |before|
             && raised[i] == RaisedBlock(texts, active, before[i])
    requires Total(Mixed(raised, before, i)) > window
    ensures var after := RaisedThrough(cache, texts, active, before[i]).0;
            && Coherent(after, texts)
            && FitThrough(cache, texts, active, Mixed(raised, before, i), window, i) ==
               FitThrough(after, texts, active, Mixed(raised, before, i + 1), window, i + 1)
  {
    RaisedThroughFresh(cache, texts, active, before[i]);
    MixedNext(raised, before, i);
  }

  /** The fit went through the first `k` blocks and left them raised. */
  predicate FitIs(fit: Fit, texts: Texts, raised: seq<Block>, before: seq<Block>, k: nat)
    requires |raised| == |before|
  {
    fit.blocks == Mixed(raised, before, k) && fit.through == k && Coherent(fit.cache, texts)
  }

  lemma {:induction false} FitThroughMixed(cache: Cache, texts: Texts, active: set<int>, raised: seq<Block>,
                                           before: seq<Block>, totals: seq<nat>, window: int, i: nat)
    requires Coherent(cache, texts) && i <= |before| && |raised| == |before| && totals == Totals(raised, before)
    requires forall j | 0 <= j < |before| :: raised[j] == RaisedBlock(texts, active, before[j])
    ensures FitIs(FitThrough(cache, texts, active, Mixed(raised, before, i), window, i), texts, raised, before,
                  Needed(totals, window, i))
    decreases |before| - i
  {
    var now := Mixed(raised, before, i);
    assert totals[i] == Total(now);
    if i == |before| || totals[i] <= window {
      assert Needed(totals, window, i) == i;
      assert FitThrough(cache, texts, active, now, window, i) == Fit(cache, now, i);
    } else {
      var after := RaisedThrough(cache, texts, active, before[i]).0;
      FitThroughNext(cache, texts, active, raised, before, window, i);
      FitThroughMixed(after, texts, active, raised, before, totals, window, i + 1);
      assert Needed(totals, window, i) == Needed(totals, window, i + 1);
    }
  }

  /** Through a coherent cache the fit is the one rendered from the store. */
  lemma FitThroughFresh(cache: Cache, texts: Texts, active: set<int>, blocks: seq<Block>, window: int)
    requires Coherent(cache, texts)
    ensures var fit := FitThrough(cache, texts, active, blocks, window, 0);
            fit.blocks == Fitted(texts, active, blocks, window) && Coherent(fit.cache, texts)
  {
    var raised := AllRaised(texts, active, blocks);
    assert Mixed(raised, blocks, 0) == blocks;
    FitThroughMixed(cache, texts, active, raised, blocks, Totals(raised, blocks), window, 0);
  }

  lemma RaisedThroughSqueezed(cache: Cache, texts: Texts, active: set<int>, block: Block)
    ensures SqueezedOrSame(texts.tags, block, RaisedThrough(cache, texts, active, block).1)
  {
    FreshShape(texts, block.stepId, block.level + 1);
  }

  /** A fit from the `i`-th block on keeps the blocks' number and order, squeezes the
      ones it goes through, leaves the others alone, and goes through all of them
      before it gives up. */
  predicate FitShape(tags: seq<string>, blocks: seq<Block>, window: int, i: nat, fit: Fit) {
    && |fit.blocks| == |blocks| && i <= fit.through <= |blocks|
    && (forall j | 0 <= j < i :: fit.blocks[j] == blocks[j])
    && (forall j | fit.through <= j < |blocks| :: fit.blocks[j] == blocks[j])
    && (forall j | i <= j < fit.through :: SqueezedOrSame(tags, blocks[j], fit.blocks[j]))
    && (Total(fit.blocks) > window ==> fit.through == |blocks|)
  }

  lemma FitShapeNext(tags: seq<string>, blocks: seq<Block>, window: int, i: nat, block: Block, fit: Fit)
    requires i < |blocks| && FitShape(tags, blocks[i := block], window, i + 1, fit)
    requires SqueezedOrSame(tags, blocks[i], block)
    ensures FitShape(tags, blocks, window, i, fit)
  {
    assert fit.blocks[i] == block;
  }

  /** Such is every fit, whatever the cache holds. */
  lemma {:induction false} FitThroughShape(cache: Cache, texts: Texts, active: set<int>, blocks: seq<Block>,
                                           window: int, i: nat)
    requires i <= |blocks|
    ensures FitShape(texts.tags, blocks, window, i, FitThrough(cache, texts, active, blocks, window, i))
    decreases |blocks| - i
  {
    if i < |blocks| && Total(blocks) > window {
      var (after, block) := RaisedThrough(cache, texts, active, blocks[i]);
      RaisedThroughSqueezed(cache, texts, active, blocks[i]);
      FitThroughShape(after, texts, active, blocks[i := block], window, i + 1);
      FitShapeNext(texts.tags, blocks, window, i, block,
                   FitThrough(after, texts, active, blocks[i := block], window, i + 1));
    }
  }

  lemma FitThroughSteps(cache: Cache, texts: Texts, active: set<int>, blocks: seq<Block>, window: int)
    ensures var fit := FitThrough(cache, texts, active, blocks, window, 0);
            |fit.blocks| == |blocks| && forall j | 0 <= j < |blocks| :: fit.blocks[j].stepId == blocks[j].stepId
  {
    FitThroughShape(cache, texts, active, blocks, window, 0);
    var fit := FitThrough(cache, texts, active, blocks, window, 0);
    forall j | 0 <= j < |blocks| ensures fit.blocks[j].stepId == blocks[j].stepId {
      if j < fit.through {
        assert SqueezedOrSame(texts.tags, blocks[j], fit.blocks[j]);
      }
    }
  }

  // ------------------------------------------- stores that hand out their own

  /** A store that hands out its own records, as the JSONL store does, sees the
      level that the fit sets on each record it was given. */
  function FitRefs(refs: Refs, blocks: seq<Block>, n: nat): Refs
    requires n <= |blocks|
  {
    if n == 0 then refs
    else
      var before, block := FitRefs(refs, blocks, n - 1), blocks[n - 1];
      if Raisable(block) && block.stepId in before
      then before[block.stepId := before[block.stepId].(level := block.level + 1)]
      else before
  }

  /** No step has two blocks that can be raised. */
  predicate OneEach(blocks: seq<Block>) {
    forall i, j | 0 <= i < j < |blocks| && Raisable(blocks[i]) && Raisable(blocks[j]) :: blocks[i].stepId != blocks[j].stepId
  }

  /** The fit sets the record of the `i`-th block, if it goes through it. */
  predicate Sets(refs: Refs, blocks: seq<Block>, n: nat, i: int) {
    0 <= i < n <= |blocks| && Raisable(blocks[i]) && blocks[i].stepId in refs
  }

  lemma {:induction false} FitRefsKeys(refs: Refs, blocks: seq<Block>, n: nat)
    requires n <= |blocks|
    ensures FitRefs(refs, blocks, n).Keys == refs.Keys
  {
    if n > 0 {
      FitRefsKeys(refs, blocks, n - 1);
    }
  }

  lemma {:induction false} FitRefsElsewhere(refs: Refs, blocks: seq<Block>, n: nat, id: int)
    requires n <= |blocks| && id in refs
    requires forall i | 0 <= i < n :: blocks[i].stepId == id ==> !Raisable(blocks[i])
    ensures FitRefs(refs, blocks, n).Keys == refs.Keys && FitRefs(refs, blocks, n)[id] == refs[id]
  {
    if n > 0 {
      FitRefsElsewhere(refs, blocks, n - 1, id);
    }
  }

  lemma {:induction false} FitRefsAt(refs: Refs, blocks: seq<Block>, n: nat, i: nat)
    requires OneEach(blocks) && Sets(refs, blocks, n, i)
    ensures var after := FitRefs(refs, blocks, n);
            after.Keys == refs.Keys && after[blocks[i].stepId] == refs[blocks[i].stepId].(level := blocks[i].level + 1)
  {
    if i < n - 1 {
      FitRefsAt(refs, blocks, n - 1, i);
    } else {
      FitRefsElsewhere(refs, blocks, n - 1, blocks[i].stepId);
    }
  }

  /** Every record is untouched or set by one block. */
  lemma FitRefsCases(refs: Refs, blocks: seq<Block>, n: nat, id: int)
    requires n <= |blocks| && OneEach(blocks) && id in refs
    ensures id in FitRefs(refs, blocks, n)
    ensures FitRefs(refs, blocks, n)[id] == refs[id] ||
            exists i :: Sets(refs, blocks, n, i) && blocks[i].stepId == id &&
                        FitRefs(refs, blocks, n)[id] == refs[id].(level := blocks[i].level + 1)
  {
    if i :| 0 <= i < n && blocks[i].stepId == id && Raisable(blocks[i]) {
      assert Sets(refs, blocks, n, i);
      FitRefsAt(refs, blocks, n, i);
    } else {
      FitRefsElsewhere(refs, blocks, n, id);
    }
  }

  /** The fit raises no block past the cap of its step. */
  predicate WithinCaps(steps: Steps, refs: Refs, blocks: seq<Block>, n: nat) {
    forall i | 0 <= i < |blocks| && Sets(refs, blocks, n, i) ::
      blocks[i].level + 1 <= MaxLevelForType(KindOf(steps, blocks[i].stepId))
  }

  predicate LevelsNatural(blocks: seq<Block>) {
    forall i | 0 <= i < |blocks| && Raisable(blocks[i]) :: blocks[i].level >= 0
  }

  /** After a fit the records of such a store are sound exactly if it raised no block
      past its cap. */
  lemma FitRefsSoundIff(steps: Steps, refs: Refs, blocks: seq<Block>, n: nat)
    requires n <= |blocks| && OneEach(blocks) && LevelsNatural(blocks) && RefsSound(steps, refs)
    ensures RefsSound(steps, FitRefs(refs, blocks, n)) <==> WithinCaps(steps, refs, blocks, n)
  {
    var after := FitRefs(refs, blocks, n);
    FitRefsKeys(refs, blocks, n);
    if WithinCaps(steps, refs, blocks, n) {
      forall id | id in after ensures Sound(steps, id, after[id]) {
        assert Sound(steps, id, refs[id]);
        FitRefsCases(refs, blocks, n, id);
      }
    } else {
      var i :| 0 <= i < |blocks| && Sets(refs, blocks, n, i) &&
               blocks[i].level + 1 > MaxLevelForType(KindOf(steps, blocks[i].stepId));
      var id := blocks[i].stepId;
      assert Sound(steps, id, refs[id]);
      FitRefsAt(refs, blocks, n, i);
      assert !Sound(steps, id, after[id]);
    }
  }

  /** The fit lowers a level exactly if it raises a block that is shown at a lower
      level than its step is stored at, by more than one: as a tail step is. */
  lemma FitRefsLowersIff(refs: Refs, blocks: seq<Block>, n: nat)
    requires n <= |blocks| && OneEach(blocks)
    ensures Falls(refs, FitRefs(refs, blocks, n)) <==>
            exists i :: Sets(refs, blocks, n, i) && refs[blocks[i].stepId].level > blocks[i].level + 1
  {
    var after := FitRefs(refs, blocks, n);
    if i :| Sets(refs, blocks, n, i) && refs[blocks[i].stepId].level > blocks[i].level + 1 {
      FitRefsAt(refs, blocks, n, i);
      assert after[blocks[i].stepId].level < refs[blocks[i].stepId].level;
    } else {
      forall id | id in refs && id in after ensures after[id].level >= refs[id].level {
        FitRefsCases(refs, blocks, n, id);
      }
    }
  }
}
