/** Rendering steps from the store, and the cache in front of it. */
module Render {
  import opened Wrappers
  import opened Decimals
  import opened Records
  import opened Compression

  /** The texts of the steps at levels 0 to 3, how a rendered step is marked, and
      the closing tags that are kept when a block is cut.  Strings are sequences of
      bytes.  What follows holds of any mark and tags; the code's are `Marker` and
      the `TAGS` of the window fit. */
  datatype Texts = Texts(steps: Steps, l1: map<int, string>, l2: map<int, seq<string>>, l3: map<int, string>,
                         mark: (int, StepType, int) -> string, tags: seq<string>)

  datatype Block = Block(stepId: int, level: int, content: string)

  /** A cached block with the level it was rendered at. */
  datatype Entry = Entry(level: int, block: string)

  type Cache = map<int, Entry>

  // --------------------------------------------------------- rendering afresh

  function Joined(facts: seq<string>): string {
    if facts == [] then "" else if |facts| == 1 then facts[0] else facts[0] + ['\n'] + Joined(facts[1..])
  }

  function StepText(texts: Texts, id: int): Option<string> {
    if id in texts.steps then Some(texts.steps[id].content) else None
  }

  /** A level without a text of its own falls back on the original one. */
  function FromStore(texts: Texts, id: int, level: int): Option<string> {
    if level == 0 then StepText(texts, id)
    else if level == 1 then if id in texts.l1 then Some(texts.l1[id]) else StepText(texts, id)
    else if level == 2 then if id in texts.l2 then Some(Joined(texts.l2[id])) else StepText(texts, id)
    else if level == 3 then if id in texts.l3 then Some(texts.l3[id]) else StepText(texts, id)
    else None
  }

  function Number(n: int): string {
    if n < 0 then ['-'] + Decimal(-n) else Decimal(n)
  }

  function KindName(kind: StepType): string {
    match kind
    case User => "user"
    case Tool => "tool"
    case Reasoning => "reasoning"
    case Plan => "plan"
    case Failed => "failed"
    case Other(name) => name
  }

  const MARKER_OPEN: string := [0xE2 as char, 0x9F as char, 0xA8 as char]
  const MARKER_CLOSE: string := [0xE2 as char, 0x9F as char, 0xA9 as char]
  const SECTION: string := [0xC2 as char, 0xA7 as char]
  const DOT: string := [0xC2 as char, 0xB7 as char]

  /** The mark in front of a rendered step: its number, type and level. */
  function Marker(id: int, kind: StepType, level: int): string {
    MARKER_OPEN + SECTION + Number(id) + DOT + KindName(kind) + DOT + ['L'] + Number(level) + MARKER_CLOSE
  }

  function RenderBlock(mark: (int, StepType, int) -> string, id: int, level: int, text: string, kind: StepType): Block {
    Block(id, level, mark(id, kind, level) + [' '] + text)
  }

  function Fresh(texts: Texts, id: int, level: int): Option<Block> {
    match FromStore(texts, id, level)
    case None => None
    case Some(text) => Some(RenderBlock(texts.mark, id, level, text, KindOf(texts.steps, id)))
  }

  lemma FreshShape(texts: Texts, id: int, level: int)
    ensures var block := Fresh(texts, id, level);
            && (block.Some? <==> FromStore(texts, id, level).Some?)
            && (block.Some? ==> block.value.stepId == id && block.value.level == level)
            && (id in texts.steps && 0 <= level <= 3 ==> block.Some?)
  {
  }

  /** A text written for a level is what the step is rendered with at it, and no other
      step or level is rendered differently; */
  lemma WrittenIsShown(texts: Texts, id: int, write: Write)
    requires id in texts.steps && !write.WriteStep?
    ensures var (level, text) := match write
              case WriteStep(step) => (0, step.content)
              case WriteL1(text) => (1, text)
              case WriteL2(facts) => (2, Joined(facts))
              case WriteL3(mask) => (3, mask);
            var after := Written(texts, id, write);
            && Fresh(after, id, level) == Some(RenderBlock(texts.mark, id, level, text, texts.steps[id].kind))
            && forall i, l | i != id || l != level :: Fresh(after, i, l) == Fresh(texts, i, l)
  {
    var after, level := Written(texts, id, write), if write.WriteL1? then 1 else if write.WriteL2? then 2 else 3;
    forall i, l | i != id || l != level ensures Fresh(after, i, l) == Fresh(texts, i, l) {
      assert FromStore(after, i, l) == FromStore(texts, i, l);
    }
  }

  /** and a level nothing was written for shows the original text. */
  lemma UnwrittenShowsOriginal(texts: Texts, id: int, level: int)
    requires id in texts.steps && 1 <= level <= 3
    requires id !in (if level == 1 then texts.l1.Keys else if level == 2 then texts.l2.Keys else texts.l3.Keys)
    ensures Fresh(texts, id, level) ==
            Some(RenderBlock(texts.mark, id, level, texts.steps[id].content, texts.steps[id].kind))
  {
  }

  // ------------------------------------------------------------ through a cache

  function Rendered(cache: Cache, texts: Texts, id: int, level: int): (Cache, Option<Block>) {
    if id in cache && cache[id].level == level then (cache, Some(Block(id, level, cache[id].block)))
    else
      match Fresh(texts, id, level)
      case None => (cache, None)
      case Some(block) => (cache[id := Entry(level, block.content)], Some(block))
  }

  predicate EntryFresh(texts: Texts, id: int, entry: Entry) {
    Fresh(texts, id, entry.level) == Some(Block(id, entry.level, entry.block))
  }

  /** What is cached is what would be rendered now. */
  predicate Coherent(cache: Cache, texts: Texts) {
    forall id | id in cache :: EntryFresh(texts, id, cache[id])
  }

  lemma RenderedFresh(cache: Cache, texts: Texts, id: int, level: int)
    requires Coherent(cache, texts)
    ensures Rendered(cache, texts, id, level).1 == Fresh(texts, id, level)
    ensures Coherent(Rendered(cache, texts, id, level).0, texts)
  {
    FreshShape(texts, id, level);
    if id in cache {
      assert EntryFresh(texts, id, cache[id]);
    }
    var after := Rendered(cache, texts, id, level).0;
    forall i | i in after ensures EntryFresh(texts, i, after[i]) {
      assert i in cache ==> EntryFresh(texts, i, cache[i]);
    }
  }

  /** The cache can be told from the store by rendering the step at the level. */
  predicate Shows(cache: Cache, texts: Texts, id: int, level: int) {
    Rendered(cache, texts, id, level).1 != Fresh(texts, id, level)
  }

  lemma IncoherentShows(cache: Cache, texts: Texts)
    requires !Coherent(cache, texts)
    ensures exists id, level :: Shows(cache, texts, id, level)
  {
    var id :| id in cache && !EntryFresh(texts, id, cache[id]);
    assert Shows(cache, texts, id, cache[id].level);
  }

  /** Coherence is exactly what makes the cache invisible: every step at every
      level renders through it as it does from the store. */
  lemma TransparentIffCoherent(cache: Cache, texts: Texts)
    ensures Coherent(cache, texts) <==> forall id, level :: !Shows(cache, texts, id, level)
  {
    if Coherent(cache, texts) {
      forall id, level ensures !Shows(cache, texts, id, level) {
        RenderedFresh(cache, texts, id, level);
      }
    } else {
      IncoherentShows(cache, texts);
    }
  }

  /** The cache without the steps whose record was changed or removed. */
  function Dropped(cache: Cache, before: Refs, after: Refs): Cache {
    map id | id in cache && (id in before ==> id in after && after[id] == before[id]) :: cache[id]
  }

  /** After a change of the records no step that was raised or removed by it is cached,
      and the others are cached as before. */
  lemma DroppedIff(cache: Cache, before: Refs, after: Refs, id: int)
    ensures var left := Dropped(cache, before, after);
            && (id in left <==> id in cache && (id in before ==> id in after && after[id] == before[id]))
            && (id in left ==> left[id] == cache[id])
  {
  }

  /** Entries can always be dropped. */
  lemma FewerCoherent(cache: Cache, texts: Texts, fewer: Cache)
    requires Coherent(cache, texts) && fewer.Keys <= cache.Keys && forall id | id in fewer :: fewer[id] == cache[id]
    ensures Coherent(fewer, texts)
  {
    forall id | id in fewer ensures EntryFresh(texts, id, fewer[id]) {
      assert EntryFresh(texts, id, cache[id]);
    }
  }

  // -------------------------------------------------------------------- runs

  datatype State = State(texts: Texts, cache: Cache)

  /** A write of one of a step's texts. */
  datatype Write =
    | WriteStep(step: StepRecord)
    | WriteL1(text: string)
    | WriteL2(facts: seq<string>)
    | WriteL3(mask: string)

  function Written(texts: Texts, id: int, write: Write): Texts {
    match write
    case WriteStep(step) => texts.(steps := texts.steps[id := step])
    case WriteL1(text) => texts.(l1 := texts.l1[id := text])
    case WriteL2(facts) => texts.(l2 := texts.l2[id := facts])
    case WriteL3(mask) => texts.(l3 := texts.l3[id := mask])
  }

  datatype Op =
      // a build, or a window fit one level up
    | RenderOp(id: int, level: int)
    | WriteOp(id: int, write: Write)
    | InvalidateOp(id: int)
    | InvalidateAllOp

  function Step(s: State, op: Op): State {
    match op
    case RenderOp(id, level) => s.(cache := Rendered(s.cache, s.texts, id, level).0)
    case WriteOp(id, write) => s.(texts := Written(s.texts, id, write))
    case InvalidateOp(id) => s.(cache := s.cache - {id})
    case InvalidateAllOp => s.(cache := map[])
  }

  function Run(s: State, ops: seq<Op>): State {
    if ops == [] then s else Step(Run(s, ops[..|ops| - 1]), ops[|ops| - 1])
  }

  /** A write that the step's cached block does not notice: there is none, or the
      text at the level it was rendered at stays the same. */
  predicate Unnoticed(s: State, op: Op) {
    op.WriteOp? && op.id in s.cache ==>
      Fresh(Written(s.texts, op.id, op.write), op.id, s.cache[op.id].level) == Fresh(s.texts, op.id, s.cache[op.id].level)
  }

  /** A write changes no other step's rendering. */
  lemma WriteLocal(texts: Texts, id: int, write: Write, other: int, level: int)
    requires other != id
    ensures Fresh(Written(texts, id, write), other, level) == Fresh(texts, other, level)
  {
    assert FromStore(Written(texts, id, write), other, level) == FromStore(texts, other, level);
  }

  /** Writing a text of its own at level 1, 2 or 3 goes unnoticed exactly if the
      cached block is at another level or comes out the same. */
  lemma UnnoticedIff(s: State, id: int, text: string)
    requires Coherent(s.cache, s.texts)
    ensures Unnoticed(s, WriteOp(id, WriteL1(text))) <==>
            (id in s.cache && s.cache[id].level == 1 ==>
               s.cache[id].block == RenderBlock(s.texts.mark, id, 1, text, KindOf(s.texts.steps, id)).content)
  {
    if id in s.cache {
      assert EntryFresh(s.texts, id, s.cache[id]);
      var after := Written(s.texts, id, WriteL1(text));
      assert s.cache[id].level != 1 ==> FromStore(after, id, s.cache[id].level) == FromStore(s.texts, id, s.cache[id].level);
    }
  }

  /** One step keeps a coherent cache coherent exactly if it is not a write that
      the cache should have noticed. */
  lemma StepCoherentIff(s: State, op: Op)
    requires Coherent(s.cache, s.texts)
    ensures Coherent(Step(s, op).cache, Step(s, op).texts) <==> Unnoticed(s, op)
  {
    match op
    case RenderOp(id, level) => RenderedFresh(s.cache, s.texts, id, level);
    case WriteOp(id, write) =>
      var after := Written(s.texts, id, write);
      forall i | i in s.cache ensures EntryFresh(s.texts, i, s.cache[i]) &&
                                      (i != id ==> EntryFresh(after, i, s.cache[i])) {
        assert EntryFresh(s.texts, i, s.cache[i]);
        if i != id {
          WriteLocal(s.texts, id, write, i, s.cache[i].level);
        }
      }
      if id in s.cache && !EntryFresh(after, id, s.cache[id]) {
        assert !Coherent(s.cache, after);
      }
    case InvalidateOp(id) => FewerCoherent(s.cache, s.texts, s.cache - {id});
    case InvalidateAllOp =>
  }

  /** Every write in the run goes unnoticed, or its step was invalidated since it
      was last rendered. */
  predicate Disciplined(s: State, ops: seq<Op>) {
    ops != [] ==>
      var before := ops[..|ops| - 1];
      Disciplined(s, before) && Unnoticed(Run(s, before), ops[|ops| - 1])
  }

  /** In every such run, whatever is rendered through the cache is what the store
      would give, */
  lemma {:induction false} RunTransparent(s: State, ops: seq<Op>)
    requires Coherent(s.cache, s.texts) && Disciplined(s, ops)
    ensures var now := Run(s, ops);
            Coherent(now.cache, now.texts) && forall id, level :: !Shows(now.cache, now.texts, id, level)
  {
    if ops != [] {
      RunTransparent(s, ops[..|ops| - 1]);
      StepCoherentIff(Run(s, ops[..|ops| - 1]), ops[|ops| - 1]);
    }
    TransparentIffCoherent(Run(s, ops).cache, Run(s, ops).texts);
  }

  /** and the first write that is not such leaves a cache that shows. */
  lemma FirstNoticedWriteShows(s: State, ops: seq<Op>, op: Op)
    requires Coherent(s.cache, s.texts) && Disciplined(s, ops) && !Unnoticed(Run(s, ops), op)
    ensures var now := Step(Run(s, ops), op);
            exists id, level :: Shows(now.cache, now.texts, id, level)
  {
    RunTransparent(s, ops);
    var before := Run(s, ops);
    StepCoherentIff(before, op);
    IncoherentShows(Step(before, op).cache, Step(before, op).texts);
  }

  /** Marking a step transient goes unnoticed. */
  lemma TransientUnnoticed(s: State, id: int, round: int)
    requires id in s.texts.steps
    ensures Unnoticed(s, WriteOp(id, WriteStep(s.texts.steps[id].(transient := true, transientRound := round))))
  {
    var after := Written(s.texts, id, WriteStep(s.texts.steps[id].(transient := true, transientRound := round)));
    if id in s.cache {
      assert FromStore(after, id, s.cache[id].level) == FromStore(s.texts, id, s.cache[id].level);
    }
  }

  /** The compression engine writes a level-1 text and sets the level to 1 without
      telling the cache.  If the step was at level 1 before, without a text of its
      own, and was rendered then, the old text is what is shown. */
  lemma LateTextIsStale(s: State, id: int, text: string)
    requires Coherent(s.cache, s.texts) && id in s.texts.steps && id !in s.texts.l1
    requires text != s.texts.steps[id].content && !(id in s.cache && s.cache[id].level == 1)
    ensures var now := Run(s, [RenderOp(id, 1), WriteOp(id, WriteL1(text))]);
            && Fresh(now.texts, id, 1) == Some(RenderBlock(s.texts.mark, id, 1, text, s.texts.steps[id].kind))
            && Rendered(now.cache, now.texts, id, 1).1 ==
               Some(RenderBlock(s.texts.mark, id, 1, s.texts.steps[id].content, s.texts.steps[id].kind))
            && Shows(now.cache, now.texts, id, 1)
  {
    var ops := [RenderOp(id, 1), WriteOp(id, WriteL1(text))];
    assert ops[..1] == [RenderOp(id, 1)] && ops[..1][..0] == [];
    var kind, old_text := s.texts.steps[id].kind, s.texts.steps[id].content;
    assert Fresh(s.texts, id, 1) == Some(RenderBlock(s.texts.mark, id, 1, old_text, kind));
    assert Run(s, ops[..1]) == Step(s, ops[0]);
    assert Run(s, ops) == Step(Step(s, ops[0]), ops[1]);
    SameMarker(s.texts.mark(id, kind, 1) + [' '], text, old_text);
  }

  lemma SameMarker(prefix: string, a: string, b: string)
    requires a != b
    ensures prefix + a != prefix + b
  {
    assert (prefix + a)[|prefix|..] == a && (prefix + b)[|prefix|..] == b;
  }

  lemma SetCoherentIff(cache: Cache, texts: Texts, id: int, entry: Entry)
    requires Coherent(cache, texts)
    ensures Coherent(cache[id := entry], texts) <==> EntryFresh(texts, id, entry)
  {
    var after := cache[id := entry];
    if EntryFresh(texts, id, entry) {
      forall i | i in after ensures EntryFresh(texts, i, after[i]) {
        assert i != id ==> EntryFresh(texts, i, cache[i]);
      }
    } else {
      assert id in after && !EntryFresh(texts, id, after[id]);
    }
  }

  // --------------------------------------------------------------- the class

  class RenderedCache {
    var items: Cache

    constructor ()
      ensures items == map[]
    {
      items := map[];
    }

    /** Hits exactly at the level cached, where the entry is what rendering through the
        cache shows, and what rendering afresh would if the cache is coherent. */
    method Get(stepId: int, currentLevel: int) returns (entry: Option<Entry>)
      ensures entry.Some? <==> stepId in items && items[stepId].level == currentLevel
      ensures entry.Some? ==> entry.value == items[stepId]
      ensures entry.Some? ==> forall texts ::
                Rendered(items, texts, stepId, currentLevel) == (items, Some(Block(stepId, currentLevel, entry.value.block)))
      ensures entry.Some? ==> forall texts | Coherent(items, texts) ::
                Fresh(texts, stepId, currentLevel) == Some(Block(stepId, currentLevel, entry.value.block))
    {
      if stepId !in items {
        return None;
      }
      if items[stepId].level != currentLevel {
        return None;
      }
      forall texts | Coherent(items, texts)
        ensures Fresh(texts, stepId, currentLevel) == Some(Block(stepId, currentLevel, items[stepId].block))
      {
        assert EntryFresh(texts, stepId, items[stepId]);
      }
      return Some(items[stepId]);
    }

    /** A coherent cache stays coherent exactly if the block is what would be rendered. */
    method Set(stepId: int, level: int, block: string)
      modifies this
      ensures items == old(items)[stepId := Entry(level, block)]
      ensures forall texts | Coherent(old(items), texts) ::
                Coherent(items, texts) <==> Fresh(texts, stepId, level) == Some(Block(stepId, level, block))
    {
      items := items[stepId := Entry(level, block)];
      forall texts | Coherent(old(items), texts)
        ensures Coherent(items, texts) <==> Fresh(texts, stepId, level) == Some(Block(stepId, level, block))
      {
        SetCoherentIff(old(items), texts, stepId, Entry(level, block));
      }
    }

    /** The step is rendered afresh next, from whatever texts, and coherence is kept. */
    method Invalidate(stepId: int)
      modifies this
      ensures items == old(items) - {stepId}
      ensures forall texts, level :: !Shows(items, texts, stepId, level)
      ensures forall texts | Coherent(old(items), texts) :: Coherent(items, texts)
    {
      items := items - {stepId};
      forall texts | Coherent(old(items), texts) ensures Coherent(items, texts) {
        FewerCoherent(old(items), texts, items);
      }
    }

    /** Every step is. */
    method InvalidateAll()
      modifies this
      ensures items == map[]
      ensures forall texts, id, level :: !Shows(items, texts, id, level)
    {
      items := map[];
    }

    method RenderStepWithCache(stepId: int, level: int, texts: Texts) returns (block: Option<Block>)
      modifies this
      ensures (items, block) == Rendered(old(items), texts, stepId, level)
    {
      var cached := Get(stepId, level);
      if cached.Some? {
        return Some(Block(stepId, level, cached.value.block));
      }
      var content := FromStore(texts, stepId, level);
      if content.None? {
        return None;
      }
      var rendered := RenderBlock(texts.mark, stepId, level, content.value, KindOf(texts.steps, stepId));
      Set(stepId, level, rendered.content);
      return Some(rendered);
    }
  }
}
