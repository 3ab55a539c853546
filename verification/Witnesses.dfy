/** Concrete runs that show what the theorems about citations and late writes leave
    open. */
module Witnesses {
  import opened Wrappers
  import opened Records
  import opened Reals
  import opened Decay
  import opened CitationWeights
  import opened Compression
  import opened CompressionRuns

  // --------------------------------------------------------- citations that raise

  /** What an ingestion makes of an older record, when there is no budget. */
  lemma IngestedRecord(s: State, step: StepRecord, group: int, cfg: Config, id: int)
    requires NonNegative(cfg.decay) && Valid(s) && id in s.refs
    ensures var next := Ingested(s, step, 0, group, cfg);
            && id in next.refs && id != next.current
            && next.refs[id] == Decayed(next.steps, next.current, group, cfg, id, s.refs[id])
            && next.steps == s.steps[s.current + 1 := step.(stepId := s.current + 1)]
  {
    assert Sound(s.steps, id, s.refs[id]);
  }

  predicate Defaulted(cfg: Config) {
    cfg.decay == DEFAULTS && cfg.thresholds == DEFAULT_THRESHOLDS
  }

  /** A first user step, as the only one. */
  predicate FirstOnly(s: State, ref: RefRecord) {
    && Valid(s) && s.current == 1 && s.refs == map[1 := ref] && 1 in s.steps && s.steps[1].kind == User
    && ref.level == 0 && !ref.lockL0 && ref.taskGroupId == 0
  }

  lemma FirstIngested(u: StepRecord, cfg: Config)
    requires NonNegative(cfg.decay) && u.kind == User
    ensures FirstOnly(Run([IngestOp(u, 0)], 0, cfg), NewRef(1, 0))
  {
    RunValid([IngestOp(u, 0)], 0, cfg);
    RunNext([], IngestOp(u, 0), 0, cfg);
    assert [] + [IngestOp(u, 0)] == [IngestOp(u, 0)];
  }

  lemma FirstCited(s: State, cfg: Config, ref: RefRecord)
    requires Defaulted(cfg) && FirstOnly(s, ref)
    ensures FirstOnly(Step(s, CiteOp([1]), 0, cfg), Cited(ref, 1, 0, DEFAULTS))
  {
    assert [1][..0] == [] && CitedRefs(s.refs, [], 1, 0, cfg) == s.refs;
    assert CitedRefs(s.refs, [1], 1, 0, cfg) == s.refs[1 := Cited(ref, 1, 0, DEFAULTS)];
    StepValid(s, CiteOp([1]), 0, cfg);
  }

  lemma FirstExpanded(s: State, cfg: Config, ref: RefRecord)
    requires NonNegative(cfg.decay) && FirstOnly(s, ref)
    ensures FirstOnly(Step(s, ExpandOp(1), 0, cfg), Expanded(ref, 1))
  {
    StepValid(s, ExpandOp(1), 0, cfg);
  }

  /** The level a default configuration gives a user step of the first group: what
      it takes is a bound on the pressure. */
  lemma UserLevel(steps: Steps, current: int, cfg: Config, id: int, ref: RefRecord, raw: nat)
    requires Defaulted(cfg) && id in steps && steps[id].kind == User && id != current
    requires ref.level == 0 && !ref.lockL0 && raw == RawDecay(ref, Tokens(steps), current)
    ensures var pressure := ComputeDecay(ref, raw, false, 0, DEFAULTS);
            && (pressure < 32000.0 ==> Decayed(steps, current, 0, cfg, id, ref) == ref)
            && (32000.0 <= pressure < 96000.0 ==> Decayed(steps, current, 0, cfg, id, ref) == ref.(level := 1))
  {
  }

  lemma PressureAsIngested(raw: nat)
    ensures ComputeDecay(NewRef(1, 0), raw, false, 0, DEFAULTS) == raw as real
  {
    var r := raw as real;
    OverIs(1.0, 1.0, 1.0);
    TimesOne(r);
    TimesOne(1.0);
    OverIs(r, 1.0, r);
  }

  /** The pressure of `n` references, of strength 1 + n / 10, and heat 0 or 20. */
  lemma PressureOf(ref: RefRecord, raw: nat, discount: real, heatMod: real)
    requires ref.taskGroupId == 0 && ref.strength >= 1.0
    requires discount == 1.0 + ref.refCount as real * 0.2 && heatMod == HeatMod(ref.heat, DEFAULTS.heat)
    ensures Times(ComputeDecay(ref, raw, false, 0, DEFAULTS), Times(discount, ref.strength)) ==
            Times(raw as real, heatMod)
  {
    var r, q := raw as real, Over(1.0, discount);
    assert Times(ref.refCount as real, 0.2) == ref.refCount as real * 0.2;
    OverIs(ref.strength, 1.0, ref.strength);
    TimesOne(r);
    TimesOne(Times(r, q));
    var y := Over(Times(r, q), ref.strength);
    TimesOne(y);
    assert ComputeDecay(ref, raw, false, 0, DEFAULTS) == Times(y, heatMod);
    OverTimes(Times(r, q), ref.strength);
    OverTimes(1.0, discount);
    WeightBack(r, q, discount, y, ref.strength, heatMod);
  }

  lemma WeightBack(r: real, q: real, discount: real, y: real, strength: real, h: real)
    requires Times(y, strength) == Times(r, q) && Times(q, discount) == 1.0
    ensures Times(Times(y, h), Times(discount, strength)) == Times(r, h)
  {
    TimesSwaps(y, h, Times(discount, strength));
    TimesCommutes(discount, strength);
    TimesAssociates(y, strength, discount);
    TimesAssociates(r, q, discount);
    TimesOne(r);
  }

  lemma LastTokens(tokens: map<int, nat>, last: int)
    requires last in tokens && last - 1 in tokens
    ensures SumTokens(tokens, last, last) == tokens[last]
    ensures SumTokens(tokens, last - 1, last) == tokens[last - 1] + tokens[last]
  {
    assert SumTokens(tokens, last + 1, last) == 0;
    assert SumTokens(tokens, last, last) == tokens[last];
  }

  /** A state in which the first step is a user step with this record. */
  predicate Follows(s: State, ref: RefRecord) {
    && Valid(s) && 1 in s.refs && s.refs[1] == ref && 1 in s.steps && s.steps[1].kind == User
    && ref.level == 0 && !ref.lockL0
  }

  /** The pass of one more step, as the record of the first one sees it. */
  lemma OneMore(s: State, cfg: Config, a: StepRecord, ref: RefRecord, raw: nat)
    requires Defaulted(cfg) && Follows(s, ref) && raw == RawDecay(ref, Tokens(Ingested(s, a, 0, 0, cfg).steps), s.current + 1)
    ensures var next, pressure := Ingested(s, a, 0, 0, cfg), ComputeDecay(ref, raw, false, 0, DEFAULTS);
            && (pressure < 32000.0 ==> Follows(next, ref))
            && (32000.0 <= pressure < 96000.0 ==> LevelIs(next, 1, 1))
  {
    IngestedRecord(s, a, 0, cfg, 1);
    IngestedValid(s, a, 0, 0, cfg);
    UserLevel(Ingested(s, a, 0, 0, cfg).steps, s.current + 1, cfg, 1, ref, raw);
  }

  predicate LevelIs(s: State, id: int, level: int) {
    id in s.refs && s.refs[id].level == level
  }

  /** The first step was never cited, or cited when it was the only one. */
  predicate CitedAtOnce(ref: RefRecord) {
    ref.lastRefAtStep.None? || ref.lastRefAtStep == Some(1)
  }

  lemma FirstRaw(s: State, cfg: Config, a: StepRecord, ref: RefRecord)
    requires NonNegative(cfg.decay) && Valid(s) && s.current == 1 && 1 in s.steps && CitedAtOnce(ref)
    ensures RawDecay(ref, Tokens(Ingested(s, a, 0, 0, cfg).steps), 2) == a.tokenCount
    ensures var next := Ingested(s, a, 0, 0, cfg);
            next.current == 2 && 2 in next.steps && next.steps[2].tokenCount == a.tokenCount
  {
    LastTokens(Tokens(Ingested(s, a, 0, 0, cfg).steps), 2);
  }

  lemma SecondRaw(s: State, cfg: Config, a: StepRecord, ref: RefRecord)
    requires NonNegative(cfg.decay) && Valid(s) && s.current == 2 && 2 in s.steps && CitedAtOnce(ref)
    ensures RawDecay(ref, Tokens(Ingested(s, a, 0, 0, cfg).steps), 3) ==
            if ref.lastRefAtStep.None? then a.tokenCount else s.steps[2].tokenCount + a.tokenCount
  {
    LastTokens(Tokens(Ingested(s, a, 0, 0, cfg).steps), 3);
  }

  lemma OneIngested(s: State, cfg: Config, a: StepRecord, ref: RefRecord)
    requires Defaulted(cfg) && FirstOnly(s, ref) && CitedAtOnce(ref)
    ensures var next, pressure := Ingested(s, a, 0, 0, cfg), ComputeDecay(ref, a.tokenCount, false, 0, DEFAULTS);
            && (pressure < 32000.0 ==> Follows(next, ref))
            && (32000.0 <= pressure < 96000.0 ==> LevelIs(next, 1, 1))
  {
    FirstRaw(s, cfg, a, ref);
    OneMore(s, cfg, a, ref, a.tokenCount);
  }

  /** The passes of two more steps of as many tokens. */
  lemma TwoIngested(s: State, cfg: Config, a: StepRecord, ref: RefRecord)
    requires Defaulted(cfg) && FirstOnly(s, ref) && CitedAtOnce(ref)
    requires ComputeDecay(ref, a.tokenCount, false, 0, DEFAULTS) < 32000.0
    ensures var next := Ingested(Ingested(s, a, 0, 0, cfg), a, 0, 0, cfg);
            var raw := if ref.lastRefAtStep.None? then a.tokenCount else a.tokenCount + a.tokenCount;
            var pressure := ComputeDecay(ref, raw, false, 0, DEFAULTS);
            && (pressure < 32000.0 ==> Follows(next, ref))
            && (32000.0 <= pressure < 96000.0 ==> LevelIs(next, 1, 1))
  {
    var first := Ingested(s, a, 0, 0, cfg);
    OneIngested(s, cfg, a, ref);
    FirstRaw(s, cfg, a, ref);
    SecondIngested(first, cfg, a, ref);
  }

  lemma SecondIngested(s: State, cfg: Config, a: StepRecord, ref: RefRecord)
    requires Defaulted(cfg) && Follows(s, ref) && CitedAtOnce(ref)
    requires s.current == 2 && 2 in s.steps && s.steps[2].tokenCount == a.tokenCount
    ensures var next := Ingested(s, a, 0, 0, cfg);
            var raw := if ref.lastRefAtStep.None? then a.tokenCount else a.tokenCount + a.tokenCount;
            var pressure := ComputeDecay(ref, raw, false, 0, DEFAULTS);
            && (pressure < 32000.0 ==> Follows(next, ref))
            && (32000.0 <= pressure < 96000.0 ==> LevelIs(next, 1, 1))
  {
    SecondRaw(s, cfg, a, ref);
    OneMore(s, cfg, a, ref, if ref.lastRefAtStep.None? then a.tokenCount else a.tokenCount + a.tokenCount);
  }

  lemma CitedPressure(ref: RefRecord)
    requires ref == Cited(NewRef(1, 0), 1, 0, DEFAULTS)
    ensures ComputeDecay(ref, 30000, false, 0, DEFAULTS) < 32000.0
    ensures 32000.0 <= ComputeDecay(ref, 60000, false, 0, DEFAULTS) < 96000.0
  {
    PressureOf(ref, 30000, 1.2, 1.3);
    PressureOf(ref, 60000, 1.2, 1.3);
    assert Times(1.2, 1.1) == 1.32 && Times(30000.0, 1.3) == 39000.0 && Times(60000.0, 1.3) == 78000.0 && ref.strength == 1.1;
    Below(ComputeDecay(ref, 30000, false, 0, DEFAULTS), 1.32, 39000.0, 32000.0);
    Above(ComputeDecay(ref, 60000, false, 0, DEFAULTS), 1.32, 78000.0, 32000.0);
    Below(ComputeDecay(ref, 60000, false, 0, DEFAULTS), 1.32, 78000.0, 96000.0);
  }

  lemma OncePressure(once: RefRecord)
    requires once == Expanded(NewRef(1, 0), 1)
    ensures ComputeDecay(once, 42000, false, 0, DEFAULTS) < 32000.0
  {
    PressureOf(once, 42000, 1.2, 1.0);
    assert Times(1.2, 1.1) == 1.32 && Times(42000.0, 1.0) == 42000.0 && once.strength == 1.1;
    Below(ComputeDecay(once, 42000, false, 0, DEFAULTS), 1.32, 42000.0, 32000.0);
  }

  lemma Below(p: real, w: real, x: real, bound: real)
    requires w > 0.0 && Times(p, w) == x && x < bound * w
    ensures p < bound
  {
    TimesOrder(bound, p, w);
  }

  lemma Above(p: real, w: real, x: real, bound: real)
    requires w > 0.0 && Times(p, w) == x && x >= bound * w
    ensures p >= bound
  {
    TimesOrder(bound, p, w);
  }

  lemma TwicePressure(twice: RefRecord)
    requires twice == Cited(Expanded(NewRef(1, 0), 1), 1, 0, DEFAULTS)
    ensures 32000.0 <= ComputeDecay(twice, 42000, false, 0, DEFAULTS) < 96000.0
  {
    PressureOf(twice, 42000, 1.4, 1.3);
    assert Times(1.4, 1.2) == 1.68 && Times(42000.0, 1.3) == 54600.0 && twice.strength == 1.2;
    Above(ComputeDecay(twice, 42000, false, 0, DEFAULTS), 1.68, 54600.0, 32000.0);
    Below(ComputeDecay(twice, 42000, false, 0, DEFAULTS), 1.68, 54600.0, 96000.0);
  }

  lemma RunThreeMore(ops: seq<Op>, a: Op, b: Op, c: Op, group: int, cfg: Config)
    requires NonNegative(cfg.decay)
    ensures Run(ops + [a, b, c], group, cfg) == Step(Step(Step(Run(ops, group, cfg), a, group, cfg), b, group, cfg), c, group, cfg)
  {
    RunNext(ops, a, group, cfg);
    RunNext(ops + [a], b, group, cfg);
    RunNext(ops + [a] + [b], c, group, cfg);
    assert ops + [a] + [b] + [c] == ops + [a, b, c];
  }

  lemma RunTwoMore(ops: seq<Op>, a: Op, b: Op, group: int, cfg: Config)
    requires NonNegative(cfg.decay)
    ensures Run(ops + [a, b], group, cfg) == Step(Step(Run(ops, group, cfg), a, group, cfg), b, group, cfg)
  {
    RunNext(ops, a, group, cfg);
    RunNext(ops + [a], b, group, cfg);
    assert ops + [a] + [b] == ops + [a, b];
  }

  /** With the default configuration a citation can raise the step it cites: after
      the second of two steps of 30000 tokens a user step that was cited before
      them is at level 1, and one that was not at level 0. */
  lemma FirstCitationRaises(cfg: Config, u: StepRecord, a: StepRecord)
    requires Defaulted(cfg) && u.kind == User && a.tokenCount == 30000
    ensures NonNegative(cfg.decay)
    ensures var plain := Run([IngestOp(u, 0)] + [IngestOp(a, 0), IngestOp(a, 0)], 0, cfg);
            LevelIs(plain, 1, 0)
    ensures var cited := Run([IngestOp(u, 0)] + [CiteOp([1]), IngestOp(a, 0), IngestOp(a, 0)], 0, cfg);
            LevelIs(cited, 1, 1)
  {
    var first, s := [IngestOp(u, 0)], Run([IngestOp(u, 0)], 0, cfg);
    FirstIngested(u, cfg);
    PressureAsIngested(30000);
    TwoIngested(s, cfg, a, NewRef(1, 0));
    RunTwoMore(first, IngestOp(a, 0), IngestOp(a, 0), 0, cfg);
    FirstCited(s, cfg, NewRef(1, 0));
    CitedPressure(Cited(NewRef(1, 0), 1, 0, DEFAULTS));
    TwoIngested(Step(s, CiteOp([1]), 0, cfg), cfg, a, Cited(NewRef(1, 0), 1, 0, DEFAULTS));
    RunThreeMore(first, CiteOp([1]), IngestOp(a, 0), IngestOp(a, 0), 0, cfg);
  }

  /** A step that was expanded once has no heat; its first citation raises it from
      level 0 to level 1 in the very next pass, at the default configuration. */
  lemma ExpandedCitationRaises(cfg: Config, u: StepRecord, a: StepRecord)
    requires Defaulted(cfg) && u.kind == User && a.tokenCount == 42000
    ensures NonNegative(cfg.decay)
    ensures var plain := Run([IngestOp(u, 0)] + [ExpandOp(1), IngestOp(a, 0)], 0, cfg);
            LevelIs(plain, 1, 0)
    ensures var cited := Run([IngestOp(u, 0)] + [ExpandOp(1), CiteOp([1]), IngestOp(a, 0)], 0, cfg);
            LevelIs(cited, 1, 1)
  {
    var first, s, once := [IngestOp(u, 0)], Run([IngestOp(u, 0)], 0, cfg), Expanded(NewRef(1, 0), 1);
    FirstIngested(u, cfg);
    OncePressure(once);
    TwicePressure(Cited(once, 1, 0, DEFAULTS));
    FirstExpanded(s, cfg, NewRef(1, 0));
    var expanded := Step(s, ExpandOp(1), 0, cfg);
    OneIngested(expanded, cfg, a, once);
    RunTwoMore(first, ExpandOp(1), IngestOp(a, 0), 0, cfg);
    FirstCited(expanded, cfg, once);
    OneIngested(Step(expanded, CiteOp([1]), 0, cfg), cfg, a, Cited(once, 1, 0, DEFAULTS));
    RunThreeMore(first, ExpandOp(1), CiteOp([1]), IngestOp(a, 0), 0, cfg);
  }

  // --------------------------------------------------------- a warm-up that is late

  lemma TwoIds()
    ensures SortedIds({1, 2}) == [1, 2]
  {
    SortedIdsAscend({1, 2});
    var sorted := SortedIds({1, 2});
    assert sorted[0] in {1, 2} && sorted[1] in {1, 2};
  }

  lemma TwoUrged(steps: Steps, cfg: Config, ref: RefRecord, next: RefRecord, other: RefRecord)
    requires cfg.tailKeepSteps == 1 && 1 in steps && steps[1].kind == User
    requires 0 <= ref.level < 2 && next == ref.(level := ref.level + 1)
    ensures EmergencyIntrospection(steps, map[1 := ref, 2 := other], cfg) == map[1 := next, 2 := other]
  {
    var refs: Refs := map[1 := ref, 2 := other];
    assert refs.Keys == {1, 2};
    TwoIds();
    assert BeforeTail(ActiveIds(refs), 1) == [1];
  }

  lemma TwoUndecayed(cfg: Config, u: StepRecord, v: StepRecord)
    requires NonNegative(cfg.decay) && cfg.tailKeepSteps == 1 && u.tokenCount == 5 && v.tokenCount == 4
    ensures var s := Run([IngestOp(u, 10), IngestOp(v, 10)], 0, cfg);
            && s.refs == map[1 := NewRef(1, 0), 2 := NewRef(2, 0)]
            && s.steps == map[1 := u.(stepId := 1), 2 := v.(stepId := 2)]
            && s.late == map[]
            && TotalTokens(s.steps, ActiveIds(s.refs)) == 9 && Over(9.0, 10.0) >= 0.8
            && BeforeTail(ActiveIds(s.refs), 1) == [1]
  {
    var first, ops := [IngestOp(u, 10)], [IngestOp(u, 10), IngestOp(v, 10)];
    assert first[..0] == [] && ops == first + [IngestOp(v, 10)];
    RunNext(first, IngestOp(v, 10), 0, cfg);
    var s := Run(first, 0, cfg);
    assert s == Ingested(Initial(), u, 10, 0, cfg);
    FirstKept(u, cfg);
    TwoIds();
    var both: Refs := map[1 := NewRef(1, 0), 2 := NewRef(2, 0)];
    var steps: Steps := map[1 := u.(stepId := 1), 2 := v.(stepId := 2)];
    assert both.Keys == {1, 2};
    TotalOfTwo(steps);
    assert s.refs[2 := NewRef(2, 0)] == both && s.steps[2 := v.(stepId := 2)] == steps;
    OverTimes(9.0, 10.0);
  }

  lemma TotalOfTwo(steps: Steps)
    requires 1 in steps && 2 in steps
    ensures TotalTokens(steps, [1]) == steps[1].tokenCount
    ensures TotalTokens(steps, [1, 2]) == steps[1].tokenCount + steps[2].tokenCount
    ensures [1, 2][..1] == [1]
  {
    assert [1][..0] == [] && [1, 2][..1] == [1];
  }

  lemma FirstKept(u: StepRecord, cfg: Config)
    requires NonNegative(cfg.decay) && u.tokenCount == 5
    ensures Ingested(Initial(), u, 10, 0, cfg) == State(map[1 := u.(stepId := 1)], map[1 := NewRef(1, 0)], 1, map[])
  {
    OneId();
    var refs: Refs := map[1 := NewRef(1, 0)];
    assert refs.Keys == {1} && ActiveIds(refs) == [1];
    assert [1][..0] == [] && TotalTokens(map[1 := u.(stepId := 1)], [1]) == 5;
  }

  lemma OneId()
    ensures SortedIds({1}) == [1]
  {
    SortedIdsAscend({1});
    assert SortedIds({1})[0] in {1};
  }

  lemma EmergencyIs(s: State, cfg: Config, refs: Refs)
    requires NonNegative(cfg.decay) && EmergencyIntrospection(s.steps, s.refs, cfg) == refs
    ensures Step(s, EmergencyOp, 0, cfg) == s.(refs := refs)
  {
  }

  /** Two emergencies in a row raise the first step to level 2. */
  lemma RaisedTwice(s: State, cfg: Config)
    requires NonNegative(cfg.decay) && cfg.tailKeepSteps == 1
    requires s.refs == map[1 := NewRef(1, 0), 2 := NewRef(2, 0)] && 1 in s.steps && s.steps[1].kind == User
    ensures Step(Step(s, EmergencyOp, 0, cfg), EmergencyOp, 0, cfg) ==
            s.(refs := map[1 := NewRef(1, 0).(level := 2), 2 := NewRef(2, 0)])
  {
    var zero, one, two, other := NewRef(1, 0), NewRef(1, 0).(level := 1), NewRef(1, 0).(level := 2), NewRef(2, 0);
    TwoUrged(s.steps, cfg, zero, one, other);
    EmergencyIs(s, cfg, map[1 := one, 2 := other]);
    TwoUrged(s.steps, cfg, one, two, other);
    EmergencyIs(s.(refs := map[1 := one, 2 := other]), cfg, map[1 := two, 2 := other]);
  }

  lemma WrittenLate(s: State, cfg: Config, ref: RefRecord, refs: Refs)
    requires NonNegative(cfg.decay) && s.refs == refs && s.late == map[0 := Held(ref, 1)] && ref.stepId == 1
    ensures LevelIs(Step(s, LateWriteOp(0), 0, cfg), 1, 1)
  {
  }

  lemma ReadRaisedWritten(s: State, cfg: Config)
    requires NonNegative(cfg.decay) && cfg.tailKeepSteps == 1 && s.late == map[]
    requires s.refs == map[1 := NewRef(1, 0), 2 := NewRef(2, 0)] && 1 in s.steps && s.steps[1].kind == User
    ensures var raised := Step(Step(Step(s, WarmReadOp(0, 1), 0, cfg), EmergencyOp, 0, cfg), EmergencyOp, 0, cfg);
            LevelIs(raised, 1, 2) && LevelIs(Step(raised, LateWriteOp(0), 0, cfg), 1, 1)
  {
    var read := s.(late := map[0 := Held(NewRef(1, 0), 1)]);
    assert Step(s, WarmReadOp(0, 1), 0, cfg) == read;
    RaisedTwice(read, cfg);
    var refs: Refs := map[1 := NewRef(1, 0).(level := 2), 2 := NewRef(2, 0)];
    WrittenLate(read.(refs := refs), cfg, NewRef(1, 0), refs);
  }

  /** With 9 tokens against a budget of 10 no step decays and a warm-up is started.
      It reads a user step at level 0; two emergencies raise the step to level 2;
      and then the warm-up's write sets it back to level 1. */
  lemma LateWriteLowers(cfg: Config, u: StepRecord, v: StepRecord)
    requires NonNegative(cfg.decay) && cfg.tailKeepSteps == 1 && u.kind == User
    requires u.tokenCount == 5 && v.tokenCount == 4
    ensures var begun := [IngestOp(u, 10), IngestOp(v, 10)];
            var raised := begun + [WarmReadOp(0, 1), EmergencyOp, EmergencyOp];
            var s := Run(begun, 0, cfg);
            && WarmupStarts(TotalTokens(s.steps, ActiveIds(s.refs)), 10, 0.8)
            && 1 in BeforeTail(ActiveIds(s.refs), cfg.tailKeepSteps)
            && LevelIs(Run(raised, 0, cfg), 1, 2) && LevelIs(Run(raised + [LateWriteOp(0)], 0, cfg), 1, 1)
  {
    var begun := [IngestOp(u, 10), IngestOp(v, 10)];
    TwoUndecayed(cfg, u, v);
    LateAfter(begun, cfg);
  }

  lemma LateAfter(begun: seq<Op>, cfg: Config)
    requires NonNegative(cfg.decay) && cfg.tailKeepSteps == 1
    requires var s := Run(begun, 0, cfg);
             && s.refs == map[1 := NewRef(1, 0), 2 := NewRef(2, 0)] && s.late == map[]
             && 1 in s.steps && s.steps[1].kind == User
    ensures var raised := begun + [WarmReadOp(0, 1), EmergencyOp, EmergencyOp];
            LevelIs(Run(raised, 0, cfg), 1, 2) && LevelIs(Run(raised + [LateWriteOp(0)], 0, cfg), 1, 1)
  {
    ReadRaisedWritten(Run(begun, 0, cfg), cfg);
    RunThreeMore(begun, WarmReadOp(0, 1), EmergencyOp, EmergencyOp, 0, cfg);
    RunNext(begun + [WarmReadOp(0, 1), EmergencyOp, EmergencyOp], LateWriteOp(0), 0, cfg);
  }

  // ------------------------------------------------------ one step, compressed or not

  /** A step as the only one, when it was just ingested. */
  predicate Alone(s: State, a: StepRecord) {
    s == State(map[1 := a.(stepId := 1)], map[1 := NewRef(1, 0)], 1, map[])
  }

  lemma IngestedAlone(a: StepRecord, cfg: Config)
    requires NonNegative(cfg.decay)
    ensures Alone(Run([IngestOp(a, 0)], 0, cfg), a)
  {
    RunNext([], IngestOp(a, 0), 0, cfg);
    assert [] + [IngestOp(a, 0)] == [IngestOp(a, 0)];
    FirstAlone(a, cfg);
  }

  lemma FirstAlone(a: StepRecord, cfg: Config)
    requires NonNegative(cfg.decay)
    ensures Ingested(Initial(), a, 0, 0, cfg) == State(map[1 := a.(stepId := 1)], map[1 := NewRef(1, 0)], 1, map[])
  {
    var refs: Refs := map[1 := NewRef(1, 0)];
    assert PerStepDecay(map[1 := a.(stepId := 1)], refs, 1, 0, cfg) == refs;
  }

  lemma TokensAlone(a: StepRecord)
    ensures SumTokens(Tokens(map[1 := a.(stepId := 1)]), 0, 1) == a.tokenCount
  {
    var tokens := Tokens(map[1 := a.(stepId := 1)]);
    assert SumTokens(tokens, 2, 1) == 0;
    assert SumTokens(tokens, 1, 1) == a.tokenCount;
  }

  lemma CompressedAlone(s: State, a: StepRecord, cfg: Config)
    requires Defaulted(cfg) && Alone(s, a) && a.kind == Tool
    ensures var after := BatchCompression(s.steps, s.refs, 1, 0, cfg);
            after == if a.tokenCount < 16000 then s.refs
                     else s.refs[1 := s.refs[1].(level := if a.tokenCount < 48000 then 1
                                                         else if a.tokenCount < 128000 then 2 else 3)]
  {
    TokensAlone(a);
    PressureAsIngested(a.tokenCount);
  }

  /** At the default configuration the compression of a single output of a tool leaves
      it as it is below 16000 tokens, takes it to level 1 below 48000, to level 2 below
      128000, and masks it from there on. */
  lemma OutputAlone(a: StepRecord, cfg: Config)
    requires Defaulted(cfg) && a.kind == Tool
    ensures var level := if a.tokenCount < 16000 then 0 else if a.tokenCount < 48000 then 1
                         else if a.tokenCount < 128000 then 2 else 3;
            Run([IngestOp(a, 0), CompressOp], 0, cfg).refs == map[1 := NewRef(1, 0).(level := level)]
  {
    IngestedAlone(a, cfg);
    RunNext([IngestOp(a, 0)], CompressOp, 0, cfg);
    assert [IngestOp(a, 0)] + [CompressOp] == [IngestOp(a, 0), CompressOp];
    CompressedAlone(Run([IngestOp(a, 0)], 0, cfg), a, cfg);
  }
}
