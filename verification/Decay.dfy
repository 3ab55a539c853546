/** The compression pressure on a step: a product of a raw token count and six
    factors, put through thresholds and a cap for each type of step.  Go's floats
    are real numbers here. */
module Decay {
  import opened Wrappers
  import opened Records
  import opened Reals

  // ------------------------------------------------------------ configuration

  datatype GroupModConfig = GroupModConfig(enabled: bool, distanceW: real, crossRefW: real)

  datatype HeatModConfig = HeatModConfig(enabled: bool, recallBoost: int, sigZoneMin: int, unsettledMin: int,
                                         sigMod: real, decayMod: real)

  datatype DecayConfig = DecayConfig(rawDecayBase: real, refModWeight: real, fileModWeight: real,
                                     strengthDivisor: real, group: GroupModConfig, heat: HeatModConfig)

  datatype ThresholdConfig = ThresholdConfig(l1Tool: int, l1Reasoning: int, l2Tool: int, l2Reasoning: int,
                                             l3Tool: int, l3Reasoning: int, l4Reasoning: int)

  function OrElse(x: real, default: real): real {
    if x == 0.0 then default else x
  }

  function OrElseInt(x: int, default: int): int {
    if x == 0 then default else x
  }

  function FilledGroup(g: GroupModConfig): GroupModConfig {
    GroupModConfig(g.enabled, OrElse(g.distanceW, 0.3), OrElse(g.crossRefW, 0.2))
  }

  function FilledHeat(h: HeatModConfig): HeatModConfig {
    HeatModConfig(h.enabled, OrElseInt(h.recallBoost, 20), OrElseInt(h.sigZoneMin, 70),
                  OrElseInt(h.unsettledMin, 40), OrElse(h.sigMod, 0.7), OrElse(h.decayMod, 1.3))
  }

  /** Zero stands for the default, in every coefficient. */
  function Filled(cfg: DecayConfig): DecayConfig {
    DecayConfig(OrElse(cfg.rawDecayBase, 1.0), OrElse(cfg.refModWeight, 0.2), OrElse(cfg.fileModWeight, 0.3),
                OrElse(cfg.strengthDivisor, 1.0), FilledGroup(cfg.group), FilledHeat(cfg.heat))
  }

  const DEFAULTS := DecayConfig(1.0, 0.2, 0.3, 1.0, GroupModConfig(true, 0.3, 0.2),
                                HeatModConfig(true, 20, 70, 40, 0.7, 1.3))

  /** No coefficient is negative. */
  predicate NonNegative(cfg: DecayConfig) {
    && cfg.rawDecayBase >= 0.0 && cfg.refModWeight >= 0.0 && cfg.fileModWeight >= 0.0 && cfg.strengthDivisor >= 0.0
    && cfg.group.distanceW >= 0.0 && cfg.group.crossRefW >= 0.0
    && cfg.heat.sigMod >= 0.0 && cfg.heat.decayMod >= 0.0
  }

  /** A hotter zone never decays faster. */
  predicate HeatOrdered(cfg: DecayConfig) {
    var h := FilledHeat(cfg.heat);
    h.sigMod <= 1.0 <= h.decayMod && h.unsettledMin <= h.sigZoneMin && h.recallBoost >= 0
  }

  // ------------------------------------------------------------- the pressure

  function RefMod(refCount: nat, weight: real): (r: real)
    requires weight >= 0.0
  {
    Over(1.0, 1.0 + Times(refCount as real, weight))
  }

  function Strength(strength: real, divisor: real): (r: real)
    requires divisor != 0.0
    ensures r >= 0.1
  {
    if Over(strength, divisor) < 0.1 then 0.1 else Over(strength, divisor)
  }

  /** The ageing by the distance of a group, damped by cross-group references. */
  function GroupTerm(distanceW: real, distance: int, crossRefW: real, crossRefs: nat): real
    requires crossRefW >= 0.0
  {
    Over(Times(distanceW, distance as real), 1.0 + Times(crossRefW, crossRefs as real))
  }

  function CrossGroupMod(refGroup: int, currentGroup: int, crossRefs: nat, g: GroupModConfig): real
    requires g.crossRefW >= 0.0
  {
    if !g.enabled || refGroup == currentGroup then 1.0
    else
      var distance := if currentGroup < refGroup then 0 else currentGroup - refGroup;
      var f := FilledGroup(g);
      1.0 + GroupTerm(f.distanceW, distance, f.crossRefW, crossRefs)
  }

  function HeatMod(heat: int, h: HeatModConfig): real {
    if !h.enabled || heat == 0 then 1.0
    else
      var f := FilledHeat(h);
      if heat >= f.sigZoneMin then f.sigMod
      else if heat < f.unsettledMin then f.decayMod
      else 1.0
  }

  /** Every coefficient of one computation. */
  datatype DecayTrace = DecayTrace(rawBase: real, rawDecay: real, refMod: real, fileMod: real, strength: real,
                                   groupMod: real, heatMod: real)

  function Effective(t: DecayTrace): real
    requires t.strength != 0.0
  {
    var discounted := Times(Times(Times(t.rawBase, t.rawDecay), t.refMod), t.fileMod);
    Times(Times(Over(discounted, t.strength), t.groupMod), t.heatMod)
  }

  function Trace(ref: RefRecord, rawDecay: nat, fileActive: bool, currentGroup: int, cfg: DecayConfig): (t: DecayTrace)
    requires NonNegative(cfg)
    ensures t.strength >= 0.1
  {
    var f := Filled(cfg);
    DecayTrace(f.rawDecayBase, rawDecay as real, RefMod(ref.refCount, f.refModWeight),
               if fileActive then f.fileModWeight else 1.0, Strength(ref.strength, f.strengthDivisor),
               CrossGroupMod(ref.taskGroupId, currentGroup, ref.crossGroupRefs, cfg.group), HeatMod(ref.heat, cfg.heat))
  }

  function ComputeDecay(ref: RefRecord, rawDecay: nat, fileActive: bool, currentGroup: int, cfg: DecayConfig): real
    requires NonNegative(cfg)
  {
    Effective(Trace(ref, rawDecay, fileActive, currentGroup, cfg))
  }

  function ApplyRecallBoost(ref: RefRecord, currentGroup: int, cfg: DecayConfig): RefRecord {
    if !cfg.heat.enabled then ref
    else
      var h := ref.heat + FilledHeat(cfg.heat).recallBoost;
      ref.(heat := if h > 100 then 100 else h,
           crossGroupRefs := if ref.taskGroupId != currentGroup then ref.crossGroupRefs + 1 else ref.crossGroupRefs)
  }

  function LevelBy(decay: real, l1: int, l2: int, l3: int): int {
    if decay >= l3 as real then 3
    else if decay >= l2 as real then 2
    else if decay >= l1 as real then 1
    else 0
  }

  function TargetLevel(decay: real, kind: StepType, t: ThresholdConfig): int {
    match kind
    case User => if decay >= t.l2Reasoning as real then 2 else if decay >= t.l1Reasoning as real then 1 else 0
    case Reasoning | Plan | Failed =>
      if decay >= t.l4Reasoning as real then 4 else LevelBy(decay, t.l1Reasoning, t.l2Reasoning, t.l3Reasoning)
    case Tool | Other(_) => LevelBy(decay, t.l1Tool, t.l2Tool, t.l3Tool)
  }

  function MaxLevelForType(kind: StepType): int {
    match kind
    case User => 2
    case Tool => 3
    case Reasoning | Plan | Failed => 4
    case Other(_) => 3
  }

  /** The threshold table never asks for more than the type allows, so that the
      engine's own clamp has nothing to do, */
  lemma TargetWithinCap(decay: real, kind: StepType, t: ThresholdConfig)
    ensures 0 <= TargetLevel(decay, kind, t) <= MaxLevelForType(kind)
  {
  }

  /** and more pressure never asks for less, in whatever order the thresholds are. */
  lemma TargetMonotone(a: real, b: real, kind: StepType, t: ThresholdConfig)
    requires a <= b
    ensures TargetLevel(a, kind, t) <= TargetLevel(b, kind, t)
  {
  }

  /** The thresholds as a table: the pressure from which a type is at a level. */
  function Threshold(kind: StepType, level: int, t: ThresholdConfig): int {
    var tool := kind == Tool || kind.Other?;
    if level == 1 then if tool then t.l1Tool else t.l1Reasoning
    else if level == 2 then if tool then t.l2Tool else t.l2Reasoning
    else if level == 3 then if tool then t.l3Tool else t.l3Reasoning
    else t.l4Reasoning
  }

  /** The target is the highest level the type allows whose threshold is reached. */
  lemma TargetIsHighestReached(decay: real, kind: StepType, t: ThresholdConfig)
    ensures var level := TargetLevel(decay, kind, t);
            && (level > 0 ==> decay >= Threshold(kind, level, t) as real)
            && forall higher :: level < higher <= MaxLevelForType(kind) ==> decay < Threshold(kind, higher, t) as real
  {
  }

  /** Zero coefficients are the documented defaults, and filling them in changes no
      pressure. */
  lemma ZeroFallsBack(ref: RefRecord, rawDecay: nat, fileActive: bool, currentGroup: int, cfg: DecayConfig)
    requires NonNegative(cfg)
    ensures NonNegative(Filled(cfg))
    ensures ComputeDecay(ref, rawDecay, fileActive, currentGroup, Filled(cfg)) ==
            ComputeDecay(ref, rawDecay, fileActive, currentGroup, cfg)
    ensures Filled(DecayConfig(0.0, 0.0, 0.0, 0.0, GroupModConfig(true, 0.0, 0.0), HeatModConfig(true, 0, 0, 0, 0.0, 0.0)))
         == DEFAULTS
  {
    assert Trace(ref, rawDecay, fileActive, currentGroup, Filled(cfg)) == Trace(ref, rawDecay, fileActive, currentGroup, cfg);
  }

  const DEFAULT_THRESHOLDS := ThresholdConfig(16000, 32000, 48000, 96000, 128000, 256000, 512000)

  const ZERO := DecayConfig(0.0, 0.0, 0.0, 0.0, GroupModConfig(false, 0.0, 0.0), HeatModConfig(false, 0, 0, 0, 0.0, 0.0))

  /** Without any configuration the pressure is the historical one: tokens over the
      references' discount and over the strength, less if the file is edited. */
  lemma HistoricalFormula(ref: RefRecord, rawDecay: nat, fileActive: bool, currentGroup: int)
    ensures ComputeDecay(ref, rawDecay, fileActive, currentGroup, ZERO) ==
            rawDecay as real * (1.0 / (1.0 + ref.refCount as real * 0.2)) * (if fileActive then 0.3 else 1.0)
              / (if ref.strength < 0.1 then 0.1 else ref.strength)
  {
    var t := Trace(ref, rawDecay, fileActive, currentGroup, ZERO);
    assert t.rawBase == 1.0 && t.groupMod == 1.0 && t.heatMod == 1.0;
    OverIs(ref.strength, 1.0, ref.strength);
    TimesOne(rawDecay as real);
    TimesOne(Over(Times(Times(rawDecay as real, t.refMod), t.fileMod), t.strength));
  }

  /** Cross-group ageing sets in exactly for steps of earlier groups, */
  lemma GroupModNeutralIff(refGroup: int, currentGroup: int, crossRefs: nat, g: GroupModConfig)
    requires g.crossRefW >= 0.0 && g.distanceW >= 0.0
    ensures CrossGroupMod(refGroup, currentGroup, crossRefs, g) == 1.0 <==> !g.enabled || currentGroup <= refGroup
  {
    var f := FilledGroup(g);
    if g.enabled && refGroup < currentGroup {
      GroupTermPositive(f.distanceW, currentGroup - refGroup, f.crossRefW, crossRefs);
    }
  }

  lemma GroupTermPositive(w: real, distance: nat, v: real, n: nat)
    requires w > 0.0 && distance > 0 && v >= 0.0
    ensures GroupTerm(w, distance, v, n) > 0.0
  {
    OverPositive(Times(w, distance as real), 1.0 + Times(v, n as real));
  }

  /** and grows in proportion to the distance between the groups. */
  lemma GroupModProportional(refGroup: int, distance: nat, crossRefs: nat, g: GroupModConfig)
    requires g.crossRefW >= 0.0 && g.distanceW >= 0.0
    ensures CrossGroupMod(refGroup, refGroup + distance, crossRefs, g) - 1.0 ==
            Times(distance as real, CrossGroupMod(refGroup, refGroup + 1, crossRefs, g) - 1.0)
  {
    var f := FilledGroup(g);
    TimesOne(distance as real);
    if g.enabled {
      TimesOne(CrossGroupMod(refGroup, refGroup + 1, crossRefs, g) - 1.0);
      GroupTermProportional(f.distanceW, distance, f.crossRefW, crossRefs);
      assert CrossGroupMod(refGroup, refGroup + 1, crossRefs, g) == 1.0 + GroupTerm(f.distanceW, 1, f.crossRefW, crossRefs);
      if distance > 0 {
        assert CrossGroupMod(refGroup, refGroup + distance, crossRefs, g)
            == 1.0 + GroupTerm(f.distanceW, distance, f.crossRefW, crossRefs);
      }
    }
  }

  lemma GroupTermProportional(w: real, distance: nat, v: real, n: nat)
    requires v >= 0.0
    ensures GroupTerm(w, distance, v, n) == Times(distance as real, GroupTerm(w, 1, v, n))
  {
    var down := 1.0 + Times(v, n as real);
    TimesOne(w);
    TimesCommutes(w, distance as real);
    OverOfTimes(distance as real, w, down);
  }

  // -------------------------------------------------- monotone in each factor

  lemma RefModFalls(m: nat, n: nat, weight: real)
    requires m <= n && weight >= 0.0
    ensures 0.0 < RefMod(n, weight) <= RefMod(m, weight)
  {
    TimesMonotone(m as real, n as real, weight, weight);
    OverMonotone(1.0, 1.0, 1.0 + Times(n as real, weight), 1.0 + Times(m as real, weight));
    OverPositive(1.0, 1.0 + Times(n as real, weight));
  }

  lemma StrengthGrows(a: real, b: real, divisor: real)
    requires a <= b && divisor > 0.0
    ensures Strength(a, divisor) <= Strength(b, divisor)
  {
    OverTimes(a, divisor);
    OverTimes(b, divisor);
    TimesOrder(Over(a, divisor), Over(b, divisor), divisor);
  }

  lemma GroupTermFalls(distanceW: real, distance: nat, crossRefW: real, m: nat, n: nat)
    requires m <= n && crossRefW >= 0.0 && distanceW >= 0.0
    ensures 0.0 <= GroupTerm(distanceW, distance, crossRefW, n) <= GroupTerm(distanceW, distance, crossRefW, m)
  {
    TimesMonotone(crossRefW, crossRefW, m as real, n as real);
    var top, dm, dn := Times(distanceW, distance as real), Times(crossRefW, m as real), Times(crossRefW, n as real);
    assert 0.0 <= dm <= dn;
    OverMonotone(top, top, 1.0 + dn, 1.0 + dm);
  }

  lemma GroupModFalls(refGroup: int, currentGroup: int, m: nat, n: nat, g: GroupModConfig)
    requires m <= n && g.crossRefW >= 0.0 && g.distanceW >= 0.0
    ensures 1.0 <= CrossGroupMod(refGroup, currentGroup, n, g) <= CrossGroupMod(refGroup, currentGroup, m, g)
  {
    var f := FilledGroup(g);
    GroupTermFalls(f.distanceW, if currentGroup < refGroup then 0 else currentGroup - refGroup, f.crossRefW, m, n);
  }

  lemma HeatModFalls(cold: int, hot: int, cfg: DecayConfig)
    requires NonNegative(cfg) && HeatOrdered(cfg)
    requires cfg.heat.enabled ==> 0 < cold <= hot
    ensures 0.0 <= HeatMod(hot, cfg.heat) <= HeatMod(cold, cfg.heat)
  {
  }

  /** The pressure on a record is at most that on another one if every factor is. */
  lemma DecayMonotone(a: RefRecord, b: RefRecord, rawA: nat, rawB: nat, fileActive: bool, currentGroup: int,
                      cfg: DecayConfig)
    requires NonNegative(cfg)
    requires rawA <= rawB && a.refCount >= b.refCount && a.strength >= b.strength && a.taskGroupId == b.taskGroupId
    requires a.crossGroupRefs >= b.crossGroupRefs
    requires 0.0 <= HeatMod(a.heat, cfg.heat) <= HeatMod(b.heat, cfg.heat)
    ensures ComputeDecay(a, rawA, fileActive, currentGroup, cfg) <= ComputeDecay(b, rawB, fileActive, currentGroup, cfg)
  {
    var f := Filled(cfg);
    RefModFalls(b.refCount, a.refCount, f.refModWeight);
    StrengthGrows(b.strength, a.strength, f.strengthDivisor);
    GroupModFalls(a.taskGroupId, currentGroup, b.crossGroupRefs, a.crossGroupRefs, cfg.group);
    EffectiveMonotone(Trace(a, rawA, fileActive, currentGroup, cfg), Trace(b, rawB, fileActive, currentGroup, cfg));
  }

  lemma EffectiveMonotone(a: DecayTrace, b: DecayTrace)
    requires a.rawBase == b.rawBase >= 0.0 && 0.0 <= a.rawDecay <= b.rawDecay && 0.0 <= a.refMod <= b.refMod
    requires a.fileMod == b.fileMod >= 0.0 && a.strength >= b.strength > 0.0
    requires 0.0 <= a.groupMod <= b.groupMod && 0.0 <= a.heatMod <= b.heatMod
    ensures Effective(a) <= Effective(b)
  {
    TimesMonotone(a.rawBase, b.rawBase, a.rawDecay, b.rawDecay);
    var rawA, rawB := Times(a.rawBase, a.rawDecay), Times(b.rawBase, b.rawDecay);
    TimesMonotone(rawA, rawB, a.refMod, b.refMod);
    var refA, refB := Times(rawA, a.refMod), Times(rawB, b.refMod);
    TimesMonotone(refA, refB, a.fileMod, b.fileMod);
    var fileA, fileB := Times(refA, a.fileMod), Times(refB, b.fileMod);
    OverMonotone(fileA, fileB, a.strength, b.strength);
    TimesMonotone(Over(fileA, a.strength), Over(fileB, b.strength), a.groupMod, b.groupMod);
    TimesMonotone(Times(Over(fileA, a.strength), a.groupMod), Times(Over(fileB, b.strength), b.groupMod),
                  a.heatMod, b.heatMod);
  }

  // ------------------------------------------------------------ decay passes

  /** The tokens of the stored steps from `from` to `to`. */
  function SumTokens(tokens: map<int, nat>, from: int, to: int): nat
    decreases to - from
  {
    if from > to then 0
    else (if from in tokens then tokens[from] else 0) + SumTokens(tokens, from + 1, to)
  }

  /** The raw decay of a step in the pass made when `current` is ingested: what
      came after its last citation, or only `current` if it was never cited. */
  function RawDecay(ref: RefRecord, tokens: map<int, nat>, current: int): nat {
    SumTokens(tokens, (if ref.lastRefAtStep.Some? then ref.lastRefAtStep.value else current - 1) + 1, current)
  }

  function PassTarget(ref: RefRecord, kind: StepType, tokens: map<int, nat>, current: int, currentGroup: int,
                      cfg: DecayConfig, t: ThresholdConfig): int
    requires NonNegative(cfg)
  {
    TargetLevel(ComputeDecay(ref, RawDecay(ref, tokens, current), false, currentGroup, cfg), kind, t)
  }

  /** What a citation found at step `at` does to the record. */
  function Cited(ref: RefRecord, at: int, currentGroup: int, cfg: DecayConfig): RefRecord {
    ApplyRecallBoost(ref.(refCount := ref.refCount + 1, lastRefAtStep := Some(at), strength := ref.strength + 0.1),
                     currentGroup, cfg)
  }

  lemma {:induction false} SumTokensFalls(tokens: map<int, nat>, a: int, b: int, to: int)
    requires a <= b
    ensures SumTokens(tokens, b, to) <= SumTokens(tokens, a, to)
    decreases b - a
  {
    if a < b {
      SumTokensFalls(tokens, a + 1, b, to);
    }
  }

  /** A record that was cited before, and whose heat, if heat counts, is set. */
  predicate Warm(ref: RefRecord, cfg: DecayConfig) {
    ref.lastRefAtStep.Some? && (cfg.heat.enabled ==> 0 < ref.heat <= 100)
  }

  lemma CitedOnce(ref: RefRecord, at: int, citedIn: int, kind: StepType, tokens: map<int, nat>, current: int,
                  currentGroup: int, cfg: DecayConfig, t: ThresholdConfig)
    requires NonNegative(cfg) && HeatOrdered(cfg) && Warm(ref, cfg) && ref.lastRefAtStep.value <= at
    ensures Warm(Cited(ref, at, citedIn, cfg), cfg)
    ensures PassTarget(Cited(ref, at, citedIn, cfg), kind, tokens, current, currentGroup, cfg, t)
         <= PassTarget(ref, kind, tokens, current, currentGroup, cfg, t)
  {
    var cited := Cited(ref, at, citedIn, cfg);
    var before, after := RawDecay(ref, tokens, current), RawDecay(cited, tokens, current);
    SumTokensFalls(tokens, ref.lastRefAtStep.value + 1, at + 1, current);
    HeatModFalls(ref.heat, cited.heat, cfg);
    DecayMonotone(cited, ref, after, before, false, currentGroup, cfg);
    TargetMonotone(ComputeDecay(cited, after, false, currentGroup, cfg),
                   ComputeDecay(ref, before, false, currentGroup, cfg), kind, t);
  }

  datatype Citation = Citation(at: int, inGroup: int)

  function CitedBy(ref: RefRecord, citations: seq<Citation>, cfg: DecayConfig): RefRecord
    decreases |citations|
  {
    if citations == [] then ref
    else CitedBy(Cited(ref, citations[0].at, citations[0].inGroup, cfg), citations[1..], cfg)
  }

  predicate InOrder(from: int, citations: seq<Citation>)
    decreases |citations|
  {
    citations == [] || (from <= citations[0].at && InOrder(citations[0].at, citations[1..]))
  }

  /** Citing an already cited step, any number of times, never raises the level
      that a later pass asks for, whatever the tokens, groups and thresholds. */
  lemma {:induction false} CitationsNeverRaise(ref: RefRecord, citations: seq<Citation>, kind: StepType,
                                               tokens: map<int, nat>, current: int, currentGroup: int,
                                               cfg: DecayConfig, t: ThresholdConfig)
    requires NonNegative(cfg) && HeatOrdered(cfg) && Warm(ref, cfg) && InOrder(ref.lastRefAtStep.value, citations)
    ensures PassTarget(CitedBy(ref, citations, cfg), kind, tokens, current, currentGroup, cfg, t)
         <= PassTarget(ref, kind, tokens, current, currentGroup, cfg, t)
    decreases |citations|
  {
    if citations != [] {
      var c := citations[0];
      CitedOnce(ref, c.at, c.inGroup, kind, tokens, current, currentGroup, cfg, t);
      CitationsNeverRaise(Cited(ref, c.at, c.inGroup, cfg), citations[1..], kind, tokens, current, currentGroup, cfg, t);
    }
  }

  // --------------------------------------- what the conditions are needed for

  /** A record without heat takes the neutral factor; once cited it has heat, and
      the factor does not rise exactly if the boost leaves the decay zone (or that
      zone is neutral too). */
  lemma HeatlessCitation(ref: RefRecord, at: int, citedIn: int, cfg: DecayConfig)
    requires HeatOrdered(cfg) && cfg.heat.enabled && ref.heat == 0 && FilledHeat(cfg.heat).recallBoost > 0
    ensures var h, hot := FilledHeat(cfg.heat), Cited(ref, at, citedIn, cfg).heat;
            && hot == (if h.recallBoost > 100 then 100 else h.recallBoost)
            && (HeatMod(hot, cfg.heat) <= HeatMod(ref.heat, cfg.heat) <==> hot >= h.unsettledMin || h.decayMod == 1.0)
  {
  }

  /** The pressure that one token puts on the record. */
  function PerToken(ref: RefRecord, currentGroup: int, cfg: DecayConfig): real
    requires NonNegative(cfg)
  {
    ComputeDecay(ref, 1, false, currentGroup, cfg)
  }

  lemma EffectiveScales(t: DecayTrace, n: real)
    requires t.strength > 0.0
    ensures Effective(t.(rawDecay := n)) == Times(n, Effective(t.(rawDecay := 1.0)))
  {
    TimesOne(t.rawBase);
    TimesCommutes(t.rawBase, n);
    TimesAssociates(n, t.rawBase, t.refMod);
    var x := Times(t.rawBase, t.refMod);
    TimesAssociates(n, x, t.fileMod);
    var y := Times(x, t.fileMod);
    OverOfTimes(n, y, t.strength);
    var z := Over(y, t.strength);
    TimesAssociates(n, z, t.groupMod);
    TimesAssociates(n, Times(z, t.groupMod), t.heatMod);
  }

  lemma DecayScales(ref: RefRecord, n: nat, currentGroup: int, cfg: DecayConfig)
    requires NonNegative(cfg)
    ensures ComputeDecay(ref, n, false, currentGroup, cfg) == Times(n as real, PerToken(ref, currentGroup, cfg))
  {
    var t := Trace(ref, 1, false, currentGroup, cfg);
    assert Trace(ref, n, false, currentGroup, cfg) == t.(rawDecay := n as real) && t == t.(rawDecay := 1.0);
    EffectiveScales(t, n as real);
  }

  lemma PerTokenNonNegative(ref: RefRecord, currentGroup: int, cfg: DecayConfig)
    requires NonNegative(cfg)
    ensures PerToken(ref, currentGroup, cfg) >= 0.0
  {
    RefModFalls(ref.refCount, ref.refCount, Filled(cfg).refModWeight);
    GroupModFalls(ref.taskGroupId, currentGroup, ref.crossGroupRefs, ref.crossGroupRefs, cfg.group);
    assert HeatMod(ref.heat, cfg.heat) >= 0.0;
    var t := Trace(ref, 1, false, currentGroup, cfg);
    EffectiveMonotone(t.(rawDecay := 0.0), t);
    EffectiveScales(t, 0.0);
    TimesOne(Effective(t.(rawDecay := 1.0)));
  }

  /** Citing the record at `at` raises the level in no pass made in `currentGroup`. */
  ghost predicate NeverRaises(ref: RefRecord, at: int, citedIn: int, currentGroup: int, cfg: DecayConfig)
    requires NonNegative(cfg)
  {
    forall kind, tokens, current, t ::
      PassTarget(Cited(ref, at, citedIn, cfg), kind, tokens, current, currentGroup, cfg, t)
      <= PassTarget(ref, kind, tokens, current, currentGroup, cfg, t)
  }

  /** For a record that was cited before: citing it again never raises its level
      if and only if one token does not weigh more on it afterwards. */
  lemma NeverRaisesIffLighter(ref: RefRecord, at: int, citedIn: int, currentGroup: int, cfg: DecayConfig)
    requires NonNegative(cfg) && ref.lastRefAtStep.Some? && ref.lastRefAtStep.value <= at
    ensures NeverRaises(ref, at, citedIn, currentGroup, cfg) <==>
            PerToken(Cited(ref, at, citedIn, cfg), currentGroup, cfg) <= PerToken(ref, currentGroup, cfg)
  {
    if PerToken(Cited(ref, at, citedIn, cfg), currentGroup, cfg) <= PerToken(ref, currentGroup, cfg) {
      forall kind, tokens, current, t
        ensures PassTarget(Cited(ref, at, citedIn, cfg), kind, tokens, current, currentGroup, cfg, t)
             <= PassTarget(ref, kind, tokens, current, currentGroup, cfg, t)
      {
        LighterNeverRaises(ref, at, citedIn, kind, tokens, current, currentGroup, cfg, t);
      }
    } else {
      HeavierRaises(ref, at, citedIn, currentGroup, cfg);
    }
  }

  lemma LighterDecay(a: RefRecord, b: RefRecord, m: nat, n: nat, currentGroup: int, cfg: DecayConfig)
    requires NonNegative(cfg) && m <= n && PerToken(a, currentGroup, cfg) <= PerToken(b, currentGroup, cfg)
    ensures ComputeDecay(a, m, false, currentGroup, cfg) <= ComputeDecay(b, n, false, currentGroup, cfg)
  {
    DecayScales(a, m, currentGroup, cfg);
    DecayScales(b, n, currentGroup, cfg);
    PerTokenNonNegative(a, currentGroup, cfg);
    TimesMonotone(m as real, n as real, PerToken(a, currentGroup, cfg), PerToken(b, currentGroup, cfg));
  }

  lemma LighterNeverRaises(ref: RefRecord, at: int, citedIn: int, kind: StepType, tokens: map<int, nat>, current: int,
                           currentGroup: int, cfg: DecayConfig, t: ThresholdConfig)
    requires NonNegative(cfg) && ref.lastRefAtStep.Some? && ref.lastRefAtStep.value <= at
    requires PerToken(Cited(ref, at, citedIn, cfg), currentGroup, cfg) <= PerToken(ref, currentGroup, cfg)
    ensures PassTarget(Cited(ref, at, citedIn, cfg), kind, tokens, current, currentGroup, cfg, t)
         <= PassTarget(ref, kind, tokens, current, currentGroup, cfg, t)
  {
    var cited := Cited(ref, at, citedIn, cfg);
    var before, after := RawDecay(ref, tokens, current), RawDecay(cited, tokens, current);
    SumTokensFalls(tokens, ref.lastRefAtStep.value + 1, at + 1, current);
    LighterDecay(cited, ref, after, before, currentGroup, cfg);
    TargetMonotone(ComputeDecay(cited, after, false, currentGroup, cfg),
                   ComputeDecay(ref, before, false, currentGroup, cfg), kind, t);
  }

  /** Between two different weights a whole threshold fits, if there are tokens enough. */
  lemma ThresholdBetween(low: real, high: real) returns (n: nat, limit: int)
    requires 0.0 <= low < high
    ensures Times(n as real, low) < limit as real <= Times(n as real, high)
  {
    var gap := high - low;
    var q := Over(1.0, gap);
    OverPositive(1.0, gap);
    OverTimes(1.0, gap);
    n := q.Floor + 1;
    TimesMonotone(q, n as real, gap, gap);
    limit := Times(n as real, low).Floor + 1;
    assert Times(n as real, high) == Times(n as real, low) + Times(n as real, gap);
  }

  lemma HeavierDecay(a: RefRecord, b: RefRecord, currentGroup: int, cfg: DecayConfig) returns (n: nat, limit: int)
    requires NonNegative(cfg) && PerToken(a, currentGroup, cfg) < PerToken(b, currentGroup, cfg)
    ensures ComputeDecay(a, n, false, currentGroup, cfg) < limit as real <= ComputeDecay(b, n, false, currentGroup, cfg)
  {
    PerTokenNonNegative(a, currentGroup, cfg);
    n, limit := ThresholdBetween(PerToken(a, currentGroup, cfg), PerToken(b, currentGroup, cfg));
    DecayScales(a, n, currentGroup, cfg);
    DecayScales(b, n, currentGroup, cfg);
  }

  lemma HeavierRaises(ref: RefRecord, at: int, citedIn: int, currentGroup: int, cfg: DecayConfig)
    requires NonNegative(cfg) && ref.lastRefAtStep.Some? && ref.lastRefAtStep.value <= at
    requires PerToken(Cited(ref, at, citedIn, cfg), currentGroup, cfg) > PerToken(ref, currentGroup, cfg)
    ensures !NeverRaises(ref, at, citedIn, currentGroup, cfg)
  {
    var cited, current := Cited(ref, at, citedIn, cfg), at + 1;
    var n, limit := HeavierDecay(ref, cited, currentGroup, cfg);
    var tokens := map[current := n];
    LoneTokens(tokens, ref.lastRefAtStep.value + 1, current);
    LoneTokens(tokens, at + 1, current);
    var t := ThresholdConfig(limit, limit, limit, limit, limit, limit, limit);
    assert PassTarget(ref, User, tokens, current, currentGroup, cfg, t) == 0;
    assert PassTarget(cited, User, tokens, current, currentGroup, cfg, t) == 2;
  }

  lemma {:induction false} LoneTokens(tokens: map<int, nat>, first: int, last: int)
    requires first <= last
    requires tokens.Keys == {last}
    ensures SumTokens(tokens, first, last) == tokens[last]
    decreases last - first
  {
    if first < last {
      LoneTokens(tokens, first + 1, last);
    } else {
      assert SumTokens(tokens, last + 1, last) == 0;
    }
  }
}
