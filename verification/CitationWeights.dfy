/** When a citation can raise the level of the step it cites: the exact conditions,
    in the fields of the record and the coefficients. */
module CitationWeights {
  import opened Wrappers
  import opened Records
  import opened Reals
  import opened Decay

  // --------------------------------------------------- the weight of one token

  /** What a record divides the pressure by, */
  function Relief(ref: RefRecord, cfg: DecayConfig): real
    requires NonNegative(cfg)
  {
    Times(1.0 + Times(ref.refCount as real, Filled(cfg).refModWeight), Strength(ref.strength, Filled(cfg).strengthDivisor))
  }

  /** and what it multiplies it by. */
  function Push(ref: RefRecord, currentGroup: int, cfg: DecayConfig): real
    requires NonNegative(cfg)
  {
    Times(CrossGroupMod(ref.taskGroupId, currentGroup, ref.crossGroupRefs, cfg.group), HeatMod(ref.heat, cfg.heat))
  }

  lemma EffectiveWeight(t: DecayTrace, discount: real)
    requires discount > 0.0 && t.strength > 0.0
    requires t.rawDecay == 1.0 && t.fileMod == 1.0 && t.refMod == Over(1.0, discount)
    ensures Times(Effective(t), Times(discount, t.strength)) == Times(t.rawBase, Times(t.groupMod, t.heatMod))
  {
    TimesOne(t.rawBase);
    var x := Times(t.rawBase, t.refMod);
    TimesOne(x);
    var y, m := Over(x, t.strength), Times(t.groupMod, t.heatMod);
    TimesAssociates(y, t.groupMod, t.heatMod);
    assert Effective(t) == Times(y, m);
    assert Times(Times(y, m), Times(discount, t.strength)) == Times(Times(Times(y, t.strength), discount), m) by {
      TimesSwaps(y, m, Times(discount, t.strength));
      TimesCommutes(discount, t.strength);
      TimesAssociates(y, t.strength, discount);
    }
    OverTimes(x, t.strength);
    assert Times(x, discount) == t.rawBase by {
      TimesAssociates(t.rawBase, t.refMod, discount);
      OverTimes(1.0, discount);
    }
  }

  lemma PerTokenWeight(ref: RefRecord, currentGroup: int, cfg: DecayConfig)
    requires NonNegative(cfg)
    ensures Relief(ref, cfg) > 0.0
    ensures Times(PerToken(ref, currentGroup, cfg), Relief(ref, cfg)) ==
            Times(Filled(cfg).rawDecayBase, Push(ref, currentGroup, cfg))
  {
    EffectiveWeight(Trace(ref, 1, false, currentGroup, cfg), 1.0 + Times(ref.refCount as real, Filled(cfg).refModWeight));
  }

  /** The citation does not weigh more: its heat and group factors, over the
      references and the strength it adds. */
  predicate NoHeavier(ref: RefRecord, at: int, citedIn: int, currentGroup: int, cfg: DecayConfig)
    requires NonNegative(cfg)
  {
    var cited := Cited(ref, at, citedIn, cfg);
    Times(Push(cited, currentGroup, cfg), Relief(ref, cfg)) <= Times(Push(ref, currentGroup, cfg), Relief(cited, cfg))
  }

  lemma NoHeavierIff(ref: RefRecord, at: int, citedIn: int, currentGroup: int, cfg: DecayConfig)
    requires NonNegative(cfg)
    ensures NoHeavier(ref, at, citedIn, currentGroup, cfg) <==>
            PerToken(Cited(ref, at, citedIn, cfg), currentGroup, cfg) <= PerToken(ref, currentGroup, cfg)
  {
    var cited := Cited(ref, at, citedIn, cfg);
    PerTokenWeight(ref, currentGroup, cfg);
    PerTokenWeight(cited, currentGroup, cfg);
    CrossOrder(Filled(cfg).rawDecayBase, PerToken(ref, currentGroup, cfg), PerToken(cited, currentGroup, cfg),
               Relief(ref, cfg), Relief(cited, cfg), Push(ref, currentGroup, cfg), Push(cited, currentGroup, cfg));
  }

  /** For a record that was cited or expanded before: citing it again raises its
      level in no pass if and only if it is no heavier. */
  lemma NeverRaisesIff(ref: RefRecord, at: int, citedIn: int, currentGroup: int, cfg: DecayConfig)
    requires NonNegative(cfg) && ref.lastRefAtStep.Some? && ref.lastRefAtStep.value <= at
    ensures NeverRaises(ref, at, citedIn, currentGroup, cfg) <==> NoHeavier(ref, at, citedIn, currentGroup, cfg)
  {
    NeverRaisesIffLighter(ref, at, citedIn, currentGroup, cfg);
    NoHeavierIff(ref, at, citedIn, currentGroup, cfg);
  }

  // ---------------------------------------------------------- records without heat

  /** The heat of a record that had none, once cited. */
  function FirstHeat(cfg: DecayConfig): int {
    if !cfg.heat.enabled then 0
    else if FilledHeat(cfg.heat).recallBoost > 100 then 100
    else FilledHeat(cfg.heat).recallBoost
  }

  /** Within its own task group a record without heat, of `n` references and
      strength `s`, is no heavier once cited, in closed form. */
  predicate FirstHeatAllowed(n: nat, s: real, cfg: DecayConfig)
    requires NonNegative(cfg)
  {
    var w, d := Filled(cfg).refModWeight, Filled(cfg).strengthDivisor;
    Times(HeatMod(FirstHeat(cfg), cfg.heat), Times(1.0 + Times(n as real, w), Strength(s, d)))
      <= Times(1.0 + Times((n + 1) as real, w), Strength(s + 0.1, d))
  }

  lemma HeatlessNoHeavierIff(ref: RefRecord, at: int, cfg: DecayConfig)
    requires NonNegative(cfg) && ref.heat == 0
    ensures NoHeavier(ref, at, ref.taskGroupId, ref.taskGroupId, cfg) <==> FirstHeatAllowed(ref.refCount, ref.strength, cfg)
  {
    var g, cited := ref.taskGroupId, Cited(ref, at, ref.taskGroupId, cfg);
    assert cited.heat == FirstHeat(cfg) && cited.refCount == ref.refCount + 1 && cited.strength == ref.strength + 0.1;
    assert CrossGroupMod(g, g, ref.crossGroupRefs, cfg.group) == 1.0 && CrossGroupMod(g, g, cited.crossGroupRefs, cfg.group) == 1.0;
    assert HeatMod(0, cfg.heat) == 1.0;
    TimesOne(HeatMod(cited.heat, cfg.heat));
    TimesOne(1.0);
    TimesOne(Relief(cited, cfg));
  }

  /** For a record that was expanded but never cited, which has no heat: its first
      citation raises its level in no pass exactly if the first heat is allowed. */
  lemma HeatlessNeverRaisesIff(ref: RefRecord, at: int, cfg: DecayConfig)
    requires NonNegative(cfg) && ref.heat == 0 && ref.lastRefAtStep.Some? && ref.lastRefAtStep.value <= at
    ensures NeverRaises(ref, at, ref.taskGroupId, ref.taskGroupId, cfg) <==>
            FirstHeatAllowed(ref.refCount, ref.strength, cfg)
  {
    NeverRaisesIff(ref, at, ref.taskGroupId, ref.taskGroupId, cfg);
    HeatlessNoHeavierIff(ref, at, cfg);
  }

  // ------------------------------------------------------------ first citations

  /** The record as ingestion leaves it, but for its level and its marks. */
  predicate AsIngested(ref: RefRecord) {
    ref.lastRefAtStep.None? && ref.refCount == 0 && ref.strength == 1.0 && ref.heat == 0 && ref.crossGroupRefs == 0
  }

  /** The citation raises the level in no pass made when `current` is ingested. */
  ghost predicate NeverRaisesPass(ref: RefRecord, at: int, group: int, current: int, cfg: DecayConfig)
    requires NonNegative(cfg)
  {
    forall kind, tokens, t ::
      PassTarget(Cited(ref, at, group, cfg), kind, tokens, current, group, cfg, t)
      <= PassTarget(ref, kind, tokens, current, group, cfg, t)
  }

  /** The first citation of a step as ingested: for the passes after it, exactly, it
      can raise every one but the very next, and that one too unless the first
      heat is allowed. */
  lemma FirstCitationIff(ref: RefRecord, at: int, current: int, cfg: DecayConfig)
    requires NonNegative(cfg) && AsIngested(ref) && current > at
    ensures NeverRaisesPass(ref, at, ref.taskGroupId, current, cfg) <==>
            current == at + 1 && FirstHeatAllowed(0, 1.0, cfg)
  {
    var g := ref.taskGroupId;
    NoHeavierIff(ref, at, g, g, cfg);
    HeatlessNoHeavierIff(ref, at, cfg);
    if current > at + 1 {
      LaterPassRaised(ref, at, current, cfg);
    } else if FirstHeatAllowed(0, 1.0, cfg) {
      forall kind, tokens, t
        ensures PassTarget(Cited(ref, at, g, cfg), kind, tokens, current, g, cfg, t)
             <= PassTarget(ref, kind, tokens, current, g, cfg, t)
      {
        NextPassKept(ref, at, kind, tokens, cfg, t);
      }
    } else {
      NextPassRaised(ref, at, cfg);
    }
  }

  lemma NextPassKept(ref: RefRecord, at: int, kind: StepType, tokens: map<int, nat>, cfg: DecayConfig,
                     t: ThresholdConfig)
    requires NonNegative(cfg) && ref.lastRefAtStep.None?
    requires PerToken(Cited(ref, at, ref.taskGroupId, cfg), ref.taskGroupId, cfg) <= PerToken(ref, ref.taskGroupId, cfg)
    ensures PassTarget(Cited(ref, at, ref.taskGroupId, cfg), kind, tokens, at + 1, ref.taskGroupId, cfg, t)
         <= PassTarget(ref, kind, tokens, at + 1, ref.taskGroupId, cfg, t)
  {
    var g, cited, raw := ref.taskGroupId, Cited(ref, at, ref.taskGroupId, cfg), RawDecay(ref, tokens, at + 1);
    LighterDecay(cited, ref, raw, raw, g, cfg);
    TargetMonotone(ComputeDecay(cited, raw, false, g, cfg), ComputeDecay(ref, raw, false, g, cfg), kind, t);
  }

  lemma NextPassRaised(ref: RefRecord, at: int, cfg: DecayConfig)
    requires NonNegative(cfg) && ref.lastRefAtStep.None?
    requires PerToken(Cited(ref, at, ref.taskGroupId, cfg), ref.taskGroupId, cfg) > PerToken(ref, ref.taskGroupId, cfg)
    ensures !NeverRaisesPass(ref, at, ref.taskGroupId, at + 1, cfg)
  {
    var g, cited := ref.taskGroupId, Cited(ref, at, ref.taskGroupId, cfg);
    var n, limit := HeavierDecay(ref, cited, g, cfg);
    var tokens := map[at + 1 := n];
    LoneTokens(tokens, at + 1, at + 1);
    var t := ThresholdConfig(limit, limit, limit, limit, limit, limit, limit);
    assert PassTarget(ref, User, tokens, at + 1, g, cfg, t) == 0;
    assert PassTarget(cited, User, tokens, at + 1, g, cfg, t) == 2;
  }

  lemma PerTokenPositive(ref: RefRecord, currentGroup: int, cfg: DecayConfig)
    requires NonNegative(cfg)
    ensures PerToken(ref, currentGroup, cfg) > 0.0
  {
    PerTokenWeight(ref, currentGroup, cfg);
    GroupModFalls(ref.taskGroupId, currentGroup, ref.crossGroupRefs, ref.crossGroupRefs, cfg.group);
    assert Times(Filled(cfg).rawDecayBase, Push(ref, currentGroup, cfg)) > 0.0;
    TimesOrder(PerToken(ref, currentGroup, cfg), 0.0, Relief(ref, cfg));
    TimesOne(Relief(ref, cfg));
  }

  lemma LaterPassRaised(ref: RefRecord, at: int, current: int, cfg: DecayConfig)
    requires NonNegative(cfg) && ref.lastRefAtStep.None? && current > at + 1
    ensures !NeverRaisesPass(ref, at, ref.taskGroupId, current, cfg)
  {
    var g, cited := ref.taskGroupId, Cited(ref, at, ref.taskGroupId, cfg);
    PerTokenPositive(cited, g, cfg);
    var n, limit := ThresholdBetween(0.0, PerToken(cited, g, cfg));
    var tokens := map[current - 1 := n];
    OneBeforeLast(tokens, at + 1, current);
    DecayScales(cited, n, g, cfg);
    DecayScales(ref, 0, g, cfg);
    TimesOne(PerToken(ref, g, cfg));
    var t := ThresholdConfig(limit, limit, limit, limit, limit, limit, limit);
    assert RawDecay(ref, tokens, current) == 0 && RawDecay(cited, tokens, current) == n;
    assert PassTarget(ref, User, tokens, current, g, cfg, t) == 0;
    assert PassTarget(cited, User, tokens, current, g, cfg, t) == 2;
  }

  lemma {:induction false} OneBeforeLast(tokens: map<int, nat>, first: int, last: int)
    requires first < last
    requires tokens.Keys == {last - 1}
    ensures SumTokens(tokens, first, last) == tokens[last - 1] && SumTokens(tokens, last, last) == 0
    decreases last - first
  {
    assert SumTokens(tokens, last + 1, last) == 0;
    assert last !in tokens.Keys;
    if first < last - 1 {
      OneBeforeLast(tokens, first + 1, last);
    }
  }

  lemma FirstHeatOfDefaults(n: nat, s: real, w: real)
    requires w > 0.0 && s >= 0.1
    ensures NonNegative(DEFAULTS.(refModWeight := w))
    ensures FirstHeatAllowed(n, s, DEFAULTS.(refModWeight := w)) <==>
            Times(1.3, Times(1.0 + Times(n as real, w), s)) <= Times(1.0 + Times((n + 1) as real, w), s + 0.1)
  {
    OverIs(s, 1.0, s);
    OverIs(s + 0.1, 1.0, s + 0.1);
    TimesOne(s);
    TimesOne(s + 0.1);
    assert HeatMod(20, DEFAULTS.heat) == 1.3;
  }

  /** The default coefficients allow the first heat of a step as ingested (1.3
      against 1.2 times 1.1), but not that of a step that was expanded before; and
      a smaller weight of the references does not allow even the former. */
  lemma DefaultsAllowFirstHeat()
    ensures NonNegative(DEFAULTS) && NonNegative(DEFAULTS.(refModWeight := 0.05))
    ensures FirstHeatAllowed(0, 1.0, DEFAULTS)
    ensures !FirstHeatAllowed(1, 1.1, DEFAULTS)
    ensures !FirstHeatAllowed(0, 1.0, DEFAULTS.(refModWeight := 0.05))
  {
    assert DEFAULTS.(refModWeight := 0.2) == DEFAULTS;
    FirstHeatOfDefaults(0, 1.0, 0.2);
    FirstHeatOfDefaults(1, 1.1, 0.2);
    FirstHeatOfDefaults(0, 1.0, 0.05);
  }
}
