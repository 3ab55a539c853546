/** Access policies: what one decides, and what merging several of them means. */
module AccessPolicy {
  import opened Wrappers

  // ---------------------------------------------------------------- policies

  /** A risk level is a name; names other than the four known ones rank lowest. */
  datatype Policy = Policy(allowed: seq<string>, denied: seq<string>, maxRisk: string, requireApproval: bool)

  function RiskOrder(risk: string): nat {
    if risk == "low" then 1 else if risk == "medium" then 2 else if risk == "high" then 3 else 0
  }

  predicate RiskExceeds(a: string, b: string) {
    RiskOrder(a) > RiskOrder(b)
  }

  /** The known levels are in strict order, and a name that is not known ranks
      with `none`. */
  lemma RiskLevelsOrdered(risk: string)
    ensures RiskExceeds("high", "medium") && RiskExceeds("medium", "low") && RiskExceeds("low", "none")
    ensures risk !in {"low", "medium", "high"} ==> !RiskExceeds(risk, "none") && !RiskExceeds("none", risk)
  {
  }

  datatype Status = Approved | Denied | Pending | Allowed

  datatype Reason = OnDeniedList | OnAllowedList | TooRisky | HandlerReason(text: string)

  datatype Decision = Decision(status: Status, approved: bool, reason: Reason, handler: string, policyOverride: bool)

  function PolicyDecision(status: Status, reason: Reason): Decision {
    Decision(status, status == Approved, reason, "", true)
  }

  function Evaluate(policy: Policy, capability: string, risk: string): Option<Decision> {
    if capability in policy.denied then Some(PolicyDecision(Denied, OnDeniedList))
    else if capability in policy.allowed then Some(PolicyDecision(Approved, OnAllowedList))
    else if policy.maxRisk != "" && RiskExceeds(risk, policy.maxRisk) then Some(PolicyDecision(Denied, TooRisky))
    else None
  }

  method EvaluatePolicy(policy: Option<Policy>, capability: string, risk: string) returns (decision: Option<Decision>)
    ensures decision == if policy.None? then None else Evaluate(policy.value, capability, risk)
  {
    if policy.None? {
      return None;
    }
    var p := policy.value;
    for i := 0 to |p.denied|
      invariant forall j | 0 <= j < i :: p.denied[j] != capability
    {
      if p.denied[i] == capability {
        return Some(PolicyDecision(Denied, OnDeniedList));
      }
    }
    for i := 0 to |p.allowed|
      invariant forall j | 0 <= j < i :: p.allowed[j] != capability
    {
      if p.allowed[i] == capability {
        return Some(PolicyDecision(Approved, OnAllowedList));
      }
    }
    if p.maxRisk != "" && RiskExceeds(risk, p.maxRisk) {
      return Some(PolicyDecision(Denied, TooRisky));
    }
    return None;
  }

  predicate Approves(policy: Policy, capability: string, risk: string) {
    var decision := Evaluate(policy, capability, risk);
    decision.Some? && decision.value.status == Approved
  }

  predicate Denies(policy: Policy, capability: string, risk: string) {
    var decision := Evaluate(policy, capability, risk);
    decision.Some? && decision.value.status == Denied
  }

  /** What one policy decides, read off its lists: a capability on the denied list is
      denied, else one on the allowed list is approved, else a risk above the level that
      is set is denied, and nothing is decided otherwise. */
  lemma EvaluationIs(policy: Policy, capability: string, risk: string)
    ensures Approves(policy, capability, risk) <==> capability in policy.allowed && capability !in policy.denied
    ensures Denies(policy, capability, risk) <==>
            || capability in policy.denied
            || (capability !in policy.allowed && policy.maxRisk != "" && RiskOrder(risk) > RiskOrder(policy.maxRisk))
    ensures var decision := Evaluate(policy, capability, risk);
            && (decision.None? <==> !Approves(policy, capability, risk) && !Denies(policy, capability, risk))
            && (decision.Some? ==> decision.value.approved == Approves(policy, capability, risk)
                                   && decision.value.policyOverride && decision.value.handler == ""
                                   && (decision.value.reason == TooRisky <==>
                                         capability !in policy.denied && capability !in policy.allowed))
  {
  }

  // ------------------------------------------------- what a merge has to be

  /** `policy` is one of the given ones; the nil ones are passed over. */
  predicate Among(policies: seq<Option<Policy>>, policy: Policy) {
    Some(policy) in policies
  }

  ghost predicate SomeDenyList(policies: seq<Option<Policy>>, capability: string) {
    exists p :: Among(policies, p) && capability in p.denied
  }

  ghost predicate AnyPolicy(policies: seq<Option<Policy>>) {
    exists p :: Among(policies, p)
  }

  ghost predicate EveryAllowList(policies: seq<Option<Policy>>, capability: string) {
    AnyPolicy(policies) && forall p | Among(policies, p) :: capability in p.allowed
  }

  /** `risk` is a strictest of the levels that are set, or "" if none is. */
  ghost predicate Strictest(policies: seq<Option<Policy>>, risk: string) {
    && (risk != "" ==> exists p :: Among(policies, p) && p.maxRisk == risk)
    && forall p | Among(policies, p) && p.maxRisk != "" :: risk != "" && RiskOrder(risk) <= RiskOrder(p.maxRisk)
  }

  /** The lists of a merged policy come in no particular order. */
  ghost predicate IsMerge(policies: seq<Option<Policy>>, merged: Policy) {
    && (forall c :: c in merged.denied <==> SomeDenyList(policies, c))
    && (forall c :: c in merged.allowed <==> EveryAllowList(policies, c))
    && Strictest(policies, merged.maxRisk)
    && (merged.requireApproval <==> exists p :: Among(policies, p) && p.requireApproval)
  }

  // -------------------------------------------------------- what merging means

  /** What a list of policies decides together, read off the lists alone. */
  ghost function Decide(policies: seq<Option<Policy>>, capability: string, risk: string): Option<Decision> {
    if SomeDenyList(policies, capability) then Some(PolicyDecision(Denied, OnDeniedList))
    else if EveryAllowList(policies, capability) then Some(PolicyDecision(Approved, OnAllowedList))
    else if exists p :: Among(policies, p) && p.maxRisk != "" && RiskExceeds(risk, p.maxRisk) then
      Some(PolicyDecision(Denied, TooRisky))
    else None
  }

  lemma MergedDecides(policies: seq<Option<Policy>>, merged: Policy, capability: string, risk: string)
    requires IsMerge(policies, merged)
    ensures Evaluate(merged, capability, risk) == Decide(policies, capability, risk)
  {
    if merged.maxRisk != "" && RiskExceeds(risk, merged.maxRisk) {
      var strict :| Among(policies, strict) && strict.maxRisk == merged.maxRisk;
    }
  }

  /** The merged policy approves exactly what every given policy approves. */
  lemma MergedApprovesIff(policies: seq<Option<Policy>>, merged: Policy, capability: string, risk: string)
    requires IsMerge(policies, merged)
    ensures Approves(merged, capability, risk) <==>
            AnyPolicy(policies) && forall p | Among(policies, p) :: Approves(p, capability, risk)
  {
    if Approves(merged, capability, risk) {
      forall p | Among(policies, p) ensures Approves(p, capability, risk) {
        assert capability !in p.denied;
      }
    } else if AnyPolicy(policies) && forall p | Among(policies, p) :: Approves(p, capability, risk) {
      assert EveryAllowList(policies, capability);
      assert SomeDenyList(policies, capability);
    }
  }

  /** It denies whatever any of them denies. */
  lemma MergedDenies(policies: seq<Option<Policy>>, merged: Policy, capability: string, risk: string)
    requires IsMerge(policies, merged)
    requires exists p :: Among(policies, p) && Denies(p, capability, risk)
    ensures Denies(merged, capability, risk)
  {
    var p :| Among(policies, p) && Denies(p, capability, risk);
    if capability in p.denied {
      assert SomeDenyList(policies, capability);
    } else {
      assert !EveryAllowList(policies, capability);
    }
  }

  /** It denies, exactly, a capability on some denied list, and one that some
      policy does not allow when the risk exceeds a level that some policy
      (perhaps another one) sets. */
  lemma MergedDeniesIff(policies: seq<Option<Policy>>, merged: Policy, capability: string, risk: string)
    requires IsMerge(policies, merged)
    ensures Denies(merged, capability, risk) <==>
            SomeDenyList(policies, capability)
            || (&& (exists p :: Among(policies, p) && capability !in p.allowed)
                && exists p :: Among(policies, p) && p.maxRisk != "" && RiskExceeds(risk, p.maxRisk))
  {
    if Denies(merged, capability, risk) && !SomeDenyList(policies, capability) {
      var strict :| Among(policies, strict) && strict.maxRisk == merged.maxRisk;
      assert AnyPolicy(policies);
    }
  }

  const ALLOWS_LOW_RISK := Policy(["run"], [], "low", false)
  const SAYS_NOTHING := Policy([], [], "", false)

  /** So it can deny what none of them denies: one policy allows the capability
      and caps the risk, the other says nothing about either. */
  lemma MergedDeniesMore(merged: Policy)
    requires IsMerge([Some(ALLOWS_LOW_RISK), Some(SAYS_NOTHING)], merged)
    ensures Approves(ALLOWS_LOW_RISK, "run", "high") && Evaluate(SAYS_NOTHING, "run", "high").None?
    ensures Denies(merged, "run", "high")
  {
    var policies := [Some(ALLOWS_LOW_RISK), Some(SAYS_NOTHING)];
    assert Among(policies, ALLOWS_LOW_RISK) && Among(policies, SAYS_NOTHING);
    MergedDeniesIff(policies, merged, "run", "high");
  }

  /** The order and the number of occurrences of the policies do not matter. */
  lemma MergeOrderIrrelevant(ps: seq<Option<Policy>>, qs: seq<Option<Policy>>, a: Policy, b: Policy,
                             capability: string, risk: string)
    requires IsMerge(ps, a) && IsMerge(qs, b)
    requires forall p :: Among(ps, p) <==> Among(qs, p)
    ensures Evaluate(a, capability, risk) == Evaluate(b, capability, risk)
  {
    assert capability in a.denied <==> SomeDenyList(qs, capability);
    assert capability in a.allowed <==> EveryAllowList(qs, capability);
    if a.maxRisk != "" {
      var p :| Among(ps, p) && p.maxRisk == a.maxRisk;
    }
    if b.maxRisk != "" {
      var p :| Among(qs, p) && p.maxRisk == b.maxRisk;
    }
  }

  /** Merging in stages decides as merging at once, provided neither stage is
      without a policy (the merge of no policies allows nothing, and would take
      every capability off the allowed list). */
  lemma MergeInStages(ps: seq<Option<Policy>>, qs: seq<Option<Policy>>, a: Policy, b: Policy, staged: Policy,
                      merged: Policy, capability: string, risk: string)
    requires IsMerge(ps, a) && IsMerge(qs, b) && IsMerge([Some(a), Some(b)], staged) && IsMerge(ps + qs, merged)
    requires AnyPolicy(ps) && AnyPolicy(qs)
    ensures Evaluate(staged, capability, risk) == Evaluate(merged, capability, risk)
  {
    forall p ensures Among(ps + qs, p) <==> Among(ps, p) || Among(qs, p) {
    }
    assert Among([Some(a), Some(b)], a) && Among([Some(a), Some(b)], b);
    StagedLists(ps, qs, a, b, staged, merged, capability);
    StagedRisk(ps, qs, a, b, staged, merged);
  }

  lemma StagedLists(ps: seq<Option<Policy>>, qs: seq<Option<Policy>>, a: Policy, b: Policy, staged: Policy,
                    merged: Policy, capability: string)
    requires IsMerge(ps, a) && IsMerge(qs, b) && IsMerge([Some(a), Some(b)], staged) && IsMerge(ps + qs, merged)
    requires AnyPolicy(ps) && AnyPolicy(qs)
    requires forall p :: Among(ps + qs, p) <==> Among(ps, p) || Among(qs, p)
    ensures capability in staged.denied <==> capability in merged.denied
    ensures capability in staged.allowed <==> capability in merged.allowed
  {
    var both := [Some(a), Some(b)];
    assert Among(both, a) && Among(both, b);
    assert SomeDenyList(both, capability) <==> SomeDenyList(ps, capability) || SomeDenyList(qs, capability);
    assert EveryAllowList(both, capability) <==> EveryAllowList(ps, capability) && EveryAllowList(qs, capability);
  }

  lemma StagedRisk(ps: seq<Option<Policy>>, qs: seq<Option<Policy>>, a: Policy, b: Policy, staged: Policy,
                   merged: Policy)
    requires IsMerge(ps, a) && IsMerge(qs, b) && IsMerge([Some(a), Some(b)], staged) && IsMerge(ps + qs, merged)
    requires forall p :: Among(ps + qs, p) <==> Among(ps, p) || Among(qs, p)
    ensures (staged.maxRisk == "") == (merged.maxRisk == "")
    ensures RiskOrder(staged.maxRisk) == RiskOrder(merged.maxRisk)
  {
    var both := [Some(a), Some(b)];
    assert Among(both, a) && Among(both, b);
    if merged.maxRisk != "" {
      var p :| Among(ps + qs, p) && p.maxRisk == merged.maxRisk;
      assert RiskOrder(staged.maxRisk) <= RiskOrder(merged.maxRisk);
    }
    if staged.maxRisk != "" {
      var p :| Among(both, p) && p.maxRisk == staged.maxRisk;
      var q :| Among(ps + qs, q) && q.maxRisk == staged.maxRisk;
    }
  }

  // ------------------------------------------------------------ the merge code

  lemma PrefixAmong(policies: seq<Option<Policy>>, n: nat)
    requires n < |policies|
    ensures forall p :: Among(policies[..n + 1], p) <==> Among(policies[..n], p) || policies[n] == Some(p)
  {
    assert policies[..n + 1] == policies[..n] + [policies[n]];
  }

  /** The keys of a Go map, in whatever order the iteration takes them. */
  method Listed(keys: set<string>) returns (list: seq<string>)
    ensures forall k :: k in list <==> k in keys
    ensures forall i, j | 0 <= i < j < |list| :: list[i] != list[j]
  {
    list := [];
    var left := keys;
    while left != {}
      invariant left <= keys
      invariant forall k :: k in list <==> k in keys && k !in left
      invariant forall i, j | 0 <= i < j < |list| :: list[i] != list[j]
    {
      var k :| k in left;
      list := list + [k];
      left := left - {k};
    }
  }

  method AddAll(keys: set<string>, list: seq<string>) returns (all: set<string>)
    ensures forall k :: k in all <==> k in keys || k in list
  {
    all := keys;
    for i := 0 to |list|
      invariant forall k :: k in all <==> k in keys || k in list[..i]
    {
      all := all + {list[i]};
    }
    assert list[..|list|] == list;
  }

  method Intersect(keys: set<string>, list: seq<string>) returns (kept: set<string>)
    ensures forall k :: k in kept <==> k in keys && k in list
  {
    kept := keys;
    var left := keys;
    while left != {}
      invariant left <= keys
      invariant forall k :: k in kept <==> k in keys && (k in left || k in list)
    {
      var k :| k in left;
      left := left - {k};
      var found := false;
      for i := 0 to |list|
        invariant !found && k !in list[..i]
      {
        if list[i] == k {
          found := true;
          break;
        }
      }
      if !found {
        assert list[..|list|] == list;
        kept := kept - {k};
      }
    }
  }

  /** What the loop has gathered from the policies so far. */
  ghost predicate Gathered(seen: seq<Option<Policy>>, denied: set<string>, allowed: set<string>, maxRisk: string,
                           requireApproval: bool)
  {
    && (forall c :: c in denied <==> SomeDenyList(seen, c))
    && (forall c :: c in allowed <==> EveryAllowList(seen, c))
    && Strictest(seen, maxRisk)
    && (requireApproval <==> exists p :: Among(seen, p) && p.requireApproval)
  }

  lemma GatheredNil(seen: seq<Option<Policy>>, more: seq<Option<Policy>>, denied: set<string>, allowed: set<string>,
                    maxRisk: string, requireApproval: bool)
    requires Gathered(seen, denied, allowed, maxRisk, requireApproval)
    requires forall p :: Among(more, p) <==> Among(seen, p)
    ensures Gathered(more, denied, allowed, maxRisk, requireApproval)
  {
    forall c ensures c in denied <==> SomeDenyList(more, c) {
      assert SomeDenyList(seen, c) <==> SomeDenyList(more, c);
    }
    forall c ensures c in allowed <==> EveryAllowList(more, c) {
      assert EveryAllowList(seen, c) <==> EveryAllowList(more, c);
    }
    if maxRisk != "" {
      var p :| Among(seen, p) && p.maxRisk == maxRisk;
      assert Among(more, p);
    }
  }

  ghost predicate Adds(seen: seq<Option<Policy>>, more: seq<Option<Policy>>, p: Policy) {
    forall q :: Among(more, q) <==> Among(seen, q) || q == p
  }

  lemma DenyListGrows(seen: seq<Option<Policy>>, more: seq<Option<Policy>>, p: Policy, c: string)
    requires Adds(seen, more, p)
    ensures SomeDenyList(more, c) <==> SomeDenyList(seen, c) || c in p.denied
  {
    assert Among(more, p);
  }

  lemma AllowListShrinks(seen: seq<Option<Policy>>, more: seq<Option<Policy>>, p: Policy, c: string)
    requires Adds(seen, more, p)
    ensures EveryAllowList(more, c) <==> (!AnyPolicy(seen) || EveryAllowList(seen, c)) && c in p.allowed
  {
    assert Among(more, p);
  }

  lemma StrictestOf(seen: seq<Option<Policy>>, more: seq<Option<Policy>>, p: Policy, before: string, after: string)
    requires Adds(seen, more, p) && Strictest(seen, before)
    requires after == if p.maxRisk != "" && (before == "" || RiskExceeds(before, p.maxRisk)) then p.maxRisk else before
    ensures Strictest(more, after)
  {
    assert Among(more, p);
    if after != "" && after != p.maxRisk {
      var q :| Among(seen, q) && q.maxRisk == after;
      assert Among(more, q);
    }
  }

  lemma ApprovalRequired(seen: seq<Option<Policy>>, more: seq<Option<Policy>>, p: Policy)
    requires Adds(seen, more, p)
    ensures (exists q :: Among(more, q) && q.requireApproval) <==>
            (exists q :: Among(seen, q) && q.requireApproval) || p.requireApproval
  {
    assert Among(more, p);
  }

  method MergePolicies(policies: seq<Option<Policy>>) returns (merged: Option<Policy>)
    ensures merged.None? <==> policies == []
    ensures merged.Some? ==> IsMerge(policies, merged.value)
  {
    if |policies| == 0 {
      return None;
    }
    var deniedSet, allowedSet, maxRisk, requireApproval, first := {}, {}, "", false, true;
    for i := 0 to |policies|
      invariant first <==> !AnyPolicy(policies[..i])
      invariant Gathered(policies[..i], deniedSet, allowedSet, maxRisk, requireApproval)
    {
      ghost var seen, more := policies[..i], policies[..i + 1];
      PrefixAmong(policies, i);
      if policies[i].None? {
        GatheredNil(seen, more, deniedSet, allowedSet, maxRisk, requireApproval);
        continue;
      }
      var p := policies[i].value;
      ghost var before := maxRisk;
      deniedSet := AddAll(deniedSet, p.denied);
      if first {
        allowedSet := AddAll(allowedSet, p.allowed);
        first := false;
      } else {
        allowedSet := Intersect(allowedSet, p.allowed);
      }
      if p.maxRisk != "" && (maxRisk == "" || RiskExceeds(maxRisk, p.maxRisk)) {
        maxRisk := p.maxRisk;
      }
      if p.requireApproval {
        requireApproval := true;
      }
      assert Adds(seen, more, p) && Among(more, p);
      forall c ensures c in deniedSet <==> SomeDenyList(more, c) {
        DenyListGrows(seen, more, p, c);
      }
      forall c ensures c in allowedSet <==> EveryAllowList(more, c) {
        AllowListShrinks(seen, more, p, c);
      }
      StrictestOf(seen, more, p, before, maxRisk);
      ApprovalRequired(seen, more, p);
    }
    assert policies[..|policies|] == policies;
    var denied := Listed(deniedSet);
    var allowed := Listed(allowedSet);
    merged := Some(Policy(allowed, denied, maxRisk, requireApproval));
  }
}
