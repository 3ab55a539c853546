/** The approval manager: a global policy, handlers, and records of requests that
    wait for somebody to resolve them. */
module ApprovalManager {
  import opened Wrappers
  import opened Decimals
  import opened AccessPolicy

  datatype Request = Request(requestId: string, source: string, capability: string, subject: string, risk: string,
                             policy: Option<Policy>)

  /** A handler is its name and what it answers; it may fail. */
  datatype Handler = Handler(name: string, resolve: Request -> Result<Decision, string>)

  datatype Error =
    | HandlerNotFound(name: string)
    | HandlerExists(name: string)
    | NoDefaultHandler
    | RecordNotFound(id: string)
    | AlreadyResolved(status: Status)
    | HandlerFailed(text: string)

  /** A record as a value; a record that is not stored has the empty id. */
  datatype Entry = Entry(id: string, request: Request, status: Status, approver: string)

  datatype State = State(policy: Option<Policy>, handlers: map<string, Handler>, fallback: string,
                         records: map<string, Entry>, seqno: nat)

  // -------------------------------------------------------------- record ids

  function RecordId(n: nat): string {
    "approval_" + Decimal(n)
  }

  lemma RecordIdInjective(m: nat, n: nat)
    requires RecordId(m) == RecordId(n)
    ensures m == n
  {
    assert RecordId(m)[9..] == Decimal(m) && RecordId(n)[9..] == Decimal(n);
    DecimalInjective(m, n);
  }

  // ----------------------------------------------------- the steps on values

  /** What the global and the per-request policy decide together. */
  ghost function Verdict(global: Option<Policy>, req: Request): Option<Decision> {
    Decide([global, req.policy], req.capability, req.risk)
  }

  ghost function Resolved(s: State, req: Request, handlerName: string): Result<Decision, Error> {
    var name := if handlerName == "" then s.fallback else handlerName;
    if name == "" then Failure(NoDefaultHandler)
    else if name !in s.handlers then Failure(HandlerNotFound(name))
    else
      match Verdict(s.policy, req)
      case Some(decision) => Success(decision.(handler := name))
      case None => Answer(s.handlers[name], req)
  }

  function Answer(handler: Handler, req: Request): Result<Decision, Error> {
    match handler.resolve(req)
    case Success(decision) => Success(decision)
    case Failure(text) => Failure(HandlerFailed(text))
  }

  function Stored(s: State, req: Request): (State, Result<Entry, Error>) {
    var record := Entry(RecordId(s.seqno + 1), req, Pending, "");
    (s.(records := s.records[record.id := record], seqno := s.seqno + 1), Success(record))
  }

  ghost function Submitted(s: State, req: Request): (State, Result<Entry, Error>) {
    match Verdict(s.policy, req)
    case Some(decision) => (s, Success(Entry("", req, decision.status, "")))
    case None =>
      if s.fallback !in s.handlers then Stored(s, req)
      else
        match Answer(s.handlers[s.fallback], req)
        case Failure(e) => (s, Failure(e))
        case Success(decision) =>
          if decision.status == Pending then Stored(s, req)
          else (s, Success(Entry("", req, decision.status, "")))
  }

  function Settled(entry: Entry, approved: bool, approver: string): Entry {
    entry.(status := if approved then Approved else Denied, approver := approver)
  }

  function RecordResolved(s: State, id: string, approved: bool, approver: string): (State, Result<Entry, Error>) {
    if id !in s.records then (s, Failure(RecordNotFound(id)))
    else if s.records[id].status != Pending then (s, Failure(AlreadyResolved(s.records[id].status)))
    else
      var record := Settled(s.records[id], approved, approver);
      (s.(records := s.records[id := record]), Success(record))
  }

  // ---------------------------------------------------------------- one call

  /** What the global policy denies stays denied, whatever policy the request
      brings: it is never approved, and never stored for somebody to approve. */
  lemma GlobalDenialStands(s: State, req: Request, handlerName: string)
    requires s.policy.Some? && Denies(s.policy.value, req.capability, req.risk)
    ensures var (after, record) := Submitted(s, req);
            after == s && record.Success? && record.value.status == Denied
    ensures var answer := Resolved(s, req, handlerName);
            answer.Success? ==> answer.value.status == Denied
  {
    assert Among([s.policy, req.policy], s.policy.value);
  }

  /** A policy approval is one by the global policy, if there is one, and by the
      request's own, if there is one: merging never loosens either. */
  lemma ApprovalNeedsEvery(s: State, req: Request)
    ensures var verdict := Verdict(s.policy, req);
            verdict.Some? && verdict.value.status == Approved <==>
              && (s.policy.Some? || req.policy.Some?)
              && (s.policy.Some? ==> Approves(s.policy.value, req.capability, req.risk))
              && (req.policy.Some? ==> Approves(req.policy.value, req.capability, req.risk))
  {
    var both := [s.policy, req.policy];
    if s.policy.Some? {
      assert Among(both, s.policy.value);
    }
    if req.policy.Some? {
      assert Among(both, req.policy.value);
    }
  }

  // ------------------------------------------------- when a handler is asked at all

  function WithHandler(s: State, handler: Handler): State {
    s.(handlers := s.handlers[handler.name := handler])
  }

  /** What a handler would answer makes a difference to what `Resolve` returns. */
  ghost predicate Asked(s: State, req: Request, name: string) {
    exists a: Handler, b: Handler :: a.name == name && b.name == name &&
      Resolved(WithHandler(s, a), req, name) != Resolved(WithHandler(s, b), req, name)
  }

  /** The same of the default handler and `Submit`. */
  ghost predicate AskedOnSubmit(s: State, req: Request) {
    exists a: Handler, b: Handler :: a.name == s.fallback && b.name == s.fallback &&
      Submitted(WithHandler(s, a), req).1 != Submitted(WithHandler(s, b), req).1
  }

  /** The capability is on neither list, and no level is set that the risk exceeds. */
  predicate Undecided(policy: Policy, capability: string, risk: string) {
    && capability !in policy.denied && capability !in policy.allowed
    && !(policy.maxRisk != "" && RiskExceeds(risk, policy.maxRisk))
  }

  function Answering(name: string, status: Status): Handler {
    Handler(name, _ => Success(Decision(status, status == Approved, HandlerReason(""), name, false)))
  }

  /** A handler is asked exactly if the policies together decide nothing. */
  lemma AskedIff(s: State, req: Request, name: string)
    requires name != ""
    ensures Asked(s, req, name) <==> Verdict(s.policy, req).None?
    ensures AskedOnSubmit(s, req) <==> Verdict(s.policy, req).None?
  {
    if Verdict(s.policy, req).None? {
      var yes, no := Answering(name, Approved), Answering(name, Denied);
      assert Resolved(WithHandler(s, yes), req, name) != Resolved(WithHandler(s, no), req, name);
      var yes', no' := Answering(s.fallback, Approved), Answering(s.fallback, Denied);
      assert Submitted(WithHandler(s, yes'), req).1 != Submitted(WithHandler(s, no'), req).1;
    }
  }

  /** `RequireApproval` forces no handler: under one policy that has the flag set, a
      handler is asked exactly if the capability is on neither list and no set level
      is exceeded, as without the flag; */
  lemma RequiredAskedIff(s: State, req: Request, name: string, policy: Policy)
    requires name != "" && policy.requireApproval
    requires (s.policy == Some(policy) && req.policy.None?) || (s.policy.None? && req.policy == Some(policy))
    ensures Asked(s, req, name) <==> Undecided(policy, req.capability, req.risk)
    ensures AskedOnSubmit(s, req) <==> Undecided(policy, req.capability, req.risk)
  {
    AskedIff(s, req, name);
    assert Among([s.policy, req.policy], policy);
  }

  /** and a request for a capability that such a policy allows is approved where there
      is no handler at all. */
  lemma ApprovedUnasked(req: Request)
    requires req.policy == Some(Policy([req.capability], [], "", true))
    ensures Submitted(EMPTY, req) == (EMPTY, Success(Entry("", req, Approved, "")))
  {
    assert Among([None, req.policy], req.policy.value);
  }

  // ------------------------------------------------------- what a call comes to

  /** Where the policies decide nothing, a registered handler's answer is the answer, as
      it is, */
  lemma HandlerAnswers(s: State, req: Request, name: string)
    requires Verdict(s.policy, req).None? && name != "" && name in s.handlers
    ensures match s.handlers[name].resolve(req)
            case Success(decision) => Resolved(s, req, name) == Success(decision)
            case Failure(text) => Resolved(s, req, name) == Failure(HandlerFailed(text))
    ensures s.fallback == name ==> Resolved(s, req, "") == Resolved(s, req, name)
  {
  }

  /** and where they do, a registered handler's name is put on their decision; without
      a handler of the name there is an error either way. */
  lemma PoliciesAnswer(s: State, req: Request, name: string)
    ensures var asked := if name == "" then s.fallback else name;
            if asked == "" then Resolved(s, req, name) == Failure(NoDefaultHandler)
            else if asked !in s.handlers then Resolved(s, req, name) == Failure(HandlerNotFound(asked))
            else Verdict(s.policy, req).Some? ==>
              var answer, verdict := Resolved(s, req, name), Verdict(s.policy, req).value;
              && answer.Success? && answer.value.handler == asked
              && answer.value.status == verdict.status && answer.value.approved == (verdict.status == Approved)
              && answer.value.reason == verdict.reason && answer.value.policyOverride
  {
  }

  /** A submission is stored as pending, under the next number and with its request,
      exactly if the policies decide nothing and there is no default handler or that
      one leaves it pending. */
  lemma StoredIff(s: State, req: Request)
    ensures var (after, record) := Submitted(s, req);
            var left := Verdict(s.policy, req).None? &&
                        (s.fallback in s.handlers ==>
                           var answer := s.handlers[s.fallback].resolve(req);
                           answer.Success? && answer.value.status == Pending);
            && (after != s <==> left)
            && (left ==> record == Success(Entry("approval_" + Decimal(s.seqno + 1), req, Pending, "")) &&
                         after.seqno == s.seqno + 1 && after.records == s.records[record.value.id := record.value])
  {
  }

  /** Otherwise it is answered at once, by the policies or by the default handler. */
  lemma AnsweredAtOnce(s: State, req: Request)
    requires Submitted(s, req).0 == s
    ensures var record := Submitted(s, req).1;
            match Verdict(s.policy, req)
            case Some(verdict) => record == Success(Entry("", req, verdict.status, ""))
            case None =>
              s.fallback in s.handlers &&
              match s.handlers[s.fallback].resolve(req)
              case Success(decision) => record == Success(Entry("", req, decision.status, ""))
              case Failure(text) => record == Failure(HandlerFailed(text))
  {
  }

  /** A pending record is settled as the approver says, once: whatever is said of it
      afterwards is an error that changes nothing. */
  lemma SettledOnce(s: State, id: string, approved: bool, approver: string, again: bool, other: string)
    requires id in s.records && s.records[id].status == Pending
    ensures var (after, record) := RecordResolved(s, id, approved, approver);
            var status := if approved then Approved else Denied;
            && record == Success(s.records[id].(status := status, approver := approver))
            && after == s.(records := s.records[id := record.value])
            && RecordResolved(after, id, again, other) == (after, Failure(AlreadyResolved(status)))
  {
  }

  // -------------------------------------------------------------------- runs

  datatype Op =
    | SetPolicyOp(policy: Option<Policy>)
    | RegisterOp(handler: Handler, replace: bool)
    | UnregisterOp(name: string)
    | SetDefaultOp(name: string)
    | SubmitOp(request: Request)
    | ResolveRecordOp(id: string, approved: bool, approver: string)

  function Registered(s: State, handler: Handler, replace: bool): (State, Option<Error>) {
    if handler.name in s.handlers && !replace then (s, Some(HandlerExists(handler.name)))
    else (s.(handlers := s.handlers[handler.name := handler]), None)
  }

  function Unregistered(s: State, name: string): State {
    if name !in s.handlers then s
    else s.(handlers := s.handlers - {name}, fallback := if s.fallback == name then "" else s.fallback)
  }

  function Defaulted(s: State, name: string): (State, Option<Error>) {
    if name !in s.handlers then (s, Some(HandlerNotFound(name))) else (s.(fallback := name), None)
  }

  /** The handlers and the default after each of the calls that change them. */
  lemma HandlersAfter(s: State, handler: Handler, replace: bool, name: string)
    ensures Step(s, RegisterOp(handler, replace)) == Registered(s, handler, replace).0
    ensures Step(s, UnregisterOp(name)) == Unregistered(s, name) && Step(s, SetDefaultOp(name)) == Defaulted(s, name).0
    ensures var (after, error) := Registered(s, handler, replace);
            if handler.name in s.handlers && !replace then after == s && error == Some(HandlerExists(handler.name))
            else error == None && after == s.(handlers := after.handlers) &&
                 after.handlers == s.handlers[handler.name := handler]
    ensures var after := Unregistered(s, name);
            && name !in after.handlers && after == s.(handlers := after.handlers, fallback := after.fallback)
            && (forall other | other != name ::
                  (other in after.handlers <==> other in s.handlers) &&
                  (other in s.handlers ==> after.handlers[other] == s.handlers[other]))
            && after.fallback == if s.fallback == name && name in s.handlers then "" else s.fallback
    ensures var (after, error) := Defaulted(s, name);
            if name in s.handlers then error == None && after == s.(fallback := name)
            else after == s && error == Some(HandlerNotFound(name))
  {
  }

  ghost function Step(s: State, op: Op): State {
    match op
    case SetPolicyOp(policy) => s.(policy := policy)
    case RegisterOp(handler, replace) => Registered(s, handler, replace).0
    case UnregisterOp(name) => Unregistered(s, name)
    case SetDefaultOp(name) => Defaulted(s, name).0
    case SubmitOp(request) => Submitted(s, request).0
    case ResolveRecordOp(id, approved, approver) => RecordResolved(s, id, approved, approver).0
  }

  ghost function Run(s: State, ops: seq<Op>): State
    decreases |ops|
  {
    if ops == [] then s else Run(Step(s, ops[0]), ops[1..])
  }

  const EMPTY := State(None, map[], "", map[], 0)

  /** The global policy that was set last, if any was. */
  function LastPolicy(ops: seq<Op>): Option<Option<Policy>> {
    if ops == [] then None
    else if LastPolicy(ops[1..]).Some? then LastPolicy(ops[1..])
    else if ops[0].SetPolicyOp? then Some(ops[0].policy)
    else None
  }

  /** Over every run the global policy is the one that was set last. */
  lemma {:induction false} PolicyInForce(s: State, ops: seq<Op>)
    ensures Run(s, ops).policy == if LastPolicy(ops).Some? then LastPolicy(ops).value else s.policy
    decreases |ops|
  {
    if ops != [] {
      PolicyInForce(Step(s, ops[0]), ops[1..]);
    }
  }

  /** The records are numbered without a gap and stored under their own ids, and
      a default handler is always registered (unless the default is ""). */
  ghost predicate Sound(s: State) {
    RecordsSound(s.records, s.seqno) && HandlersSound(s.handlers, s.fallback)
  }

  ghost predicate RecordsSound(records: map<string, Entry>, seqno: nat) {
    && (forall n :: 1 <= n <= seqno ==> RecordId(n) in records)
    && (forall id | id in records :: records[id].id == id && Numbered(id, seqno) && records[id].status != Allowed)
  }

  ghost predicate HandlersSound(handlers: map<string, Handler>, fallback: string) {
    && (fallback != "" ==> fallback in handlers)
    && (forall name | name in handlers :: handlers[name].name == name)
  }

  ghost predicate Numbered(id: string, seqno: nat) {
    exists n :: 1 <= n <= seqno && id == RecordId(n)
  }

  lemma NewIdIsFresh(s: State)
    requires Sound(s)
    ensures RecordId(s.seqno + 1) !in s.records
  {
    if RecordId(s.seqno + 1) in s.records {
      var n :| 1 <= n <= s.seqno && RecordId(s.seqno + 1) == RecordId(n);
      RecordIdInjective(s.seqno + 1, n);
    }
  }

  lemma StoredSound(s: State, req: Request)
    requires Sound(s)
    ensures Sound(Stored(s, req).0)
  {
    var after := Stored(s, req).0;
    forall id | id in after.records ensures Numbered(id, after.seqno) && after.records[id].id == id {
      if id == RecordId(s.seqno + 1) {
        assert 1 <= s.seqno + 1 <= after.seqno;
      } else {
        var n :| 1 <= n <= s.seqno && id == RecordId(n);
        assert 1 <= n <= after.seqno;
      }
    }
  }

  lemma StepSound(s: State, op: Op)
    requires Sound(s)
    ensures Sound(Step(s, op))
  {
    if op.SubmitOp? {
      StoredSound(s, op.request);
    }
  }

  lemma {:induction false} RunSound(s: State, ops: seq<Op>)
    requires Sound(s)
    ensures Sound(Run(s, ops))
    decreases |ops|
  {
    if ops != [] {
      StepSound(s, ops[0]);
      RunSound(Step(s, ops[0]), ops[1..]);
    }
  }

  /** The first attempt in a run to resolve the record. */
  function FirstResolution(ops: seq<Op>, id: string): (first: Option<Op>)
    ensures first.Some? ==> first.value.ResolveRecordOp? && first.value in ops
  {
    if ops == [] then None
    else if ops[0].ResolveRecordOp? && ops[0].id == id then Some(ops[0])
    else FirstResolution(ops[1..], id)
  }

  /** What a stored record becomes: a pending one is settled by the first attempt
      to resolve it and by nothing else, and a settled one never changes. */
  function Fate(entry: Entry, ops: seq<Op>): Entry {
    var first := FirstResolution(ops, entry.id);
    if entry.status != Pending || first.None? then entry
    else Settled(entry, first.value.approved, first.value.approver)
  }

  lemma StepKeepsRecord(s: State, op: Op, id: string)
    requires Sound(s) && id in s.records
    ensures id in Step(s, op).records
    ensures Step(s, op).records[id] == Fate(s.records[id], [op])
  {
    NewIdIsFresh(s);
    assert FirstResolution([op], id) == if op.ResolveRecordOp? && op.id == id then Some(op) else None;
  }

  /** Over every run a stored record is kept, with its request, and its status is
      decided by the first resolution of it in the run. */
  lemma {:induction false} RecordFate(s: State, ops: seq<Op>, id: string)
    requires Sound(s) && id in s.records
    ensures id in Run(s, ops).records
    ensures Run(s, ops).records[id] == Fate(s.records[id], ops)
    decreases |ops|
  {
    if ops != [] {
      StepSound(s, ops[0]);
      StepKeepsRecord(s, ops[0], id);
      RecordFate(Step(s, ops[0]), ops[1..], id);
      assert FirstResolution([ops[0]], id) == if ops[0].ResolveRecordOp? && ops[0].id == id then Some(ops[0]) else None;
    }
  }

  /** Every submission that is stored gets an id no earlier record has. */
  lemma SubmissionIsNew(ops: seq<Op>, req: Request)
    ensures var s := Run(EMPTY, ops);
            var (after, record) := Submitted(s, req);
            && |after.records| >= |s.records|
            && (after != s ==> record.Success? && record.value.id !in s.records && record.value.status == Pending
                               && after.records == s.records[record.value.id := record.value])
  {
    RunSound(EMPTY, ops);
    NewIdIsFresh(Run(EMPTY, ops));
  }

  /** How many submissions of a run were stored. */
  ghost function StoredCount(s: State, ops: seq<Op>): nat
    decreases |ops|
  {
    if ops == [] then 0
    else (if ops[0].SubmitOp? && Submitted(s, ops[0].request).0 != s then 1 else 0) + StoredCount(Step(s, ops[0]), ops[1..])
  }

  lemma {:induction false} RunCounts(s: State, ops: seq<Op>)
    ensures Run(s, ops).seqno == s.seqno + StoredCount(s, ops)
    decreases |ops|
  {
    if ops != [] {
      RunCounts(Step(s, ops[0]), ops[1..]);
    }
  }

  /** After every run the identifiers found are those given to the submissions stored
      so far: `approval_1`, `approval_2`, and so on, without a gap. */
  lemma StoredIds(ops: seq<Op>, id: string)
    ensures id in Run(EMPTY, ops).records <==> exists n :: 1 <= n <= StoredCount(EMPTY, ops) && id == RecordId(n)
  {
    RunSound(EMPTY, ops);
    RunCounts(EMPTY, ops);
  }

  // --------------------------------------------------------------- the class

  class Record {
    const id: string
    const request: Request
    var status: Status
    var approver: string

    constructor (id: string, request: Request, status: Status)
      ensures View() == Entry(id, request, status, "")
    {
      this.id, this.request, this.status, this.approver := id, request, status, "";
    }

    function View(): Entry
      reads this
    {
      Entry(id, request, status, approver)
    }
  }

  function Views(records: map<string, Record>): (r: map<string, Entry>)
    reads records.Values
    ensures r.Keys == records.Keys
    ensures forall id | id in records :: r[id] == records[id].View()
  {
    map id | id in records :: records[id].View()
  }

  predicate OwnIds(records: map<string, Record>) {
    forall id | id in records :: records[id].id == id
  }

  lemma OwnIdsAdded(records: map<string, Record>, record: Record)
    requires OwnIds(records)
    ensures OwnIds(records[record.id := record])
  {
  }

  lemma ViewsAdded(records: map<string, Record>, record: Record)
    ensures Views(records[record.id := record]) == Views(records)[record.id := record.View()]
  {
  }

  lemma ViewsAre(records: map<string, Record>, views: map<string, Entry>)
    requires records.Keys == views.Keys && forall id | id in records :: records[id].View() == views[id]
    ensures Views(records) == views
  {
  }

  class PolicyApprovalManager {
    var policy: Option<Policy>
    var handlers: map<string, Handler>
    var defaultHandler: string
    var records: map<string, Record>
    var seqno: nat

    constructor ()
      ensures Valid() && Value() == EMPTY
    {
      policy, handlers, defaultHandler, records, seqno := None, map[], "", map[], 0;
    }

    ghost function Value(): State
      reads this, records.Values
    {
      State(policy, handlers, defaultHandler, Views(records), seqno)
    }

    /** Each record is stored under its own id, so no two ids share a record.
        What else holds of every reachable state is `RunSound`. */
    ghost predicate Valid()
      reads this
    {
      OwnIds(records)
    }

    method SetPolicy(p: Option<Policy>)
      requires Valid()
      modifies this
      ensures Valid() && Value() == Step(old(Value()), SetPolicyOp(p))
    {
      policy := p;
    }

    method RegisterHandler(h: Handler, replace: bool) returns (error: Option<Error>)
      requires Valid()
      modifies this
      ensures Valid() && (Value(), error) == Registered(old(Value()), h, replace)
    {
      if h.name in handlers && !replace {
        return Some(HandlerExists(h.name));
      }
      handlers := handlers[h.name := h];
      return None;
    }

    method UnregisterHandler(name: string) returns (found: bool)
      requires Valid()
      modifies this
      ensures Valid() && Value() == Unregistered(old(Value()), name)
      ensures found == (name in old(handlers))
    {
      if name !in handlers {
        return false;
      }
      handlers := handlers - {name};
      if defaultHandler == name {
        defaultHandler := "";
      }
      return true;
    }

    method SetDefaultHandler(name: string) returns (error: Option<Error>)
      requires Valid()
      modifies this
      ensures Valid() && (Value(), error) == Defaulted(old(Value()), name)
    {
      if name !in handlers {
        return Some(HandlerNotFound(name));
      }
      defaultHandler := name;
      return None;
    }

    method EffectivePolicy(own: Option<Policy>) returns (effective: Option<Policy>)
      ensures effective.None? <==> policy.None? && own.None?
      ensures effective.Some? ==> forall capability, risk ::
                Evaluate(effective.value, capability, risk) == Decide([policy, own], capability, risk)
    {
      ghost var both := [policy, own];
      if policy.None? && own.None? {
        return None;
      }
      if policy.None? {
        effective := own;
        assert IsMerge(both, own.value) by { LoneMerge(both, own.value); }
      } else if own.None? {
        effective := policy;
        assert IsMerge(both, policy.value) by { LoneMerge(both, policy.value); }
      } else {
        effective := MergePolicies([policy, own]);
      }
      forall capability, risk
        ensures Evaluate(effective.value, capability, risk) == Decide(both, capability, risk)
      {
        MergedDecides(both, effective.value, capability, risk);
      }
    }

    /** The policy check that `Resolve` and `Submit` share. */
    method PolicyCheck(req: Request) returns (decision: Option<Decision>)
      ensures decision == Verdict(policy, req)
    {
      var effective := EffectivePolicy(req.policy);
      if effective.Some? {
        decision := EvaluatePolicy(effective, req.capability, req.risk);
      } else {
        decision := None;
      }
    }

    method Resolve(req: Request, handlerName: string) returns (answer: Result<Decision, Error>)
      ensures answer == Resolved(Value(), req, handlerName)
    {
      var name := handlerName;
      if name == "" {
        name := defaultHandler;
      }
      if name == "" {
        return Failure(NoDefaultHandler);
      }
      if name !in handlers {
        return Failure(HandlerNotFound(name));
      }
      var decision := PolicyCheck(req);
      if decision.Some? {
        return Success(decision.value.(handler := name));
      }
      return Answer(handlers[name], req);
    }

    method Submit(req: Request) returns (answer: Result<Record, Error>)
      requires Valid()
      modifies this
      ensures Valid()
      ensures Value() == Submitted(old(Value()), req).0
      ensures match Submitted(old(Value()), req).1
              case Failure(e) => answer == Failure(e)
              case Success(entry) => answer.Success? && answer.value.View() == entry
                                     && (entry.id != "" ==> entry.id in records && records[entry.id] == answer.value)
    {
      var decision := PolicyCheck(req);
      if decision.Some? {
        var record := new Record("", req, decision.value.status);
        return Success(record);
      }
      if defaultHandler in handlers {
        var reply := Answer(handlers[defaultHandler], req);
        if reply.Failure? {
          return Failure(reply.error);
        }
        if reply.value.status != Pending {
          var record := new Record("", req, reply.value.status);
          return Success(record);
        }
      }
      answer := Store(req);
    }

    method Store(req: Request) returns (answer: Result<Record, Error>)
      requires Valid()
      modifies this
      ensures Valid()
      ensures Value() == Stored(old(Value()), req).0
      ensures answer.Success? && Success(answer.value.View()) == Stored(old(Value()), req).1
      ensures answer.value.id in records && records[answer.value.id] == answer.value
    {
      ghost var before := Value();
      var record := new Record(RecordId(seqno + 1), req, Pending);
      assert Views(records) == before.records;
      ViewsAdded(records, record);
      OwnIdsAdded(records, record);
      seqno := seqno + 1;
      records := records[record.id := record];
      assert Value() == Stored(before, req).0;
      answer := Success(record);
    }

    method ResolveRecord(recordId: string, approved: bool, approver: string) returns (answer: Result<Record, Error>)
      requires Valid()
      modifies if recordId in records then {records[recordId]} else {}
      ensures Valid()
      ensures Value() == RecordResolved(old(Value()), recordId, approved, approver).0
      ensures match RecordResolved(old(Value()), recordId, approved, approver).1
              case Failure(e) => answer == Failure(e)
              case Success(entry) => answer.Success? && answer.value.View() == entry &&
                                     recordId in records && records[recordId] == answer.value
    {
      if recordId !in records {
        return Failure(RecordNotFound(recordId));
      }
      var record := records[recordId];
      if record.status != Pending {
        return Failure(AlreadyResolved(record.status));
      }
      ghost var views := RecordResolved(Value(), recordId, approved, approver).0.records;
      if approved {
        record.status := Approved;
      } else {
        record.status := Denied;
      }
      record.approver := approver;
      ViewsAre(records, views);
      answer := Success(record);
    }

    /** What is found is the record as it stands now: `RecordFate` says how it came to
        that, and `StoredIds` which identifiers are found. */
    method GetRecord(recordId: string) returns (answer: Result<Record, Error>)
      ensures answer.Success? <==> recordId in Value().records
      ensures answer.Success? ==> answer.value.View() == Value().records[recordId] && answer.value in records.Values
      ensures answer.Failure? ==> answer.error == RecordNotFound(recordId)
    {
      if recordId !in records {
        return Failure(RecordNotFound(recordId));
      }
      return Success(records[recordId]);
    }
  }

  lemma LoneMerge(policies: seq<Option<Policy>>, p: Policy)
    requires forall q :: Among(policies, q) <==> q == p
    ensures IsMerge(policies, p)
  {
    assert Among(policies, p);
  }
}
