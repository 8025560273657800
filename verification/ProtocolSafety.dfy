/** What every interleaving of the protocol keeps. */
module ProtocolSafety {
  import opened Options
  import opened Blast
  import opened Records
  import opened Plans
  import opened Tokens
  import opened Protocol

  // ---- plans, mints and tokens ----

  /** A stored plan carries the hash and the evaluation of its own fields. */
  ghost predicate StoredOk(cfg: Config, st: Stored) {
    var p := st.plan;
    p.planHash == PlanHash(cfg.h, p) && p.withinBound == Within(p.bound, p.reach)
      && p.verdict == VerdictOf(p.bound, p.reach, cfg.enforcement)
  }

  /** What Approve checks before it mints. */
  ghost predicate Approvable(cfg: Config, st: Stored, approver: string, human: bool) {
    StoredOk(cfg, st) && Executable(st.plan) && CheckSoD(cfg.fold, st.proposer, approver, human) == None
  }

  /** A token is what was minted, but for being consumed. */
  ghost predicate TokenOk(cfg: Config, t: Token, m: MintEvent) {
    t.(consumed := false) == Minted(m.s.plan.planHash, m.s.proposer, m.approver, cfg.ttl, m.at)
      && Approvable(cfg, m.s, m.approver, m.human)
  }

  ghost predicate TokensOk(cfg: Config, tokens: Store, mints: map<Secret, MintEvent>) {
    tokens.Keys == mints.Keys && forall k | k in tokens :: TokenOk(cfg, tokens[k], mints[k])
  }

  ghost predicate NumberedID(id: string, idseq: nat) {
    exists n | 1 <= n <= idseq :: id == FormatID("pln", n)
  }

  ghost predicate PlansOk(cfg: Config, plans: map<string, Stored>, idseq: nat) {
    forall id | id in plans :: StoredOk(cfg, plans[id]) && plans[id].plan.planID == id && NumberedID(id, idseq)
  }

  // ---- history ----

  /** The consumed token behind a grant. */
  ghost predicate GrantOk(cfg: Config, tokens: Store, g: Grant) {
    StoredOk(cfg, g.s) && g.key in tokens
      && var t := tokens[g.key];
         t.consumed && t.planHash == g.s.plan.planHash && t.approver == g.approver && g.at <= t.expiresAt
  }

  ghost predicate AttemptOk(cfg: Config, tokens: Store, a: Attempt) {
    GrantOk(cfg, tokens, a.g) && Within(a.g.s.plan.bound, a.reach)
      && a.action == a.g.s.plan.action && a.params == a.g.s.plan.params
  }

  predicate Distinct(xs: seq<Secret>) {
    forall i, j | 0 <= i < j < |xs| :: xs[i] != xs[j]
  }

  predicate AllIn(xs: seq<Secret>, ys: seq<Secret>) {
    forall x | x in xs :: x in ys
  }

  ghost predicate AttemptsOk(cfg: Config, tokens: Store, hist: History) {
    && |hist.tried| == |hist.attempts|
    && (forall i | 0 <= i < |hist.attempts| ::
          AttemptOk(cfg, tokens, hist.attempts[i]) && hist.attempts[i].g.key == hist.tried[i])
    && (forall k | k in hist.tried :: k in tokens && tokens[k].consumed)
  }

  /** Each sequence of events names its tokens once, and each event follows the one before. */
  ghost predicate EventsOk(tokens: Store, hist: History) {
    && Distinct(hist.tried) && Distinct(hist.completions) && Distinct(hist.executeKeys)
    && Distinct(hist.successes) && Distinct(hist.approveKeys)
    && AllIn(hist.completions, hist.tried) && AllIn(hist.executeKeys, hist.completions)
    && AllIn(hist.successes, hist.executeKeys) && (forall k | k in hist.outcomes :: k in hist.completions)
    && (forall k | k in hist.returned :: k in hist.approveKeys)
    && (forall k | k in hist.approveKeys :: k in tokens)
  }

  // ---- calls ----

  /** The token a call has consumed. */
  function Held(call: Call): Option<Secret> {
    match call
    case ExecConsumed(g) => Some(g.key)
    case ExecRefusing(g, _) => Some(g.key)
    case ExecStopped(g) => Some(g.key)
    case ExecResolved(g, _) => Some(g.key)
    case ExecAttempted(g, _) => Some(g.key)
    case ExecCompleted(g, _, _) => Some(g.key)
    case ExecUnrecorded(g) => Some(g.key)
    case ExecRecorded(g) => Some(g.key)
    case ExecDone(g) => Some(g.key)
    case _ => None
  }

  /** The token a call has minted. */
  function Made(call: Call): Option<Secret> {
    match call
    case ApproveMinted(_, _, key) => Some(key)
    case ApproveUnrecorded(key) => Some(key)
    case ApproveDone(key) => Some(key)
    case _ => None
  }

  /** The plan number a call has drawn and not yet stored under. */
  function Number(call: Call): Option<nat> {
    if call.PlanNumbered? then Some(call.n) else None
  }

  ghost predicate CallOk(cfg: Config, s: State, call: Call) {
    match call
    case PlanResolved(req, _, _) => req.PlanRequest?
    case PlanNumbered(req, _, _, n, _) => req.PlanRequest? && 1 <= n <= s.idseq && FormatID("pln", n) !in s.plans
    case ApproveFound(req, st) => req.ApproveRequest? && Approvable(cfg, st, req.approver, req.human)
    case ApproveMinted(req, st, key) =>
      req.ApproveRequest? && key in s.tokens && key in s.hist.mints && s.hist.mints[key].s == st
        && s.hist.mints[key].approver == req.approver && key !in s.hist.approveKeys
    case ApproveUnrecorded(key) => key in s.tokens
    case ApproveDone(key) => key in s.tokens
    case ExecFound(_, st) => StoredOk(cfg, st)
    case ExecConsumed(g) => GrantOk(cfg, s.tokens, g) && g.key !in s.hist.tried
    case ExecResolved(g, reach) =>
      GrantOk(cfg, s.tokens, g) && g.key !in s.hist.tried && Within(g.s.plan.bound, reach)
    case ExecAttempted(g, reach) =>
      GrantOk(cfg, s.tokens, g) && g.key in s.hist.tried && g.key !in s.hist.completions
        && AttemptWith(g, reach) in s.hist.attempts
    case ExecCompleted(g, reach, outcome) =>
      GrantOk(cfg, s.tokens, g) && g.key in s.hist.completions && g.key !in s.hist.executeKeys
        && AttemptWith(g, reach) in s.hist.attempts && g.key in s.hist.outcomes && s.hist.outcomes[g.key] == outcome
    case ExecRecorded(g) => GrantOk(cfg, s.tokens, g) && g.key in s.hist.executeKeys && g.key !in s.hist.successes
    case ExecRefusing(g, row) => GrantOk(cfg, s.tokens, g) && row.event == EVENT_REFUSE
    case ExecStopped(g) => GrantOk(cfg, s.tokens, g)
    case ExecUnrecorded(g) => GrantOk(cfg, s.tokens, g)
    case ExecDone(g) => GrantOk(cfg, s.tokens, g)
    case Refusing(row) => row.event == EVENT_REFUSE
    case _ => true
  }

  ghost predicate CallsOk(cfg: Config, s: State) {
    forall c | c in s.calls :: CallOk(cfg, s, s.calls[c])
  }

  /** No two calls hold one token, made one token or drew one number. */
  predicate Apart(a: Call, b: Call) {
    (Held(a) == None || Held(a) != Held(b)) && (Made(a) == None || Made(a) != Made(b))
      && (Number(a) == None || Number(a) != Number(b))
  }

  ghost predicate CallsApart(s: State) {
    forall c, d | c in s.calls && d in s.calls && c != d :: Apart(s.calls[c], s.calls[d])
  }

  ghost predicate Inv(cfg: Config, s: State) {
    TokensOk(cfg, s.tokens, s.hist.mints) && PlansOk(cfg, s.plans, s.idseq)
      && AttemptsOk(cfg, s.tokens, s.hist) && EventsOk(s.tokens, s.hist)
      && CallsOk(cfg, s) && CallsApart(s)
  }

  // ---- frames ----

  /** Tokens are only added and consumed. */
  ghost predicate TokensGrow(t: Store, t': Store) {
    forall k | k in t :: k in t' && t'[k].(consumed := false) == t[k].(consumed := false)
                         && (t[k].consumed ==> t'[k].consumed)
  }

  ghost predicate MintsGrow(m: map<Secret, MintEvent>, m': map<Secret, MintEvent>) {
    forall k | k in m :: k in m' && m'[k] == m[k]
  }

  /** Attempts are only added. */
  ghost predicate AttemptsKept(h: History, h': History) {
    forall a | a in h.attempts :: a in h'.attempts
  }

  /** Nothing new has happened to a consumed token. */
  ghost predicate SameMarks(h: History, h': History, k: Secret) {
    && (k in h.tried <==> k in h'.tried) && (k in h.completions <==> k in h'.completions)
    && (k in h.executeKeys <==> k in h'.executeKeys) && (k in h.successes <==> k in h'.successes)
    && (k in h.outcomes ==> k in h'.outcomes && h'.outcomes[k] == h.outcomes[k])
  }

  /** What a step may do around a call that does not take it. */
  ghost predicate Around(s: State, s': State, call: Call) {
    && s.idseq <= s'.idseq && TokensGrow(s.tokens, s'.tokens) && MintsGrow(s.hist.mints, s'.hist.mints)
    && AttemptsKept(s.hist, s'.hist)
    && (Held(call).Some? ==> SameMarks(s.hist, s'.hist, Held(call).value))
    && (Made(call).Some? ==> (Made(call).value in s'.hist.approveKeys ==> Made(call).value in s.hist.approveKeys))
    && (Number(call).Some? ==>
          (FormatID("pln", Number(call).value) in s'.plans ==> FormatID("pln", Number(call).value) in s.plans))
  }

  lemma CallOkAround(cfg: Config, s: State, s': State, call: Call)
    requires CallOk(cfg, s, call) && Around(s, s', call)
    ensures CallOk(cfg, s', call)
  {
    hide StoredOk, Approvable, FormatID;
  }

  /** A step of call c that leaves the others alone keeps what they promise. */
  lemma OthersKept(cfg: Config, s: State, s': State, c: nat)
    requires CallsOk(cfg, s) && CallsApart(s)
    requires s'.calls.Keys == s.calls.Keys + {c} && forall d | d in s.calls && d != c :: s'.calls[d] == s.calls[d]
    requires forall d | d in s.calls && d != c :: Around(s, s', s.calls[d]) && Apart(s'.calls[c], s.calls[d])
    requires CallOk(cfg, s', s'.calls[c])
    ensures CallsOk(cfg, s') && CallsApart(s')
  {
    hide CallOk, Around;
    forall d | d in s'.calls ensures CallOk(cfg, s', s'.calls[d]) {
      if d != c { CallOkAround(cfg, s, s', s.calls[d]); }
    }
    forall d, e | d in s'.calls && e in s'.calls && d != e ensures Apart(s'.calls[d], s'.calls[e]) {
      if d == c { assert Apart(s'.calls[c], s.calls[e]); }
      else if e == c { assert Apart(s'.calls[c], s.calls[d]); }
      else { assert Apart(s.calls[d], s.calls[e]); }
    }
  }

  /** A call moving on keeps apart from the others while it holds nothing it did not hold. */
  ghost predicate HoldsNoMore(a: Call, b: Call) {
    (Held(b) == None || Held(b) == Held(a)) && (Made(b) == None || Made(b) == Made(a))
      && (Number(b) == None || Number(b) == Number(a))
  }

  /** A step that marks at most the tokens its own call holds or made. */
  lemma OthersKeptByMarks(cfg: Config, s: State, s': State, c: nat)
    requires CallsOk(cfg, s) && CallsApart(s) && c in s.calls
    requires c in s'.calls && s'.calls == s.calls[c := s'.calls[c]] && HoldsNoMore(s.calls[c], s'.calls[c])
    requires s'.tokens == s.tokens && s'.hist.mints == s.hist.mints && s'.plans == s.plans && s.idseq <= s'.idseq
    requires AttemptsKept(s.hist, s'.hist)
    requires forall k | Held(s.calls[c]) != Some(k) :: SameMarks(s.hist, s'.hist, k)
    requires forall k | Made(s.calls[c]) != Some(k) :: k in s'.hist.approveKeys ==> k in s.hist.approveKeys
    requires CallOk(cfg, s', s'.calls[c])
    ensures CallsOk(cfg, s') && CallsApart(s')
  {
    hide CallOk, SameMarks;
    forall d | d in s.calls && d != c ensures Around(s, s', s.calls[d]) && Apart(s'.calls[c], s.calls[d]) {
      assert Apart(s.calls[c], s.calls[d]);
    }
    OthersKept(cfg, s, s', c);
  }

  lemma AttemptsGrow(cfg: Config, t: Store, t': Store, hist: History)
    requires AttemptsOk(cfg, t, hist) && TokensGrow(t, t')
    ensures AttemptsOk(cfg, t', hist)
  {
    hide StoredOk, Within;
    forall i | 0 <= i < |hist.attempts| ensures AttemptOk(cfg, t', hist.attempts[i]) {
      assert AttemptOk(cfg, t, hist.attempts[i]);
    }
  }

  // ---- steps that touch only their own call ----

  lemma LocalStepKeepsInv(cfg: Config, s: State, c: nat, call: Call)
    requires Inv(cfg, s) && CallOk(cfg, s, call)
    requires if c in s.calls then HoldsNoMore(s.calls[c], call) else HoldsNoMore(Failed, call)
    ensures Inv(cfg, Goto(s, c, call))
  {
    hide CallOk, TokensOk, PlansOk, AttemptsOk, EventsOk;
    var s' := Goto(s, c, call);
    forall d | d in s.calls && d != c ensures Around(s, s', s.calls[d]) && Apart(s'.calls[c], s.calls[d]) {
      if c in s.calls { assert Apart(s.calls[c], s.calls[d]); }
    }
    CallOkSame(cfg, s, s', call);
    OthersKept(cfg, s, s', c);
  }

  lemma CallOkSame(cfg: Config, s: State, s': State, call: Call)
    requires CallOk(cfg, s, call)
    requires s'.tokens == s.tokens && s'.hist == s.hist && s'.plans == s.plans && s.idseq <= s'.idseq
    ensures CallOk(cfg, s', call)
  {
    CallOkAround(cfg, s, s', call);
  }

  lemma BeginKeepsInv(cfg: Config, s: State, c: nat, req: Request)
    requires Inv(cfg, s) && Step(cfg, s, Begin(c, req)).Some?
    ensures Inv(cfg, Step(cfg, s, Begin(c, req)).value)
  {
    LocalStepKeepsInv(cfg, s, c, Started(req));
  }

  lemma ResolvePlanKeepsInv(cfg: Config, s: State, l: Label)
    requires Inv(cfg, s) && l.ResolvePlan? && StepResolvePlan(cfg, s, l).Some?
    ensures Inv(cfg, StepResolvePlan(cfg, s, l).value)
  {
    hide Inv;
    var s' := StepResolvePlan(cfg, s, l).value;
    LocalStepKeepsInv(cfg, s, l.c, s'.calls[l.c]);
  }

  lemma LookupKeepsInv(cfg: Config, s: State, c: nat, why: string)
    requires Inv(cfg, s) && StepLookup(cfg, s, c, why).Some?
    ensures Inv(cfg, StepLookup(cfg, s, c, why).value)
  {
    hide StoredOk, CheckSoD, TokensOk, AttemptsOk, EventsOk, CallsOk, CallsApart, RowOf, GrantOk, FormatID, Within;
    var s' := StepLookup(cfg, s, c, why).value;
    var req := s.calls[c].req;
    if req.planID in s.plans {
      var st := s.plans[req.planID];
      assert StoredOk(cfg, st);
      if req.ApproveRequest? { RefuseRowEvent(st.plan, st.proposer, req.approver, why); }
    }
    LocalStepKeepsInv(cfg, s, c, s'.calls[c]);
  }

  lemma ResolveExecKeepsInv(cfg: Config, s: State, c: nat, live: Option<Reach>, why: string)
    requires Inv(cfg, s) && StepResolveExec(cfg, s, c, live, why).Some?
    ensures Inv(cfg, StepResolveExec(cfg, s, c, live, why).value)
  {
    hide GrantOk, VerdictOf, TokensOk, PlansOk, AttemptsOk, EventsOk, CallsApart;
    var s' := StepResolveExec(cfg, s, c, live, why).value;
    assert CallOk(cfg, s, s.calls[c]);
    LocalStepKeepsInv(cfg, s, c, s'.calls[c]);
  }

  // ---- plan steps ----

  lemma NumberPlanKeepsInv(cfg: Config, s: State, c: nat, now: int)
    requires Inv(cfg, s) && StepNumberPlan(s, c, now).Some?
    ensures Inv(cfg, StepNumberPlan(s, c, now).value)
  {
    hide StoredOk, TokensOk, AttemptsOk, EventsOk, FormatID;
    var s' := StepNumberPlan(s, c, now).value;
    var n := s.idseq + 1;
    assert CallOk(cfg, s, s.calls[c]);
    forall id | id in s.plans ensures NumberedID(id, n) && id != FormatID("pln", n) {
      assert NumberedID(id, s.idseq);
      var m :| 1 <= m <= s.idseq && id == FormatID("pln", m);
      if id == FormatID("pln", n) { FormatIDInjective("pln", m, n); }
    }
    NumbersBelow(cfg, s, c);
    OthersKept(cfg, s, s', c);
  }

  lemma NumbersBelow(cfg: Config, s: State, c: nat)
    requires CallsOk(cfg, s)
    ensures forall d | d in s.calls :: Number(s.calls[d]) == None || Number(s.calls[d]).value <= s.idseq
  {
    hide GrantOk, StoredOk, Approvable, FormatID;
    forall d | d in s.calls ensures Number(s.calls[d]) == None || Number(s.calls[d]).value <= s.idseq {
      assert CallOk(cfg, s, s.calls[d]);
    }
  }

  lemma HashIgnoresHash(cfg: Config, p: Plan)
    ensures forall x :: PlanHash(cfg.h, p.(planHash := x)) == PlanHash(cfg.h, p)
  {
    assert forall x :: TupleJson(p.(planHash := x)) == TupleJson(p);
  }

  lemma RenderedOk(cfg: Config, req: Request, reach: Reach, target: string, n: nat, now: int)
    requires req.PlanRequest?
    ensures var p := RenderPlan(cfg, req, reach, target, n, now);
            StoredOk(cfg, Stored(p, req.proposer)) && p.planID == FormatID("pln", n)
  {
    HashIgnoresHash(cfg, RenderPlan(cfg, req, reach, target, n, now));
  }

  lemma StorePlanKeepsInv(cfg: Config, s: State, c: nat)
    requires Inv(cfg, s) && StepStorePlan(cfg, s, c).Some?
    ensures Inv(cfg, StepStorePlan(cfg, s, c).value)
  {
    hide StoredOk, RenderPlan, TokensOk, AttemptsOk, EventsOk, FormatID;
    var s' := StepStorePlan(cfg, s, c).value;
    var k := s.calls[c];
    assert CallOk(cfg, s, k);
    RenderedOk(cfg, k.req, k.reach, k.target, k.n, k.now);
    assert NumberedID(FormatID("pln", k.n), s.idseq);
    forall d | d in s.calls && d != c ensures Around(s, s', s.calls[d]) && Apart(s'.calls[c], s.calls[d]) {
      assert Apart(k, s.calls[d]);
      if Number(s.calls[d]).Some? && FormatID("pln", Number(s.calls[d]).value) == FormatID("pln", k.n) {
        FormatIDInjective("pln", Number(s.calls[d]).value, k.n);
      }
    }
    OthersKept(cfg, s, s', c);
  }

  // ---- token steps ----

  lemma MintedTokenOk(cfg: Config, tokens: Store, mints: map<Secret, MintEvent>, k: Secret, m: MintEvent)
    requires TokensOk(cfg, tokens, mints) && Approvable(cfg, m.s, m.approver, m.human)
    ensures TokensOk(cfg, tokens[k := Minted(m.s.plan.planHash, m.s.proposer, m.approver, cfg.ttl, m.at)],
                     mints[k := m])
  {
    hide Approvable;
  }

  lemma EventsGrow(t: Store, t': Store, h: History, h': History)
    requires EventsOk(t, h) && t.Keys <= t'.Keys && h' == h.(mints := h'.mints)
    ensures EventsOk(t', h')
  {
  }

  lemma MintKeepsInv(cfg: Config, s: State, c: nat, random: Option<Secret>, now: int)
    requires Inv(cfg, s) && StepMint(cfg, s, c, random, now).Some?
    ensures Inv(cfg, StepMint(cfg, s, c, random, now).value)
  {
    hide Approvable, TokensOk, PlansOk, FormatID, GrantOk, AttemptsOk, EventsOk;
    var s' := StepMint(cfg, s, c, random, now).value;
    assert CallOk(cfg, s, s.calls[c]);
    if s'.calls[c] == Failed {
      LocalStepKeepsInv(cfg, s, c, Failed);
    } else {
      var k := s'.calls[c].key;
      MintedTokenOk(cfg, s.tokens, s.hist.mints, k, s'.hist.mints[k]);
      EventsGrow(s.tokens, s'.tokens, s.hist, s'.hist);
      AttemptsGrow(cfg, s.tokens, s'.tokens, s.hist);
      AttemptsIgnoreMints(cfg, s'.tokens, s.hist, s'.hist);
      StoreFacts(cfg, s);
      MintLeavesOthers(cfg, s, s', c, k);
    }
  }

  lemma StoreFacts(cfg: Config, s: State)
    requires TokensOk(cfg, s.tokens, s.hist.mints) && EventsOk(s.tokens, s.hist)
    ensures s.tokens.Keys == s.hist.mints.Keys && forall x | x in s.hist.approveKeys :: x in s.tokens
  {
  }

  lemma MintLeavesOthers(cfg: Config, s: State, s': State, c: nat, k: Secret)
    requires CallsOk(cfg, s) && CallsApart(s) && c in s.calls && k !in s.tokens
    requires s.tokens.Keys == s.hist.mints.Keys && forall x | x in s.hist.approveKeys :: x in s.tokens
    requires k in s'.tokens && s'.tokens == s.tokens[k := s'.tokens[k]]
    requires k in s'.hist.mints && s'.hist == s.hist.(mints := s.hist.mints[k := s'.hist.mints[k]])
    requires c in s'.calls && s'.calls == s.calls[c := s'.calls[c]]
    requires s'.plans == s.plans && s'.idseq == s.idseq
    requires s'.calls[c].ApproveMinted? && s'.calls[c].req.ApproveRequest? && s'.calls[c].key == k
    requires s'.hist.mints[k].s == s'.calls[c].s && s'.hist.mints[k].approver == s'.calls[c].req.approver
    ensures CallsOk(cfg, s') && CallsApart(s')
  {
    MadeKnown(cfg, s);
    MintedCallOk(cfg, s', s'.calls[c]);
    hide CallOk, FormatID;
    forall d | d in s.calls && d != c ensures Around(s, s', s.calls[d]) && Apart(s'.calls[c], s.calls[d]) {
      MintIsAround(s, s', k, s.calls[d]);
    }
    OthersKept(cfg, s, s', c);
  }

  lemma MintedCallOk(cfg: Config, s: State, call: Call)
    requires call.ApproveMinted? && call.req.ApproveRequest? && call.key in s.tokens && call.key in s.hist.mints
    requires s.hist.mints[call.key].s == call.s && s.hist.mints[call.key].approver == call.req.approver
    requires call.key !in s.hist.approveKeys
    ensures CallOk(cfg, s, call)
  {
  }

  lemma MintIsAround(s: State, s': State, k: Secret, call: Call)
    requires k !in s.tokens && s.tokens.Keys == s.hist.mints.Keys
    requires k in s'.tokens && s'.tokens == s.tokens[k := s'.tokens[k]]
    requires k in s'.hist.mints && s'.hist == s.hist.(mints := s.hist.mints[k := s'.hist.mints[k]])
    requires s'.plans == s.plans && s'.idseq == s.idseq
    ensures Around(s, s', call)
  {
    hide FormatID;
  }

  lemma AttemptsIgnoreMints(cfg: Config, tokens: Store, h: History, h': History)
    requires AttemptsOk(cfg, tokens, h) && h'.attempts == h.attempts && h'.tried == h.tried
    ensures AttemptsOk(cfg, tokens, h')
  {
    hide AttemptOk;
  }

  /** Tokens held or made by calls are in the store, and the held ones consumed. */
  lemma MadeKnown(cfg: Config, s: State)
    requires CallsOk(cfg, s)
    ensures forall d | d in s.calls :: Made(s.calls[d]).Some? ==> Made(s.calls[d]).value in s.tokens
    ensures forall d | d in s.calls :: Held(s.calls[d]).Some? ==>
                                         Held(s.calls[d]).value in s.tokens && s.tokens[Held(s.calls[d]).value].consumed
  {
    hide StoredOk, Approvable, FormatID, Within;
    forall d | d in s.calls
      ensures Made(s.calls[d]).Some? ==> Made(s.calls[d]).value in s.tokens
      ensures Held(s.calls[d]).Some? ==>
                Held(s.calls[d]).value in s.tokens && s.tokens[Held(s.calls[d]).value].consumed
    {
      assert CallOk(cfg, s, s.calls[d]);
    }
  }

  lemma ConsumedTokensOk(cfg: Config, tokens: Store, mints: map<Secret, MintEvent>, k: Secret)
    requires TokensOk(cfg, tokens, mints) && k in tokens
    ensures TokensOk(cfg, tokens[k := tokens[k].(consumed := true)], mints)
  {
    hide Approvable;
    forall j | j in tokens ensures TokenOk(cfg, tokens[j].(consumed := true), mints[j]) {
      assert TokenOk(cfg, tokens[j], mints[j]);
    }
  }

  lemma ConsumeKeepsInv(cfg: Config, s: State, c: nat, now: int, why: string)
    requires Inv(cfg, s) && StepConsume(cfg, s, c, now, why).Some?
    ensures Inv(cfg, StepConsume(cfg, s, c, now, why).value)
  {
    hide StoredOk, TokensOk, PlansOk, FormatID, AttemptsOk, EventsOk, Approvable, RowOf;
    var s' := StepConsume(cfg, s, c, now, why).value;
    assert CallOk(cfg, s, s.calls[c]);
    if s'.calls[c].Refusing? {
      RefuseRowEvent(s.calls[c].s.plan, s.calls[c].s.proposer, "", why);
      LocalStepKeepsInv(cfg, s, c, s'.calls[c]);
    } else {
      var k := s'.calls[c].g.key;
      ConsumedTokensOk(cfg, s.tokens, s.hist.mints, k);
      EventsGrow(s.tokens, s'.tokens, s.hist, s'.hist);
      AttemptsGrow(cfg, s.tokens, s'.tokens, s.hist);
      TriedConsumed(cfg, s, k);
      ConsumeLeavesOthers(cfg, s, s', c, k);
    }
  }

  lemma RefuseRowEvent(p: Plan, proposer: string, approver: string, why: string)
    ensures RefusalOf(p, proposer, approver, why).event == EVENT_REFUSE
  {
  }

  lemma ConsumeLeavesOthers(cfg: Config, s: State, s': State, c: nat, k: Secret)
    requires CallsOk(cfg, s) && CallsApart(s) && c in s.calls
    requires k in s.tokens && !s.tokens[k].consumed && s'.tokens == s.tokens[k := s.tokens[k].(consumed := true)]
    requires s'.hist == s.hist && s'.plans == s.plans && s'.idseq == s.idseq
    requires c in s'.calls && s'.calls == s.calls[c := s'.calls[c]]
    requires s'.calls[c].ExecConsumed? && s'.calls[c].g.key == k && CallOk(cfg, s', s'.calls[c])
    ensures CallsOk(cfg, s') && CallsApart(s')
  {
    hide CallOk, FormatID;
    MadeKnown(cfg, s);
    forall d | d in s.calls && d != c ensures Around(s, s', s.calls[d]) && Apart(s'.calls[c], s.calls[d]) {
      ConsumeIsAround(s, s', k, s.calls[d]);
    }
    OthersKept(cfg, s, s', c);
  }

  lemma ConsumeIsAround(s: State, s': State, k: Secret, call: Call)
    requires k in s.tokens && s'.tokens == s.tokens[k := s.tokens[k].(consumed := true)]
    requires s'.hist == s.hist && s'.plans == s.plans && s'.idseq == s.idseq
    ensures Around(s, s', call)
  {
    hide FormatID;
  }

  lemma TriedConsumed(cfg: Config, s: State, k: Secret)
    requires AttemptsOk(cfg, s.tokens, s.hist) && k in s.tokens && !s.tokens[k].consumed
    ensures k !in s.hist.tried
  {
  }

  // ---- history steps ----

  lemma CallActionKeepsInv(cfg: Config, s: State, c: nat)
    requires Inv(cfg, s) && StepCallAction(s, c).Some?
    ensures Inv(cfg, StepCallAction(s, c).value)
  {
    hide TokensOk, PlansOk, GrantOk, Within, AttemptsOk, FormatID;
    var s' := StepCallAction(s, c).value;
    var call := s.calls[c];
    assert CallOk(cfg, s, call);
    AttemptsNext(cfg, s.tokens, s.hist, s'.hist, call.g, call.reach);
    OthersKeptByMarks(cfg, s, s', c);
  }

  lemma AttemptsNext(cfg: Config, tokens: Store, h: History, h': History, g: Grant, reach: Reach)
    requires AttemptsOk(cfg, tokens, h) && GrantOk(cfg, tokens, g) && Within(g.s.plan.bound, reach)
    requires h'.attempts == h.attempts + [AttemptWith(g, reach)]
    requires h'.tried == h.tried + [g.key]
    ensures AttemptsOk(cfg, tokens, h')
  {
    GrantFacts(cfg, tokens, g);
    hide GrantOk, Within;
    forall i | 0 <= i < |h'.attempts|
      ensures AttemptOk(cfg, tokens, h'.attempts[i]) && h'.attempts[i].g.key == h'.tried[i]
    {
      if i < |h.attempts| { assert AttemptOk(cfg, tokens, h.attempts[i]); }
    }
  }

  lemma GrantFacts(cfg: Config, tokens: Store, g: Grant)
    requires GrantOk(cfg, tokens, g)
    ensures g.key in tokens && tokens[g.key].consumed
  {
  }

  lemma CompletionEventsOk(tokens: Store, h: History, k: Secret, outcome: string)
    requires EventsOk(tokens, h) && k in h.tried && k !in h.completions
    ensures EventsOk(tokens, h.(completions := h.completions + [k], outcomes := h.outcomes[k := outcome]))
    ensures k !in h.executeKeys
  {
  }

  lemma ActionFailsKeepsInv(cfg: Config, s: State, c: nat, why: string)
    requires Inv(cfg, s) && StepActionReturns(s, c, None, why).Some?
    ensures Inv(cfg, StepActionReturns(s, c, None, why).value)
  {
    hide Inv, GrantOk, RefusalOf;
    var call := s.calls[c];
    var row := RefusalOf(call.g.s.plan.(reach := call.reach), call.g.s.proposer, call.g.approver, why);
    RefuseRowEvent(call.g.s.plan.(reach := call.reach), call.g.s.proposer, call.g.approver, why);
    InvCall(cfg, s, c);
    LocalStepKeepsInv(cfg, s, c, ExecRefusing(call.g, row));
  }

  lemma InvCall(cfg: Config, s: State, c: nat)
    requires Inv(cfg, s) && c in s.calls
    ensures CallOk(cfg, s, s.calls[c])
  {
    hide CallOk, TokensOk, PlansOk, AttemptsOk, EventsOk, CallsApart;
  }

  lemma ActionReturnsKeepsInv(cfg: Config, s: State, c: nat, outcome: Option<string>, why: string)
    requires Inv(cfg, s) && StepActionReturns(s, c, outcome, why).Some?
    ensures Inv(cfg, StepActionReturns(s, c, outcome, why).value)
  {
    hide TokensOk, PlansOk, GrantOk, AttemptsOk, EventsOk, FormatID, StoredOk, Approvable, RefusalOf;
    if outcome == None {
      ActionFailsKeepsInv(cfg, s, c, why);
    } else {
      var s' := StepActionReturns(s, c, outcome, why).value;
      var call := s.calls[c];
      assert CallOk(cfg, s, call);
      CompletionEventsOk(s.tokens, s.hist, call.g.key, outcome.value);
      AttemptsIgnoreMints(cfg, s.tokens, s.hist, s'.hist);
      OthersKeptByMarks(cfg, s, s', c);
    }
  }

  lemma RowEventsOk(tokens: Store, h: History, call: Call, io: RowIO)
    requires EventsOk(tokens, h)
    requires call.ExecCompleted? ==> call.g.key in h.completions && call.g.key !in h.executeKeys
    requires call.ApproveMinted? ==> call.key in tokens && call.key !in h.approveKeys
    ensures EventsOk(tokens, HistoryAfterRow(h, call, io))
  {
  }

  lemma RowCallOk(cfg: Config, s: State, s': State, call: Call, io: RowIO)
    requires CallOk(cfg, s, call) && PendingRow(call).Some? && AllIn(s.hist.successes, s.hist.executeKeys)
    requires s'.tokens == s.tokens && s'.hist == HistoryAfterRow(s.hist, call, io)
    ensures CallOk(cfg, s', AfterRow(call, io == RowWritten))
    ensures call.ExecCompleted? ==> call.g.key in s.hist.completions && call.g.key !in s.hist.executeKeys
    ensures call.ApproveMinted? ==> call.key in s.tokens && call.key !in s.hist.approveKeys
  {
    hide GrantOk, RowOf, StoredOk, Approvable, FormatID, Within;
  }

  lemma RowMarks(h: History, call: Call, io: RowIO)
    requires PendingRow(call).Some?
    ensures var h' := HistoryAfterRow(h, call, io);
            && (forall k | Held(call) != Some(k) :: SameMarks(h, h', k))
            && (forall k | Made(call) != Some(k) :: k in h'.approveKeys ==> k in h.approveKeys)
            && h'.attempts == h.attempts && h'.tried == h.tried && h'.mints == h.mints
    ensures HoldsNoMore(call, AfterRow(call, io == RowWritten))
  {
    hide RowOf;
  }

  lemma WriteRowKeepsInv(cfg: Config, s: State, c: nat, io: RowIO)
    requires Inv(cfg, s) && StepWriteRow(s, c, io).Some?
    ensures Inv(cfg, StepWriteRow(s, c, io).value)
  {
    hide TokensOk, PlansOk, AttemptsOk, PendingRow, AfterRow, HistoryAfterRow, CallOk, SameMarks, HoldsNoMore;
    var s' := StepWriteRow(s, c, io).value;
    var call := s.calls[c];
    RowMarks(s.hist, call, io);
    RowCallOk(cfg, s, s', call, io);
    RowEventsOk(s.tokens, s.hist, call, io);
    hide EventsOk;
    AttemptsIgnoreMints(cfg, s.tokens, s.hist, s'.hist);
    OthersKeptByMarks(cfg, s, s', c);
  }

  lemma NumberExecutionKeepsInv(cfg: Config, s: State, c: nat)
    requires Inv(cfg, s) && StepNumberExecution(s, c).Some?
    ensures Inv(cfg, StepNumberExecution(s, c).value)
  {
    hide TokensOk, StoredOk, GrantOk, AttemptsOk, FormatID, Approvable, Within;
    var s' := StepNumberExecution(s, c).value;
    assert CallOk(cfg, s, s.calls[c]);
    AttemptsIgnoreMints(cfg, s.tokens, s.hist, s'.hist);
    forall id | id in s.plans ensures NumberedID(id, s'.idseq) {
      assert NumberedID(id, s.idseq);
    }
    OthersKeptByMarks(cfg, s, s', c);
  }

  // ---- runs ----

  lemma InitialInv(cfg: Config)
    ensures Inv(cfg, INITIAL)
  {
  }

  lemma StepKeepsInv(cfg: Config, s: State, l: Label)
    requires Inv(cfg, s) && Step(cfg, s, l).Some?
    ensures Inv(cfg, Step(cfg, s, l).value)
  {
    hide Inv;
    match l
    case Begin(c, req) => BeginKeepsInv(cfg, s, c, req);
    case ResolvePlan(_, _, _, _) => ResolvePlanKeepsInv(cfg, s, l);
    case NumberPlan(c, now) => NumberPlanKeepsInv(cfg, s, c, now);
    case StorePlan(c) => StorePlanKeepsInv(cfg, s, c);
    case Lookup(c, why) => LookupKeepsInv(cfg, s, c, why);
    case MintToken(c, random, now) => MintKeepsInv(cfg, s, c, random, now);
    case ConsumeToken(c, now, why) => ConsumeKeepsInv(cfg, s, c, now, why);
    case ResolveExec(c, live, why) => ResolveExecKeepsInv(cfg, s, c, live, why);
    case CallAction(c) => CallActionKeepsInv(cfg, s, c);
    case ActionReturns(c, outcome, why) => ActionReturnsKeepsInv(cfg, s, c, outcome, why);
    case WriteRow(c, io) => WriteRowKeepsInv(cfg, s, c, io);
    case NumberExecution(c) => NumberExecutionKeepsInv(cfg, s, c);
  }

  lemma {:induction false} RunKeepsInv(cfg: Config, s: State, ls: seq<Label>)
    requires Inv(cfg, s) && Run(cfg, s, ls).Some?
    ensures Inv(cfg, Run(cfg, s, ls).value)
    decreases |ls|
  {
    hide Inv, Step;
    if ls != [] {
      StepKeepsInv(cfg, s, ls[0]);
      RunKeepsInv(cfg, Step(cfg, s, ls[0]).value, ls[1..]);
    }
  }
}
