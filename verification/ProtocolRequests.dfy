/** What was asked for: every plan, approval and execution of a run goes back to a request begun in it. */
module ProtocolRequests {
  import opened Options
  import opened Blast
  import opened Records
  import opened Plans
  import opened Tokens
  import opened Protocol
  import opened ProtocolSafety
  import opened ProtocolTheorems
  import opened ProtocolRuns

  // ---- what the labels of a run tell of a call ----

  ghost predicate Resolved(ls: seq<Label>, c: nat, reach: Reach, target: string) {
    exists why :: ResolvePlan(c, true, Some((reach, target)), why) in ls
  }

  ghost predicate Rechecked(ls: seq<Label>, c: nat, reach: Reach) {
    exists why :: ResolveExec(c, Some(reach), why) in ls
  }

  /** A well-formed request to plan a known action, begun as this call. */
  ghost predicate Asked(cfg: Config, ls: seq<Label>, c: nat, req: Request) {
    && req.PlanRequest? && Begin(c, req) in ls && req.action in cfg.registry
    && req.dormant == [] && req.bound.service != "" && req.bound.maxHosts >= 0 && 0 <= req.bound.fleetPct <= 100
  }

  ghost predicate CallTold(cfg: Config, ls: seq<Label>, c: nat, call: Call) {
    match call
    case Started(req) => Begin(c, req) in ls
    case PlanResolved(req, reach, target) => Asked(cfg, ls, c, req) && Resolved(ls, c, reach, target)
    case PlanNumbered(req, reach, target, _, now) =>
      Asked(cfg, ls, c, req) && Resolved(ls, c, reach, target) && NumberPlan(c, now) in ls
    case ExecResolved(_, reach) => Rechecked(ls, c, reach)
    case _ => true
  }

  /** The plan says, field by field, what a request of the run asked for, on what its call resolved. */
  ghost predicate PlanTold(cfg: Config, ls: seq<Label>, st: Stored) {
    exists c, req, reach, target, now :: ToldBy(cfg, ls, st, c, req, reach, target, now)
  }

  ghost predicate ToldBy(cfg: Config, ls: seq<Label>, st: Stored, c: nat, req: Request, reach: Reach, target: string,
                         now: int) {
    && Asked(cfg, ls, c, req) && Resolved(ls, c, reach, target) && NumberPlan(c, now) in ls
    && st.proposer == req.proposer && PlanSays(cfg, st.plan, req, reach, target, now)
  }

  /** The plan an approving or executing call holds. */
  function HeldPlan(call: Call): Option<Stored> {
    match call
    case ApproveFound(_, st) => Some(st)
    case ApproveMinted(_, st, _) => Some(st)
    case ExecFound(_, st) => Some(st)
    case ExecConsumed(g) => Some(g.s)
    case ExecResolved(g, _) => Some(g.s)
    case _ => None
  }

  ghost predicate StoredIn(s: State, st: Stored) {
    st.plan.planID in s.plans && s.plans[st.plan.planID] == st
  }

  ghost predicate CallsTold(cfg: Config, ls: seq<Label>, s: State) {
    forall c | c in s.calls :: CallTold(cfg, ls, c, s.calls[c])
  }

  ghost predicate PlansTold(cfg: Config, ls: seq<Label>, s: State) {
    forall id | id in s.plans :: PlanTold(cfg, ls, s.plans[id])
  }

  /** What calls hold, tokens were minted for and actions were called with is all stored. */
  ghost predicate AllStored(s: State) {
    && (forall c | c in s.calls :: HeldPlan(s.calls[c]).Some? ==> StoredIn(s, HeldPlan(s.calls[c]).value))
    && (forall k | k in s.hist.mints :: StoredIn(s, s.hist.mints[k].s))
    && (forall a | a in s.hist.attempts :: StoredIn(s, a.g.s))
  }

  ghost predicate AttemptsRechecked(ls: seq<Label>, s: State) {
    forall a | a in s.hist.attempts :: exists c :: Rechecked(ls, c, a.reach)
  }

  ghost predicate Told(cfg: Config, ls: seq<Label>, s: State) {
    CallsTold(cfg, ls, s) && PlansTold(cfg, ls, s) && AllStored(s) && AttemptsRechecked(ls, s)
  }

  // ---- it stays told ----

  lemma CallStaysTold(cfg: Config, ls: seq<Label>, l: Label, c: nat, call: Call)
    requires CallTold(cfg, ls, c, call)
    ensures CallTold(cfg, ls + [l], c, call)
  {
    var ls' := ls + [l];
    assert forall x | x in ls :: x in ls';
    match call
    case PlanResolved(_, reach, target) =>
      var why :| ResolvePlan(c, true, Some((reach, target)), why) in ls;
      assert ResolvePlan(c, true, Some((reach, target)), why) in ls';
    case PlanNumbered(_, reach, target, _, _) =>
      var why :| ResolvePlan(c, true, Some((reach, target)), why) in ls;
      assert ResolvePlan(c, true, Some((reach, target)), why) in ls';
    case ExecResolved(_, reach) =>
      RecheckStaysTold(ls, l, c, reach);
    case _ =>
  }

  lemma RecheckStaysTold(ls: seq<Label>, l: Label, c: nat, reach: Reach)
    requires Rechecked(ls, c, reach)
    ensures Rechecked(ls + [l], c, reach)
  {
    var why :| ResolveExec(c, Some(reach), why) in ls;
    assert ResolveExec(c, Some(reach), why) in ls + [l];
  }

  lemma PlanStaysTold(cfg: Config, ls: seq<Label>, l: Label, st: Stored)
    requires PlanTold(cfg, ls, st)
    ensures PlanTold(cfg, ls + [l], st)
  {
    hide PlanSays;
    var c, req, reach, target, now :| ToldBy(cfg, ls, st, c, req, reach, target, now);
    CallStaysTold(cfg, ls, l, c, PlanNumbered(req, reach, target, 0, now));
    assert ToldBy(cfg, ls + [l], st, c, req, reach, target, now);
  }

  lemma NumberedIsTold(cfg: Config, ls: seq<Label>, c: nat, call: Call)
    requires call.PlanNumbered? && call.req.PlanRequest? && CallTold(cfg, ls, c, call)
    ensures var plan := RenderPlan(cfg, call.req, call.reach, call.target, call.n, call.now);
            PlanTold(cfg, ls, Stored(plan, call.req.proposer))
  {
    hide RenderPlan, PlanSays;
    RenderedSays(cfg, call.req, call.reach, call.target, call.n, call.now);
    var plan := RenderPlan(cfg, call.req, call.reach, call.target, call.n, call.now);
    assert ToldBy(cfg, ls, Stored(plan, call.req.proposer), c, call.req, call.reach, call.target, call.now);
  }

  // ---- what one step does ----

  lemma OneCallMoves(cfg: Config, s: State, l: Label)
    requires Step(cfg, s, l).Some?
    ensures var s' := Step(cfg, s, l).value;
            && l.c in s'.calls && s'.calls.Keys == s.calls.Keys + {l.c}
            && forall d | d in s.calls && d != l.c :: s'.calls[d] == s.calls[d]
  {
    hide RenderPlan, RowOf, RefusalOf, CheckSoD, VerdictOf, Within, FormatID, PendingRow, AfterRow, Executable, Consume;
  }

  /** The steps whose label tells something of their call. */
  predicate Telling(l: Label) { l.Begin? || l.ResolvePlan? || l.NumberPlan? || l.ResolveExec? }

  lemma OtherStepsTellNothing(cfg: Config, ls: seq<Label>, s: State, l: Label)
    requires Step(cfg, s, l).Some? && !Telling(l)
    ensures l.c in Step(cfg, s, l).value.calls && CallTold(cfg, ls, l.c, Step(cfg, s, l).value.calls[l.c])
  {
    hide RenderPlan, RowOf, RefusalOf, CheckSoD, FormatID, Executable, Consume, Asked, Resolved, Rechecked;
    hide StepResolvePlan, StepNumberPlan, StepResolveExec;
  }

  /** The call that moves is told by its new label. */
  lemma MovedCallTold(cfg: Config, ls: seq<Label>, s: State, l: Label)
    requires CallsTold(cfg, ls, s) && Step(cfg, s, l).Some?
    ensures l.c in Step(cfg, s, l).value.calls && CallTold(cfg, ls + [l], l.c, Step(cfg, s, l).value.calls[l.c])
  {
    if Telling(l) {
      hide RefusalOf, RefuseRow, VerdictOf, Within;
      hide StepStorePlan, StepLookup, StepMint, StepConsume, StepCallAction, StepActionReturns, StepWriteRow,
           StepNumberExecution;
      assert l in ls + [l];
      if l.c in s.calls {
        assert CallTold(cfg, ls, l.c, s.calls[l.c]);
        CallStaysTold(cfg, ls, l, l.c, s.calls[l.c]);
      }
    } else {
      hide Step, CallTold;
      OtherStepsTellNothing(cfg, ls + [l], s, l);
    }
  }

  lemma CallsStayTold(cfg: Config, ls: seq<Label>, s: State, l: Label)
    requires CallsTold(cfg, ls, s) && Step(cfg, s, l).Some?
    ensures CallsTold(cfg, ls + [l], Step(cfg, s, l).value)
  {
    OneCallMoves(cfg, s, l);
    MovedCallTold(cfg, ls, s, l);
    hide Step, CallTold;
    var s' := Step(cfg, s, l).value;
    forall c | c in s'.calls ensures CallTold(cfg, ls + [l], c, s'.calls[c]) {
      if c != l.c { CallStaysTold(cfg, ls, l, c, s.calls[c]); }
    }
  }

  lemma PlansStayTold(cfg: Config, ls: seq<Label>, s: State, l: Label)
    requires CallsTold(cfg, ls, s) && PlansTold(cfg, ls, s) && Step(cfg, s, l).Some?
    ensures PlansTold(cfg, ls + [l], Step(cfg, s, l).value)
  {
    hide RenderPlan, PlanTold, CallTold, RowOf, CheckSoD, VerdictOf, Within, FormatID;
    var s' := Step(cfg, s, l).value;
    if l.StorePlan? {
      NumberedIsTold(cfg, ls, l.c, s.calls[l.c]);
    }
    forall id | id in s'.plans ensures PlanTold(cfg, ls + [l], s'.plans[id]) {
      PlanStaysTold(cfg, ls, l, s'.plans[id]);
    }
  }

  lemma OtherStepsHoldOn(cfg: Config, s: State, l: Label)
    requires Step(cfg, s, l).Some? && !l.Lookup?
    ensures var s' := Step(cfg, s, l).value;
            l.c in s'.calls && (HeldPlan(s'.calls[l.c]).Some? ==>
              l.c in s.calls && HeldPlan(s.calls[l.c]) == HeldPlan(s'.calls[l.c]))
  {
    hide RenderPlan, RowOf, RefusalOf, CheckSoD, VerdictOf, Within, FormatID, Executable, Consumable, AfterConsume,
         StepLookup;
  }

  /** A call holds what it held, or what it has just found among the plans. */
  lemma HeldIsStored(cfg: Config, s: State, l: Label)
    requires Inv(cfg, s) && AllStored(s) && Step(cfg, s, l).Some?
    ensures var s' := Step(cfg, s, l).value;
            l.c in s'.calls && (HeldPlan(s'.calls[l.c]).Some? ==> StoredIn(s, HeldPlan(s'.calls[l.c]).value))
  {
    if l.Lookup? {
      LookupFinds(cfg, s, l.c, l.why);
    } else {
      OtherStepsHoldOn(cfg, s, l);
      hide Inv, Step, HeldPlan, StoredIn;
    }
  }

  lemma LookupFinds(cfg: Config, s: State, c: nat, why: string)
    requires Inv(cfg, s) && StepLookup(cfg, s, c, why).Some?
    ensures var s' := StepLookup(cfg, s, c, why).value;
            c in s'.calls && (HeldPlan(s'.calls[c]).Some? ==> StoredIn(s, HeldPlan(s'.calls[c]).value))
  {
    hide TokensOk, AttemptsOk, EventsOk, CallsOk, CallsApart, StoredOk, RefusalOf, CheckSoD, Executable;
  }

  /** Tokens are minted for, and actions called with, what the call held. */
  lemma ActsOnHeld(cfg: Config, s: State, l: Label)
    requires Step(cfg, s, l).Some?
    ensures var s' := Step(cfg, s, l).value;
            && (forall k | k in s'.hist.mints ::
                  (k in s.hist.mints && s'.hist.mints[k] == s.hist.mints[k])
                  || (l.c in s.calls && HeldPlan(s.calls[l.c]) == Some(s'.hist.mints[k].s)))
            && (forall a | a in s'.hist.attempts ::
                  a in s.hist.attempts || (l.c in s.calls && HeldPlan(s.calls[l.c]) == Some(a.g.s)))
  {
    hide RenderPlan, RowOf, RefusalOf, CheckSoD, VerdictOf, Within, FormatID, PendingRow, AfterRow, Executable, Consume;
  }

  lemma AllStayStored(cfg: Config, s: State, l: Label)
    requires Inv(cfg, s) && AllStored(s) && Step(cfg, s, l).Some?
    ensures AllStored(Step(cfg, s, l).value)
  {
    hide Inv, Step, HeldPlan, StoredIn;
    OneCallMoves(cfg, s, l);
    HeldIsStored(cfg, s, l);
    ActsOnHeld(cfg, s, l);
    StepKeepsPlans(cfg, s, l);
    var s' := Step(cfg, s, l).value;
    StoredStays(s, s');
    forall c | c in s'.calls && HeldPlan(s'.calls[c]).Some? ensures StoredIn(s', HeldPlan(s'.calls[c]).value) {
      assert StoredIn(s, HeldPlan(s'.calls[c]).value);
    }
    forall k | k in s'.hist.mints ensures StoredIn(s', s'.hist.mints[k].s) {
      assert StoredIn(s, s'.hist.mints[k].s);
    }
    forall a | a in s'.hist.attempts ensures StoredIn(s', a.g.s) {
      assert StoredIn(s, a.g.s);
    }
  }

  lemma StoredStays(s: State, s': State)
    requires forall id | id in s.plans :: id in s'.plans && s'.plans[id] == s.plans[id]
    ensures forall st | StoredIn(s, st) :: StoredIn(s', st)
  {
  }

  lemma AttemptsStayRechecked(cfg: Config, ls: seq<Label>, s: State, l: Label)
    requires CallsTold(cfg, ls, s) && AttemptsRechecked(ls, s) && Step(cfg, s, l).Some?
    ensures AttemptsRechecked(ls + [l], Step(cfg, s, l).value)
  {
    hide RenderPlan, RowOf, CheckSoD, VerdictOf, Within, FormatID, Rechecked;
    var s' := Step(cfg, s, l).value;
    if l.CallAction? { assert CallTold(cfg, ls, l.c, s.calls[l.c]); }
    forall a | a in s'.hist.attempts ensures exists c :: Rechecked(ls + [l], c, a.reach) {
      var c :| Rechecked(ls, c, a.reach);
      RecheckStaysTold(ls, l, c, a.reach);
    }
  }

  lemma StepKeepsTold(cfg: Config, ls: seq<Label>, s: State, l: Label)
    requires Inv(cfg, s) && Told(cfg, ls, s) && Step(cfg, s, l).Some?
    ensures Told(cfg, ls + [l], Step(cfg, s, l).value)
  {
    hide Inv, Step, CallsTold, PlansTold, AllStored, AttemptsRechecked;
    CallsStayTold(cfg, ls, s, l);
    PlansStayTold(cfg, ls, s, l);
    AllStayStored(cfg, s, l);
    AttemptsStayRechecked(cfg, ls, s, l);
  }

  lemma {:induction false} RunIsTold(cfg: Config, ls: seq<Label>)
    requires Run(cfg, INITIAL, ls).Some?
    ensures Told(cfg, ls, Run(cfg, INITIAL, ls).value)
    decreases |ls|
  {
    if ls != [] {
      hide Step, Inv, Told;
      var n := |ls| - 1;
      var l := ls[n];
      assert ls == ls[..n] + [l];
      RunConcat(cfg, INITIAL, ls[..n], [l]);
      RunAppend(cfg, INITIAL, ls[..n], l);
      RunIsTold(cfg, ls[..n]);
      InitialInv(cfg);
      RunKeepsInv(cfg, INITIAL, ls[..n]);
      StepKeepsTold(cfg, ls[..n], Run(cfg, INITIAL, ls[..n]).value, l);
    }
  }

  // ---- the results ----

  /** What was run is what a request asked for, on a reach resolved for the call and within that request's bound. */
  ghost predicate RunAsAsked(cfg: Config, ls: seq<Label>, a: Attempt) {
    exists c, req, reach, target, now ::
      ToldBy(cfg, ls, a.g.s, c, req, reach, target, now) && RanAs(a, req)
  }

  ghost predicate RanAs(a: Attempt, req: Request) {
    req.PlanRequest? && a.action == req.action && a.params == req.params && Within(req.bound, a.reach)
  }

  lemma AttemptAsAsked(cfg: Config, ls: seq<Label>, tokens: Store, a: Attempt)
    requires AttemptOk(cfg, tokens, a) && PlanTold(cfg, ls, a.g.s)
    ensures RunAsAsked(cfg, ls, a)
  {
    hide GrantOk, Within, VerdictOf, Resolved;
    var c, req, reach, target, now :| ToldBy(cfg, ls, a.g.s, c, req, reach, target, now);
    assert RanAs(a, req);
  }

  /**
    In every interleaving: each stored plan says, field by field, what a
    well-formed request of the run asked for, on the reach and target resolved for
    its call; tokens are minted for such plans; and each action call ran the action
    and the params that such a request gave, on a reach resolved for an Execute.
  */
  lemma RunsDoWhatWasAsked(cfg: Config, ls: seq<Label>)
    requires Run(cfg, INITIAL, ls).Some?
    ensures var s := Run(cfg, INITIAL, ls).value;
            && (forall id | id in s.plans :: PlanTold(cfg, ls, s.plans[id]))
            && (forall k | k in s.hist.mints :: PlanTold(cfg, ls, s.hist.mints[k].s))
            && (forall a | a in s.hist.attempts :: RunAsAsked(cfg, ls, a) && exists c :: Rechecked(ls, c, a.reach))
  {
    RunIsTold(cfg, ls);
    InitialInv(cfg);
    RunKeepsInv(cfg, INITIAL, ls);
    hide Run, PlanTold, RunAsAsked, Rechecked, CallsTold, TokensOk, PlansOk, EventsOk, CallsOk, CallsApart, AttemptOk;
    var s := Run(cfg, INITIAL, ls).value;
    forall a | a in s.hist.attempts ensures RunAsAsked(cfg, ls, a) {
      var i :| 0 <= i < |s.hist.attempts| && s.hist.attempts[i] == a;
      assert AttemptOk(cfg, s.tokens, s.hist.attempts[i]) && StoredIn(s, a.g.s);
      AttemptAsAsked(cfg, ls, s.tokens, a);
    }
  }
}
