/** The results about the protocol: over every run, in every interleaving. */
module ProtocolTheorems {
  import opened Options
  import opened Blast
  import opened Plans
  import opened Tokens
  import opened Source
  import opened Protocol
  import opened ProtocolSafety

  // ---- what was executed had been approved ----

  /**
    The action is called at most once for a token. That token was consumed no
    later than its mint time plus the TTL; it was minted for an executable plan,
    within its bound, whose proposer and approver passed the separation of duties;
    the reach resolved in the same call is within the bound; and what was run has
    the content of the plan that was approved, or the two plans collide.
  */
  lemma AttemptsWereApproved(cfg: Config, ls: seq<Label>)
    requires Run(cfg, INITIAL, ls).Some?
    ensures var s := Run(cfg, INITIAL, ls).value;
            && (forall i, j | 0 <= i < j < |s.hist.attempts| :: s.hist.attempts[i].g.key != s.hist.attempts[j].g.key)
            && forall a | a in s.hist.attempts :: a.g.key in s.hist.mints && Approved(cfg, s.hist.mints[a.g.key], a)
  {
    hide Run, Approved, TokenOk, PlansOk, EventsOk, CallsOk, CallsApart, AttemptOk;
    InitialInv(cfg);
    RunKeepsInv(cfg, INITIAL, ls);
    var s := Run(cfg, INITIAL, ls).value;
    forall i, j | 0 <= i < j < |s.hist.attempts|
      ensures s.hist.attempts[i].g.key != s.hist.attempts[j].g.key
    {
      DistinctAt(s.tokens, s.hist, i, j);
    }
    forall a | a in s.hist.attempts
      ensures a.g.key in s.hist.mints && Approved(cfg, s.hist.mints[a.g.key], a)
    {
      var i :| 0 <= i < |s.hist.attempts| && s.hist.attempts[i] == a;
      assert AttemptOk(cfg, s.tokens, a);
      AttemptHasToken(cfg, s.tokens, a);
      AttemptApproved(cfg, s.tokens[a.g.key], s.hist.mints[a.g.key], s.tokens, a);
    }
  }

  ghost predicate Approved(cfg: Config, m: MintEvent, a: Attempt) {
    && a.g.at <= m.at + cfg.ttl
    && Within(m.s.plan.bound, m.s.plan.reach)
    && m.s.plan.verdict != BLOCK
    && CheckSoD(cfg.fold, m.s.proposer, m.approver, m.human) == None
    && a.g.approver == m.approver
    && Within(a.g.s.plan.bound, a.reach)
    && ((SameContent(a.g.s.plan, m.s.plan) && Within(m.s.plan.bound, a.reach) && a.action == m.s.plan.action
         && CanonicalParams(a.params) == CanonicalParams(m.s.plan.params))
        || PlansCollide(cfg.h, a.g.s.plan, m.s.plan))
  }

  lemma DistinctAt(tokens: Store, h: History, i: nat, j: nat)
    requires EventsOk(tokens, h) && i < j < |h.tried|
    ensures h.tried[i] != h.tried[j]
  {
  }

  lemma AttemptHasToken(cfg: Config, tokens: Store, a: Attempt)
    requires AttemptOk(cfg, tokens, a)
    ensures a.g.key in tokens
  {
    hide StoredOk, Within;
  }

  lemma AttemptApproved(cfg: Config, t: Token, m: MintEvent, tokens: Store, a: Attempt)
    requires AttemptOk(cfg, tokens, a) && a.g.key in tokens && tokens[a.g.key] == t && TokenOk(cfg, t, m)
    ensures Approved(cfg, m, a)
  {
    hide CheckSoD, PlanHash, SameContent, PlansCollide, VerdictOf;
    PlanHashPinsContent(cfg.h, a.g.s.plan, m.s.plan);
    if SameContent(a.g.s.plan, m.s.plan) { ContentFacts(a.g.s.plan, m.s.plan); }
  }

  lemma ContentFacts(p: Plan, q: Plan)
    requires SameContent(p, q)
    ensures p.action == q.action && p.bound == q.bound && CanonicalParams(p.params) == CanonicalParams(q.params)
  {
  }

  /** A matched set naming two different services is behind no approval and no action call. */
  lemma NoTwoServicesRun(cfg: Config, ls: seq<Label>, cs: seq<Container>, inventory: int, wild: int,
                         x: Container, y: Container)
    requires Run(cfg, INITIAL, ls).Some?
    requires x in cs && y in cs && x.service != "" && y.service != "" && x.service != y.service
    ensures var s := Run(cfg, INITIAL, ls).value;
            var r := ReachSpec(cs, inventory, wild);
            && (forall a | a in s.hist.attempts :: a.reach != r)
            && (forall k | k in s.hist.mints :: s.hist.mints[k].s.plan.reach != r)
  {
    hide Run, TokenOk, PlansOk, EventsOk, CallsOk, CallsApart, AttemptOk, AttemptsOk, Approved;
    InitialInv(cfg);
    RunKeepsInv(cfg, INITIAL, ls);
    AttemptsWereApproved(cfg, ls);
    var s := Run(cfg, INITIAL, ls).value;
    var r := ReachSpec(cs, inventory, wild);
    forall a | a in s.hist.attempts ensures a.reach != r {
      ApprovedWithin(cfg, s.hist.mints[a.g.key], a);
      TwoServicesAreNeverWithin(cs, inventory, wild, a.g.s.plan.bound, x, y);
    }
    forall k | k in s.hist.mints ensures s.hist.mints[k].s.plan.reach != r {
      assert TokenOk(cfg, s.tokens[k], s.hist.mints[k]);
      MintedWithin(cfg, s.tokens[k], s.hist.mints[k]);
      TwoServicesAreNeverWithin(cs, inventory, wild, s.hist.mints[k].s.plan.bound, x, y);
    }
  }

  lemma ApprovedWithin(cfg: Config, m: MintEvent, a: Attempt)
    requires Approved(cfg, m, a)
    ensures Within(a.g.s.plan.bound, a.reach)
  {
    hide CheckSoD, SameContent, PlansCollide;
  }

  lemma MintedWithin(cfg: Config, t: Token, m: MintEvent)
    requires TokenOk(cfg, t, m)
    ensures Within(m.s.plan.bound, m.s.plan.reach)
  {
    hide CheckSoD, PlanHash, VerdictOf;
  }

  // ---- stored plans ----

  /** A rendered plan may be approved exactly when its reach is within its bound, under every mode setting. */
  lemma RenderedExecutableIff(cfg: Config, req: Request, reach: Reach, target: string, n: nat, now: int)
    requires req.PlanRequest?
    ensures Executable(RenderPlan(cfg, req, reach, target, n, now)) <==> Within(req.bound, reach)
  {
    if Within(req.bound, reach) { WithinIsAllowed(req.bound, reach, cfg.enforcement); }
  }

  /** So it is with every plan stored in any run. */
  lemma StoredExecutableIff(cfg: Config, ls: seq<Label>)
    requires Run(cfg, INITIAL, ls).Some?
    ensures var s := Run(cfg, INITIAL, ls).value;
            forall id | id in s.plans ::
              Executable(s.plans[id].plan) <==> Within(s.plans[id].plan.bound, s.plans[id].plan.reach)
  {
    hide Run, TokensOk, AttemptsOk, EventsOk, CallsOk, CallsApart, PlanHash, Within, VerdictOf;
    InitialInv(cfg);
    RunKeepsInv(cfg, INITIAL, ls);
    var s := Run(cfg, INITIAL, ls).value;
    forall id | id in s.plans
      ensures Executable(s.plans[id].plan) <==> Within(s.plans[id].plan.bound, s.plans[id].plan.reach)
    {
      var p := s.plans[id].plan;
      assert StoredOk(cfg, s.plans[id]);
      if Within(p.bound, p.reach) { WithinIsAllowed(p.bound, p.reach, cfg.enforcement); }
    }
  }

  /** A number a call has drawn names no stored plan. */
  lemma DrawnIDIsUnused(cfg: Config, ls: seq<Label>, c: nat)
    requires Run(cfg, INITIAL, ls).Some?
    requires var s := Run(cfg, INITIAL, ls).value; c in s.calls && s.calls[c].PlanNumbered?
    ensures var s := Run(cfg, INITIAL, ls).value; FormatID("pln", s.calls[c].n) !in s.plans
  {
    hide Run, TokensOk, PlansOk, AttemptsOk, EventsOk, CallsApart, FormatID;
    InitialInv(cfg);
    RunKeepsInv(cfg, INITIAL, ls);
    var s := Run(cfg, INITIAL, ls).value;
    assert CallOk(cfg, s, s.calls[c]);
  }

  lemma StepKeepsPlans(cfg: Config, s: State, l: Label)
    requires Inv(cfg, s) && Step(cfg, s, l).Some?
    ensures var s' := Step(cfg, s, l).value;
            forall id | id in s.plans :: id in s'.plans && s'.plans[id] == s.plans[id]
  {
    hide RenderPlan, FormatID, TokensOk, PlansOk, AttemptsOk, EventsOk, CallsApart, RowOf, CheckSoD;
    if l.StorePlan? {
      var k := s.calls[l.c];
      assert CallOk(cfg, s, k);
      RenderedOk(cfg, k.req, k.reach, k.target, k.n, k.now);
    }
  }

  lemma {:induction false} RunKeepsPlans(cfg: Config, s: State, ls: seq<Label>)
    requires Inv(cfg, s) && Run(cfg, s, ls).Some?
    ensures var s' := Run(cfg, s, ls).value;
            forall id | id in s.plans :: id in s'.plans && s'.plans[id] == s.plans[id]
    decreases |ls|
  {
    hide Inv, Step;
    if ls != [] {
      var s1 := Step(cfg, s, ls[0]).value;
      StepKeepsInv(cfg, s, ls[0]);
      StepKeepsPlans(cfg, s, ls[0]);
      RunKeepsPlans(cfg, s1, ls[1..]);
    }
  }

  lemma {:induction false} RunConcat(cfg: Config, s: State, xs: seq<Label>, ys: seq<Label>)
    ensures Run(cfg, s, xs + ys) == if Run(cfg, s, xs).Some? then Run(cfg, Run(cfg, s, xs).value, ys) else None
    decreases |xs|
  {
    hide Step;
    if xs == [] {
      assert xs + ys == ys;
    } else {
      assert (xs + ys)[0] == xs[0] && (xs + ys)[1..] == xs[1..] + ys;
      if Step(cfg, s, xs[0]).Some? { RunConcat(cfg, Step(cfg, s, xs[0]).value, xs[1..], ys); }
    }
  }

  /**
    Stored plans are immutable: whatever runs on, an id keeps its plan and its
    proposer, under its own id and with the hash of its own fields; and two ids
    with one hash store the same content, or collide.
  */
  lemma PlansAreImmutable(cfg: Config, ls: seq<Label>, more: seq<Label>)
    requires Run(cfg, INITIAL, ls).Some? && Run(cfg, INITIAL, ls + more).Some?
    ensures var s, s' := Run(cfg, INITIAL, ls).value, Run(cfg, INITIAL, ls + more).value;
            && (forall id | id in s.plans :: id in s'.plans && s'.plans[id] == s.plans[id])
            && (forall id | id in s'.plans ::
                  s'.plans[id].plan.planID == id && s'.plans[id].plan.planHash == PlanHash(cfg.h, s'.plans[id].plan))
            && (forall i, j |
                  i in s'.plans && j in s'.plans && s'.plans[i].plan.planHash == s'.plans[j].plan.planHash ::
                  || SameContent(s'.plans[i].plan, s'.plans[j].plan)
                  || PlansCollide(cfg.h, s'.plans[i].plan, s'.plans[j].plan))
  {
    hide Run, TokensOk, AttemptsOk, EventsOk, CallsOk, CallsApart, PlanHash, SameContent, PlansCollide, VerdictOf;
    InitialInv(cfg);
    RunKeepsInv(cfg, INITIAL, ls);
    RunConcat(cfg, INITIAL, ls, more);
    RunKeepsPlans(cfg, Run(cfg, INITIAL, ls).value, more);
    RunKeepsInv(cfg, INITIAL, ls + more);
    var s' := Run(cfg, INITIAL, ls + more).value;
    forall id | id in s'.plans
      ensures s'.plans[id].plan.planID == id && s'.plans[id].plan.planHash == PlanHash(cfg.h, s'.plans[id].plan)
    {
      assert StoredOk(cfg, s'.plans[id]);
    }
    forall i, j | i in s'.plans && j in s'.plans && s'.plans[i].plan.planHash == s'.plans[j].plan.planHash
      ensures SameContent(s'.plans[i].plan, s'.plans[j].plan) || PlansCollide(cfg.h, s'.plans[i].plan, s'.plans[j].plan)
    {
      PlanHashPinsContent(cfg.h, s'.plans[i].plan, s'.plans[j].plan);
    }
  }
}
