/**
  Runs that exist: an approved plan can be executed, and so can any other plan
  with the same content, whoever proposed it.
*/
module ProtocolRuns {
  import opened Options
  import opened Blast
  import opened Records
  import opened Chain
  import opened Plans
  import opened Tokens
  import opened Protocol
  import opened ProtocolSafety
  import opened ProtocolTheorems

  lemma RunOne(cfg: Config, s: State, l: Label)
    ensures Run(cfg, s, [l]) == Step(cfg, s, l)
  {
    hide Step;
    if Step(cfg, s, l).Some? {
      assert [l][1..] == [];
      assert Run(cfg, Step(cfg, s, l).value, []) == Step(cfg, s, l);
    }
  }

  lemma RunAppend(cfg: Config, s: State, ls: seq<Label>, l: Label)
    requires Run(cfg, s, ls).Some?
    ensures Run(cfg, s, ls + [l]) == Step(cfg, Run(cfg, s, ls).value, l)
  {
    hide Step;
    RunConcat(cfg, s, ls, [l]);
    RunOne(cfg, Run(cfg, s, ls).value, l);
  }

  /** A well-formed request whose target resolves is rendered and stored under a new id. */
  lemma PlanCallStores(cfg: Config, s: State, c: nat, req: Request, reach: Reach, target: string, now: int)
    returns (ls: seq<Label>)
    requires c !in s.calls && req.PlanRequest? && req.action in cfg.registry && DeclaredOk(req.bound, req.dormant)
    requires s.idseq + 1 < TWO_TO_THE_64
    ensures var st := Stored(RenderPlan(cfg, req, reach, target, s.idseq + 1, now), req.proposer);
            Run(cfg, s, ls) == Some(s.(idseq := s.idseq + 1, plans := s.plans[st.plan.planID := st],
                                       calls := s.calls[c := PlanStored(st)]))
  {
    hide RenderPlan;
    hide StepLookup, StepMint, StepConsume, StepResolveExec, StepCallAction, StepActionReturns, StepWriteRow,
         StepNumberExecution;
    ls := [Begin(c, req)];
    RunOne(cfg, s, ls[0]);
    RunAppend(cfg, s, ls, ResolvePlan(c, true, Some((reach, target)), ""));
    ls := ls + [ResolvePlan(c, true, Some((reach, target)), "")];
    RunAppend(cfg, s, ls, NumberPlan(c, now));
    ls := ls + [NumberPlan(c, now)];
    RunAppend(cfg, s, ls, StorePlan(c));
    ls := ls + [StorePlan(c)];
    assert s.calls[c := PlanStored(Stored(RenderPlan(cfg, req, reach, target, s.idseq + 1, now), req.proposer))]
        == Run(cfg, s, ls).value.calls;
  }

  lemma ApproveCallMints(cfg: Config, s: State, c: nat, req: Request, st: Stored, secret: Secret, now: int)
    returns (ls: seq<Label>)
    requires c !in s.calls && req.ApproveRequest? && req.planID in s.plans && st == s.plans[req.planID]
    requires req.planHash == st.plan.planHash != "" && Executable(st.plan)
    requires CheckSoD(cfg.fold, st.proposer, req.approver, req.human) == None
    requires |secret| == SECRET_BYTES && cfg.keyOf(secret) !in s.tokens
    ensures var k := cfg.keyOf(secret);
            Run(cfg, s, ls) ==
            Some(s.(tokens := s.tokens[k := Minted(st.plan.planHash, st.proposer, req.approver, cfg.ttl, now)],
                    calls := s.calls[c := ApproveMinted(req, st, k)],
                    hist := s.hist.(mints := s.hist.mints[k := MintEvent(st, req.approver, req.human, now)])))
  {
    hide RowOf, CheckSoD, Executable;
    hide StepResolvePlan, StepNumberPlan, StepStorePlan, StepConsume, StepResolveExec, StepCallAction,
         StepActionReturns, StepWriteRow, StepNumberExecution;
    ls := [Begin(c, req)];
    RunOne(cfg, s, ls[0]);
    RunAppend(cfg, s, ls, Lookup(c, ""));
    ls := ls + [Lookup(c, "")];
    RunAppend(cfg, s, ls, MintToken(c, Some(secret), now));
    ls := ls + [MintToken(c, Some(secret), now)];
    assert Run(cfg, s, ls).value.calls == s.calls[c := ApproveMinted(req, st, cfg.keyOf(secret))];
  }

  /** An executable plan approved by someone the separation of duties admits yields a token. */
  lemma ApproveCallReturns(cfg: Config, s: State, c: nat, req: Request, st: Stored, secret: Secret, now: int)
    returns (ls: seq<Label>)
    requires c !in s.calls && req.ApproveRequest? && req.planID in s.plans && st == s.plans[req.planID]
    requires req.planHash == st.plan.planHash != "" && Executable(st.plan)
    requires CheckSoD(cfg.fold, st.proposer, req.approver, req.human) == None
    requires |secret| == SECRET_BYTES && cfg.keyOf(secret) !in s.tokens
    ensures var k := cfg.keyOf(secret);
            var s' := s.(tokens := s.tokens[k := Minted(st.plan.planHash, st.proposer, req.approver, cfg.ttl, now)],
                         rows := s.rows + [ApproveRow(st, req.approver)],
                         calls := s.calls[c := ApproveDone(k)],
                         hist := s.hist.(mints := s.hist.mints[k := MintEvent(st, req.approver, req.human, now)],
                                         approveKeys := s.hist.approveKeys + [k], returned := s.hist.returned + {k}));
            Run(cfg, s, ls) == Some(s')
  {
    hide RowOf, CheckSoD, Executable;
    hide StepResolvePlan, StepNumberPlan, StepStorePlan, StepLookup, StepMint, StepConsume, StepResolveExec,
         StepCallAction, StepActionReturns, StepNumberExecution;
    ls := ApproveCallMints(cfg, s, c, req, st, secret, now);
    RunAppend(cfg, s, ls, WriteRow(c, RowWritten));
    ls := ls + [WriteRow(c, RowWritten)];
    assert Run(cfg, s, ls).value.calls == s.calls[c := ApproveDone(cfg.keyOf(secret))];
  }

  lemma ExecuteCallStarts(cfg: Config, s: State, c: nat, req: Request, st: Stored, live: Reach, now: int)
    returns (ls: seq<Label>)
    requires c !in s.calls && req.ExecuteRequest? && req.planID in s.plans && st == s.plans[req.planID]
    requires Consumable(cfg.keyOf, s.tokens, req.token, st.plan.planHash, now)
    requires st.plan.action in cfg.registry && Within(st.plan.bound, live)
    ensures var k := KeyNamed(cfg.keyOf, req.token).value;
            var g := Grant(st, k, s.tokens[k].approver, now);
            Run(cfg, s, ls) == Some(s.(tokens := AfterConsume(cfg.keyOf, s.tokens, req.token, st.plan.planHash, now),
                                       calls := s.calls[c := ExecResolved(g, live)]))
  {
    hide RowOf, VerdictOf, Within;
    hide StepResolvePlan, StepNumberPlan, StepStorePlan, StepMint, StepCallAction, StepActionReturns,
         StepWriteRow, StepNumberExecution;
    WithinIsAllowed(st.plan.bound, live, cfg.enforcement);
    ls := [Begin(c, req)];
    RunOne(cfg, s, ls[0]);
    RunAppend(cfg, s, ls, Lookup(c, ""));
    ls := ls + [Lookup(c, "")];
    RunAppend(cfg, s, ls, ConsumeToken(c, now, ""));
    ls := ls + [ConsumeToken(c, now, "")];
    RunAppend(cfg, s, ls, ResolveExec(c, Some(live), ""));
    ls := ls + [ResolveExec(c, Some(live), "")];
    assert c in Run(cfg, s, ls).value.calls;
    assert Run(cfg, s, ls).value.calls == s.calls[c := Run(cfg, s, ls).value.calls[c]];
  }

  lemma ActionCompletes(cfg: Config, s: State, c: nat, g: Grant, live: Reach)
    returns (ls: seq<Label>)
    requires c in s.calls && s.calls[c] == ExecResolved(g, live)
    ensures var a := AttemptWith(g, live);
            Run(cfg, s, ls) == Some(s.(calls := s.calls[c := ExecCompleted(g, live, "done")],
                                       hist := s.hist.(attempts := s.hist.attempts + [a],
                                                       tried := s.hist.tried + [g.key],
                                                       completions := s.hist.completions + [g.key],
                                                       outcomes := s.hist.outcomes[g.key := "done"])))
  {
    hide RowOf;
    hide StepResolvePlan, StepNumberPlan, StepStorePlan, StepLookup, StepMint, StepConsume, StepResolveExec,
         StepWriteRow, StepNumberExecution;
    RunOne(cfg, s, CallAction(c));
    ls := [CallAction(c)];
    RunAppend(cfg, s, ls, ActionReturns(c, Some("done"), ""));
    ls := ls + [ActionReturns(c, Some("done"), "")];
    assert Run(cfg, s, ls).value.calls == s.calls[c := ExecCompleted(g, live, "done")];
  }

  lemma CompletionIsRecorded(cfg: Config, s: State, c: nat, g: Grant, live: Reach)
    returns (ls: seq<Label>)
    requires c in s.calls && s.calls[c] == ExecCompleted(g, live, "done") && s.idseq + 1 < TWO_TO_THE_64
    ensures Run(cfg, s, ls).Some?
    ensures var s' := Run(cfg, s, ls).value;
            && c in s'.calls && s'.calls[c].ExecDone?
            && s'.rows == s.rows + [ExecuteRow(g.s, g.approver, live, "done")]
            && s'.hist.tried == s.hist.tried && s'.hist.successes == s.hist.successes + [g.key]
  {
    hide RowOf;
    hide StepResolvePlan, StepNumberPlan, StepStorePlan, StepLookup, StepMint, StepConsume, StepResolveExec,
         StepCallAction, StepActionReturns;
    RunOne(cfg, s, WriteRow(c, RowWritten));
    ls := [WriteRow(c, RowWritten)];
    RunAppend(cfg, s, ls, NumberExecution(c));
    ls := ls + [NumberExecution(c)];
  }

  lemma ExecuteCallFinishes(cfg: Config, s: State, c: nat, g: Grant, live: Reach)
    returns (ls: seq<Label>)
    requires c in s.calls && s.calls[c] == ExecResolved(g, live) && s.idseq + 1 < TWO_TO_THE_64
    ensures Run(cfg, s, ls).Some?
    ensures var s' := Run(cfg, s, ls).value;
            && c in s'.calls && s'.calls[c].ExecDone?
            && s'.rows == s.rows + [ExecuteRow(g.s, g.approver, live, "done")]
            && s'.hist.tried == s.hist.tried + [g.key] && s'.hist.successes == s.hist.successes + [g.key]
  {
    hide RowOf, Step;
    var xs := ActionCompletes(cfg, s, c, g, live);
    var s1 := Run(cfg, s, xs).value;
    var ys := CompletionIsRecorded(cfg, s1, c, g, live);
    RunConcat(cfg, s, xs, ys);
    ls := xs + ys;
  }

  /**
    A live token bound to a stored plan's hash runs that plan when the live reach
    is within its bound; the row names the stored plan's proposer and the token's approver.
  */
  lemma ExecuteCallRuns(cfg: Config, s: State, c: nat, req: Request, st: Stored, live: Reach, now: int)
    returns (ls: seq<Label>)
    requires c !in s.calls && req.ExecuteRequest? && req.planID in s.plans && st == s.plans[req.planID]
    requires Consumable(cfg.keyOf, s.tokens, req.token, st.plan.planHash, now)
    requires st.plan.action in cfg.registry && Within(st.plan.bound, live) && s.idseq + 1 < TWO_TO_THE_64
    ensures Run(cfg, s, ls).Some?
    ensures var s' := Run(cfg, s, ls).value;
            var k := KeyNamed(cfg.keyOf, req.token).value;
            && c in s'.calls && s'.calls[c].ExecDone?
            && s'.rows == s.rows + [ExecuteRow(st, s.tokens[k].approver, live, "done")]
            && s'.hist.tried == s.hist.tried + [k] && s'.hist.successes == s.hist.successes + [k]
  {
    hide RowOf, Step, Within;
    var xs := ExecuteCallStarts(cfg, s, c, req, st, live, now);
    var s1 := Run(cfg, s, xs).value;
    var k := KeyNamed(cfg.keyOf, req.token).value;
    var ys := ExecuteCallFinishes(cfg, s1, c, Grant(st, k, s.tokens[k].approver, now), live);
    RunConcat(cfg, s, xs, ys);
    ls := xs + ys;
  }

  /**
    The plan hash leaves out who proposed: a token minted for one plan runs any
    plan with the same content, and the execute row then names the other plan's
    proposer. So for any pair Approve admits and any other proposer, the
    token's approver included, there is a run with a row naming these two.
  */
  lemma RowMayNameAnotherProposer(cfg: Config, mine: Request, other: string, approver: string,
                                  reach: Reach, target: string, secret: Secret)
    returns (ls: seq<Label>)
    requires mine.PlanRequest? && mine.action in cfg.registry && DeclaredOk(mine.bound, mine.dormant)
    requires Within(mine.bound, reach) && NeverGenesis(cfg.h) && cfg.ttl >= 0
    requires CheckSoD(cfg.fold, mine.proposer, approver, true) == None && |secret| == SECRET_BYTES
    ensures Run(cfg, INITIAL, ls).Some?
    ensures var s := Run(cfg, INITIAL, ls).value;
            && |s.hist.successes| == 1 && s.rows != []
            && var row := s.rows[|s.rows| - 1];
               row.event == EVENT_EXECUTE && row.proposer == other && row.approver == approver
  {
    hide Step, CheckSoD, Within, FormatID, VerdictOf, PlanHash;
    WithinIsAllowed(mine.bound, reach, cfg.enforcement);
    var theirs := mine.(proposer := other);
    var l1 := PlanCallStores(cfg, INITIAL, 0, mine, reach, target, 0);
    var s1 := Run(cfg, INITIAL, l1).value;
    var l2 := PlanCallStores(cfg, s1, 1, theirs, reach, target, 0);
    var s2 := Run(cfg, s1, l2).value;
    var st1 := Stored(RenderPlan(cfg, mine, reach, target, 1, 0), mine.proposer);
    var st2 := Stored(RenderPlan(cfg, theirs, reach, target, 2, 0), other);
    TwoRendered(cfg, mine, other, reach, target);
    var l3 := ApproveCallReturns(cfg, s2, 2, ApproveRequest(st1.plan.planID, st1.plan.planHash, approver, true),
                                 st1, secret, 0);
    var s3 := Run(cfg, s2, l3).value;
    HexDecodeEncode(secret);
    var l4 := ExecuteCallRuns(cfg, s3, 3, ExecuteRequest(st2.plan.planID, HexEncode(secret)), st2, reach, 0);
    RunConcat(cfg, INITIAL, l1, l2);
    RunConcat(cfg, INITIAL, l1 + l2, l3);
    RunConcat(cfg, INITIAL, l1 + l2 + l3, l4);
    ls := l1 + l2 + l3 + l4;
  }

  lemma TwoRendered(cfg: Config, mine: Request, other: string, reach: Reach, target: string)
    requires mine.PlanRequest? && Within(mine.bound, reach) && NeverGenesis(cfg.h)
    ensures var p := RenderPlan(cfg, mine, reach, target, 1, 0);
            var q := RenderPlan(cfg, mine.(proposer := other), reach, target, 2, 0);
            && p.planID != q.planID && p.planHash == q.planHash != "" && Executable(p)
            && q.action == mine.action && q.bound == mine.bound
  {
    WithinIsAllowed(mine.bound, reach, cfg.enforcement);
    var p := RenderPlan(cfg, mine, reach, target, 1, 0);
    var q := RenderPlan(cfg, mine.(proposer := other), reach, target, 2, 0);
    HashIgnoresHash(cfg, p);
    HashIgnoresHash(cfg, q);
    PlanHashPinsContent(cfg.h, p, q);
    if p.planID == q.planID { FormatIDInjective("pln", 1, 2); }
  }
}
