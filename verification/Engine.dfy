/**
  The engine object in the source's own form (internal/engine/engine.go), one
  call at a time. Every method moves the transition system along by labels of
  its own call, so what is proved of all runs holds of every engine.
*/
module Engine {
  import opened Options
  import opened Blast
  import opened Records
  import opened Plans
  import opened Tokens
  import opened Protocol
  import opened ProtocolSafety
  import opened ProtocolTheorems
  import opened ProtocolReceipts
  import opened ProtocolRuns

  /** One row was added, at the end. */
  ghost predicate Grew(rows: seq<Record>, rows': seq<Record>) {
    |rows'| == |rows| + 1 && rows'[..|rows|] == rows
  }

  /** The rows once the sink has answered. */
  function Submitted(rows: seq<Record>, row: Record, io: RowIO): seq<Record> {
    if io == RowLost then rows else rows + [row]
  }

  /** The row an execution leaves once its token is consumed and its action known. */
  function OutcomeRow(s: Stored, approver: string, live: Option<Reach>, outcome: Option<string>, why: string): Record {
    if live == None then RefusalOf(s.plan, s.proposer, approver, why)
    else if !Within(s.plan.bound, live.value) || outcome == None then
      RefusalOf(s.plan.(reach := live.value), s.proposer, approver, why)
    else ExecuteRow(s, approver, live.value, outcome.value)
  }

  lemma SubmittedWhenWritten(rows: seq<Record>, row: Record)
    ensures Submitted(rows, row, RowWritten) == rows + [row]
  {
  }

  /** What a Plan call leaves in the log: the plan it rendered, or the request it refused. */
  ghost predicate PlanRecorded(rows: seq<Record>, rows': seq<Record>, req: Request, p: Option<Plan>, known: bool,
                               why: string, io: RowIO)
    requires req.PlanRequest?
  {
    if io == RowLost || !known then rows' == rows
    else
      Grew(rows, rows')
      && var row := rows'[|rows|];
         if p == None then RefusalSays(row, req, why)
         else RowSays(row, "plan",
                      if p.value.verdict == ALLOW then "ALLOW" else if p.value.verdict == WARN then "WARN" else "BLOCK",
                      p.value, p.value.reach, req.proposer, "", "plan rendered")
  }

  lemma PlanIsRecorded(rows: seq<Record>, req: Request, p: Option<Plan>, known: bool, why: string, io: RowIO)
    requires req.PlanRequest?
    ensures PlanRecorded(rows,
                         if !known then rows
                         else if p == None then Submitted(rows, RefuseRow(req, why), io)
                         else Submitted(rows, RowOf(EVENT_PLAN, p.value, VerdictText(p.value.verdict), req.proposer, "",
                                                    "plan rendered"), io),
                         req, p, known, why, io)
  {
  }

  /** What an Approve call of a known plan leaves: the approval, or the refusal, unless nothing could be minted. */
  ghost predicate ApprovalRecorded(rows: seq<Record>, rows': seq<Record>, s: Stored, approver: string,
                                   failed: Option<EngineError>, why: string, io: RowIO)
  {
    if io == RowLost || failed == Some(MintFailed) then rows' == rows
    else
      Grew(rows, rows')
      && var row := rows'[|rows|];
         if failed == None || failed == Some(AuditWriteFailed)
         then RowSays(row, "approve", "ALLOW", s.plan, s.plan.reach, s.proposer, approver, "token minted")
         else RowSays(row, "refuse", "REFUSED", s.plan, s.plan.reach, s.proposer, approver, why)
  }

  lemma ApprovalIsRecorded(rows: seq<Record>, s: Stored, approver: string, failed: Option<EngineError>, why: string,
                           io: RowIO)
    ensures ApprovalRecorded(rows,
                             if failed == Some(MintFailed) then rows
                             else if failed == None || failed == Some(AuditWriteFailed)
                             then Submitted(rows, ApproveRow(s, approver), io)
                             else Submitted(rows, RefusalOf(s.plan, s.proposer, approver, why), io),
                             s, approver, failed, why, io)
  {
  }

  /**
    What an Execute call of a known plan leaves: the refused token; then nothing
    for an unknown action; the reach that was not resolved, or not admitted, or the
    action that failed on it; or the execution.
  */
  ghost predicate ExecutionRecorded(rows: seq<Record>, rows': seq<Record>, s: Stored, use: Outcome<Consumed>,
                                    known: bool, live: Option<Reach>, outcome: Option<string>, why: string, io: RowIO)
  {
    if io == RowLost || (use.Ok? && !known) then rows' == rows
    else
      Grew(rows, rows')
      && var row := rows'[|rows|];
         if use.Err? then RowSays(row, "refuse", "REFUSED", s.plan, s.plan.reach, s.proposer, "", why)
         else if live == None then
           RowSays(row, "refuse", "REFUSED", s.plan, s.plan.reach, s.proposer, use.value.approver, why)
         else if !Within(s.plan.bound, live.value) || outcome == None then
           RowSays(row, "refuse", "REFUSED", s.plan, live.value, s.proposer, use.value.approver, why)
         else
           RowSays(row, "execute", "ALLOW", s.plan, live.value, s.proposer, use.value.approver, outcome.value)
  }

  lemma ExecutionIsRecorded(rows: seq<Record>, s: Stored, use: Outcome<Consumed>, known: bool, live: Option<Reach>,
                            outcome: Option<string>, why: string, io: RowIO)
    ensures ExecutionRecorded(rows,
                              if use.Err? then Submitted(rows, RefusalOf(s.plan, s.proposer, "", why), io)
                              else if !known then rows
                              else Submitted(rows, OutcomeRow(s, use.value.approver, live, outcome, why), io),
                              s, use, known, live, outcome, why, io)
  {
    hide Within;
  }

  /** Rows as submitted; Append answers as `io` says. */
  class AuditSink {
    var rows: seq<Record>

    constructor ()
      ensures rows == []
    {
      rows := [];
    }

    method Append(row: Record, io: RowIO) returns (failed: bool)
      modifies this
      ensures rows == Submitted(old(rows), row, io)
      ensures failed <==> io != RowWritten
    {
      if io != RowLost {
        rows := rows + [row];
      }
      return io != RowWritten;
    }
  }

  lemma PlanCarriesHash(cfg: Config, req: Request, reach: Reach, target: string, n: nat, now: int)
    requires req.PlanRequest?
    ensures var p := RenderPlan(cfg, req, reach, target, n, now);
            p.planID == FormatID("pln", n) && p.planHash == PlanHash(cfg.h, p)
  {
    RenderedOk(cfg, req, reach, target, n, now);
  }

  /** Every axis named and in range, and no dormant dimension given. */
  ghost predicate WellFormed(req: Request)
    requires req.PlanRequest?
  {
    req.dormant == [] && req.bound.service != "" && req.bound.maxHosts >= 0 && 0 <= req.bound.fleetPct <= 100
  }

  datatype EngineError =
    | UnknownAction | Validation | Unresolvable | UnknownPlan | PlanHashMismatch | NotExecutable
    | Duties(why: SoDError) | MintFailed | AuditWriteFailed | BadToken(token: TokenError) | OverBound | ExecutionFailed

  datatype Result<+T> = Success(value: T) | Failure(error: EngineError)

  class Engine {
    const registry: set<string>
    const enforcement: Enforcement
    const ttl: int
    const fold: char -> char
    const h: string -> string
    const tokens: TokenStore
    const audit: AuditSink
    var idseq: nat
    var plans: map<string, Stored>

    ghost var state: State
    ghost var trace: seq<Label>
    ghost var calls: nat

    constructor (registry: set<string>, enforcement: Enforcement, ttl: int, fold: char -> char, h: string -> string,
                 keyOf: KeyOf)
      ensures Valid() && fresh(tokens) && fresh(audit) && trace == []
    {
      this.registry, this.enforcement, this.ttl, this.fold, this.h := registry, enforcement, ttl, fold, h;
      tokens := new TokenStore(keyOf);
      audit := new AuditSink();
      idseq, plans := 0, map[];
      state, trace, calls := INITIAL, [], 0;
    }

    ghost function Cfg(): Config { Config(h, tokens.keyOf, fold, enforcement, ttl, registry) }

    /** The object is where the transition system is after its trace. */
    ghost predicate Valid()
      reads this, tokens, audit
    {
      Run(Cfg(), INITIAL, trace) == Some(state) && Matches() && forall c | c in state.calls :: c < calls
    }

    ghost predicate Matches()
      reads this, tokens, audit
    {
      plans == state.plans && idseq == state.idseq && tokens.rec == state.tokens && audit.rows == state.rows
    }

    /** Takes one step of the transition system. */
    ghost method Advance(l: Label)
      requires Run(Cfg(), INITIAL, trace) == Some(state) && Step(Cfg(), state, l).Some?
      modifies this`state, this`trace
      ensures trace == old(trace) + [l] && Some(state) == Step(Cfg(), old(state), l)
      ensures Run(Cfg(), INITIAL, trace) == Some(state)
    {
      RunAppend(Cfg(), INITIAL, trace, l);
      state, trace := Step(Cfg(), state, l).value, trace + [l];
    }

    method NewID(prefix: string) returns (id: string)
      modifies this`idseq
      ensures idseq == old(idseq) + 1 && id == FormatID(prefix, idseq)
    {
      idseq := idseq + 1;
      return FormatID(prefix, idseq);
    }

    /** A new call. */
    ghost method BeginCall(req: Request) returns (c: nat)
      requires Valid()
      modifies this`state, this`trace, this`calls
      ensures Valid() && Matches() && trace == old(trace) + [Begin(c, req)]
      ensures c !in old(state).calls && state == Goto(old(state), c, Started(req))
    {
      c := calls;
      calls := calls + 1;
      Advance(Begin(c, req));
    }

    /** A step that changes nothing but the call. */
    ghost method Move(l: Label, call: Call)
      requires Valid() && l.c in state.calls && Step(Cfg(), state, l) == Some(Goto(state, l.c, call))
      modifies this`state, this`trace
      ensures Valid() && trace == old(trace) + [l] && state == Goto(old(state), l.c, call)
    {
      Advance(l);
    }

    /** Submits the row a call is due, and moves the call past it. */
    method Submit(ghost c: nat, row: Record, io: RowIO) returns (failed: bool)
      requires Valid() && c in state.calls && PendingRow(state.calls[c]) == Some(row)
      modifies this`state, this`trace, audit
      ensures Valid() && trace == old(trace) + [WriteRow(c, io)]
      ensures Some(state) == StepWriteRow(old(state), c, io)
      ensures failed <==> io != RowWritten
      ensures audit.rows == Submitted(old(audit.rows), row, io)
    {
      failed := audit.Append(row, io);
      Advance(WriteRow(c, io));
    }

    /** Refuses a call, with a best-effort row. */
    method Refuse(ghost l: Label, ghost call: Call, row: Record, io: RowIO)
      requires Valid() && l.c in state.calls && Step(Cfg(), state, l) == Some(Goto(state, l.c, call))
      requires PendingRow(call) == Some(row)
      modifies this`state, this`trace, audit
      ensures Valid() && old(trace) < trace
      ensures audit.rows == Submitted(old(audit.rows), row, io)
    {
      hide Valid, Step, StepWriteRow;
      Move(l, call);
      var _ := Submit(l.c, row, io);
    }

    /** POST /v1/plans: renders and stores a plan, or refuses with a best-effort row. */
    method Plan(req: Request, boundOk: bool, resolved: Option<(Reach, string)>, why: string, now: int, io: RowIO)
      returns (r: Result<Plan>)
      requires Valid() && req.PlanRequest? && idseq + 1 < TWO_TO_THE_64
      modifies this, audit
      ensures Valid() && old(trace) < trace
      ensures r.Success? <==>
              && req.action in registry && WellFormed(req) && boundOk && resolved.Some?
      ensures r.Success? ==>
                && PlanSays(Cfg(), r.value, req, resolved.value.0, resolved.value.1, now)
                && r.value.planID == FormatID("pln", idseq) && idseq == old(idseq) + 1
                && r.value.planHash == PlanHash(h, r.value)
      ensures PlanRecorded(old(audit.rows), audit.rows, req, if r.Success? then Some(r.value) else None,
                           req.action in registry, why, io)
      ensures r.Success? ==>
                && r.value == RenderPlan(Cfg(), req, resolved.value.0, resolved.value.1, idseq, now)
                && r.value.planID !in old(plans) && plans == old(plans)[r.value.planID := Stored(r.value, req.proposer)]
                && audit.rows == Submitted(old(audit.rows), RowOf(EVENT_PLAN, r.value, VerdictText(r.value.verdict),
                                                                  req.proposer, "", "plan rendered"), io)
      ensures r.Failure? ==>
                && plans == old(plans) && idseq == old(idseq)
                && r.error == (if req.action !in registry then UnknownAction
                               else if !WellFormed(req) || !boundOk then Validation else Unresolvable)
                && audit.rows == if req.action !in registry then old(audit.rows)
                                 else Submitted(old(audit.rows), RefuseRow(req, why), io)
    {
      hide Valid, Submitted, Run, Step, StepWriteRow, RenderPlan, RefuseRow, RowOf, FormatID, PlanHash;
      hide PlanRecorded, PlanSays;
      ghost var c := BeginCall(req);
      var refused := Admit(c, req, boundOk, resolved, why, io);
      if refused.Some? {
        PlanIsRecorded(old(audit.rows), req, None, req.action in registry, why, io);
        return Failure(refused.value);
      }
      var p := Render(c, req, resolved.value.0, resolved.value.1, now);
      RenderedSays(Cfg(), req, resolved.value.0, resolved.value.1, idseq, now);
      PlanCarriesHash(Cfg(), req, resolved.value.0, resolved.value.1, idseq, now);
      PlanIsRecorded(old(audit.rows), req, Some(p), true, why, io);
      var row := RowOf(EVENT_PLAN, p, VerdictText(p.verdict), req.proposer, "", "plan rendered");
      var _ := Submit(c, row, io);
      return Success(p);
    }

    /** Refuses a request that is malformed or whose target does not resolve. */
    method Admit(ghost c: nat, req: Request, boundOk: bool, resolved: Option<(Reach, string)>, why: string, io: RowIO)
      returns (refused: Option<EngineError>)
      requires Valid() && req.PlanRequest? && c in state.calls && state.calls[c] == Started(req)
      modifies this`state, this`trace, audit
      ensures Valid() && old(trace) < trace
      ensures refused == if req.action !in registry then Some(UnknownAction)
                         else if !DeclaredOk(req.bound, req.dormant) || !boundOk then Some(Validation)
                         else if resolved == None then Some(Unresolvable) else None
      ensures audit.rows == if refused == None || refused == Some(UnknownAction) then old(audit.rows)
                            else Submitted(old(audit.rows), RefuseRow(req, why), io)
      ensures refused == None ==>
                c in state.calls && state.calls[c] == PlanResolved(req, resolved.value.0, resolved.value.1)
    {
      hide Valid, Submitted, Run, RefuseRow, DeclaredOk;
      hide StepNumberPlan, StepStorePlan, StepLookup, StepMint, StepConsume, StepResolveExec, StepCallAction,
           StepActionReturns, StepWriteRow, StepNumberExecution;
      ghost var l := ResolvePlan(c, boundOk, resolved, why);
      if req.action !in registry {
        Move(l, Failed);
        return Some(UnknownAction);
      }
      if !DeclaredOk(req.bound, req.dormant) || !boundOk || resolved == None {
        Refuse(l, Refusing(RefuseRow(req, why)), RefuseRow(req, why), io);
        return Some(if !DeclaredOk(req.bound, req.dormant) || !boundOk then Validation else Unresolvable);
      }
      Move(l, PlanResolved(req, resolved.value.0, resolved.value.1));
      return None;
    }

    /** Evaluates, numbers, hashes and stores. */
    method Render(ghost c: nat, req: Request, reach: Reach, target: string, now: int) returns (p: Plan)
      requires Valid() && req.PlanRequest? && idseq + 1 < TWO_TO_THE_64
      requires c in state.calls && state.calls[c] == PlanResolved(req, reach, target)
      modifies this
      ensures Valid() && old(trace) < trace
      ensures idseq == old(idseq) + 1 && p == RenderPlan(Cfg(), req, reach, target, idseq, now)
      ensures p.planID !in old(plans) && plans == old(plans)[p.planID := Stored(p, req.proposer)]
      ensures c in state.calls && state.calls[c] == PlanStored(Stored(p, req.proposer))
    {
      hide Valid, Run, Step, VerdictOf, Within, FormatID, PlanHash;
      var verdict, _ := Evaluate(req.bound, reach, enforcement);
      var within := Within(req.bound, reach);
      var id := DrawNumber(c, req, reach, target, now);
      p := Plans.Plan.Plan(id, req.action, req.backend, req.project, req.params, target, req.bound, reach, enforcement,
                           verdict, within, "", now, now + ttl);
      p := p.(planHash := PlanHash(h, p));
      Store(c, req, reach, target, idseq, now, p);
    }

    method DrawNumber(ghost c: nat, req: Request, reach: Reach, target: string, now: int) returns (id: string)
      requires Valid() && idseq + 1 < TWO_TO_THE_64
      requires c in state.calls && state.calls[c] == PlanResolved(req, reach, target)
      modifies this`idseq, this`state, this`trace
      ensures Valid() && trace == old(trace) + [NumberPlan(c, now)]
      ensures idseq == old(idseq) + 1 && id == FormatID("pln", idseq)
      ensures c in state.calls && state.calls[c] == PlanNumbered(req, reach, target, idseq, now)
    {
      hide Run, FormatID;
      hide StepResolvePlan, StepStorePlan, StepLookup, StepMint, StepConsume, StepResolveExec, StepCallAction,
           StepActionReturns, StepWriteRow, StepNumberExecution;
      id := NewID("pln");
      Advance(NumberPlan(c, now));
    }

    method Store(ghost c: nat, req: Request, ghost reach: Reach, ghost target: string, ghost n: nat, ghost now: int,
                 p: Plan)
      requires Valid() && req.PlanRequest? && p == RenderPlan(Cfg(), req, reach, target, n, now)
      requires c in state.calls && state.calls[c] == PlanNumbered(req, reach, target, n, now)
      modifies this`plans, this`state, this`trace
      ensures Valid() && trace == old(trace) + [StorePlan(c)]
      ensures p.planID !in old(plans) && plans == old(plans)[p.planID := Stored(p, req.proposer)]
      ensures c in state.calls && state.calls[c] == PlanStored(Stored(p, req.proposer))
    {
      hide Run, RenderPlan;
      hide StepResolvePlan, StepNumberPlan, StepLookup, StepMint, StepConsume, StepResolveExec, StepCallAction,
           StepActionReturns, StepWriteRow, StepNumberExecution;
      DrawnIDIsUnused(Cfg(), trace, c);
      RenderedOk(Cfg(), req, reach, target, n, now);
      plans := plans[p.planID := Stored(p, req.proposer)];
      Advance(StorePlan(c));
    }

    /** POST /v1/approvals: checks the hash, the plan and the duties, mints, and records; no record, no token. */
    method Approve(req: Request, why: string, random: Option<Secret>, now: int, io: RowIO) returns (r: Result<string>)
      requires Valid() && req.ApproveRequest?
      requires random.Some? ==> |random.value| == SECRET_BYTES && tokens.keyOf(random.value) !in tokens.rec
      modifies this, tokens, audit
      ensures Valid() && old(trace) < trace && plans == old(plans) && idseq == old(idseq)
      ensures r.Success? <==>
              && req.planID in plans && req.planHash == plans[req.planID].plan.planHash != ""
              && Executable(plans[req.planID].plan)
              && CheckSoD(fold, plans[req.planID].proposer, req.approver, req.human) == None
              && random.Some? && io == RowWritten
      ensures r.Success? ==>
                && KeyNamed(tokens.keyOf, r.value) == Some(tokens.keyOf(random.value))
                && tokens.keyOf(random.value) in state.hist.returned
                && audit.rows == old(audit.rows) + [ApproveRow(plans[req.planID], req.approver)]
      ensures r.Failure? ==>
                r.error == if req.planID !in plans then UnknownPlan
                           else if req.planHash != plans[req.planID].plan.planHash then PlanHashMismatch
                           else if !Executable(plans[req.planID].plan) then NotExecutable
                           else if CheckSoD(fold, plans[req.planID].proposer, req.approver, req.human).Some?
                           then Duties(CheckSoD(fold, plans[req.planID].proposer, req.approver, req.human).value)
                           else if req.planHash == "" || random == None then MintFailed else AuditWriteFailed
      ensures r.Success? || r == Failure(AuditWriteFailed) ==>
                var p := plans[req.planID];
                tokens.rec == old(tokens.rec)[tokens.keyOf(random.value) :=
                  Token(p.plan.planHash, p.proposer, req.approver, now + ttl, false)]
      ensures r.Failure? && r.error != AuditWriteFailed ==> tokens.rec == old(tokens.rec)
      ensures req.planID in plans ==>
                ApprovalRecorded(old(audit.rows), audit.rows, plans[req.planID], req.approver,
                                 if r.Success? then None else Some(r.error), why, io)
      ensures r.Failure? ==>
                audit.rows == if r.error == UnknownPlan || r.error == MintFailed then old(audit.rows)
                              else var s := plans[req.planID];
                                   Submitted(old(audit.rows),
                                             if r.error == AuditWriteFailed
                                             then ApproveRow(s, req.approver)
                                             else RefusalOf(s.plan, s.proposer, req.approver, why), io)
    {
      hide Valid, Submitted, Run, CheckSoD, Executable, ApprovalRecorded, ApproveRow, RefusalOf;
      hide StepResolvePlan, StepNumberPlan, StepStorePlan, StepMint, StepConsume, StepResolveExec,
           StepCallAction, StepActionReturns, StepWriteRow, StepNumberExecution;
      ghost var c := BeginCall(req);
      if req.planID !in plans {
        Move(Lookup(c, why), Failed);
        return Failure(UnknownPlan);
      }
      var s := plans[req.planID];
      var refused := CheckApproval(c, req, s, why, io);
      if refused.Some? {
        ApprovalIsRecorded(old(audit.rows), s, req.approver, refused, why, io);
        return Failure(refused.value);
      }
      r := MintAndRecord(c, req, s, random, now, io);
      ApprovalIsRecorded(old(audit.rows), s, req.approver, if r.Success? then None else Some(r.error), why, io);
      if r.Success? { SubmittedWhenWritten(old(audit.rows), ApproveRow(s, req.approver)); }
    }

    /** Refuses another hash, a plan that is not executable, or an approver the duties do not admit. */
    method CheckApproval(ghost c: nat, req: Request, s: Stored, why: string, io: RowIO)
      returns (refused: Option<EngineError>)
      requires Valid() && Matches() && req.ApproveRequest? && c in state.calls && state.calls[c] == Started(req)
      requires req.planID in plans && s == plans[req.planID]
      modifies this`state, this`trace, audit
      ensures Valid() && old(trace) < trace
      ensures refused == if req.planHash != s.plan.planHash then Some(PlanHashMismatch)
                         else if !Executable(s.plan) then Some(NotExecutable)
                         else if CheckSoD(fold, s.proposer, req.approver, req.human) == None then None
                         else Some(Duties(CheckSoD(fold, s.proposer, req.approver, req.human).value))
      ensures audit.rows == if refused == None then old(audit.rows)
                            else Submitted(old(audit.rows), RefusalOf(s.plan, s.proposer, req.approver, why), io)
      ensures refused == None ==> c in state.calls && state.calls[c] == ApproveFound(req, s)
    {
      hide Valid, Submitted, Run, RowOf, CheckSoD, Executable;
      hide StepResolvePlan, StepNumberPlan, StepStorePlan, StepMint, StepConsume, StepResolveExec,
           StepCallAction, StepActionReturns, StepWriteRow, StepNumberExecution;
      var duties := CheckSoD(fold, s.proposer, req.approver, req.human);
      if req.planHash != s.plan.planHash || !Executable(s.plan) || duties != None {
        var row := RefusalOf(s.plan, s.proposer, req.approver, why);
        Refuse(Lookup(c, why), Refusing(row), row, io);
        return Some(if req.planHash != s.plan.planHash then PlanHashMismatch
                    else if !Executable(s.plan) then NotExecutable
                    else Duties(duties.value));
      }
      Move(Lookup(c, why), ApproveFound(req, s));
      return None;
    }

    method MintFor(ghost c: nat, req: Request, s: Stored, random: Option<Secret>, now: int)
      returns (out: Outcome<string>)
      requires Valid() && req.ApproveRequest? && c in state.calls && state.calls[c] == ApproveFound(req, s)
      requires random.Some? ==> |random.value| == SECRET_BYTES && tokens.keyOf(random.value) !in tokens.rec
      modifies this`state, this`trace, tokens
      ensures Valid() && trace == old(trace) + [MintToken(c, random, now)]
      ensures out.Ok? <==> s.plan.planHash != "" && random.Some?
      ensures out.Ok? ==> KeyNamed(tokens.keyOf, out.value) == Some(tokens.keyOf(random.value))
      ensures out.Ok? ==> c in state.calls && state.calls[c] == ApproveMinted(req, s, tokens.keyOf(random.value))
      ensures out.Ok? ==> tokens.rec == old(tokens.rec)[tokens.keyOf(random.value) :=
                            Token(s.plan.planHash, s.proposer, req.approver, now + ttl, false)]
      ensures out.Err? ==> tokens.rec == old(tokens.rec)
    {
      hide Run, KeyNamed;
      hide StepResolvePlan, StepNumberPlan, StepStorePlan, StepLookup, StepConsume, StepResolveExec, StepCallAction,
           StepActionReturns, StepWriteRow, StepNumberExecution;
      out := tokens.Mint(s.plan.planHash, s.proposer, req.approver, ttl, random, now);
      Advance(MintToken(c, random, now));
    }

    method MintAndRecord(ghost c: nat, req: Request, s: Stored, random: Option<Secret>, now: int, io: RowIO)
      returns (r: Result<string>)
      requires Valid() && req.ApproveRequest? && c in state.calls && state.calls[c] == ApproveFound(req, s)
      requires random.Some? ==> |random.value| == SECRET_BYTES && tokens.keyOf(random.value) !in tokens.rec
      modifies this`state, this`trace, tokens, audit
      ensures Valid() && old(trace) < trace && plans == old(plans) && idseq == old(idseq)
      ensures r.Success? <==> s.plan.planHash != "" && random.Some? && io == RowWritten
      ensures r.Success? ==>
                && KeyNamed(tokens.keyOf, r.value) == Some(tokens.keyOf(random.value))
                && tokens.keyOf(random.value) in state.hist.returned
                && audit.rows == old(audit.rows) + [ApproveRow(s, req.approver)]
      ensures r.Failure? ==> r.error == if s.plan.planHash == "" || random == None then MintFailed else AuditWriteFailed
      ensures r.Failure? ==>
                audit.rows == if r.error == MintFailed then old(audit.rows)
                              else Submitted(old(audit.rows), ApproveRow(s, req.approver), io)
      ensures r.Success? || r == Failure(AuditWriteFailed) ==>
                tokens.rec == old(tokens.rec)[tokens.keyOf(random.value) :=
                  Token(s.plan.planHash, s.proposer, req.approver, now + ttl, false)]
      ensures r == Failure(MintFailed) ==> tokens.rec == old(tokens.rec)
    {
      hide Valid, Run, RowOf, KeyNamed, Step;
      var minted := MintFor(c, req, s, random, now);
      if minted.Err? {
        return Failure(MintFailed);
      }
      var failed := Submit(c, ApproveRow(s, req.approver), io);
      if failed {
        return Failure(AuditWriteFailed);
      }
      return Success(minted.value);
    }

    /**
      POST /v1/executions: consumes the token, rechecks the live reach, runs the
      action and records it. Whatever happens after the token is consumed, it
      stays consumed.
    */
    method Execute(req: Request, now: int, live: Option<Reach>, outcome: Option<string>, why: string, io: RowIO)
      returns (r: Result<(string, Reach, string)>)
      requires Valid() && req.ExecuteRequest? && idseq + 1 < TWO_TO_THE_64
      modifies this, tokens, audit
      ensures Valid() && old(trace) < trace && plans == old(plans)
      ensures r.Success? <==>
              && req.planID in plans
              && Consumable(tokens.keyOf, old(tokens.rec), req.token, plans[req.planID].plan.planHash, now)
              && plans[req.planID].plan.action in registry
              && live.Some? && Within(plans[req.planID].plan.bound, live.value)
              && outcome.Some? && io == RowWritten
      ensures r.Success? ==>
                && r.value.1 == live.value && r.value.2 == outcome.value
                && idseq == old(idseq) + 1 && r.value.0 == FormatID("exe", idseq)
                && |state.hist.successes| == |old(state.hist.successes)| + 1
      ensures audit.rows == if req.planID !in plans then old(audit.rows)
                            else var s := plans[req.planID];
                                 var use := Consume(tokens.keyOf, old(tokens.rec), req.token, s.plan.planHash, now);
                                 if use.Err? then
                                   Submitted(old(audit.rows), RefusalOf(s.plan, s.proposer, "", why), io)
                                 else if s.plan.action !in registry then old(audit.rows)
                                 else
                                   Submitted(old(audit.rows), OutcomeRow(s, use.value.approver, live, outcome, why), io)
      ensures req.planID in plans ==>
                ExecutionRecorded(old(audit.rows), audit.rows, plans[req.planID],
                                  Consume(tokens.keyOf, old(tokens.rec), req.token,
                                          plans[req.planID].plan.planHash, now),
                                  plans[req.planID].plan.action in registry, live, outcome, why, io)
      ensures r.Failure? ==>
                r.error == if req.planID !in plans then UnknownPlan
                           else var s := plans[req.planID];
                                var use := Consume(tokens.keyOf, old(tokens.rec), req.token, s.plan.planHash, now);
                                if use.Err? then BadToken(use.error)
                                else if s.plan.action !in registry then UnknownAction
                                else if live == None then Unresolvable
                                else if !Within(s.plan.bound, live.value) then OverBound
                                else if outcome == None then ExecutionFailed else AuditWriteFailed
      ensures tokens.rec == if req.planID !in plans then old(tokens.rec)
                            else AfterConsume(tokens.keyOf, old(tokens.rec), req.token,
                                              plans[req.planID].plan.planHash, now)
    {
      hide ExecutionRecorded, OutcomeRow, RefusalOf, Valid, Submitted, Run, RowOf, Within, VerdictOf, Consume,
           Consumable, AfterConsume, Executable;
      hide StepResolvePlan, StepNumberPlan, StepStorePlan, StepMint, StepConsume, StepResolveExec, StepCallAction,
           StepActionReturns, StepWriteRow, StepNumberExecution;
      ghost var c := BeginCall(req);
      if req.planID !in plans {
        Move(Lookup(c, why), Failed);
        return Failure(UnknownPlan);
      }
      var s := plans[req.planID];
      Move(Lookup(c, why), ExecFound(req, s));
      var consumed := UseToken(c, req, s, now, why, io);
      ExecutionIsRecorded(old(audit.rows), s, consumed, s.plan.action in registry, live, outcome, why, io);
      if consumed.Err? {
        return Failure(BadToken(consumed.error));
      }
      ghost var g := GrantOf(s, req.token, consumed.value.approver, now);
      r := Recheck(c, g, s, consumed.value.approver, live, outcome, why, io);
    }

    ghost function GrantOf(s: Stored, token: string, approver: string, now: int): Grant
    {
      var k := KeyNamed(tokens.keyOf, token);
      Grant(s, if k.Some? then k.value else [], approver, now)
    }

    method ConsumeFor(ghost c: nat, req: Request, s: Stored, now: int, why: string) returns (out: Outcome<Consumed>)
      requires Valid() && req.ExecuteRequest? && c in state.calls && state.calls[c] == ExecFound(req, s)
      modifies this`state, this`trace, tokens
      ensures Valid() && trace == old(trace) + [ConsumeToken(c, now, why)]
      ensures out == Consume(tokens.keyOf, old(tokens.rec), req.token, s.plan.planHash, now)
      ensures out.Ok? <==> Consumable(tokens.keyOf, old(tokens.rec), req.token, s.plan.planHash, now)
      ensures tokens.rec == AfterConsume(tokens.keyOf, old(tokens.rec), req.token, s.plan.planHash, now)
      ensures state.hist == old(state.hist) && c in state.calls
      ensures out.Ok? ==> state.calls[c] == ExecConsumed(GrantOf(s, req.token, out.value.approver, now))
      ensures out.Err? ==> state.calls[c] == Refusing(RefusalOf(s.plan, s.proposer, "", why))
    {
      hide Run, RowOf, Consumable, AfterConsume;
      hide StepResolvePlan, StepNumberPlan, StepStorePlan, StepLookup, StepMint, StepResolveExec, StepCallAction,
           StepActionReturns, StepWriteRow, StepNumberExecution;
      out := tokens.ConsumeToken(req.token, s.plan.planHash, now);
      Advance(ConsumeToken(c, now, why));
    }

    /** Consumes the token, or refuses. */
    method UseToken(ghost c: nat, req: Request, s: Stored, now: int, why: string, io: RowIO)
      returns (out: Outcome<Consumed>)
      requires Valid() && req.ExecuteRequest? && c in state.calls && state.calls[c] == ExecFound(req, s)
      modifies this`state, this`trace, tokens, audit
      ensures Valid() && old(trace) < trace
      ensures out == Consume(tokens.keyOf, old(tokens.rec), req.token, s.plan.planHash, now)
      ensures out.Ok? <==> Consumable(tokens.keyOf, old(tokens.rec), req.token, s.plan.planHash, now)
      ensures tokens.rec == AfterConsume(tokens.keyOf, old(tokens.rec), req.token, s.plan.planHash, now)
      ensures out.Ok? ==> state.hist == old(state.hist)
      ensures audit.rows == if out.Ok? then old(audit.rows)
                            else Submitted(old(audit.rows), RefusalOf(s.plan, s.proposer, "", why), io)
      ensures out.Ok? ==>
                c in state.calls && state.calls[c] == ExecConsumed(GrantOf(s, req.token, out.value.approver, now))
    {
      hide Valid, Run, RowOf, Step, StepWriteRow, Consume, Consumable, AfterConsume, GrantOf, Submitted;
      out := ConsumeFor(c, req, s, now, why);
      if out.Err? {
        var _ := Submit(c, RefusalOf(s.plan, s.proposer, "", why), io);
      }
    }

    /** From the consumed token on. */
    method Recheck(ghost c: nat, ghost g: Grant, s: Stored, approver: string, live: Option<Reach>,
                   outcome: Option<string>, why: string, io: RowIO)
      returns (r: Result<(string, Reach, string)>)
      requires Valid() && c in state.calls && state.calls[c] == ExecConsumed(g) && g.s == s && g.approver == approver
      requires idseq + 1 < TWO_TO_THE_64
      modifies this, audit
      ensures Valid() && old(trace) < trace && plans == old(plans)
      ensures r.Success? <==> s.plan.action in registry && live.Some? && Within(s.plan.bound, live.value)
                              && outcome.Some? && io == RowWritten
      ensures r.Success? ==>
                && r.value.1 == live.value && r.value.2 == outcome.value
                && idseq == old(idseq) + 1 && r.value.0 == FormatID("exe", idseq)
                && |state.hist.successes| == |old(state.hist.successes)| + 1
      ensures audit.rows == if s.plan.action !in registry then old(audit.rows)
                            else Submitted(old(audit.rows), OutcomeRow(s, approver, live, outcome, why), io)
      ensures r.Failure? ==>
                r.error == if s.plan.action !in registry then UnknownAction
                           else if live == None then Unresolvable
                           else if !Within(s.plan.bound, live.value) then OverBound
                           else if outcome == None then ExecutionFailed else AuditWriteFailed
    {
      hide Valid, Run, RowOf, Within, Step;
      var refused := CheckLive(c, g, s, approver, live, why, io);
      if refused.Some? {
        return Failure(refused.value);
      }
      r := RunAction(c, g, s, approver, live.value, outcome, why, io);
    }

    /** Refuses unless the live reach is within the plan's bound. */
    method CheckLive(ghost c: nat, ghost g: Grant, s: Stored, approver: string, live: Option<Reach>, why: string,
                     io: RowIO)
      returns (refused: Option<EngineError>)
      requires Valid() && c in state.calls && state.calls[c] == ExecConsumed(g) && g.s == s && g.approver == approver
      modifies this`state, this`trace, audit
      ensures Valid() && old(trace) < trace
      ensures refused == if s.plan.action !in registry then Some(UnknownAction)
                         else if live == None then Some(Unresolvable)
                         else if !Within(s.plan.bound, live.value) then Some(OverBound) else None
      ensures refused == None ==> state.hist == old(state.hist)
      ensures audit.rows == if refused == None || refused == Some(UnknownAction) then old(audit.rows)
                            else Submitted(old(audit.rows), OutcomeRow(s, approver, live, None, why), io)
      ensures refused == None ==> c in state.calls && state.calls[c] == ExecResolved(g, live.value)
    {
      hide Valid, Submitted, Run, RowOf, Within, VerdictOf;
      hide StepResolvePlan, StepNumberPlan, StepStorePlan, StepLookup, StepMint, StepConsume, StepCallAction,
           StepActionReturns, StepWriteRow, StepNumberExecution;
      ghost var l := ResolveExec(c, live, why);
      if s.plan.action !in registry {
        Move(l, ExecStopped(g));
        return Some(UnknownAction);
      }
      if live == None {
        var row := RefusalOf(s.plan, s.proposer, approver, why);
        Refuse(l, ExecRefusing(g, row), row, io);
        return Some(Unresolvable);
      }
      var verdict, _ := Evaluate(s.plan.bound, live.value, enforcement);
      ExecuteGuardIsNotWithin(s.plan.bound, live.value, enforcement);
      if verdict == BLOCK || !Within(s.plan.bound, live.value) {
        var row := RefusalOf(s.plan.(reach := live.value), s.proposer, approver, why);
        Refuse(l, ExecRefusing(g, row), row, io);
        return Some(OverBound);
      }
      Move(l, ExecResolved(g, live.value));
      return None;
    }

    /** Calls the action once, then records what it did before reporting success. */
    method RunAction(ghost c: nat, ghost g: Grant, s: Stored, approver: string, reach: Reach, outcome: Option<string>,
                     why: string, io: RowIO)
      returns (r: Result<(string, Reach, string)>)
      requires Valid() && c in state.calls && state.calls[c] == ExecResolved(g, reach)
      requires g.s == s && g.approver == approver
      requires idseq + 1 < TWO_TO_THE_64
      modifies this, audit
      ensures Valid() && old(trace) < trace && plans == old(plans)
      ensures r.Success? <==> outcome.Some? && io == RowWritten
      ensures r.Success? ==>
                && r.value.1 == reach && r.value.2 == outcome.value
                && idseq == old(idseq) + 1 && r.value.0 == FormatID("exe", idseq)
                && |state.hist.successes| == |old(state.hist.successes)| + 1
      ensures Within(s.plan.bound, reach) ==>
                audit.rows == Submitted(old(audit.rows), OutcomeRow(s, approver, Some(reach), outcome, why), io)
      ensures r.Failure? ==> r.error == if outcome == None then ExecutionFailed else AuditWriteFailed
      ensures |state.hist.attempts| == |old(state.hist.attempts)| + 1
    {
      hide Valid, Run, RowOf;
      hide StepResolvePlan, StepNumberPlan, StepStorePlan, StepLookup, StepMint, StepConsume, StepResolveExec,
           StepCallAction, StepActionReturns, StepNumberExecution;
      CallTheAction(c, g, reach, outcome, why);
      if outcome == None {
        var _ := Submit(c, RefusalOf(s.plan.(reach := reach), s.proposer, approver, why), io);
        return Failure(ExecutionFailed);
      }
      var row := ExecuteRow(s, approver, reach, outcome.value);
      var failed := Submit(c, row, io);
      if failed {
        return Failure(AuditWriteFailed);
      }
      var id := NumberIt(c, g);
      return Success((id, reach, outcome.value));
    }

    ghost method CallTheAction(c: nat, g: Grant, reach: Reach, outcome: Option<string>, why: string)
      requires Valid() && c in state.calls && state.calls[c] == ExecResolved(g, reach)
      modifies this`state, this`trace
      ensures Valid() && old(trace) < trace && c in state.calls
      ensures |state.hist.attempts| == |old(state.hist.attempts)| + 1
      ensures state.hist.successes == old(state.hist.successes)
      ensures state.calls[c] == if outcome.Some? then ExecCompleted(g, reach, outcome.value)
                                else ExecRefusing(g, RefusalOf(g.s.plan.(reach := reach), g.s.proposer, g.approver,
                                                               why))
    {
      hide Run, RowOf;
      hide StepResolvePlan, StepNumberPlan, StepStorePlan, StepLookup, StepMint, StepConsume, StepResolveExec,
           StepWriteRow, StepNumberExecution;
      Advance(CallAction(c));
      Advance(ActionReturns(c, outcome, why));
    }

    method NumberIt(ghost c: nat, ghost g: Grant) returns (id: string)
      requires Valid() && c in state.calls && state.calls[c] == ExecRecorded(g) && idseq + 1 < TWO_TO_THE_64
      modifies this`state, this`trace, this`idseq
      ensures Valid() && old(trace) < trace
      ensures |state.hist.successes| == |old(state.hist.successes)| + 1
      ensures state.hist.attempts == old(state.hist.attempts)
      ensures idseq == old(idseq) + 1 && id == FormatID("exe", idseq)
    {
      hide Run, FormatID;
      hide StepResolvePlan, StepNumberPlan, StepStorePlan, StepLookup, StepMint, StepConsume, StepResolveExec,
           StepCallAction, StepActionReturns, StepWriteRow;
      id := NewID("exe");
      Advance(NumberExecution(c));
    }
  }

  /** What is proved of runs, said of an engine: its rows and its tokens bound what it did. */
  lemma EngineReceipts(e: Engine)
    requires e.Valid()
    ensures |e.state.hist.successes| <= |Positions(e.audit.rows, EVENT_EXECUTE)| <= |e.state.hist.attempts|
    ensures |e.state.hist.attempts| <= |set k | k in e.tokens.rec && e.tokens.rec[k].consumed|
  {
    hide Run, RowsOk;
    ReceiptsBoundWhatWasDone(e.Cfg(), e.trace);
    assert ConsumedTokens(e.state) == set k | k in e.tokens.rec && e.tokens.rec[k].consumed;
  }
}
