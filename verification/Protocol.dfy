/**
  The plan, approve, execute protocol as a transition system (internal/engine).

  Each call is a sequence of steps with its own program counter; a step is one
  locked region or one call out of the engine, and steps of different calls
  interleave freely. What the topology, the action, the clock, the random source
  and the audit sink answer is part of the label.
*/
module Protocol {
  import opened Options
  import opened StringMaps
  import opened Blast
  import opened Records
  import opened Chain
  import opened Plans
  import opened Tokens

  datatype Config = Config(h: Digest, keyOf: KeyOf, fold: char -> char, enforcement: Enforcement, ttl: int,
                           registry: set<string>)

  datatype Stored = Stored(plan: Plan, proposer: string)

  datatype Request =
    | PlanRequest(action: string, backend: string, project: string, params: Params, bound: DeclaredBound,
                  dormant: seq<string>, proposer: string)
    | ApproveRequest(planID: string, planHash: string, approver: string, human: bool)
    | ExecuteRequest(planID: string, token: string)

  /** What an Execute call holds once it has consumed a token, and when it did. */
  datatype Grant = Grant(s: Stored, key: Secret, approver: string, at: int)

  /** The program counter of a call and its local variables. */
  datatype Call =
    | Started(req: Request)
    | PlanResolved(req: Request, reach: Reach, target: string)
    | PlanNumbered(req: Request, reach: Reach, target: string, n: nat, now: int)
    | PlanStored(s: Stored)
    | PlanDone(s: Stored)
    | ApproveFound(req: Request, s: Stored)
    | ApproveMinted(req: Request, s: Stored, key: Secret)
    | ApproveUnrecorded(key: Secret)
    | ApproveDone(key: Secret)
    | ExecFound(req: Request, s: Stored)
    | ExecConsumed(g: Grant)
    | ExecRefusing(g: Grant, row: Record)
    | ExecStopped(g: Grant)
    | ExecResolved(g: Grant, reach: Reach)
    | ExecAttempted(g: Grant, reach: Reach)
    | ExecCompleted(g: Grant, reach: Reach, outcome: string)
    | ExecUnrecorded(g: Grant)
    | ExecRecorded(g: Grant)
    | ExecDone(g: Grant)
    | Refusing(row: Record)
    | Failed

  /** The sink's answer: success, nothing written, or written and yet reported as failed. */
  datatype RowIO = RowWritten | RowLost | RowWrittenNotReported

  datatype Label =
    | Begin(c: nat, req: Request)
    | ResolvePlan(c: nat, boundOk: bool, resolved: Option<(Reach, string)>, why: string)
    | NumberPlan(c: nat, now: int)
    | StorePlan(c: nat)
    | Lookup(c: nat, why: string)
    | MintToken(c: nat, random: Option<Secret>, now: int)
    | ConsumeToken(c: nat, now: int, why: string)
    | ResolveExec(c: nat, live: Option<Reach>, why: string)
    | CallAction(c: nat)
    | ActionReturns(c: nat, outcome: Option<string>, why: string)
    | WriteRow(c: nat, io: RowIO)
    | NumberExecution(c: nat)

  /** What was minted: the plan and pair that Approve checked. */
  datatype MintEvent = MintEvent(s: Stored, approver: string, human: bool, at: int)

  /** One call of the action's Execute. */
  datatype Attempt = Attempt(g: Grant, reach: Reach, action: string, params: Params)

  function AttemptWith(g: Grant, reach: Reach): Attempt { Attempt(g, reach, g.s.plan.action, g.s.plan.params) }

  /** What has happened; no step reads it. A token is named by its key. */
  datatype History = History(
    mints: map<Secret, MintEvent>,
    approveKeys: seq<Secret>,   // tokens of the approve rows, in row order
    returned: set<Secret>,      // tokens Approve handed out
    attempts: seq<Attempt>,
    tried: seq<Secret>,         // tokens of the attempts
    completions: seq<Secret>,   // tokens of the actions that returned success
    outcomes: map<Secret, string>, // what these returned
    executeKeys: seq<Secret>,   // tokens of the execute rows, in row order
    successes: seq<Secret>)     // tokens of the Execute calls that returned success

  datatype State = State(plans: map<string, Stored>, idseq: nat, tokens: Store, rows: seq<Record>,
                         calls: map<nat, Call>, hist: History)

  const INITIAL := State(map[], 0, map[], [], map[], History(map[], [], {}, [], [], [], map[], [], []))

  // ---- audit rows ----

  const NO_REACH := Reach(0, 0, 0, 0)

  function RowOf(event: string, p: Plan, verdict: string, proposer: string, approver: string, outcome: string): Record {
    Record(0, "", event, p.action, p.backend, p.project, p.params, p.bound, p.reach, verdict, outcome,
           proposer, approver, p.planHash, "", "")
  }

  /** The row of an approval: the plan and the pair that were minted for. */
  function ApproveRow(s: Stored, approver: string): Record {
    RowOf(EVENT_APPROVE, s.plan, "ALLOW", s.proposer, approver, "token minted")
  }

  /** The row of an execution: the plan run, its proposer, the token's approver and the live reach. */
  function ExecuteRow(s: Stored, approver: string, reach: Reach, outcome: string): Record {
    RowOf(EVENT_EXECUTE, s.plan.(reach := reach), "ALLOW", s.proposer, approver, outcome)
  }

  function RefusalOf(p: Plan, proposer: string, approver: string, why: string): Record {
    RowOf(EVENT_REFUSE, p, "REFUSED", proposer, approver, why)
  }

  function RefuseRow(req: Request, outcome: string): Record
    requires req.PlanRequest?
  {
    Record(0, "", EVENT_REFUSE, req.action, req.backend, req.project, req.params, req.bound, NO_REACH, "REFUSED",
           outcome, req.proposer, "", "", "", "")
  }

  /** Field by field, what a row of an event about a plan says. */
  ghost predicate RowSays(row: Record, event: string, verdict: string, p: Plan, reach: Reach, proposer: string,
                          approver: string, outcome: string) {
    && row.event == event && row.verdict == verdict && row.outcome == outcome
    && row.action == p.action && row.backend == p.backend && row.project == p.project && row.params == p.params
    && row.bound == p.bound && row.planHash == p.planHash && row.reach == reach
    && row.proposer == proposer && row.approver == approver && row.ts == ""
  }

  lemma RowsSayWhatTheyShould(p: Plan, s: Stored, proposer: string, approver: string, reach: Reach, text: string)
    ensures RowSays(RefusalOf(p, proposer, approver, text), "refuse", "REFUSED", p, p.reach, proposer, approver, text)
    ensures RowSays(ApproveRow(s, approver), "approve", "ALLOW", s.plan, s.plan.reach, s.proposer, approver,
                    "token minted")
    ensures RowSays(ExecuteRow(s, approver, reach, text), "execute", "ALLOW", s.plan, reach, s.proposer, approver, text)
  {
  }

  /** And the row of a request that was refused before there was a plan. */
  ghost predicate RefusalSays(row: Record, req: Request, why: string)
    requires req.PlanRequest?
  {
    && row.event == "refuse" && row.verdict == "REFUSED" && row.outcome == why
    && row.action == req.action && row.backend == req.backend && row.project == req.project && row.params == req.params
    && row.bound == req.bound && row.planHash == "" && row.reach == Reach(0, 0, 0, 0)
    && row.proposer == req.proposer && row.approver == "" && row.ts == ""
  }

  function VerdictText(v: Verdict): string { match v case ALLOW => "ALLOW" case WARN => "WARN" case BLOCK => "BLOCK" }

  /** Every axis named, in range, and none dormant. */
  predicate DeclaredOk(d: DeclaredBound, dormant: seq<string>) {
    dormant == [] && d.service != "" && d.maxHosts >= 0 && 0 <= d.fleetPct <= 100
  }

  // ---- steps ----

  function Goto(s: State, c: nat, call: Call): State { s.(calls := s.calls[c := call]) }

  function StepResolvePlan(cfg: Config, s: State, l: Label): Option<State>
    requires l.ResolvePlan?
  {
    if l.c !in s.calls || !s.calls[l.c].Started? || !s.calls[l.c].req.PlanRequest? then None
    else
      var req := s.calls[l.c].req;
      if req.action !in cfg.registry then Some(Goto(s, l.c, Failed))
      else if !DeclaredOk(req.bound, req.dormant) || !l.boundOk || l.resolved == None then
        Some(Goto(s, l.c, Refusing(RefuseRow(req, l.why))))
      else Some(Goto(s, l.c, PlanResolved(req, l.resolved.value.0, l.resolved.value.1)))
  }

  function StepNumberPlan(s: State, c: nat, now: int): Option<State> {
    if c !in s.calls || !s.calls[c].PlanResolved? || s.idseq + 1 >= TWO_TO_THE_64 then None
    else
      var k := s.calls[c];
      Some(Goto(s.(idseq := s.idseq + 1), c, PlanNumbered(k.req, k.reach, k.target, s.idseq + 1, now)))
  }

  ghost function RenderPlan(cfg: Config, req: Request, reach: Reach, target: string, n: nat, now: int): Plan
    requires req.PlanRequest?
  {
    var p := Plan(FormatID("pln", n), req.action, req.backend, req.project, req.params, target, req.bound, reach,
                  cfg.enforcement, VerdictOf(req.bound, reach, cfg.enforcement), Within(req.bound, reach),
                  "", now, now + cfg.ttl);
    p.(planHash := PlanHash(cfg.h, p))
  }

  /** Field by field, the plan a request is rendered into. */
  ghost predicate PlanSays(cfg: Config, p: Plan, req: Request, reach: Reach, target: string, now: int)
    requires req.PlanRequest?
  {
    && p.action == req.action && p.backend == req.backend && p.project == req.project && p.params == req.params
    && p.bound == req.bound && p.reach == reach && p.target == target && p.enforcement == cfg.enforcement
    && p.withinBound == Within(req.bound, reach) && p.verdict == VerdictOf(req.bound, reach, cfg.enforcement)
    && p.createdAt == now && p.expiresAt == now + cfg.ttl
  }

  lemma RenderedSays(cfg: Config, req: Request, reach: Reach, target: string, n: nat, now: int)
    requires req.PlanRequest?
    ensures PlanSays(cfg, RenderPlan(cfg, req, reach, target, n, now), req, reach, target, now)
  {
  }

  ghost function StepStorePlan(cfg: Config, s: State, c: nat): Option<State> {
    if c !in s.calls || !s.calls[c].PlanNumbered? || !s.calls[c].req.PlanRequest? then None
    else
      var k := s.calls[c];
      var st := Stored(RenderPlan(cfg, k.req, k.reach, k.target, k.n, k.now), k.req.proposer);
      Some(Goto(s.(plans := s.plans[st.plan.planID := st]), c, PlanStored(st)))
  }

  function StepLookup(cfg: Config, s: State, c: nat, why: string): Option<State> {
    if c !in s.calls || !s.calls[c].Started? || s.calls[c].req.PlanRequest? then None
    else
      var req := s.calls[c].req;
      if req.planID !in s.plans then Some(Goto(s, c, Failed))
      else
        var st := s.plans[req.planID];
        if req.ExecuteRequest? then Some(Goto(s, c, ExecFound(req, st)))
        else if req.planHash != st.plan.planHash || !Executable(st.plan)
                || CheckSoD(cfg.fold, st.proposer, req.approver, req.human) != None then
          Some(Goto(s, c, Refusing(RefusalOf(st.plan, st.proposer, req.approver, why))))
        else Some(Goto(s, c, ApproveFound(req, st)))
  }

  /** Secrets are fresh: 256 random bits never repeat a key in the store. */
  function StepMint(cfg: Config, s: State, c: nat, random: Option<Secret>, now: int): Option<State> {
    if c !in s.calls || !s.calls[c].ApproveFound? || !s.calls[c].req.ApproveRequest? then None
    else
      var req, st := s.calls[c].req, s.calls[c].s;
      if random == None || st.plan.planHash == "" then Some(Goto(s, c, Failed))
      else
        var k := cfg.keyOf(random.value);
        if |random.value| != SECRET_BYTES || k in s.tokens then None
        else
          Some(Goto(s.(tokens := s.tokens[k := Minted(st.plan.planHash, st.proposer, req.approver, cfg.ttl, now)],
                       hist := s.hist.(mints := s.hist.mints[k := MintEvent(st, req.approver, req.human, now)])),
                    c, ApproveMinted(req, st, k)))
  }

  function StepConsume(cfg: Config, s: State, c: nat, now: int, why: string): Option<State> {
    if c !in s.calls || !s.calls[c].ExecFound? || !s.calls[c].req.ExecuteRequest? then None
    else
      var req, st := s.calls[c].req, s.calls[c].s;
      match Consume(cfg.keyOf, s.tokens, req.token, st.plan.planHash, now)
      case Err(_) =>
        Some(Goto(s, c, Refusing(RefusalOf(st.plan, st.proposer, "", why))))
      case Ok(who) =>
        Some(Goto(s.(tokens := AfterConsume(cfg.keyOf, s.tokens, req.token, st.plan.planHash, now)), c,
                  ExecConsumed(Grant(st, KeyNamed(cfg.keyOf, req.token).value, who.approver, now))))
  }

  /** The recheck against the live topology, under the modes in force. */
  ghost function StepResolveExec(cfg: Config, s: State, c: nat, live: Option<Reach>, why: string): Option<State> {
    if c !in s.calls || !s.calls[c].ExecConsumed? then None
    else
      var g := s.calls[c].g;
      var p := g.s.plan;
      if p.action !in cfg.registry then Some(Goto(s, c, ExecStopped(g)))
      else if live == None then
        Some(Goto(s, c, ExecRefusing(g, RefusalOf(p, g.s.proposer, g.approver, why))))
      else if VerdictOf(p.bound, live.value, cfg.enforcement) == BLOCK || !Within(p.bound, live.value) then
        Some(Goto(s, c, ExecRefusing(g, RefusalOf(p.(reach := live.value), g.s.proposer,
                                              g.approver, why))))
      else Some(Goto(s, c, ExecResolved(g, live.value)))
  }

  function StepCallAction(s: State, c: nat): Option<State> {
    if c !in s.calls || !s.calls[c].ExecResolved? then None
    else
      var g, reach := s.calls[c].g, s.calls[c].reach;
      var hist := s.hist.(attempts := s.hist.attempts + [AttemptWith(g, reach)],
                          tried := s.hist.tried + [g.key]);
      Some(Goto(s.(hist := hist), c, ExecAttempted(g, reach)))
  }

  function StepActionReturns(s: State, c: nat, outcome: Option<string>, why: string): Option<State> {
    if c !in s.calls || !s.calls[c].ExecAttempted? then None
    else
      var g, reach := s.calls[c].g, s.calls[c].reach;
      if outcome == None then
        Some(Goto(s, c, ExecRefusing(g, RefusalOf(g.s.plan.(reach := reach), g.s.proposer,
                                              g.approver, why))))
      else
        var hist := s.hist.(completions := s.hist.completions + [g.key],
                            outcomes := s.hist.outcomes[g.key := outcome.value]);
        Some(Goto(s.(hist := hist), c, ExecCompleted(g, reach, outcome.value)))
  }

  /** The row a call is about to submit, if it is at such a point. */
  function PendingRow(call: Call): Option<Record> {
    match call
    case PlanStored(st) =>
      Some(RowOf(EVENT_PLAN, st.plan, VerdictText(st.plan.verdict), st.proposer, "", "plan rendered"))
    case ApproveMinted(req, st, _) =>
      if req.ApproveRequest? then
        Some(ApproveRow(st, req.approver))
      else None
    case ExecCompleted(g, reach, outcome) =>
      Some(ExecuteRow(g.s, g.approver, reach, outcome))
    case ExecRefusing(_, row) => Some(row)
    case Refusing(row) => Some(row)
    case _ => None
  }

  /** Plan and refuse rows are best effort; approve and execute rows are not. */
  function AfterRow(call: Call, ok: bool): Call
    requires PendingRow(call).Some?
  {
    match call
    case PlanStored(st) => PlanDone(st)
    case ApproveMinted(_, _, key) => if ok then ApproveDone(key) else ApproveUnrecorded(key)
    case ExecCompleted(g, _, _) => if ok then ExecRecorded(g) else ExecUnrecorded(g)
    case ExecRefusing(g, _) => ExecStopped(g)
    case _ => Failed
  }

  function HistoryAfterRow(hist: History, call: Call, io: RowIO): History {
    if io == RowLost then hist
    else if call.ExecCompleted? then hist.(executeKeys := hist.executeKeys + [call.g.key])
    else if call.ApproveMinted? then
      hist.(approveKeys := hist.approveKeys + [call.key],
            returned := if io == RowWritten then hist.returned + {call.key} else hist.returned)
    else hist
  }

  function StepWriteRow(s: State, c: nat, io: RowIO): Option<State> {
    if c !in s.calls || PendingRow(s.calls[c]) == None then None
    else
      var call := s.calls[c];
      var landed := io != RowLost;
      var rows := if landed then s.rows + [PendingRow(call).value] else s.rows;
      var s1 := s.(rows := rows, hist := HistoryAfterRow(s.hist, call, io));
      Some(Goto(s1, c, AfterRow(call, io == RowWritten)))
  }

  function StepNumberExecution(s: State, c: nat): Option<State> {
    if c !in s.calls || !s.calls[c].ExecRecorded? || s.idseq + 1 >= TWO_TO_THE_64 then None
    else
      var g := s.calls[c].g;
      var hist := s.hist.(successes := s.hist.successes + [g.key]);
      Some(Goto(s.(idseq := s.idseq + 1, hist := hist), c, ExecDone(g)))
  }

  /** One step; None when the label is not enabled. */
  ghost function Step(cfg: Config, s: State, l: Label): Option<State> {
    match l
    case Begin(c, req) => if c in s.calls then None else Some(Goto(s, c, Started(req)))
    case ResolvePlan(_, _, _, _) => StepResolvePlan(cfg, s, l)
    case NumberPlan(c, now) => StepNumberPlan(s, c, now)
    case StorePlan(c) => StepStorePlan(cfg, s, c)
    case Lookup(c, why) => StepLookup(cfg, s, c, why)
    case MintToken(c, random, now) => StepMint(cfg, s, c, random, now)
    case ConsumeToken(c, now, why) => StepConsume(cfg, s, c, now, why)
    case ResolveExec(c, live, why) => StepResolveExec(cfg, s, c, live, why)
    case CallAction(c) => StepCallAction(s, c)
    case ActionReturns(c, outcome, why) => StepActionReturns(s, c, outcome, why)
    case WriteRow(c, io) => StepWriteRow(s, c, io)
    case NumberExecution(c) => StepNumberExecution(s, c)
  }

  ghost function Run(cfg: Config, s: State, ls: seq<Label>): Option<State>
    decreases |ls|
  {
    if ls == [] then Some(s)
    else match Step(cfg, s, ls[0]) case None => None case Some(s1) => Run(cfg, s1, ls[1..])
  }
}
