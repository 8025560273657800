/** Audit rows and their JSON line (internal/audit/record.go). */
module Records {
  import opened Options
  import opened Json
  import opened StringMaps
  import opened Blast

  const TWO_TO_THE_64: nat := 0x1_0000_0000_0000_0000

  type uint64 = n: nat | n < TWO_TO_THE_64

  /** Sequence numbers wrap as Go's uint64 does. */
  function Succ(n: uint64): uint64 { if n + 1 == TWO_TO_THE_64 then 0 else n + 1 }

  const EVENT_PLAN := "plan"
  const EVENT_APPROVE := "approve"
  const EVENT_REFUSE := "refuse"
  const EVENT_EXECUTE := "execute"
  const EVENT_BREAK_GLASS := "break_glass"

  datatype Record = Record(
    seq_: uint64,
    ts: string,
    event: string,
    action: string,
    backend: string,
    project: string,
    params: Params,
    bound: DeclaredBound,
    reach: Reach,
    verdict: string,
    outcome: string,
    proposer: string,
    approver: string,
    planHash: string,
    prevHash: string,
    hash: string
  )

  function RecordJson(r: Record): Value {
    Object(
      Field("seq", Number(r.seq_),
      Field("ts", Text(r.ts),
      Field("event", Text(r.event),
      Field("action", Text(r.action),
      Field("backend", Text(r.backend),
      Field("project", Text(r.project),
      Field("params_redacted", MapJson(r.params),
      Field("declared_bound", BoundJson(r.bound),
      Field("computed_reach", ReachJson(r.reach),
      Field("verdict", Text(r.verdict),
      Field("outcome", Text(r.outcome),
      Field("proposer_key_id", Text(r.proposer),
      Field("approver", Text(r.approver),
      Field("plan_hash", Text(r.planHash),
      Field("prev_record_hash", Text(r.prevHash),
      Field("record_hash", Text(r.hash), End)))))))))))))))))
  }

  /** Strict decoding of the object a record is written as; None stands for the decode error. */
  function RecordFromJson(v: Value): Option<Record> {
    if !v.Object? then None else
    var (n, f1) :- TakeInt(v.fields, "seq");
    var (ts, f2) :- TakeText(f1, "ts");
    var (event, f3) :- TakeText(f2, "event");
    var (action, f4) :- TakeText(f3, "action");
    var (backend, f5) :- TakeText(f4, "backend");
    var (project, f6) :- TakeText(f5, "project");
    var (params, f7) :- TakeParams(f6, "params_redacted");
    var (bound, f8) :- TakeBound(f7, "declared_bound");
    var (reach, f9) :- TakeReach(f8, "computed_reach");
    var (verdict, f10) :- TakeText(f9, "verdict");
    var (outcome, f11) :- TakeText(f10, "outcome");
    var (proposer, f12) :- TakeText(f11, "proposer_key_id");
    var (approver, f13) :- TakeText(f12, "approver");
    var (planHash, f14) :- TakeText(f13, "plan_hash");
    var (prevHash, f15) :- TakeText(f14, "prev_record_hash");
    var (hash, f16) :- TakeText(f15, "record_hash");
    if f16.End? && 0 <= n < TWO_TO_THE_64 then
      Some(Record(n, ts, event, action, backend, project, params, bound, reach, verdict, outcome,
                  proposer, approver, planHash, prevHash, hash))
    else None
  }

  lemma RecordRoundTrip(r: Record)
    ensures RecordFromJson(RecordJson(r)) == Some(r)
  {
    hide MapJson, MapFromJson, BoundJson, BoundFromJson, ReachJson, ReachFromJson;
    MapRoundTrip(r.params);
    BoundRoundTrip(r.bound);
    ReachRoundTrip(r.reach);
  }

  /** Each field of a record stands under its own name. */
  lemma RecordFieldsNamed(r: Record)
    ensures var fs := RecordJson(r).fields;
            && FieldOf(fs, "seq") == Some(Number(r.seq_))
            && FieldOf(fs, "ts") == Some(Text(r.ts))
            && FieldOf(fs, "event") == Some(Text(r.event))
            && FieldOf(fs, "action") == Some(Text(r.action))
            && FieldOf(fs, "backend") == Some(Text(r.backend))
            && FieldOf(fs, "project") == Some(Text(r.project))
            && FieldOf(fs, "params_redacted") == Some(MapJson(r.params))
            && FieldOf(fs, "declared_bound") == Some(BoundJson(r.bound))
            && FieldOf(fs, "computed_reach") == Some(ReachJson(r.reach))
            && FieldOf(fs, "verdict") == Some(Text(r.verdict))
            && FieldOf(fs, "outcome") == Some(Text(r.outcome))
            && FieldOf(fs, "proposer_key_id") == Some(Text(r.proposer))
            && FieldOf(fs, "approver") == Some(Text(r.approver))
            && FieldOf(fs, "plan_hash") == Some(Text(r.planHash))
            && FieldOf(fs, "prev_record_hash") == Some(Text(r.prevHash))
            && FieldOf(fs, "record_hash") == Some(Text(r.hash))
  {
    hide MapJson, BoundJson, ReachJson, FieldOf;
    var fs := RecordJson(r).fields;
    var f4 := fs.rest.rest.rest.rest;
    var f8 := f4.rest.rest.rest.rest;
    var f12 := f8.rest.rest.rest.rest;
    TwoFields(fs);
    TwoFields(fs.rest.rest);
    TwoFields(f4);
    TwoFields(f4.rest.rest);
    TwoFields(f8);
    TwoFields(f8.rest.rest);
    TwoFields(f12);
    TwoFields(f12.rest.rest);
  }

  /** One line of the log file, without its newline. */
  function Line(r: Record): string { Marshal(RecordJson(r)) }

  /** What the record hash covers: the line with its own hash emptied. */
  function Payload(r: Record): string { Line(r.(hash := "")) }

  /** Two records with one payload differ at most in their own hash. */
  lemma PayloadInjective(a: Record, b: Record)
    requires Payload(a) == Payload(b)
    ensures a.(hash := "") == b.(hash := "")
  {
    MarshalInjective(RecordJson(a.(hash := "")), RecordJson(b.(hash := "")));
    RecordRoundTrip(a.(hash := ""));
    RecordRoundTrip(b.(hash := ""));
  }
}
