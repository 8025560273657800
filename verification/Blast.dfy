/** The blast-radius limiter: bounds, reaches, verdicts (internal/blast). */
module Blast {
  import opened Options
  import opened Json
  import opened StringMaps

  datatype DeclaredBound = DeclaredBound(maxHosts: int, service: string, fleetPct: int)
  datatype Reach = Reach(hosts: int, services: int, instances: int, fleetPct: int)

  /** A per-axis mode is a string in the source: a value that is none of the three is Other. */
  datatype Mode = Off | Warn | Block | Other(name: string)
  datatype Enforcement = Enforcement(maxHosts: Mode, service: Mode, fleetPct: Mode)
  datatype Verdict = ALLOW | WARN | BLOCK

  datatype Axis = MaxHosts | Service | FleetPct
  datatype Breach = Breach(axis: Axis, declared: int, reached: int, mode: Mode)

  predicate Within(d: DeclaredBound, r: Reach) {
    r.services == 1 && r.hosts <= d.maxHosts && r.instances >= 0 && r.fleetPct <= d.fleetPct
  }

  // ---- what Evaluate is for, said without its loop ----

  predicate Exceeds(d: DeclaredBound, r: Reach, a: Axis) {
    match a
    case MaxHosts => r.hosts > d.maxHosts
    case Service => r.services != 1
    case FleetPct => r.fleetPct > d.fleetPct
  }

  function ModeOf(e: Enforcement, a: Axis): Mode {
    match a
    case MaxHosts => e.maxHosts
    case Service => e.service
    case FleetPct => e.fleetPct
  }

  /** BLOCK iff some exceeded axis blocks; else WARN iff some exceeded axis warns. */
  ghost function VerdictOf(d: DeclaredBound, r: Reach, e: Enforcement): Verdict {
    if exists a :: Exceeds(d, r, a) && ModeOf(e, a) == Block then BLOCK
    else if exists a :: Exceeds(d, r, a) && ModeOf(e, a) == Warn then WARN
    else ALLOW
  }

  function BreachOf(d: DeclaredBound, r: Reach, e: Enforcement, a: Axis): Breach {
    match a
    case MaxHosts => Breach(a, d.maxHosts, r.hosts, e.maxHosts)
    case Service => Breach(a, 1, r.services, e.service)
    case FleetPct => Breach(a, d.fleetPct, r.fleetPct, e.fleetPct)
  }

  /** The breach of one axis as a list: empty when the axis holds or is off. */
  function BreachList(d: DeclaredBound, r: Reach, e: Enforcement, a: Axis): seq<Breach> {
    if Exceeds(d, r, a) && ModeOf(e, a) != Off then [BreachOf(d, r, e, a)] else []
  }

  function Breaches(d: DeclaredBound, r: Reach, e: Enforcement): seq<Breach> {
    BreachList(d, r, e, MaxHosts) + BreachList(d, r, e, Service) + BreachList(d, r, e, FleetPct)
  }

  /** The list names exactly the exceeded axes that are not off. */
  lemma BreachesExact(d: DeclaredBound, r: Reach, e: Enforcement, a: Axis)
    ensures (Exceeds(d, r, a) && ModeOf(e, a) != Off) <==> exists b :: b in Breaches(d, r, e) && b.axis == a
  {
    var l := BreachList(d, r, e, a);
    if l != [] {
      assert l[0] in Breaches(d, r, e) && l[0].axis == a;
    }
  }

  /** What a breach says: the axis, its ceiling, the higher count (or other than one service) and its mode. */
  ghost predicate IsBreach(d: DeclaredBound, r: Reach, e: Enforcement, b: Breach) {
    || (b == Breach(MaxHosts, d.maxHosts, r.hosts, e.maxHosts) && r.hosts > d.maxHosts)
    || (b == Breach(Service, 1, r.services, e.service) && r.services != 1)
    || (b == Breach(FleetPct, d.fleetPct, r.fleetPct, e.fleetPct) && r.fleetPct > d.fleetPct)
  }

  lemma BreachesMean(d: DeclaredBound, r: Reach, e: Enforcement)
    ensures forall b :: b in Breaches(d, r, e) <==> b.mode != Off && IsBreach(d, r, e, b)
  {
    forall b ensures b in Breaches(d, r, e) <==> b.mode != Off && IsBreach(d, r, e, b) {
      var h, s, f := BreachList(d, r, e, MaxHosts), BreachList(d, r, e, Service), BreachList(d, r, e, FleetPct);
      assert b in Breaches(d, r, e) <==> b in h || b in s || b in f;
    }
  }

  /** The order of the list: hosts, then service, then fleet percentage. */
  ghost predicate Before(a: Axis, b: Axis) { (a == MaxHosts && b != MaxHosts) || (a == Service && b == FleetPct) }

  lemma BreachesInOrder(d: DeclaredBound, r: Reach, e: Enforcement)
    ensures var bs := Breaches(d, r, e);
            forall i, j | 0 <= i < j < |bs| :: Before(bs[i].axis, bs[j].axis)
  {
    hide Exceeds, ModeOf;
    assert forall a :: |BreachList(d, r, e, a)| <= 1;
    assert forall a :: BreachList(d, r, e, a) != [] ==> BreachList(d, r, e, a)[0].axis == a;
  }

  /** The worst mode of a list, without the scan. */
  lemma {:induction false} ScanMeans(bs: seq<Breach>)
    ensures Scan(bs) == BLOCK <==> exists b :: b in bs && b.mode == Block
    ensures Scan(bs) == WARN <==> Scan(bs) != BLOCK && exists b :: b in bs && b.mode == Warn
  {
    if bs != [] {
      var n := |bs| - 1;
      ScanMeans(bs[..n]);
      assert bs == bs[..n] + [bs[n]];
    }
  }

  method Evaluate(d: DeclaredBound, r: Reach, e: Enforcement) returns (verdict: Verdict, breaches: seq<Breach>)
    ensures verdict == VerdictOf(d, r, e)
    ensures breaches == Breaches(d, r, e)
    ensures verdict == BLOCK <==> exists b :: b in breaches && b.mode == Block
    ensures verdict == WARN <==> verdict != BLOCK && exists b :: b in breaches && b.mode == Warn
    ensures forall b :: b in breaches <==> b.mode != Off && IsBreach(d, r, e, b)
    ensures forall i, j | 0 <= i < j < |breaches| :: Before(breaches[i].axis, breaches[j].axis)
  {
    hide VerdictOf;
    breaches := [];
    if r.hosts > d.maxHosts {
      breaches := AddBreach(breaches, Breach(MaxHosts, d.maxHosts, r.hosts, e.maxHosts));
    }
    if r.services != 1 {
      breaches := AddBreach(breaches, Breach(Service, 1, r.services, e.service));
    }
    if r.fleetPct > d.fleetPct {
      breaches := AddBreach(breaches, Breach(FleetPct, d.fleetPct, r.fleetPct, e.fleetPct));
    }
    assert breaches == Breaches(d, r, e);
    verdict := WorstMode(breaches);
    ScanMeetsVerdict(d, r, e);
    ScanMeans(breaches);
    BreachesMean(d, r, e);
    BreachesInOrder(d, r, e);
  }

  method WorstMode(breaches: seq<Breach>) returns (verdict: Verdict)
    ensures verdict == Scan(breaches)
  {
    verdict := ALLOW;
    var i := 0;
    while i < |breaches|
      invariant 0 <= i <= |breaches|
      invariant verdict == Scan(breaches[..i]) && verdict != BLOCK
    {
      assert breaches[..i + 1][..i] == breaches[..i];
      if breaches[i].mode == Block {
        ScanStopsAtBlock(breaches, i);
        return BLOCK;
      }
      if breaches[i].mode == Warn {
        verdict := WARN;
      }
      i := i + 1;
    }
    assert breaches[..i] == breaches;
  }

  function AddBreach(bs: seq<Breach>, b: Breach): seq<Breach> {
    if b.mode == Off then bs else bs + [b]
  }

  /** The worst mode of a list. */
  function Scan(bs: seq<Breach>): Verdict {
    if bs == [] then ALLOW
    else
      var before := Scan(bs[..|bs| - 1]);
      var last := bs[|bs| - 1];
      if before == BLOCK || last.mode == Block then BLOCK
      else if last.mode == Warn then WARN else before
  }

  lemma {:induction false} ScanStopsAtBlock(bs: seq<Breach>, i: nat)
    requires i < |bs| && bs[i].mode == Block
    ensures Scan(bs) == BLOCK
  {
    if i < |bs| - 1 {
      ScanStopsAtBlock(bs[..|bs| - 1], i);
    }
  }

  /** A mode other than off is listed exactly when some exceeded axis has it. */
  lemma ModeListed(d: DeclaredBound, r: Reach, e: Enforcement, m: Mode)
    requires m != Off
    ensures (exists b :: b in Breaches(d, r, e) && b.mode == m) <==> exists a :: Exceeds(d, r, a) && ModeOf(e, a) == m
  {
    BreachesMean(d, r, e);
    hide Breaches;
    if b :| b in Breaches(d, r, e) && b.mode == m {
      assert IsBreach(d, r, e, b);
      assert Exceeds(d, r, b.axis) && ModeOf(e, b.axis) == m;
    }
    if a :| Exceeds(d, r, a) && ModeOf(e, a) == m {
      var b := BreachOf(d, r, e, a);
      assert IsBreach(d, r, e, b) && b.mode == m;
    }
  }

  lemma ScanMeetsVerdict(d: DeclaredBound, r: Reach, e: Enforcement)
    ensures Scan(Breaches(d, r, e)) == VerdictOf(d, r, e)
  {
    ScanMeans(Breaches(d, r, e));
    ModeListed(d, r, e, Block);
    ModeListed(d, r, e, Warn);
    hide Breaches, Scan, Exceeds, ModeOf;
  }

  // ---- modes never widen what runs ----

  /** Being within bound is the absence of exceeded axes, plus a count that is not negative. */
  lemma WithinIsNoExcess(d: DeclaredBound, r: Reach)
    ensures Within(d, r) <==> r.instances >= 0 && forall a :: !Exceeds(d, r, a)
  {
    if r.instances >= 0 && forall a :: !Exceeds(d, r, a) {
      assert !Exceeds(d, r, MaxHosts) && !Exceeds(d, r, Service) && !Exceeds(d, r, FleetPct);
    }
  }

  /** Under every mode setting a reach within bound is ALLOW with no breach, so no setting blocks what Within admits. */
  lemma WithinIsAllowed(d: DeclaredBound, r: Reach, e: Enforcement)
    requires Within(d, r)
    ensures VerdictOf(d, r, e) == ALLOW && Breaches(d, r, e) == []
  {
    WithinIsNoExcess(d, r);
  }

  /** The guard Execute refuses on is exactly "not within", whatever the modes. */
  lemma ExecuteGuardIsNotWithin(d: DeclaredBound, r: Reach, e: Enforcement)
    ensures (VerdictOf(d, r, e) == BLOCK || !Within(d, r)) <==> !Within(d, r)
  {
    WithinIsNoExcess(d, r);
  }

  /** With every axis blocking, BLOCK is exactly "not within". */
  lemma AllBlockIsExact(d: DeclaredBound, r: Reach)
    requires r.instances >= 0
    ensures VerdictOf(d, r, Enforcement(Block, Block, Block)) == BLOCK <==> !Within(d, r)
  {
    WithinIsNoExcess(d, r);
    if a :| Exceeds(d, r, a) {
      assert ModeOf(Enforcement(Block, Block, Block), a) == Block;
    }
  }

  /** Raising a ceiling keeps what was within; the service name in a bound plays no part. */
  lemma WithinIsMonotone(d: DeclaredBound, d': DeclaredBound, r: Reach)
    requires d.maxHosts <= d'.maxHosts && d.fleetPct <= d'.fleetPct
    ensures Within(d, r) ==> Within(d', r)
    ensures r.services != 1 ==> !Within(d', r)
  {
  }

  // ---- JSON ----

  function BoundJson(d: DeclaredBound): Value {
    Object(Field("max_hosts", Number(d.maxHosts), Field("service", Text(d.service),
      Field("fleet_pct", Number(d.fleetPct), End))))
  }

  function BoundFromJson(v: Value): Option<DeclaredBound> {
    if !v.Object? then None else
    var (maxHosts, f1) :- TakeInt(v.fields, "max_hosts");
    var (service, f2) :- TakeText(f1, "service");
    var (fleetPct, f3) :- TakeInt(f2, "fleet_pct");
    if f3.End? then Some(DeclaredBound(maxHosts, service, fleetPct)) else None
  }

  function ReachJson(r: Reach): Value {
    Object(Field("hosts", Number(r.hosts), Field("services", Number(r.services),
      Field("instances", Number(r.instances), Field("fleet_pct", Number(r.fleetPct), End)))))
  }

  function ReachFromJson(v: Value): Option<Reach> {
    if !v.Object? then None else
    var (hosts, f1) :- TakeInt(v.fields, "hosts");
    var (services, f2) :- TakeInt(f1, "services");
    var (instances, f3) :- TakeInt(f2, "instances");
    var (fleetPct, f4) :- TakeInt(f3, "fleet_pct");
    if f4.End? then Some(Reach(hosts, services, instances, fleetPct)) else None
  }

  lemma BoundRoundTrip(d: DeclaredBound)
    ensures BoundFromJson(BoundJson(d)) == Some(d)
  {
  }

  /** Each ceiling stands under its own name. */
  lemma BoundFieldsNamed(d: DeclaredBound)
    ensures var fs := BoundJson(d).fields;
            && FieldOf(fs, "max_hosts") == Some(Number(d.maxHosts))
            && FieldOf(fs, "service") == Some(Text(d.service))
            && FieldOf(fs, "fleet_pct") == Some(Number(d.fleetPct))
  {
    TwoFields(BoundJson(d).fields);
  }

  /** And each count. */
  lemma ReachFieldsNamed(r: Reach)
    ensures var fs := ReachJson(r).fields;
            && FieldOf(fs, "hosts") == Some(Number(r.hosts))
            && FieldOf(fs, "services") == Some(Number(r.services))
            && FieldOf(fs, "instances") == Some(Number(r.instances))
            && FieldOf(fs, "fleet_pct") == Some(Number(r.fleetPct))
  {
    TwoFields(ReachJson(r).fields);
    TwoFields(ReachJson(r).fields.rest.rest);
  }

  lemma ReachRoundTrip(r: Reach)
    ensures ReachFromJson(ReachJson(r)) == Some(r)
  {
  }

  function TakeBound(fs: Fields, name: string): Option<(DeclaredBound, Fields)> {
    var (v, rest) :- Take(fs, name);
    var d :- BoundFromJson(v);
    Some((d, rest))
  }

  function TakeReach(fs: Fields, name: string): Option<(Reach, Fields)> {
    var (v, rest) :- Take(fs, name);
    var r :- ReachFromJson(v);
    Some((r, rest))
  }
}
