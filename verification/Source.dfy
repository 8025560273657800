/** The live reach of a matched container set (internal/source/source.go). */
module Source {
  import opened Blast
  import opened FleetPct

  datatype Container = Container(id: string, service: string, host: string)

  /** The distinct non-empty hosts, and services, that occur. */
  function Hosts(cs: seq<Container>): set<string> {
    set c | c in cs && c.host != "" :: c.host
  }

  function Services(cs: seq<Container>): set<string> {
    set c | c in cs && c.service != "" :: c.service
  }

  function ReachSpec(matched: seq<Container>, inventory: int, wild: int): Reach {
    Reach(|Hosts(matched)|, |Services(matched)|, |matched|, ComputeFleetPct(|matched|, inventory, wild))
  }

  method ReachOf(matched: seq<Container>, inventory: int, wild: int) returns (r: Reach)
    ensures r == ReachSpec(matched, inventory, wild)
    ensures r.hosts == |set c | c in matched && c.host != "" :: c.host|
    ensures r.services == |set c | c in matched && c.service != "" :: c.service|
    ensures r.instances == |matched| && r.fleetPct == ComputeFleetPct(|matched|, inventory, wild)
  {
    var hosts: set<string>, services: set<string> := {}, {};
    for i := 0 to |matched|
      invariant hosts == Hosts(matched[..i]) && services == Services(matched[..i])
    {
      var c := matched[i];
      TakeOne(matched, i);
      if c.host != "" {
        hosts := hosts + {c.host};
      }
      if c.service != "" {
        services := services + {c.service};
      }
    }
    assert matched[..|matched|] == matched;
    return Reach(|hosts|, |services|, |matched|, ComputeFleetPct(|matched|, inventory, wild));
  }

  lemma TakeOne(cs: seq<Container>, i: nat)
    requires i < |cs|
    ensures Hosts(cs[..i + 1]) == Hosts(cs[..i]) + if cs[i].host != "" then {cs[i].host} else {}
    ensures Services(cs[..i + 1]) == Services(cs[..i]) + if cs[i].service != "" then {cs[i].service} else {}
  {
    assert cs[..i + 1] == cs[..i] + [cs[i]];
  }

  /** The order in which the topology lists the containers does not matter. */
  lemma ReachIgnoresOrder(xs: seq<Container>, ys: seq<Container>, inventory: int, wild: int)
    requires multiset(xs) == multiset(ys)
    ensures ReachSpec(xs, inventory, wild) == ReachSpec(ys, inventory, wild)
  {
    forall c ensures c in xs <==> c in ys {
      assert c in xs <==> c in multiset(xs);
      assert c in ys <==> c in multiset(ys);
    }
    assert |xs| == |multiset(xs)| == |multiset(ys)| == |ys|;
    assert Hosts(xs) == Hosts(ys) && Services(xs) == Services(ys);
  }

  /** No more distinct hosts or services than containers. */
  lemma {:induction false} CountsAtMostInstances(cs: seq<Container>)
    ensures |Hosts(cs)| <= |cs| && |Services(cs)| <= |cs|
  {
    if cs != [] {
      var n := |cs| - 1;
      CountsAtMostInstances(cs[..n]);
      TakeOne(cs, n);
      assert cs[..n + 1] == cs;
    }
  }

  /** One service exactly: every named service is the same one, and one is named. */
  lemma OneServiceIff(cs: seq<Container>)
    ensures |Services(cs)| == 1 <==>
            exists s :: s != "" && s in Services(cs) && forall c | c in cs && c.service != "" :: c.service == s
  {
    if |Services(cs)| == 1 {
      var s :| s in Services(cs);
      SingletonOf(Services(cs), s);
      forall c | c in cs && c.service != "" ensures c.service == s {
        assert c.service in Services(cs);
      }
      assert s != "" && s in Services(cs);
    }
    if s :| s != "" && s in Services(cs) && forall c | c in cs && c.service != "" :: c.service == s {
      assert Services(cs) == {s};
    }
  }

  lemma SingletonOf(ss: set<string>, s: string)
    requires |ss| == 1 && s in ss
    ensures ss == {s}
  {
    assert |ss - {s}| == 0;
  }

  /** A set naming two different services is within no bound. */
  lemma TwoServicesAreNeverWithin(cs: seq<Container>, inventory: int, wild: int, d: DeclaredBound,
                                  a: Container, b: Container)
    requires a in cs && b in cs && a.service != "" && b.service != "" && a.service != b.service
    ensures !Within(d, ReachSpec(cs, inventory, wild))
  {
    OneServiceIff(cs);
  }
}
