/**
  The hash chain (internal/audit/chain.go).

  A Digest stands for the lower-case hex SHA-256 (section 6.2 of FIPS 180-4) of
  the UTF-8 form of a text. Nothing is assumed of it but, where stated, that no
  digest is the genesis string. Tamper evidence is stated by extraction: the
  conclusion holds, or two given records have different payloads and one digest.
*/
module Chain {
  import opened Options
  import opened Records

  type Digest = string -> string

  const GENESIS_PREV_HASH := ""

  function RecordHash(h: Digest, r: Record): string { h(Payload(r)) }

  function Sealed(h: Digest, r: Record): Record { r.(hash := RecordHash(h, r)) }

  ghost predicate NeverGenesis(h: Digest) {
    forall x :: h(x) != GENESIS_PREV_HASH
  }

  predicate Collision(h: Digest, a: Record, b: Record) {
    Payload(a) != Payload(b) && RecordHash(h, a) == RecordHash(h, b)
  }

  /** Some record of one sequence and some record of the other collide. */
  ghost predicate Collide(h: Digest, xs: seq<Record>, ys: seq<Record>) {
    exists i, j :: 0 <= i < |xs| && 0 <= j < |ys| && Collision(h, xs[i], ys[j])
  }

  // ---- Verify ----

  datatype Fault = PrevMismatch | HashMismatch | SeqMismatch

  function PrevOf(rs: seq<Record>, i: nat): string
    requires i < |rs|
  {
    if i == 0 then GENESIS_PREV_HASH else rs[i - 1].hash
  }

  /** What is wrong with the link of record i; the first sequence number is free. */
  function FaultAt(h: Digest, rs: seq<Record>, i: nat): Option<Fault>
    requires i < |rs|
  {
    if rs[i].prevHash != PrevOf(rs, i) then Some(PrevMismatch)
    else if RecordHash(h, rs[i]) != rs[i].hash then Some(HashMismatch)
    else if i > 0 && rs[i].seq_ != Succ(rs[i - 1].seq_) then Some(SeqMismatch)
    else None
  }

  ghost predicate Chained(h: Digest, rs: seq<Record>) {
    forall i | 0 <= i < |rs| :: FaultAt(h, rs, i) == None
  }

  /** Record i is the first broken one. */
  ghost predicate BreaksAt(h: Digest, rs: seq<Record>, i: int) {
    0 <= i < |rs| && Chained(h, rs[..i]) && FaultAt(h, rs, i) != None
  }

  lemma NoFaultInPrefix(h: Digest, rs: seq<Record>, n: nat, i: nat)
    requires i < n <= |rs| && Chained(h, rs[..n])
    ensures FaultAt(h, rs, i) == None
  {
    assert FaultAt(h, rs[..n], i) == None;
  }

  lemma {:induction false} SomethingBreaks(h: Digest, rs: seq<Record>, n: nat)
    requires n <= |rs| && !Chained(h, rs[..n])
    ensures exists i :: BreaksAt(h, rs, i)
  {
    if n > 0 && !Chained(h, rs[..n - 1]) {
      SomethingBreaks(h, rs, n - 1);
    } else {
      var i :| 0 <= i < n && FaultAt(h, rs[..n], i) != None;
      assert FaultAt(h, rs, i) == FaultAt(h, rs[..n], i);
      if i < n - 1 { NoFaultInPrefix(h, rs, n - 1, i); }
      assert BreaksAt(h, rs, i);
    }
  }

  lemma BreaksAtOnce(h: Digest, rs: seq<Record>, i: int, j: int)
    requires BreaksAt(h, rs, i) && BreaksAt(h, rs, j)
    ensures i == j
  {
    if i < j { NoFaultInPrefix(h, rs, j, i); }
    if j < i { NoFaultInPrefix(h, rs, i, j); }
  }

  /** Where Verify stops: the least broken index, or -1. */
  ghost function FirstBroken(h: Digest, rs: seq<Record>): (i: int)
    ensures i == -1 <==> Chained(h, rs)
    ensures i != -1 ==> BreaksAt(h, rs, i)
  {
    if Chained(h, rs) then -1
    else
      assert rs[..|rs|] == rs;
      SomethingBreaks(h, rs, |rs|);
      var i :| BreaksAt(h, rs, i);
      i
  }

  lemma FirstBrokenIs(h: Digest, rs: seq<Record>, i: int)
    requires BreaksAt(h, rs, i)
    ensures FirstBroken(h, rs) == i && !Chained(h, rs)
  {
    assert FaultAt(h, rs, i) != None;
    BreaksAtOnce(h, rs, i, FirstBroken(h, rs));
  }

  lemma FirstBrokenFound(h: Digest, rs: seq<Record>, i: nat)
    requires i < |rs| && FaultAt(h, rs, i) != None && forall j | 0 <= j < i :: FaultAt(h, rs, j) == None
    ensures FirstBroken(h, rs) == i
  {
    assert forall j | 0 <= j < i :: FaultAt(h, rs[..i], j) == FaultAt(h, rs, j);
    FirstBrokenIs(h, rs, i);
  }

  /** Cut anywhere, the records are a chain exactly up to where Verify stops. */
  lemma FirstBrokenIsLeast(h: Digest, rs: seq<Record>, n: nat)
    requires n <= |rs|
    ensures Chained(h, rs[..n]) <==> FirstBroken(h, rs) == -1 || n <= FirstBroken(h, rs)
  {
    var i := FirstBroken(h, rs);
    if i == -1 {
      PrefixChained(h, rs, n);
    } else if n <= i {
      PrefixChained(h, rs[..i], n);
      assert rs[..i][..n] == rs[..n];
    } else {
      assert FaultAt(h, rs[..n], i) == FaultAt(h, rs, i);
    }
  }

  /** The hash recomputed: of the record's line with its own hash emptied. */
  ghost predicate HashHolds(h: Digest, r: Record) { r.hash == h(Line(r.(hash := ""))) }

  ghost predicate LinkHolds(rs: seq<Record>, i: nat)
    requires i < |rs|
  {
    rs[i].prevHash == if i == 0 then "" else rs[i - 1].hash
  }

  ghost predicate NumberHolds(rs: seq<Record>, i: nat)
    requires i < |rs|
  {
    i == 0 || rs[i].seq_ == (rs[i - 1].seq_ + 1) % 0x1_0000_0000_0000_0000
  }

  /** Each fault told from the record and the one before it, the link being looked at first and the number last. */
  lemma FaultMeans(h: Digest, rs: seq<Record>, i: nat)
    requires i < |rs|
    ensures var fault := FaultAt(h, rs, i);
            && (fault == Some(PrevMismatch) <==> !LinkHolds(rs, i))
            && (fault == Some(HashMismatch) <==> LinkHolds(rs, i) && !HashHolds(h, rs[i]))
            && (fault == Some(SeqMismatch) <==> LinkHolds(rs, i) && HashHolds(h, rs[i]) && !NumberHolds(rs, i))
            && (fault == None <==> LinkHolds(rs, i) && HashHolds(h, rs[i]) && NumberHolds(rs, i))
  {
    hide Line;
    if i > 0 { SuccWraps(rs[i - 1].seq_); }
  }

  lemma SuccWraps(n: uint64)
    ensures Succ(n) == (n + 1) % 0x1_0000_0000_0000_0000
  {
    if n + 1 < TWO_TO_THE_64 { assert (n + 1) % TWO_TO_THE_64 == n + 1; }
  }

  method Verify(h: Digest, rs: seq<Record>) returns (bad: int, fault: Option<Fault>)
    ensures bad == FirstBroken(h, rs)
    ensures fault == if bad == -1 then None else FaultAt(h, rs, bad)
  {
    hide RecordHash, FirstBroken;
    var prev := GENESIS_PREV_HASH;
    for i := 0 to |rs|
      invariant prev == if i == 0 then GENESIS_PREV_HASH else rs[i - 1].hash
      invariant forall j | 0 <= j < i :: FaultAt(h, rs, j) == None
    {
      var r := rs[i];
      fault := None;
      if r.prevHash != prev {
        fault := Some(PrevMismatch);
      } else if RecordHash(h, r) != r.hash {
        fault := Some(HashMismatch);
      } else if i > 0 && r.seq_ != Succ(rs[i - 1].seq_) {
        fault := Some(SeqMismatch);
      }
      if fault != None {
        assert FaultAt(h, rs, i) == fault;
        FirstBrokenFound(h, rs, i);
        return i, fault;
      }
      prev := r.hash;
    }
    return -1, None;
  }

  // ---- building chains ----

  lemma PrefixChained(h: Digest, rs: seq<Record>, n: nat)
    requires Chained(h, rs) && n <= |rs|
    ensures Chained(h, rs[..n])
  {
    forall i | 0 <= i < n ensures FaultAt(h, rs[..n], i) == None {
      assert FaultAt(h, rs, i) == None;
    }
  }

  /** A chain stays one exactly when the next record has no fault. */
  lemma ChainedAppend(h: Digest, rs: seq<Record>, r: Record)
    ensures Chained(h, rs + [r]) <==> Chained(h, rs) && FaultAt(h, rs + [r], |rs|) == None
  {
    var rs' := rs + [r];
    forall i | 0 <= i < |rs| ensures FaultAt(h, rs', i) == FaultAt(h, rs, i) {
    }
    if Chained(h, rs') {
      forall i | 0 <= i < |rs| ensures FaultAt(h, rs, i) == None {
        assert FaultAt(h, rs', i) == None;
      }
    }
  }

  /** What breaks stays broken at the same place, whatever is appended. */
  lemma BreakPersists(h: Digest, rs: seq<Record>, more: seq<Record>, i: int)
    requires BreaksAt(h, rs, i)
    ensures BreaksAt(h, rs + more, i) && !Chained(h, rs + more)
  {
    assert (rs + more)[..i] == rs[..i];
    assert FaultAt(h, rs + more, i) == FaultAt(h, rs, i);
  }

  /** A chain as Append writes it: sequence numbers count from 1. */
  ghost predicate Genuine(h: Digest, rs: seq<Record>) {
    Chained(h, rs) && |rs| < TWO_TO_THE_64 && forall i | 0 <= i < |rs| :: rs[i].seq_ == i + 1
  }

  // ---- one head pins all history ----

  /** Two well-hashed records with one hash are the same record, or collide. */
  lemma SameHashSameRecord(h: Digest, a: Record, b: Record)
    requires RecordHash(h, a) == a.hash == b.hash == RecordHash(h, b)
    ensures a == b || Collision(h, a, b)
  {
    if Payload(a) == Payload(b) {
      PayloadInjective(a, b);
      assert a == a.(hash := "").(hash := a.hash);
      assert b == b.(hash := "").(hash := b.hash);
    }
  }

  lemma CollideInPrefixes(h: Digest, xs: seq<Record>, ys: seq<Record>, m: nat, n: nat)
    requires m <= |xs| && n <= |ys| && Collide(h, xs[..m], ys[..n])
    ensures Collide(h, xs, ys)
  {
    var i, j :| 0 <= i < m && 0 <= j < n && Collision(h, xs[..m][i], ys[..n][j]);
    assert Collision(h, xs[i], ys[j]);
  }

  lemma LinkFacts(h: Digest, rs: seq<Record>, i: nat)
    requires Chained(h, rs) && i < |rs|
    ensures rs[i].hash == RecordHash(h, rs[i]) && rs[i].prevHash == PrevOf(rs, i)
    ensures NeverGenesis(h) ==> (rs[i].prevHash == GENESIS_PREV_HASH <==> i == 0)
  {
    assert FaultAt(h, rs, i) == None;
    if i > 0 { assert FaultAt(h, rs, i - 1) == None; }
  }

  /** Two chains with the same head hash are the same chain, or they hold a collision. */
  lemma {:induction false} HeadHashPinsHistory(h: Digest, xs: seq<Record>, ys: seq<Record>)
    requires NeverGenesis(h) && Chained(h, xs) && Chained(h, ys)
    requires xs != [] && ys != [] && xs[|xs| - 1].hash == ys[|ys| - 1].hash
    ensures xs == ys || Collide(h, xs, ys)
  {
    hide Chained, FaultAt, RecordHash, Collision, NeverGenesis;
    var m, n := |xs| - 1, |ys| - 1;
    LinkFacts(h, xs, m);
    LinkFacts(h, ys, n);
    SameHashSameRecord(h, xs[m], ys[n]);
    if Collision(h, xs[m], ys[n]) {
      assert Collide(h, xs, ys);
    } else if m > 0 {
      PrefixChained(h, xs, m);
      PrefixChained(h, ys, n);
      HeadHashPinsHistory(h, xs[..m], ys[..n]);
      if Collide(h, xs[..m], ys[..n]) {
        CollideInPrefixes(h, xs, ys, m, n);
      } else {
        assert xs == xs[..m] + [xs[m]] && ys == ys[..n] + [ys[n]];
      }
    }
  }

  // ---- which edit breaks where ----

  lemma UnchangedPrefix(h: Digest, rs: seq<Record>, i: nat, rs': seq<Record>)
    requires Chained(h, rs) && i <= |rs| && i <= |rs'| && rs'[..i] == rs[..i]
    ensures Chained(h, rs'[..i])
  {
    PrefixChained(h, rs, i);
  }

  /** Editing the payload of one record, its stored hash left alone, breaks at that record. */
  lemma EditBreaksHere(h: Digest, rs: seq<Record>, i: nat, r: Record)
    requires Chained(h, rs) && i < |rs|
    requires r.hash == rs[i].hash && Payload(r) != Payload(rs[i])
    ensures BreaksAt(h, rs[i := r], i) || Collision(h, r, rs[i])
  {
    UnchangedPrefix(h, rs, i, rs[i := r]);
    assert FaultAt(h, rs, i) == None;
  }

  /**
    Editing a record and recomputing its own hash breaks at the next record, or
    nowhere when it is the last.
  */
  lemma ResealedEditBreaksNext(h: Digest, rs: seq<Record>, i: nat, r: Record)
    requires Chained(h, rs) && i < |rs|
    requires r.prevHash == rs[i].prevHash && r.seq_ == rs[i].seq_ && Payload(r) != Payload(rs[i])
    ensures i + 1 == |rs| ==> Chained(h, rs[i := Sealed(h, r)])
    ensures i + 1 < |rs| ==> BreaksAt(h, rs[i := Sealed(h, r)], i + 1) || Collision(h, r, rs[i])
  {
    hide Payload, Chained;
    var s := Sealed(h, r);
    var rs' := rs[i := s];
    SealedPayload(h, r);
    ResealedPrefix(h, rs, i, s);
    assert i + 1 == |rs| ==> rs'[..i + 1] == rs';
    if i + 1 < |rs| {
      LinkFacts(h, rs, i);
      LinkFacts(h, rs, i + 1);
      assert rs'[i + 1].prevHash == RecordHash(h, rs[i]) && PrevOf(rs', i + 1) == RecordHash(h, r);
      if !Collision(h, r, rs[i]) { assert FaultAt(h, rs', i + 1) != None; }
    }
  }

  lemma SealedPayload(h: Digest, r: Record)
    ensures Payload(Sealed(h, r)) == Payload(r)
  {
    assert Sealed(h, r).(hash := "") == r.(hash := "");
  }

  lemma ResealedPrefix(h: Digest, rs: seq<Record>, i: nat, s: Record)
    requires Chained(h, rs) && i < |rs|
    requires s.prevHash == rs[i].prevHash && s.seq_ == rs[i].seq_ && s.hash == RecordHash(h, s)
    ensures Chained(h, rs[i := s][..i + 1])
  {
    hide RecordHash;
    var upTo := rs[i := s][..i + 1];
    forall j | 0 <= j <= i ensures FaultAt(h, upTo, j) == None {
      assert FaultAt(h, rs, j) == None;
    }
  }

  /** Moving a record's sequence number or link, resealed or not, breaks at that record. */
  lemma RelinkedEditBreaksHere(h: Digest, rs: seq<Record>, i: nat, r: Record)
    requires Chained(h, rs) && i < |rs|
    requires r.prevHash != rs[i].prevHash || (i > 0 && r.seq_ != rs[i].seq_)
    ensures BreaksAt(h, rs[i := r], i)
  {
    UnchangedPrefix(h, rs, i, rs[i := r]);
    assert FaultAt(h, rs, i) == None;
  }

  /** Removing a record that is not the last breaks where it stood. */
  lemma RemovalBreaksHere(h: Digest, rs: seq<Record>, i: nat)
    requires NeverGenesis(h) && Chained(h, rs) && i + 1 < |rs|
    ensures BreaksAt(h, rs[..i] + rs[i + 1..], i)
  {
    var rs' := rs[..i] + rs[i + 1..];
    UnchangedPrefix(h, rs, i, rs');
    assert rs'[i] == rs[i + 1];
    assert FaultAt(h, rs, i) == None && FaultAt(h, rs, i + 1) == None;
  }
}
