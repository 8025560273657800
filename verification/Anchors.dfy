/**
  The out-of-band anchor: the head the log is expected to have, and the cases
  in which Open refuses (internal/audit/anchor.go).
*/
module Anchors {
  import opened Options
  import opened Records
  import opened Lines
  import opened LogFile
  import opened Chain

  datatype AnchorState = AnchorState(seq_: uint64, hash: string)

  /** Corrupt stands for everything readAnchor cannot read as exactly one anchor. */
  datatype AnchorFile = Absent | Corrupt | Present(st: AnchorState)

  datatype Sentinel = Truncated | Tampered | AnchorMissing | AnchorCorrupt | LogAheadOfAnchor

  const NO_HEAD := AnchorState(0, GENESIS_PREV_HASH)

  function Head(rs: seq<Record>): AnchorState {
    if rs == [] then NO_HEAD else AnchorState(rs[|rs| - 1].seq_, rs[|rs| - 1].hash)
  }

  /** The switch of checkAnchor, on records the caller has verified. */
  function CheckAnchor(anchor: AnchorFile, rs: seq<Record>): Option<Sentinel> {
    var head := Head(rs);
    match anchor
    case Corrupt => Some(AnchorCorrupt)
    case Absent => if head.seq_ == 0 then None else Some(AnchorMissing)
    case Present(st) =>
      if head.seq_ == 0 then
        if st.seq_ > 0 then Some(Truncated) else None
      else if head.seq_ < st.seq_ then Some(Truncated)
      else if head.seq_ == st.seq_ then
        if head.hash != st.hash then Some(Tampered) else None
      else Some(LogAheadOfAnchor)
  }

  datatype OpenError = LogUnreadable(reason: ReadError) | ChainBroken(at: int) | AnchorRefused(why: Sentinel)

  /** What Open says of what it read: an error, a break in the chain, or a disagreement with the anchor. */
  ghost function OpenVerdict(h: Digest, read: ReadResult<Record>, anchor: AnchorFile): Option<OpenError> {
    if read.Failed? then Some(LogUnreadable(read.error))
    else if !Chained(h, read.items) then Some(ChainBroken(FirstBroken(h, read.items)))
    else
      var refused := CheckAnchor(anchor, read.items);
      if refused == None then None else Some(AnchorRefused(refused.value))
  }

  // ---- what the answers mean, told from the records and the anchor ----

  /**
    The documented cases: the answer `refused` on an anchor and verified records,
    told from the number and the hash of the last record, 0 and nothing when
    there is none.
  */
  ghost predicate AnchorCases(anchor: AnchorFile, rs: seq<Record>, refused: Option<Sentinel>) {
    var number: nat := if rs == [] then 0 else rs[|rs| - 1].seq_;
    var hash := if rs == [] then "" else rs[|rs| - 1].hash;
    && (refused == Some(AnchorCorrupt) <==> anchor == Corrupt)
    && (refused == Some(AnchorMissing) <==> anchor == Absent && number != 0)
    && (refused == Some(Truncated) <==> anchor.Present? && number < anchor.st.seq_)
    && (refused == Some(LogAheadOfAnchor) <==> anchor.Present? && number > anchor.st.seq_)
    && (refused == Some(Tampered) <==>
          anchor.Present? && number == anchor.st.seq_ && number != 0 && hash != anchor.st.hash)
    && (refused == None <==>
          || (anchor == Absent && number == 0)
          || (anchor.Present? && number == anchor.st.seq_ && (number == 0 || hash == anchor.st.hash)))
  }

  lemma CheckAnchorCases(anchor: AnchorFile, rs: seq<Record>)
    ensures AnchorCases(anchor, rs, CheckAnchor(anchor, rs))
  {
  }

  /**
    The answer `err` on a disk: unreadable exactly when the file is inaccessible
    or its text does not decode, broken exactly when the chain then is, and else
    as the anchor case says.
  */
  ghost predicate AnswerMeans(h: Digest, accessible: bool, text: string, anchor: AnchorFile, err: Option<OpenError>) {
    var read := DecodeFile(DecodeLine, text);
    && (!accessible <==> err == Some(LogUnreadable(Inaccessible)))
    && (accessible && read.Failed? ==> err == Some(LogUnreadable(read.error)))
    && (accessible && read.Ok? && !Chained(h, read.items) ==> err == Some(ChainBroken(FirstBroken(h, read.items))))
    && (accessible && read.Ok? && Chained(h, read.items) ==>
          && (err == None || err.value.AnchorRefused?)
          && AnchorCases(anchor, read.items, if err == None then None else Some(err.value.why)))
  }

  lemma VerdictMeans(h: Digest, accessible: bool, text: string, anchor: AnchorFile)
    ensures AnswerMeans(h, accessible, text, anchor, OpenVerdict(h, ReadLog(accessible, text), anchor))
  {
    DecodeNeverInaccessible(DecodeLine, text);
    hide DecodeFile, Chained, FirstBroken, CheckAnchor, AnchorCases;
    var read := ReadLog(accessible, text);
    if read.Ok? { CheckAnchorCases(anchor, read.items); }
  }

  // ---- the anchor pins all history ----

  /**
    Take a log Append wrote, with its anchor at its head. Any other verified
    sequence is told apart by its head: behind is Truncated, ahead is
    LogAheadOfAnchor, level is Tampered; and what is accepted is the log itself,
    record for record, or there is a collision between the two.
  */
  lemma AnchorPinsHistory(h: Digest, log: seq<Record>, other: seq<Record>)
    requires NeverGenesis(h) && Genuine(h, log) && log != [] && Chained(h, other)
    ensures var verdict := CheckAnchor(Present(Head(log)), other);
            var s := Head(other).seq_;
            && (s < |log| <==> verdict == Some(Truncated))
            && (s > |log| <==> verdict == Some(LogAheadOfAnchor))
            && (s == |log| <==> verdict == None || verdict == Some(Tampered))
            && (s == |log| && other != log ==> verdict == Some(Tampered) || Collide(h, log, other))
            && (verdict == None ==> other == log || Collide(h, log, other))
            && (other == log ==> verdict == None)
  {
    if other != [] && Head(other) == Head(log) {
      HeadHashPinsHistory(h, log, other);
    }
  }

  /** A head seq below 2^64 moved back or forward by whole records is always noticed. */
  lemma ProperPrefixIsTruncated(h: Digest, log: seq<Record>, n: nat)
    requires Genuine(h, log) && n < |log|
    ensures CheckAnchor(Present(Head(log)), log[..n]) == Some(Truncated)
    ensures n > 0 ==> CheckAnchor(Present(Head(log[..n])), log) == Some(LogAheadOfAnchor)
    ensures Chained(h, log[..n])
  {
    PrefixChained(h, log, n);
  }

  // ---- a missing anchor ----

  /**
    The documented case "log non-empty, anchor missing: refused" is decided on
    the head's sequence number alone, so it holds of a verified log exactly when
    that number is not zero.
  */
  lemma MissingAnchorRefusedIff(rs: seq<Record>)
    ensures CheckAnchor(Absent, rs) == Some(AnchorMissing) <==> Head(rs).seq_ != 0
    ensures CheckAnchor(Absent, rs) == None <==> Head(rs).seq_ == 0
  {
  }

  /** A log Append wrote is refused without its anchor unless it is empty. */
  lemma GenuineNeedsAnchor(h: Digest, rs: seq<Record>)
    requires Genuine(h, rs)
    ensures CheckAnchor(Absent, rs) == if rs == [] then None else Some(AnchorMissing)
  {
  }

  /** The input that shows the difference: one well-hashed record numbered 0 opens without an anchor. */
  lemma ZeroSeqLogNeedsNoAnchor(h: Digest, r: Record)
    requires r.seq_ == 0 && r.prevHash == GENESIS_PREV_HASH
    ensures OpenVerdict(h, Ok([Sealed(h, r)]), Absent) == None
    ensures OpenVerdict(h, Ok([Sealed(h, r)]), Present(NO_HEAD)) == None
  {
    assert Payload(Sealed(h, r)) == Payload(r);
    assert FaultAt(h, [Sealed(h, r)], 0) == None;
  }

  // ---- the diagnostic snapshot ----

  datatype AnchorSnapshot = AnchorSnapshot(
    anchorExists: bool, anchorSeq: uint64, anchorHash: string,
    headSeq: uint64, headHash: string, priorHash: string,
    excessRecords: uint64, priorMatchesAnchor: bool)

  const EMPTY_SNAPSHOT := AnchorSnapshot(false, 0, "", 0, "", "", 0, false)

  function HeadSnapshot(rs: seq<Record>): AnchorSnapshot {
    var n := |rs|;
    EMPTY_SNAPSHOT.(headSeq := Head(rs).seq_, headHash := Head(rs).hash,
                    priorHash := if n > 1 then rs[n - 2].hash else "")
  }

  function FullSnapshot(anchor: AnchorFile, rs: seq<Record>): AnchorSnapshot {
    var s := HeadSnapshot(rs);
    match anchor
    case Present(st) =>
      var excess := if s.headSeq > st.seq_ then s.headSeq - st.seq_ else 0;
      s.(anchorExists := true, anchorSeq := st.seq_, anchorHash := st.hash, excessRecords := excess,
         priorMatchesAnchor := excess == 1 && s.priorHash == st.hash)
    case _ => s
  }

  lemma HashIsNotGenesis(h: Digest, rs: seq<Record>, i: nat)
    requires NeverGenesis(h) && Chained(h, rs) && i < |rs|
    ensures rs[i].hash != GENESIS_PREV_HASH
  {
    LinkFacts(h, rs, i);
  }

  /** What each field of a snapshot of verified records says. */
  ghost predicate SnapshotMeans(anchor: AnchorFile, rs: seq<Record>, snap: AnchorSnapshot) {
    var n := |rs|;
    && snap.headSeq == (if n == 0 then 0 else rs[n - 1].seq_)
    && snap.headHash == (if n == 0 then "" else rs[n - 1].hash)
    && snap.priorHash == (if n < 2 then "" else rs[n - 2].hash)
    && snap.anchorExists == anchor.Present?
    && snap.anchorSeq == (if anchor.Present? then anchor.st.seq_ else 0)
    && snap.anchorHash == (if anchor.Present? then anchor.st.hash else "")
    && (anchor.Present? && snap.headSeq > snap.anchorSeq ==> snap.excessRecords + snap.anchorSeq == snap.headSeq)
    && (!anchor.Present? || snap.headSeq <= snap.anchorSeq ==> snap.excessRecords == 0)
    && (snap.priorMatchesAnchor <==> snap.excessRecords == 1 && snap.priorHash == snap.anchorHash)
  }

  lemma FullSnapshotMeans(anchor: AnchorFile, rs: seq<Record>)
    ensures SnapshotMeans(anchor, rs, FullSnapshot(anchor, rs))
  {
  }

  /**
    With an anchor at the head of a log Append wrote, the empty one included, and
    one excess record in a verified sequence, the prior link matches exactly when
    taking the last record off gives the anchored log back, up to a collision.
  */
  lemma PriorMatchesIffOneAppended(h: Digest, log: seq<Record>, other: seq<Record>)
    requires NeverGenesis(h) && Genuine(h, log) && Chained(h, other)
    requires FullSnapshot(Present(Head(log)), other).excessRecords == 1
    ensures var snap := FullSnapshot(Present(Head(log)), other);
            && other != []
            && (other[..|other| - 1] == log ==> snap.priorMatchesAnchor)
            && (snap.priorMatchesAnchor ==> other[..|other| - 1] == log || Collide(h, log, other))
  {
    hide Chained, Collide, NeverGenesis, RecordHash;
    var n := |other|;
    var snap := FullSnapshot(Present(Head(log)), other);
    assert other != [];
    if n > 1 { HashIsNotGenesis(h, other, n - 2); }
    if log != [] { HashIsNotGenesis(h, log, |log| - 1); }
    if snap.priorMatchesAnchor && log != [] {
      assert n > 1;
      PrefixChained(h, other, n - 1);
      HeadHashPinsHistory(h, log, other[..n - 1]);
      assert log[..|log|] == log;
      if Collide(h, log, other[..n - 1]) { CollideInPrefixes(h, log, other, |log|, n - 1); }
    }
  }

  // ---- exit codes of `audit verify` ----

  function ExitCode(err: Option<OpenError>): int {
    match err
    case None => 0
    case Some(AnchorRefused(Truncated)) => 2
    case Some(AnchorRefused(Tampered)) => 2
    case Some(AnchorRefused(LogAheadOfAnchor)) => 3
    case Some(AnchorRefused(AnchorMissing)) => 4
    case Some(AnchorRefused(AnchorCorrupt)) => 5
    case Some(_) => 1
  }

  /**
    Exit code 0 on a disk with an anchor at the head of a genuine log means that
    log is there whole; exit code 2 on a readable chain means it is not.
  */
  lemma ExitCodeMeaning(h: Digest, log: seq<Record>, other: seq<Record>)
    requires NeverGenesis(h) && Genuine(h, log) && log != [] && Chained(h, other)
    ensures var code := ExitCode(OpenVerdict(h, Ok(other), Present(Head(log))));
            && (code == 0 || code == 2 || code == 3)
            && (code == 0 ==> other == log || Collide(h, log, other))
            && (code != 0 ==> other != log)
            && (code == 3 <==> Head(other).seq_ > |log|)
  {
    AnchorPinsHistory(h, log, other);
  }
}
