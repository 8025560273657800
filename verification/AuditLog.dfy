/**
  The log object over a disk: Open, Append with its rollback, Records, InitAnchor
  and InspectAnchor (internal/audit/log.go, internal/audit/anchor.go).

  The outcome of every I/O call is a parameter. Lines are written whole or not
  at all, and one process writes the log.
*/
module AuditLog {
  import opened Options
  import opened StringMaps
  import opened Records
  import opened Chain
  import opened Lines
  import opened LogFile
  import opened Redaction
  import opened Anchors

  /** The two files: the text of the log and the anchor. */
  class Disk {
    var accessible: bool
    var text: string
    var anchor: AnchorFile

    constructor (accessible: bool, text: string, anchor: AnchorFile)
      ensures this.accessible == accessible && this.text == text && this.anchor == anchor
    {
      this.accessible, this.text, this.anchor := accessible, text, anchor;
    }

    ghost function Reading(): ReadResult<Record>
      reads this
    {
      ReadLog(accessible, text)
    }
  }

  // ---- outcomes of the I/O inside one call ----

  /** appendLine: nothing landed, the line landed but Sync failed, or all went well. */
  datatype LineIO = NotWritten | WrittenNotSynced | Written

  /** writeAnchor: the call that fails, or none. */
  datatype AnchorIO =
    | CreateFails | ChmodFails | WriteFails | SyncFails | CloseFails | RenameFails
    | OpenDirFails | SyncDirFails | Renamed

  /** Whether the new anchor is in place afterwards. */
  predicate Lands(io: AnchorIO) { io.OpenDirFails? || io.SyncDirFails? || io.Renamed? }

  /** Whether success is reported: a directory that cannot be opened is an error, one that cannot be synced is not. */
  predicate ReportedDone(io: AnchorIO) { io.SyncDirFails? || io.Renamed? }

  datatype AppendError = LineFailed | AnchorFailed

  // ---- what a stored record says of the one submitted ----

  /** Secret-shaped values are masked, all others and the keys are kept, and nil stays nil. */
  ghost predicate MaskedFrom(p: Params, q: Params) {
    && (p.Nil? <==> q.Nil?)
    && (p.Entries? ==>
          && q.m.Keys == p.m.Keys
          && forall k | k in p.m :: q.m[k] == if SecretKey(k) then "[REDACTED]" else p.m[k])
  }

  /** Eleven fields are the caller's, an empty time is filled in, params are masked. */
  ghost predicate StoredFrom(body: Record, now: string, r: Record) {
    && r.event == body.event && r.action == body.action && r.backend == body.backend && r.project == body.project
    && r.bound == body.bound && r.reach == body.reach && r.verdict == body.verdict && r.outcome == body.outcome
    && r.proposer == body.proposer && r.approver == body.approver && r.planHash == body.planHash
    && r.ts == (if body.ts == "" then now else body.ts)
    && MaskedFrom(body.params, r.params)
  }

  /** And it is numbered, linked and hashed after the head it was appended to. */
  ghost predicate SealedFrom(h: Digest, number: uint64, prev: string, body: Record, now: string, r: Record) {
    && StoredFrom(body, now, r)
    && r.seq_ == (number + 1) % 0x1_0000_0000_0000_0000 && r.prevHash == prev
    && r.hash == h(Line(r.(hash := "")))
  }

  /**
    What an append leaves on disk: of a line not written nothing, else the old
    text and one line of a sealed record, and after a synced line whose anchor
    rename went through an anchor that names that record.
  */
  ghost predicate AppendLeaves(h: Digest, number: uint64, prev: string, op: AppendOp, text: string, anchor: AnchorFile,
                               text': string, anchor': AnchorFile)
  {
    if op.line == NotWritten then text' == text && anchor' == anchor
    else exists r ::
      && SealedFrom(h, number, prev, op.body, op.now, r) && text' == text + (Line(r) + "\n")
      && anchor' == if op.line == Written && op.anchor in {OpenDirFails, SyncDirFails, Renamed}
                    then Present(AnchorState(r.seq_, r.hash)) else anchor
  }

  lemma AppendLeavesRecord(h: Digest, number: uint64, prev: string, op: AppendOp, text: string, anchor: AnchorFile,
                           r: Record)
    requires SealedFrom(h, number, prev, op.body, op.now, r)
    ensures AppendLeaves(h, number, prev, op, text, anchor,
                         if op.line == NotWritten then text else text + (Line(r) + "\n"),
                         if op.line == Written && op.anchor in {OpenDirFails, SyncDirFails, Renamed}
                         then Present(AnchorState(r.seq_, r.hash)) else anchor)
  {
    hide SealedFrom, Line;
  }

  lemma FinalizeSeals(h: Digest, number: uint64, prev: string, body: Record, now: string)
    ensures SealedFrom(h, number, prev, body, now, Finalize(h, Succ(number), prev, body, now))
  {
    hide Line;
    RedactedMasks(body.params);
    var r := Finalize(h, Succ(number), prev, body, now);
    assert r.(hash := "").(hash := "") == r.(hash := "");
    SuccWraps(number);
  }

  // ---- what one append does, as functions of the state it starts in ----

  function Finalize(h: Digest, n: uint64, prev: string, body: Record, now: string): Record {
    Sealed(h, body.(seq_ := n, ts := if body.ts == "" then now else body.ts,
                    params := Redacted(body.params), prevHash := prev, hash := ""))
  }

  /** A file-backed log over the records its file was written from. */
  datatype FileState = FileState(records: seq<Record>, anchor: AnchorFile, seq_: uint64, prev: string)

  /** A file-backed log over whatever text its file holds. */
  datatype DiskState = DiskState(text: string, anchor: AnchorFile, seq_: uint64, prev: string)

  datatype MemState = MemState(mem: seq<Record>, seq_: uint64, prev: string)

  datatype AppendOp = AppendOp(body: Record, now: string, line: LineIO, anchor: AnchorIO)

  function NextRecord(h: Digest, s: FileState, op: AppendOp): Record {
    Finalize(h, Succ(s.seq_), s.prev, op.body, op.now)
  }

  function AnchorAfter(anchor: AnchorFile, r: Record, io: AnchorIO): AnchorFile {
    if Lands(io) then Present(AnchorState(r.seq_, r.hash)) else anchor
  }

  function FileStep(h: Digest, s: FileState, op: AppendOp): FileState {
    var r := NextRecord(h, s, op);
    match op.line
    case NotWritten => s
    case WrittenNotSynced => s.(records := s.records + [r])
    case Written => FileState(s.records + [r], AnchorAfter(s.anchor, r, op.anchor), r.seq_, r.hash)
  }

  function DiskStep(h: Digest, s: DiskState, op: AppendOp): DiskState {
    var r := Finalize(h, Succ(s.seq_), s.prev, op.body, op.now);
    var text := s.text + (Line(r) + "\n");
    match op.line
    case NotWritten => s
    case WrittenNotSynced => s.(text := text)
    case Written => DiskState(text, AnchorAfter(s.anchor, r, op.anchor), r.seq_, r.hash)
  }

  function OnDisk(s: FileState): DiskState { DiskState(FileText(s.records), s.anchor, s.seq_, s.prev) }

  /** On a file Append wrote, a step on the text is the step on the records. */
  lemma DiskStepIsFileStep(h: Digest, s: FileState, op: AppendOp)
    ensures DiskStep(h, OnDisk(s), op) == OnDisk(FileStep(h, s, op))
  {
    hide Finalize, FileText;
    FileTextAppend(s.records, NextRecord(h, s, op));
  }

  function MemStep(h: Digest, s: MemState, body: Record, now: string): MemState {
    var r := Finalize(h, Succ(s.seq_), s.prev, body, now);
    MemState(s.mem + [r], r.seq_, r.hash)
  }

  function ErrorOf(op: AppendOp): Option<AppendError> {
    if op.line != Written then Some(LineFailed)
    else if !ReportedDone(op.anchor) then Some(AnchorFailed)
    else None
  }

  class Log {
    const h: Digest
    const disk: Disk?
    var seq_: uint64
    var prev: string
    var mem: seq<Record>

    constructor (h: Digest, disk: Disk?, head: AnchorState)
      ensures this.h == h && this.disk == disk && seq_ == head.seq_ && prev == head.hash && mem == []
    {
      this.h, this.disk := h, disk;
      seq_, prev, mem := head.seq_, head.hash, [];
    }

    function DiskView(): DiskState
      reads this, disk
      requires disk != null
    {
      DiskState(disk.text, disk.anchor, seq_, prev)
    }

    function MemView(): MemState
      reads this
    {
      MemState(mem, seq_, prev)
    }

    /** A null disk stands for the empty path: an in-memory log. The disk is never changed. */
    static method Open(h: Digest, disk: Disk?) returns (l: Log?, err: Option<OpenError>)
      ensures disk == null ==> err == None
      ensures disk != null ==> AnswerMeans(h, disk.accessible, disk.text, disk.anchor, err)
      ensures disk != null ==> err == OpenVerdict(h, disk.Reading(), disk.anchor)
      ensures l != null <==> err == None
      ensures l != null ==> fresh(l) && l.h == h && l.disk == disk && l.mem == []
      ensures l != null && disk == null ==> l.seq_ == 0 && l.prev == ""
      ensures l != null && disk != null ==>
                var rs := DecodeFile(DecodeLine, disk.text).items;
                if rs == [] then l.seq_ == 0 && l.prev == ""
                else l.seq_ == rs[|rs| - 1].seq_ && l.prev == rs[|rs| - 1].hash
    {
      hide DecodeFile, Chained, FirstBroken, AnswerMeans, CheckAnchor;
      if disk != null { VerdictMeans(h, disk.accessible, disk.text, disk.anchor); }
      if disk == null {
        l := new Log(h, null, NO_HEAD);
        return l, None;
      }
      var read := ReadFile(disk.accessible, disk.text);
      if read.Failed? {
        return null, Some(LogUnreadable(read.error));
      }
      var existing := read.items;
      var bad, _ := Verify(h, existing);
      if bad != -1 {
        return null, Some(ChainBroken(bad));
      }
      match CheckAnchor(disk.anchor, existing) {
        case Some(s) =>
          return null, Some(AnchorRefused(s));
        case None =>
      }
      l := new Log(h, disk, NO_HEAD);
      var n := |existing|;
      if n > 0 {
        l.seq_ := existing[n - 1].seq_;
        l.prev := existing[n - 1].hash;
      }
      return l, None;
    }

    /** Finalizes and writes one record; the counter is rolled back on any line error, and only then. */
    method Append(op: AppendOp) returns (r: Option<Record>, err: Option<AppendError>)
      modifies this, disk
      ensures disk == null ==> MemView() == MemStep(h, old(MemView()), op.body, op.now)
      ensures disk == null ==> err == None && r.Some? && mem == old(mem) + [r.value]
      ensures disk != null ==> DiskView() == DiskStep(h, old(DiskView()), op)
      ensures disk != null ==> err == ErrorOf(op) && disk.accessible == old(disk.accessible) && mem == old(mem)
      ensures r.Some? <==> err == None
      ensures r.Some? ==> SealedFrom(h, old(seq_), old(prev), op.body, op.now, r.value)
      ensures err == Some(LineFailed) <==> disk != null && op.line != Written
      ensures err == Some(AnchorFailed) <==>
              disk != null && op.line == Written && op.anchor !in {SyncDirFails, AnchorIO.Renamed}
      ensures err == Some(LineFailed) ==> seq_ == old(seq_) && prev == old(prev)
      ensures err != Some(LineFailed) ==> seq_ == (old(seq_) + 1) % 0x1_0000_0000_0000_0000
      ensures r.Some? ==> prev == r.value.hash
      ensures disk != null ==>
                AppendLeaves(h, old(seq_), old(prev), op, old(disk.text), old(disk.anchor), disk.text, disk.anchor)
      ensures r.Some? ==> IsRedacted(r.value.params)
      ensures r.Some? && disk != null ==>
                && disk.text == old(disk.text) + (Line(r.value) + "\n")
                && disk.anchor == Present(AnchorState(r.value.seq_, r.value.hash))
    {
      hide Payload, Line, Redacted, IsRedacted, SealedFrom, AppendLeaves;
      FinalizeSeals(h, seq_, prev, op.body, op.now);
      SuccWraps(seq_);
      seq_ := Succ(seq_);
      var rec := op.body.(seq_ := seq_);
      if rec.ts == "" {
        rec := rec.(ts := op.now);
      }
      var params := Redact(rec.params);
      RedactedMasks(rec.params);
      rec := rec.(params := params, prevHash := prev);
      PayloadIgnoresHash(rec);
      rec := rec.(hash := RecordHash(h, rec));
      if disk == null {
        mem := mem + [rec];
        prev := rec.hash;
        return Some(rec), None;
      }
      var lineErr := AppendLine(rec, op.line);
      if lineErr {
        AppendLeavesRecord(h, old(seq_), old(prev), op, old(disk.text), old(disk.anchor), rec);
        seq_ := Pred(seq_);
        return None, Some(LineFailed);
      }
      prev := rec.hash;
      AppendLeavesRecord(h, old(seq_), old(prev), op, old(disk.text), old(disk.anchor), rec);
      var anchorErr, _ := WriteAnchor(disk, AnchorState(rec.seq_, rec.hash), op.anchor);
      if anchorErr {
        return None, Some(AnchorFailed);
      }
      return Some(rec), None;
    }

    method AppendLine(r: Record, io: LineIO) returns (failed: bool)
      requires disk != null
      modifies disk`text
      ensures disk.text == if io == NotWritten then old(disk.text) else old(disk.text) + (Line(r) + "\n")
      ensures failed <==> io != Written
    {
      if io == NotWritten {
        return true;
      }
      disk.text := disk.text + (Line(r) + "\n");
      return io == WrittenNotSynced;
    }

    /**
      The current chain. In file mode, if the file is what Append wrote of some
      records, these very records come back, or an error when one has too long a line.
    */
    method ReadRecords() returns (result: ReadResult<Record>)
      ensures disk == null ==> result == Ok(mem)
      ensures disk != null ==> result == disk.Reading()
      ensures disk != null && disk.accessible ==>
                forall rs :: disk.text == FileText(rs) ==>
                  result == if AllShort(rs) then Ok(rs) else Failed(LineTooLong)
    {
      if disk == null {
        return Ok(mem);
      }
      result := ReadFile(disk.accessible, disk.text);
      forall rs | disk.text == FileText(rs)
        ensures DecodeFile(DecodeLine, disk.text) == if AllShort(rs) then Ok(rs) else Failed(LineTooLong)
      {
        ReadBackIffShort(rs);
      }
    }
  }

  function Pred(n: uint64): uint64 { if n == 0 then TWO_TO_THE_64 - 1 else n - 1 }

  lemma PayloadIgnoresHash(r: Record)
    ensures forall x :: Payload(r.(hash := x)) == Payload(r)
  {
    assert forall x :: r.(hash := x).(hash := "") == r.(hash := "");
  }

  // ---- the anchor file ----

  /** A temporary file: what it holds, and whether a crash keeps that. */
  datatype TempFile = TempFile(content: AnchorFile, synced: bool)

  /** What the anchor may be found to be once a file is renamed to it, after a crash included. */
  function FoundAs(t: TempFile): set<AnchorFile> { if t.synced then {t.content} else {t.content, Corrupt} }

  /**
    Writes a temporary file and renames it over the anchor. `found` collects all
    that the anchor can be found to be, at any moment of the call and after a
    crash at any moment: the old anchor or the whole new one.
  */
  method WriteAnchor(disk: Disk, st: AnchorState, io: AnchorIO) returns (failed: bool, ghost found: set<AnchorFile>)
    modifies disk`anchor
    ensures disk.anchor == if Lands(io) then Present(st) else old(disk.anchor)
    ensures failed <==> !ReportedDone(io)
    ensures disk.anchor == if io in {OpenDirFails, SyncDirFails, Renamed} then Present(st) else old(disk.anchor)
    ensures failed <==> io !in {SyncDirFails, Renamed}
    ensures disk.anchor in found && found <= {old(disk.anchor), Present(st)}
  {
    found := {disk.anchor};
    if io == CreateFails {
      return true, found;
    }
    var temp := TempFile(Corrupt, false);
    if io == ChmodFails || io == WriteFails {
      return true, found;
    }
    temp := TempFile(Present(st), false);
    if io == SyncFails {
      return true, found;
    }
    temp := temp.(synced := true);
    if io == CloseFails || io == RenameFails {
      return true, found;
    }
    disk.anchor := temp.content;
    found := found + FoundAs(temp);
    return io == OpenDirFails, found;
  }

  datatype InitError = InMemory | AnchorExists | CannotStat | ReadFailed | Unverified(at: int) | WriteFailed

  /**
    Adopts an anchor: succeeds exactly when none exists, the log reads and
    verifies, and the write goes through. A refusal leaves the disk as it was.
    Of a corrupt anchor, `statOk` says whether its file can be examined.
  */
  method InitAnchor(h: Digest, disk: Disk?, statOk: bool, io: AnchorIO) returns (err: Option<InitError>)
    modifies disk
    ensures err == None <==>
            && disk != null && old(disk.anchor) == Absent && old(disk.Reading()).Ok?
            && Chained(h, old(disk.Reading()).items) && ReportedDone(io)
    ensures disk != null ==> disk.accessible == old(disk.accessible) && disk.text == old(disk.text)
    ensures err == None ==> disk.anchor == Present(Head(disk.Reading().items))
    ensures disk != null && err != None ==>
            disk.anchor == old(disk.anchor)
            || (err == Some(WriteFailed) && io == OpenDirFails && disk.Reading().Ok?
                && disk.anchor == Present(Head(disk.Reading().items)))
    ensures err == if disk == null then Some(InMemory)
                   else if old(disk.anchor) == Corrupt && !statOk then Some(CannotStat)
                   else if old(disk.anchor) != Absent then Some(AnchorExists)
                   else if old(disk.Reading()).Failed? then Some(ReadFailed)
                   else if !Chained(h, old(disk.Reading()).items)
                   then Some(Unverified(FirstBroken(h, old(disk.Reading()).items)))
                   else if io !in {SyncDirFails, Renamed} then Some(WriteFailed) else None
  {
    hide ReadLog, FirstBroken, Chained;
    if disk == null {
      return Some(InMemory);
    }
    match disk.anchor {
      case Present(_) =>
        return Some(AnchorExists);
      case Corrupt =>
        return Some(if statOk then AnchorExists else CannotStat);
      case Absent =>
    }
    var read := ReadFile(disk.accessible, disk.text);
    if read.Failed? {
      return Some(ReadFailed);
    }
    var records := read.items;
    var bad, _ := Verify(h, records);
    if bad != -1 {
      return Some(Unverified(bad));
    }
    var st := NO_HEAD;
    if |records| > 0 {
      st := AnchorState(records[|records| - 1].seq_, records[|records| - 1].hash);
    }
    var failed, _ := WriteAnchor(disk, st, io);
    return if failed then Some(WriteFailed) else None;
  }

  /** The verdict is the one Open gives on the same disk; the snapshot goes as far as the reading did. */
  method InspectAnchor(h: Digest, disk: Disk) returns (snap: AnchorSnapshot, err: Option<OpenError>)
    ensures AnswerMeans(h, disk.accessible, disk.text, disk.anchor, err)
    ensures err == OpenVerdict(h, disk.Reading(), disk.anchor)
    ensures disk.Reading().Ok? && Chained(h, disk.Reading().items) ==>
              SnapshotMeans(disk.anchor, disk.Reading().items, snap)
    ensures snap == if disk.Reading().Failed? || !Chained(h, disk.Reading().items) then EMPTY_SNAPSHOT
                    else FullSnapshot(disk.anchor, disk.Reading().items)
  {
    hide ReadLog, FirstBroken, Chained, AnswerMeans, SnapshotMeans;
    VerdictMeans(h, disk.accessible, disk.text, disk.anchor);
    if disk.Reading().Ok? { FullSnapshotMeans(disk.anchor, disk.Reading().items); }
    snap := EMPTY_SNAPSHOT;
    var read := ReadFile(disk.accessible, disk.text);
    if read.Failed? {
      return snap, Some(LogUnreadable(read.error));
    }
    var records := read.items;
    var bad, _ := Verify(h, records);
    if bad != -1 {
      return snap, Some(ChainBroken(bad));
    }
    var n := |records|;
    if n > 0 {
      snap := snap.(headSeq := records[n - 1].seq_, headHash := records[n - 1].hash);
      if n > 1 {
        snap := snap.(priorHash := records[n - 2].hash);
      }
    }
    match disk.anchor {
      case Corrupt =>
        return snap, Some(AnchorRefused(AnchorCorrupt));
      case Present(st) =>
        snap := snap.(anchorExists := true, anchorSeq := st.seq_, anchorHash := st.hash);
        if snap.headSeq > snap.anchorSeq {
          snap := snap.(excessRecords := snap.headSeq - snap.anchorSeq);
          if snap.excessRecords == 1 {
            snap := snap.(priorMatchesAnchor := snap.priorHash == snap.anchorHash);
          }
        }
      case Absent =>
    }
    match CheckAnchor(disk.anchor, records) {
      case Some(s) => err := Some(AnchorRefused(s));
      case None => err := None;
    }
  }

  /**
    `audit verify`: the exit code on a disk. 1 is a log that does not read or
    verify; of one that does, 5 is a corrupt anchor, 4 a missing one over a
    numbered head, 3 a head ahead of it, 2 one behind it or level with another
    hash, and 0 is agreement.
  */
  method AuditVerify(h: Digest, disk: Disk) returns (code: int)
    ensures 0 <= code <= 5
    ensures code == 1 <==> !disk.accessible || DecodeFile(DecodeLine, disk.text).Failed?
                           || !Chained(h, DecodeFile(DecodeLine, disk.text).items)
    ensures code != 1 ==>
              var rs := DecodeFile(DecodeLine, disk.text).items;
              var number: nat := if rs == [] then 0 else rs[|rs| - 1].seq_;
              var hash := if rs == [] then "" else rs[|rs| - 1].hash;
              && (code == 5 <==> disk.anchor == Corrupt)
              && (code == 4 <==> disk.anchor == Absent && number != 0)
              && (code == 3 <==> disk.anchor.Present? && number > disk.anchor.st.seq_)
              && (code == 2 <==> disk.anchor.Present?
                                 && (number < disk.anchor.st.seq_
                                     || (number == disk.anchor.st.seq_ && number != 0 && hash != disk.anchor.st.hash)))
  {
    hide DecodeFile, Chained;
    var _, err := InspectAnchor(h, disk);
    return ExitCode(err);
  }

  // ---- adoption ----

  /**
    After a successful adoption Open accepts, whatever the text, and the next
    successful Append continues one past the head and linked to it. The log then
    opens again exactly when the text had ended in a newline, or a blank line,
    and the new line is under the reader's limit. Otherwise the record just
    anchored is not read, and the log is reported as truncated.
  */
  lemma AdoptionReopensIff(h: Digest, text: string, op: AppendOp)
    requires ReadLog(true, text).Ok? && Chained(h, ReadLog(true, text).items)
    requires op.line == Written && ReportedDone(op.anchor)
    ensures var rs := ReadLog(true, text).items;
            OpenVerdict(h, ReadLog(true, text), Present(Head(rs))) == None
    ensures var rs := ReadLog(true, text).items;
            var s' := DiskStep(h, DiskState(text, Present(Head(rs)), Head(rs).seq_, Head(rs).hash), op);
            var r := Finalize(h, Succ(Head(rs).seq_), Head(rs).hash, op.body, op.now);
            var fits := ByteLength(LastLine(text) + Line(r)) < MAX_LINE_BYTES;
            var verdict := OpenVerdict(h, ReadLog(true, s'.text), s'.anchor);
            && s'.text == text + (Line(r) + "\n") && r.seq_ == Succ(Head(rs).seq_) && r.prevHash == Head(rs).hash
            && Chained(h, rs + [r])
            && (verdict == None <==> Blank(LastLine(text)) && fits)
            && (!fits ==> verdict == Some(LogUnreadable(LineTooLong)))
            && (fits && !Blank(LastLine(text)) && Head(rs).seq_ + 1 < TWO_TO_THE_64 ==>
                  verdict == Some(AnchorRefused(Truncated)))
  {
    hide DecodeFile, Line, ByteLength, Blank;
    var rs := ReadLog(true, text).items;
    var s := FileState(rs, Present(Head(rs)), Head(rs).seq_, Head(rs).hash);
    var r := NextRecord(h, s, op);
    NextRecordChains(h, s, op);
    ReadAfterAppend(text, rs, r);
    hide Chained;
    if Blank(LastLine(text)) { assert Head(rs + [r]) == AnchorState(r.seq_, r.hash); }
  }

  /** So a log Append wrote opens again exactly when the new line is under the limit. */
  lemma AdoptionReopens(h: Digest, rs: seq<Record>, op: AppendOp)
    requires Chained(h, rs) && AllShort(rs) && op.line == Written && ReportedDone(op.anchor)
    ensures OpenVerdict(h, ReadLog(true, FileText(rs)), Present(Head(rs))) == None
    ensures var s := FileState(rs, Present(Head(rs)), Head(rs).seq_, Head(rs).hash);
            var s' := DiskStep(h, OnDisk(s), op);
            var r := NextRecord(h, s, op);
            && s'.text == FileText(rs + [r]) && r.seq_ == Succ(Head(rs).seq_) && r.prevHash == Head(rs).hash
            && Chained(h, rs + [r])
            && OpenVerdict(h, ReadLog(true, s'.text), s'.anchor)
               == if Short(r) then None else Some(LogUnreadable(LineTooLong))
  {
    hide Short, FileText, DecodeFile, Chained, FirstBroken, Payload, Line;
    var s := FileState(rs, Present(Head(rs)), Head(rs).seq_, Head(rs).hash);
    var r := NextRecord(h, s, op);
    NextRecordChains(h, s, op);
    DiskStepIsFileStep(h, s, op);
    ReadBackIffShort(rs);
    ReadBackIffShort(rs + [r]);
    assert AllShort(rs + [r]) <==> Short(r) by { assert r in rs + [r]; }
    hide AllShort;
  }

  /**
    The text that shows the difference: a log put right by hand that lacks its
    last newline is adopted and opens, the next record is appended and anchored,
    and the log is then truncated by it.
  */
  lemma MissingNewlineTruncates(h: Digest, rs: seq<Record>, a: Record, op: AppendOp)
    requires Chained(h, rs + [a]) && AllShort(rs + [a]) && a.seq_ + 1 < TWO_TO_THE_64
    requires op.line == Written && ReportedDone(op.anchor)
    requires ByteLength(Line(a) + Line(Finalize(h, Succ(a.seq_), a.hash, op.body, op.now))) < MAX_LINE_BYTES
    ensures var text := FileText(rs) + Line(a);
            var s' := DiskStep(h, DiskState(text, Present(Head(rs + [a])), a.seq_, a.hash), op);
            && OpenVerdict(h, ReadLog(true, text), Present(Head(rs + [a]))) == None
            && OpenVerdict(h, ReadLog(true, s'.text), s'.anchor) == Some(AnchorRefused(Truncated))
  {
    LineShape(a);
    ReadUnterminated(rs, a);
    hide Line, FileText, DecodeFile, Finalize, ByteLength, Chained, AllShort;
    assert !Blank(Line(a));
    AdoptionReopensIff(h, FileText(rs) + Line(a), op);
  }

  /** The state names the head of its records. */
  predicate Synced(s: FileState) { AnchorState(s.seq_, s.prev) == Head(s.records) }

  lemma NextRecordChains(h: Digest, s: FileState, op: AppendOp)
    requires Synced(s) && Chained(h, s.records)
    ensures Chained(h, s.records + [NextRecord(h, s, op)])
  {
    var r := NextRecord(h, s, op);
    PayloadIgnoresHash(r);
    ChainedAppend(h, s.records, r);
  }

  // ---- file mode refines memory mode ----

  function FileRun(h: Digest, s: FileState, ops: seq<AppendOp>): FileState
    decreases |ops|
  {
    if ops == [] then s else FileRun(h, FileStep(h, s, ops[0]), ops[1..])
  }

  function DiskRun(h: Digest, s: DiskState, ops: seq<AppendOp>): DiskState
    decreases |ops|
  {
    if ops == [] then s else DiskRun(h, DiskStep(h, s, ops[0]), ops[1..])
  }

  lemma {:induction false} DiskRunIsFileRun(h: Digest, s: FileState, ops: seq<AppendOp>)
    ensures DiskRun(h, OnDisk(s), ops) == OnDisk(FileRun(h, s, ops))
    decreases |ops|
  {
    hide DiskStep, FileStep, OnDisk;
    if ops != [] {
      DiskStepIsFileStep(h, s, ops[0]);
      DiskRunIsFileRun(h, FileStep(h, s, ops[0]), ops[1..]);
    }
  }

  function MemRun(h: Digest, s: MemState, ops: seq<AppendOp>): MemState
    decreases |ops|
  {
    if ops == [] then s else MemRun(h, MemStep(h, s, ops[0].body, ops[0].now), ops[1..])
  }

  /** The appends whose line landed. */
  function Landed(ops: seq<AppendOp>): seq<AppendOp> {
    if ops == [] then []
    else (if ops[0].line == NotWritten then [] else [ops[0]]) + Landed(ops[1..])
  }

  /** "An error means nothing was written": no line lands without its Sync. */
  predicate ErrorMeansUnwritten(ops: seq<AppendOp>) {
    forall op | op in ops :: op.line != WrittenNotSynced
  }

  /**
    Whatever lines and anchors fail, the file holds the chain an in-memory log
    builds from the appends that landed: re-reading its text gives that chain,
    unless one of its lines is too long, and seq and prev name the same head.
  */
  lemma FileRefinesMemory(h: Digest, f: FileState, m: MemState, ops: seq<AppendOp>)
    requires ErrorMeansUnwritten(ops)
    requires f.records == m.mem && f.seq_ == m.seq_ && f.prev == m.prev
    ensures var f' := DiskRun(h, OnDisk(f), ops);
            var m' := MemRun(h, m, Landed(ops));
            && f'.seq_ == m'.seq_ && f'.prev == m'.prev && f'.text == FileText(m'.mem)
            && ReadLog(true, f'.text) == if AllShort(m'.mem) then Ok(m'.mem) else Failed(LineTooLong)
  {
    RecordsRefineMemory(h, f, m, ops);
    DiskRunIsFileRun(h, f, ops);
    ReadBackIffShort(MemRun(h, m, Landed(ops)).mem);
  }

  lemma {:induction false} RecordsRefineMemory(h: Digest, f: FileState, m: MemState, ops: seq<AppendOp>)
    requires ErrorMeansUnwritten(ops)
    requires f.records == m.mem && f.seq_ == m.seq_ && f.prev == m.prev
    ensures var f' := FileRun(h, f, ops);
            var m' := MemRun(h, m, Landed(ops));
            f'.records == m'.mem && f'.seq_ == m'.seq_ && f'.prev == m'.prev
    decreases |ops|
  {
    if ops != [] {
      var op := ops[0];
      var f1 := FileStep(h, f, op);
      if op.line == NotWritten {
        assert Landed(ops) == Landed(ops[1..]);
        RecordsRefineMemory(h, f1, m, ops[1..]);
      } else {
        assert op in ops;
        assert Landed(ops)[0] == op && Landed(ops)[1..] == Landed(ops[1..]);
        RecordsRefineMemory(h, f1, MemStep(h, m, op.body, op.now), ops[1..]);
      }
    }
  }

  /** Whatever fails, and whatever the file held of redacted rows, every row stored by any run is redacted. */
  lemma {:induction false} RowsStayRedacted(h: Digest, s: FileState, ops: seq<AppendOp>)
    requires forall r | r in s.records :: IsRedacted(r.params)
    ensures forall r | r in FileRun(h, s, ops).records :: IsRedacted(r.params)
    decreases |ops|
  {
    if ops != [] {
      RedactedMasks(ops[0].body.params);
      RowsStayRedacted(h, FileStep(h, s, ops[0]), ops[1..]);
    }
  }

  /** The records a run adds are, one for one and in order, those of the appends whose line landed. */
  lemma {:induction false} AddedRecordsAreTheAppends(h: Digest, s: FileState, ops: seq<AppendOp>)
    returns (added: seq<Record>)
    ensures FileRun(h, s, ops).records == s.records + added && |added| == |Landed(ops)|
    ensures forall i | 0 <= i < |added| :: StoredFrom(Landed(ops)[i].body, Landed(ops)[i].now, added[i])
    decreases |ops|
  {
    hide Finalize, StoredFrom;
    if ops == [] {
      added := [];
    } else {
      var rest := AddedRecordsAreTheAppends(h, FileStep(h, s, ops[0]), ops[1..]);
      if ops[0].line == NotWritten {
        assert Landed(ops) == Landed(ops[1..]);
        added := rest;
      } else {
        var r := NextRecord(h, s, ops[0]);
        NextRecordStored(h, s, ops[0]);
        added := [r] + rest;
        assert s.records + added == s.records + [r] + rest;
        assert Landed(ops) == [ops[0]] + Landed(ops[1..]);
      }
    }
  }

  lemma NextRecordStored(h: Digest, s: FileState, op: AppendOp)
    ensures StoredFrom(op.body, op.now, NextRecord(h, s, op))
  {
    hide StoredFrom;
    FinalizeSeals(h, s.seq_, s.prev, op.body, op.now);
  }

  /** From a chain and its head, such runs keep both, and every stored row is redacted. */
  lemma {:induction false} RunsStayChained(h: Digest, s: FileState, ops: seq<AppendOp>)
    requires ErrorMeansUnwritten(ops) && Synced(s) && Chained(h, s.records)
    requires forall r | r in s.records :: IsRedacted(r.params)
    ensures var s' := FileRun(h, s, ops);
            Synced(s') && Chained(h, s'.records) && forall r | r in s'.records :: IsRedacted(r.params)
    decreases |ops|
  {
    if ops != [] {
      assert ops[0] in ops;
      NextRecordChains(h, s, ops[0]);
      RedactedMasks(ops[0].body.params);
      RunsStayChained(h, FileStep(h, s, ops[0]), ops[1..]);
    }
  }

  /** From an empty log they build a genuine one: numbered from 1. */
  lemma {:induction false} RunsStayGenuine(h: Digest, s: FileState, ops: seq<AppendOp>)
    requires ErrorMeansUnwritten(ops) && Synced(s) && Genuine(h, s.records)
    requires |s.records| + |ops| < TWO_TO_THE_64
    ensures Genuine(h, FileRun(h, s, ops).records)
    decreases |ops|
  {
    if ops != [] {
      assert ops[0] in ops;
      NextRecordChains(h, s, ops[0]);
      RunsStayGenuine(h, FileStep(h, s, ops[0]), ops[1..]);
    }
  }

  /**
    The premise is needed: a line that landed while its Sync failed is rolled
    back in memory only, so the next line that lands repeats its number and
    Verify stops there, whatever the hash and whatever follows.
  */
  lemma UnsyncedLineBreaksNext(h: Digest, s: FileState, lost: AppendOp, next: AppendOp, more: seq<Record>)
    requires Synced(s) && Chained(h, s.records)
    requires lost.line == WrittenNotSynced && next.line != NotWritten
    ensures var s1 := FileStep(h, s, lost);
            var s2 := FileStep(h, s1, next);
            && Chained(h, s1.records) && !Synced(s1)
            && FirstBroken(h, s2.records + more) == |s.records| + 1
  {
    var r1, r2 := NextRecord(h, s, lost), NextRecord(h, s, next);
    NextRecordChains(h, s, lost);
    var rs := s.records + [r1];
    RepeatedNumberBreaks(h, rs, r2);
    BreakPersists(h, rs + [r2], more, |rs|);
    FirstBrokenIs(h, (rs + [r2]) + more, |rs|);
    assert FileStep(h, FileStep(h, s, lost), next).records == rs + [r2];
  }

  lemma RepeatedNumberBreaks(h: Digest, rs: seq<Record>, r: Record)
    requires Chained(h, rs) && rs != [] && r.seq_ == rs[|rs| - 1].seq_
    ensures BreaksAt(h, rs + [r], |rs|)
  {
    var rs' := rs + [r];
    assert rs'[..|rs|] == rs;
    assert rs'[|rs|] == r && rs'[|rs| - 1] == rs[|rs| - 1];
  }
}
