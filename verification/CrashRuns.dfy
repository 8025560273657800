/**
  Every run of Open, Append and adoption by one writer, with I/O failures and a
  crash possible between any two steps.

  An append is two steps, the line and then the anchor. A rename whose directory
  was not synced may be undone by a crash, so the disk keeps the anchors that may
  come back, oldest first; a line whose Sync failed may be lost by one. What has
  been synced stays. The file holds the text of the records, and reading it fails
  when one of their lines is too long.
*/
module CrashRuns {
  import opened Options
  import opened Records
  import opened Chain
  import opened Lines
  import opened LogFile
  import opened Anchors
  import opened AuditLog

  /** An anchor file, the records it was put there over, and whether a crash could still lose some of these. */
  datatype Image = Image(file: AnchorFile, covered: seq<Record>, risky: bool)

  /** Stale: the last line landed, its Sync failed, and the counter was rolled back. */
  datatype Handle = NoHandle | Idle(head: AnchorState) | Anchoring(head: AnchorState) | Stale(head: AnchorState)

  datatype World = World(
    records: seq<Record>,
    unsynced: nat,             // trailing records a crash may lose
    images: seq<Image>,        // the last one is visible, a crash may bring back any earlier one
    handle: Handle,
    brokenAt: Option<nat>)     // the first record that landed through a stale handle, while it is there

  datatype Label =
    | OpenLog
    | WriteLine(op: AppendOp)
    | UpdateAnchor(io: AnchorIO)
    | Crash(lost: nat, survivor: nat)
    | Adopt(io: AnchorIO)
    | RemoveAnchor(durable: bool)

  const FRESH := World([], 0, [Image(Absent, [], false)], NoHandle, None)

  function Visible(w: World): Image
    requires w.images != []
  {
    w.images[|w.images| - 1]
  }

  function ImageNow(w: World, file: AnchorFile): Image { Image(file, w.records, w.unsynced > 0) }

  /** A rename is durable once the directory is synced. */
  function PutImage(images: seq<Image>, img: Image, io: AnchorIO): seq<Image> {
    if !Lands(io) then images else if io == Renamed then [img] else images + [img]
  }

  /** What reading the log file gives. */
  ghost function Reading(w: World): (r: ReadResult<Record>)
    ensures r == if AllShort(w.records) then Ok(w.records) else Failed(LineTooLong)
  {
    ReadBackIffShort(w.records);
    ReadLog(true, FileText(w.records))
  }

  /** What Open says, and audit verify. */
  ghost function Verdict(h: Digest, w: World): Option<OpenError>
    requires w.images != []
  {
    OpenVerdict(h, Reading(w), Visible(w).file)
  }

  /** One step; None when the label is not enabled. */
  ghost function Step(h: Digest, w: World, l: Label): (r: Option<World>)
    requires w.images != []
    ensures r.Some? ==> r.value.images != []
  {
    match l
    case OpenLog =>
      if w.handle != NoHandle then None
      else if Verdict(h, w) == None then Some(w.(handle := Idle(Head(w.records))))
      else Some(w)
    case WriteLine(op) =>
      if !(w.handle.Idle? || w.handle.Stale?) || |w.records| + 1 >= TWO_TO_THE_64 then None
      else
        var head := w.handle.head;
        var r := Finalize(h, Succ(head.seq_), head.hash, op.body, op.now);
        var brokenAt := if w.handle.Stale? && w.brokenAt == None then Some(|w.records|) else w.brokenAt;
        match op.line {
          case NotWritten => Some(w)
          case WrittenNotSynced =>
            Some(World(w.records + [r], w.unsynced + 1, w.images, Stale(head), brokenAt))
          case Written =>
            Some(World(w.records + [r], 0, w.images, Anchoring(AnchorState(r.seq_, r.hash)), brokenAt))
        }
    case UpdateAnchor(io) =>
      if !w.handle.Anchoring? then None
      else Some(w.(images := PutImage(w.images, ImageNow(w, Present(w.handle.head)), io),
                   handle := Idle(w.handle.head)))
    case Crash(lost, survivor) =>
      if lost > w.unsynced || lost > |w.records| || survivor >= |w.images| then None
      else
        var n := |w.records| - lost;
        Some(World(w.records[..n], w.unsynced - lost, w.images[..survivor + 1], NoHandle,
                   if w.brokenAt.Some? && w.brokenAt.value >= n then None else w.brokenAt))
    case Adopt(io) =>
      if w.handle != NoHandle then None
      else if Visible(w).file != Absent || Reading(w).Failed? || !Chained(h, w.records) then Some(w)
      else Some(w.(images := PutImage(w.images, ImageNow(w, Present(Head(w.records))), io)))
    case RemoveAnchor(durable) =>
      if w.handle != NoHandle then None
      else Some(w.(images := PutImage(w.images, ImageNow(w, Absent), if durable then Renamed else SyncDirFails)))
  }

  ghost function Run(h: Digest, w: World, ls: seq<Label>): (r: Option<World>)
    requires w.images != []
    ensures r.Some? ==> r.value.images != []
    decreases |ls|
  {
    if ls == [] then Some(w)
    else match Step(h, w, ls[0]) case None => None case Some(w1) => Run(h, w1, ls[1..])
  }

  /** A step of the log object is these two steps. */
  lemma AppendIsTwoSteps(h: Digest, w: World, op: AppendOp)
    requires w.images != [] && (w.handle.Idle? || w.handle.Stale?) && |w.records| + 1 < TWO_TO_THE_64
    ensures var s := FileState(w.records, Visible(w).file, w.handle.head.seq_, w.handle.head.hash);
            var s' := FileStep(h, s, op);
            var ls := [WriteLine(op)] + (if op.line == Written then [UpdateAnchor(op.anchor)] else []);
            var w' := Run(h, w, ls);
            && w'.Some? && (w'.value.handle.Idle? || w'.value.handle.Stale?)
            && s' == FileState(w'.value.records, Visible(w'.value).file,
                               w'.value.handle.head.seq_, w'.value.handle.head.hash)
  {
    hide Finalize, Verdict, Reading;
    var ls := [WriteLine(op)] + (if op.line == Written then [UpdateAnchor(op.anchor)] else []);
    var w1 := Step(h, w, ls[0]).value;
    if op.line == Written {
      assert ls[1..] == [UpdateAnchor(op.anchor)];
      assert Run(h, w1, ls[1..]) == Step(h, w1, ls[1]);
    } else {
      assert ls[1..] == [];
    }
  }

  // ---- the invariant ----

  function Floor(w: World): int { |w.records| - w.unsynced }

  /** A break below the synced part can no longer be lost. */
  predicate Doomed(w: World) { w.brokenAt.Some? && w.brokenAt.value < Floor(w) }

  function Good(w: World): int { if w.brokenAt.Some? then w.brokenAt.value else |w.records| }

  /** An anchor is the head of a genuine log, and of a synced prefix unless it was put there at a risk. */
  ghost predicate ImageOk(h: Digest, rs: seq<Record>, floor: int, img: Image) {
    img.file == Absent
    || (Genuine(h, img.covered) && img.file == Present(Head(img.covered))
        && (!img.risky ==> img.covered <= rs && |img.covered| <= floor))
  }

  ghost predicate HandleOk(w: World) {
    match w.handle
    case NoHandle => true
    case Idle(head) => w.brokenAt == None && head == Head(w.records)
    case Anchoring(head) => w.unsynced == 0 && w.brokenAt == None && head == Head(w.records)
    case Stale(head) => w.records != [] && (w.brokenAt == None ==> head == Head(w.records[..|w.records| - 1]))
  }

  ghost predicate Inv(h: Digest, w: World) {
    && w.images != []
    && 0 <= Floor(w)
    && (w.brokenAt.Some? ==> BreaksAt(h, w.records, w.brokenAt.value))
    && (!Doomed(w) ==>
          && Floor(w) <= Good(w) <= |w.records|
          && Genuine(h, w.records[..Good(w)])
          && (forall img | img in w.images :: ImageOk(h, w.records, Floor(w), img))
          && HandleOk(w))
  }

  lemma GenuinePrefix(h: Digest, rs: seq<Record>, n: nat)
    requires Genuine(h, rs) && n <= |rs|
    ensures Genuine(h, rs[..n])
  {
    PrefixChained(h, rs, n);
  }

  lemma GenuineNext(h: Digest, rs: seq<Record>, op: AppendOp)
    requires Genuine(h, rs) && |rs| + 1 < TWO_TO_THE_64
    ensures Genuine(h, rs + [Finalize(h, Succ(Head(rs).seq_), Head(rs).hash, op.body, op.now)])
  {
    var s := FileState(rs, Absent, Head(rs).seq_, Head(rs).hash);
    NextRecordChains(h, s, op);
  }

  lemma ImagesGrow(h: Digest, rs: seq<Record>, floor: int, more: seq<Record>, floor': int, images: seq<Image>)
    requires floor <= floor'
    requires forall img | img in images :: ImageOk(h, rs, floor, img)
    ensures forall img | img in images :: ImageOk(h, rs + more, floor', img)
  {
    hide Genuine;
    forall img | img in images ensures ImageOk(h, rs + more, floor', img) {
      assert ImageOk(h, rs, floor, img);
    }
  }

  lemma WriteKeepsInv(h: Digest, w: World, op: AppendOp)
    requires Inv(h, w) && Step(h, w, WriteLine(op)).Some?
    ensures Inv(h, Step(h, w, WriteLine(op)).value)
  {
    hide Verdict, Reading;
    if op.line != NotWritten {
      var w' := Step(h, w, WriteLine(op)).value;
      var r := Finalize(h, Succ(w.handle.head.seq_), w.handle.head.hash, op.body, op.now);
      assert w'.records == w.records + [r];
      if Doomed(w) {
        DoomedStaysDoomed(h, w, w', r);
      } else {
        hide Finalize;
        ImagesGrow(h, w.records, Floor(w), [r], Floor(w'), w.images);
        if w.handle.Idle? {
          assert w.records[..Good(w)] == w.records;
          GenuineNext(h, w.records, op);
          IdleWriteKeepsInv(h, w, w', r);
        } else {
          SealedHas(h, w.handle.head, op);
          StaleWriteKeepsInv(h, w, w', r);
        }
      }
    }
  }

  lemma SealedHas(h: Digest, head: AnchorState, op: AppendOp)
    ensures Finalize(h, Succ(head.seq_), head.hash, op.body, op.now).seq_ == Succ(head.seq_)
  {
  }

  lemma DoomedStaysDoomed(h: Digest, w: World, w': World, r: Record)
    requires Inv(h, w) && Doomed(w)
    requires w'.records == w.records + [r] && w'.images == w.images && w'.brokenAt == w.brokenAt
    requires w'.unsynced == 0 || w'.unsynced == w.unsynced + 1
    ensures Inv(h, w')
  {
    hide FaultAt;
    BreakPersists(h, w.records, [r], w.brokenAt.value);
  }

  /** A line written through a handle that names the head continues the genuine log. */
  lemma IdleWriteKeepsInv(h: Digest, w: World, w': World, r: Record)
    requires w.images != [] && 0 <= Floor(w) && w.brokenAt == None && w.handle == Idle(Head(w.records))
    requires w'.records == w.records + [r] && Genuine(h, w'.records) && w'.images == w.images && w'.brokenAt == None
    requires forall img | img in w'.images :: ImageOk(h, w'.records, Floor(w'), img)
    requires || (w'.unsynced == 0 && w'.handle == Anchoring(AnchorState(r.seq_, r.hash)))
             || (w'.unsynced == w.unsynced + 1 && w'.handle == Stale(w.handle.head))
    ensures Inv(h, w')
  {
    hide Genuine, ImageOk;
    assert w'.records[..|w'.records|] == w'.records;
    assert w'.records[..|w'.records| - 1] == w.records;
  }

  /** A line written through a stale handle is, or follows, the first broken one. */
  lemma StaleWriteKeepsInv(h: Digest, w: World, w': World, r: Record)
    requires Inv(h, w) && !Doomed(w) && w.handle.Stale? && |w.records| + 1 < TWO_TO_THE_64
    requires r.seq_ == Succ(w.handle.head.seq_)
    requires w'.records == w.records + [r] && w'.images == w.images
    requires w'.brokenAt == if w.brokenAt.Some? then w.brokenAt else Some(|w.records|)
    requires forall img | img in w'.images :: ImageOk(h, w'.records, Floor(w'), img)
    requires w'.unsynced == 0 || (w'.unsynced == w.unsynced + 1 && w'.handle == w.handle)
    ensures Inv(h, w')
  {
    StaleWriteBreaks(h, w, r);
    hide BreaksAt, Genuine, ImageOk, Succ;
    if w'.unsynced != 0 {
      assert Floor(w') == Floor(w) && Good(w') == Good(w);
      assert w'.records[..Good(w)] == w.records[..Good(w)];
    }
  }

  lemma StaleWriteBreaks(h: Digest, w: World, r: Record)
    requires Inv(h, w) && !Doomed(w) && w.handle.Stale? && |w.records| + 1 < TWO_TO_THE_64
    requires r.seq_ == Succ(w.handle.head.seq_)
    ensures BreaksAt(h, w.records + [r], if w.brokenAt.Some? then w.brokenAt.value else |w.records|)
  {
    if w.brokenAt.Some? {
      BreakPersists(h, w.records, [r], w.brokenAt.value);
    } else {
      assert w.records[..Good(w)] == w.records;
      var n := |w.records|;
      assert w.records[n - 1].seq_ == n && w.handle.head.seq_ == n - 1;
      RepeatedNumberBreaks(h, w.records, r);
    }
  }

  lemma CrashKeepsInv(h: Digest, w: World, lost: nat, survivor: nat)
    requires Inv(h, w) && Step(h, w, Crash(lost, survivor)).Some?
    ensures Inv(h, Step(h, w, Crash(lost, survivor)).value)
  {
    hide Verdict, Reading;
    var w' := Step(h, w, Crash(lost, survivor)).value;
    var n := |w'.records|;
    assert Floor(w') == Floor(w);
    if w.brokenAt.Some? && w.brokenAt.value < n {
      var i := w.brokenAt.value;
      assert w'.records[..i] == w.records[..i];
      assert FaultAt(h, w'.records, i) == FaultAt(h, w.records, i);
    }
    if !Doomed(w) {
      assert Good(w') <= Good(w) && w'.records[..Good(w')] == w.records[..Good(w)][..Good(w')];
      GenuinePrefix(h, w.records[..Good(w)], Good(w'));
      hide Genuine;
      forall img | img in w'.images ensures ImageOk(h, w'.records, Floor(w'), img) {
        assert ImageOk(h, w.records, Floor(w), img);
      }
    }
  }

  /** A log that verifies is not broken. */
  lemma ChainedIsWhole(h: Digest, w: World)
    requires Inv(h, w) && Chained(h, w.records)
    ensures w.brokenAt == None && Genuine(h, w.records)
  {
    if w.brokenAt.Some? {
      FirstBrokenIs(h, w.records, w.brokenAt.value);
    }
    assert w.records[..|w.records|] == w.records;
  }

  lemma OpenMeansChained(h: Digest, w: World)
    requires w.images != [] && Verdict(h, w) == None
    ensures Chained(h, w.records) && AllShort(w.records)
  {
  }

  lemma OpenKeepsInv(h: Digest, w: World)
    requires Inv(h, w) && Step(h, w, OpenLog).Some?
    ensures Inv(h, Step(h, w, OpenLog).value)
  {
    hide Verdict, Reading;
    if Verdict(h, w) == None {
      OpenMeansChained(h, w);
      ChainedIsWhole(h, w);
    }
  }

  /** Putting an anchor over the records as they are, or removing it. */
  lemma PutKeepsInv(h: Digest, w: World, file: AnchorFile, io: AnchorIO, handle: Handle)
    requires Inv(h, w) && (handle == w.handle || (w.handle.Anchoring? && handle == Idle(w.handle.head)))
    requires !Doomed(w) ==> file == Absent || (Genuine(h, w.records) && file == Present(Head(w.records)))
    ensures Inv(h, w.(images := PutImage(w.images, ImageNow(w, file), io), handle := handle))
  {
    hide Genuine, BreaksAt;
    var w' := w.(images := PutImage(w.images, ImageNow(w, file), io), handle := handle);
    if !Doomed(w) {
      assert ImageOk(h, w.records, Floor(w), ImageNow(w, file));
      assert forall img | img in w'.images :: ImageOk(h, w.records, Floor(w), img);
    }
  }

  lemma UpdateKeepsInv(h: Digest, w: World, io: AnchorIO)
    requires Inv(h, w) && Step(h, w, UpdateAnchor(io)).Some?
    ensures Inv(h, Step(h, w, UpdateAnchor(io)).value)
  {
    hide Verdict, Reading;
    assert w.records[..|w.records|] == w.records;
    PutKeepsInv(h, w, Present(w.handle.head), io, Idle(w.handle.head));
  }

  lemma AdoptKeepsInv(h: Digest, w: World, io: AnchorIO)
    requires Inv(h, w) && Step(h, w, Adopt(io)).Some?
    ensures Inv(h, Step(h, w, Adopt(io)).value)
  {
    hide Verdict, Reading;
    if Chained(h, w.records) {
      ChainedIsWhole(h, w);
      PutKeepsInv(h, w, Present(Head(w.records)), io, w.handle);
    }
  }

  lemma StepKeepsInv(h: Digest, w: World, l: Label)
    requires Inv(h, w) && Step(h, w, l).Some?
    ensures Inv(h, Step(h, w, l).value)
  {
    match l
    case OpenLog => OpenKeepsInv(h, w);
    case WriteLine(op) => WriteKeepsInv(h, w, op);
    case UpdateAnchor(io) => UpdateKeepsInv(h, w, io);
    case Crash(lost, survivor) => CrashKeepsInv(h, w, lost, survivor);
    case Adopt(io) => AdoptKeepsInv(h, w, io);
    case RemoveAnchor(durable) => PutKeepsInv(h, w, Absent, if durable then Renamed else SyncDirFails, w.handle);
  }

  lemma {:induction false} RunKeepsInv(h: Digest, w: World, ls: seq<Label>)
    requires Inv(h, w) && Run(h, w, ls).Some?
    ensures Inv(h, Run(h, w, ls).value)
    decreases |ls|
  {
    if ls != [] {
      StepKeepsInv(h, w, ls[0]);
      RunKeepsInv(h, Step(h, w, ls[0]).value, ls[1..]);
    }
  }

  lemma FreshInv(h: Digest)
    ensures Inv(h, FRESH)
  {
    assert Head([]) == NO_HEAD;
  }

  // ---- the results, over every run from a fresh disk ----

  /** The log verifies at all times, except exactly while a line written through a stale handle is in it. */
  lemma LogVerifiesIff(h: Digest, ls: seq<Label>)
    requires Run(h, FRESH, ls).Some?
    ensures var w := Run(h, FRESH, ls).value;
            FirstBroken(h, w.records) == if w.brokenAt.Some? then w.brokenAt.value else -1
  {
    FreshInv(h);
    RunKeepsInv(h, FRESH, ls);
    var w := Run(h, FRESH, ls).value;
    if w.brokenAt.Some? {
      FirstBrokenIs(h, w.records, w.brokenAt.value);
    } else {
      assert w.records[..Good(w)] == w.records;
    }
  }

  /** What Open says, told from the lines on disk and the records the visible anchor was put there over. */
  ghost function Expected(w: World): Option<OpenError>
    requires w.images != []
  {
    var img, n := Visible(w), |w.records|;
    if !AllShort(w.records) then Some(LogUnreadable(LineTooLong))
    else if img.file == Absent then if n == 0 then None else Some(AnchorRefused(AnchorMissing))
    else if |img.covered| > n then Some(AnchorRefused(Truncated))
    else if |img.covered| < n then Some(AnchorRefused(LogAheadOfAnchor))
    else if Head(img.covered) != Head(w.records) then Some(AnchorRefused(Tampered))
    else None
  }

  /**
    Whatever failed and wherever it crashed, a log that verifies is genuine, its
    anchor is never corrupt but absent or the head of a genuine log, and this is
    the head of a prefix of the log unless it was put there over lines that a
    crash could still lose. Open says exactly what follows from that.
  */
  lemma CrashSafety(h: Digest, ls: seq<Label>)
    requires Run(h, FRESH, ls).Some? && Run(h, FRESH, ls).value.brokenAt == None
    ensures var w := Run(h, FRESH, ls).value;
            var img := Visible(w);
            && Genuine(h, w.records)
            && (img.file == Absent || (Genuine(h, img.covered) && img.file == Present(Head(img.covered))))
            && (img.file.Present? && !img.risky ==> img.covered <= w.records)
            && Verdict(h, w) == Expected(w)
            && FullSnapshot(img.file, w.records).excessRecords ==
               (if img.file.Present? && |img.covered| < |w.records| then |w.records| - |img.covered| else 0)
  {
    FreshInv(h);
    RunKeepsInv(h, FRESH, ls);
    var w := Run(h, FRESH, ls).value;
    var img := Visible(w);
    assert w.records[..Good(w)] == w.records;
    assert ImageOk(h, w.records, Floor(w), img);
    hide Run;
    GenuineVerdict(h, w);
  }

  lemma GenuineVerdict(h: Digest, w: World)
    requires w.images != [] && Genuine(h, w.records)
    requires Visible(w).file == Absent
             || (Genuine(h, Visible(w).covered) && Visible(w).file == Present(Head(Visible(w).covered)))
    ensures Verdict(h, w) == Expected(w)
    ensures FullSnapshot(Visible(w).file, w.records).excessRecords ==
            if Visible(w).file.Present? && |Visible(w).covered| < |w.records|
            then |w.records| - |Visible(w).covered| else 0
  {
    GenuineHead(h, w.records);
    if Visible(w).file.Present? { GenuineHead(h, Visible(w).covered); }
  }

  lemma GenuineHead(h: Digest, rs: seq<Record>)
    requires Genuine(h, rs)
    ensures Head(rs).seq_ == |rs|
  {
  }

  // ---- adoptions over lines a crash may lose ----

  /** The visible anchor was put there over records that are no longer all there. */
  predicate AnchoredLinesLost(w: World)
    requires w.images != []
  {
    Visible(w).file.Present? && !(Visible(w).covered <= w.records)
  }

  /** Every adoption in the run is over synced lines only. */
  ghost predicate AdoptsSynced(h: Digest, w: World, ls: seq<Label>)
    requires w.images != []
    decreases |ls|
  {
    ls == [] || ((ls[0].Adopt? ==> w.unsynced == 0)
                 && (Step(h, w, ls[0]).Some? ==> AdoptsSynced(h, Step(h, w, ls[0]).value, ls[1..])))
  }

  predicate NothingRisky(w: World) {
    (w.handle.Anchoring? ==> w.unsynced == 0) && forall img | img in w.images :: img.file.Present? ==> !img.risky
  }

  lemma {:induction false} SyncedAdoptionsRiskNothing(h: Digest, w: World, ls: seq<Label>)
    requires w.images != [] && NothingRisky(w) && AdoptsSynced(h, w, ls) && Run(h, w, ls).Some?
    ensures NothingRisky(Run(h, w, ls).value)
    decreases |ls|
  {
    hide Verdict, Reading, Finalize;
    if ls != [] {
      SyncedAdoptionsRiskNothing(h, Step(h, w, ls[0]).value, ls[1..]);
    }
  }

  /**
    Truncated is reported exactly when the anchored lines are lost and the log is
    still shorter than they were; Tampered, up to a collision, when it has grown
    back to their number; LogAheadOfAnchor beyond. Such an anchor was put there
    by an adoption over lines that were not synced.
  */
  lemma TruncatedIffAnchoredLinesLost(h: Digest, ls: seq<Label>)
    requires NeverGenesis(h) && Run(h, FRESH, ls).Some? && Run(h, FRESH, ls).value.brokenAt == None
    requires AllShort(Run(h, FRESH, ls).value.records)
    ensures var w := Run(h, FRESH, ls).value;
            var m, n := |Visible(w).covered|, |w.records|;
            var verdict := Verdict(h, w);
            && (AnchoredLinesLost(w) ==> Visible(w).risky && !AdoptsSynced(h, FRESH, ls))
            && (verdict == Some(AnchorRefused(Truncated)) <==> AnchoredLinesLost(w) && n < m)
            && (verdict == Some(AnchorRefused(Tampered)) ==> AnchoredLinesLost(w) && n == m)
            && (AnchoredLinesLost(w) && n == m ==>
                  verdict == Some(AnchorRefused(Tampered)) || Collide(h, Visible(w).covered, w.records))
            && (AnchoredLinesLost(w) && n > m ==> verdict == Some(AnchorRefused(LogAheadOfAnchor)))
  {
    CrashSafety(h, ls);
    if AdoptsSynced(h, FRESH, ls) { SyncedAdoptionsRiskNothing(h, FRESH, ls); }
    hide Run, AdoptsSynced;
    var w := Run(h, FRESH, ls).value;
    assert Visible(w) in w.images;
    var covered := Visible(w).covered;
    if Visible(w).file.Present? && |covered| == |w.records| > 0 && Head(covered) == Head(w.records) {
      HeadHashPinsHistory(h, covered, w.records);
    }
  }

  /**
    So while operators adopt only over synced lines, Open never reports
    truncation or tampering of a log that verifies: it accepts exactly when the
    anchor on disk was put there over all the records, and is ahead otherwise.
  */
  lemma CarefulRunsNeverTruncate(h: Digest, ls: seq<Label>)
    requires Run(h, FRESH, ls).Some? && Run(h, FRESH, ls).value.brokenAt == None && AdoptsSynced(h, FRESH, ls)
    ensures var w := Run(h, FRESH, ls).value;
            var img := Visible(w);
            && (img.file.Present? ==> img.covered <= w.records)
            && Verdict(h, w) ==
               (if !AllShort(w.records) then Some(LogUnreadable(LineTooLong))
                else if img.file == Absent then
                  if w.records == [] then None else Some(AnchorRefused(AnchorMissing))
                else if img.covered == w.records then None
                else Some(AnchorRefused(LogAheadOfAnchor)))
  {
    CrashSafety(h, ls);
    SyncedAdoptionsRiskNothing(h, FRESH, ls);
    hide Run, Verdict;
    var w := Run(h, FRESH, ls).value;
    assert Visible(w) in w.images;
  }

  /** A crash right after an adoption, that loses so many lines, is reported as truncation. */
  ghost predicate CrashTruncates(h: Digest, w: World, lost: nat)
    requires w.images != []
  {
    var after := Run(h, w, [Adopt(Renamed), Crash(lost, 0)]);
    after.Some? && Verdict(h, after.value) == Some(AnchorRefused(Truncated))
  }

  /**
    The care is needed in every world: where an adoption goes through, a crash
    right after it can end in truncation exactly when some line is not synced.
  */
  lemma AdoptionIsRiskyIff(h: Digest, w: World)
    requires Inv(h, w) && w.handle == NoHandle && Visible(w).file == Absent
    requires AllShort(w.records) && Chained(h, w.records)
    ensures w.unsynced > 0 <==> exists lost: nat :: CrashTruncates(h, w, lost)
  {
    ChainedIsWhole(h, w);
    forall lost: nat ensures CrashTruncates(h, w, lost) <==> 0 < lost <= w.unsynced {
      AdoptThenCrash(h, w, lost);
    }
    if w.unsynced > 0 { assert CrashTruncates(h, w, w.unsynced); }
  }

  lemma AdoptThenCrash(h: Digest, w: World, lost: nat)
    requires w.images != [] && 0 <= Floor(w) && w.handle == NoHandle && Visible(w).file == Absent
    requires w.brokenAt == None && AllShort(w.records) && Genuine(h, w.records)
    ensures CrashTruncates(h, w, lost) <==> 0 < lost <= w.unsynced
  {
    AdoptPuts(h, w);
    hide Verdict, Genuine, AllShort, Step, Reading;
    var img := ImageNow(w, Present(Head(w.records)));
    var w1 := w.(images := [img]);
    CrashLoses(h, w1, lost);
    if lost <= w.unsynced {
      var w2 := Step(h, w1, Crash(lost, 0)).value;
      RunTwo(h, w, Adopt(Renamed), w1, Crash(lost, 0), w2);
      VerdictAfterLoss(h, w, lost, w2);
    } else {
      assert [Adopt(Renamed), Crash(lost, 0)][1..] == [Crash(lost, 0)];
      assert Run(h, w1, [Crash(lost, 0)]) == None;
    }
  }

  lemma CrashLoses(h: Digest, w: World, lost: nat)
    requires |w.images| == 1 && 0 <= Floor(w) && w.brokenAt == None
    ensures Step(h, w, Crash(lost, 0)) ==
            if lost > w.unsynced then None
            else Some(World(w.records[..|w.records| - lost], w.unsynced - lost, w.images, NoHandle, None))
  {
    hide Verdict, Reading;
    assert w.images[..1] == w.images;
  }

  lemma VerdictAfterLoss(h: Digest, w: World, lost: nat, w': World)
    requires lost <= |w.records| && Genuine(h, w.records) && AllShort(w.records)
    requires w'.records == w.records[..|w.records| - lost]
    requires w'.images == [ImageNow(w, Present(Head(w.records)))]
    ensures Verdict(h, w') == Some(AnchorRefused(Truncated)) <==> lost > 0
  {
    hide Verdict, Genuine, AllShort;
    ShortPrefix(w.records, |w.records| - lost);
    GenuinePrefix(h, w.records, |w.records| - lost);
    GenuineVerdict(h, w');
  }

  lemma AdoptPuts(h: Digest, w: World)
    requires w.images != [] && w.handle == NoHandle && Visible(w).file == Absent
    requires AllShort(w.records) && Chained(h, w.records)
    ensures Step(h, w, Adopt(Renamed)) == Some(w.(images := [ImageNow(w, Present(Head(w.records)))]))
  {
    hide Verdict;
  }

  lemma ShortPrefix(rs: seq<Record>, n: nat)
    requires AllShort(rs) && n <= |rs|
    ensures AllShort(rs[..n])
  {
  }

  /** One such run from a fresh disk: an adoption over a line that a crash then loses is reported as truncation. */
  lemma AdoptionOverUnsyncedTruncates(h: Digest, op: AppendOp) returns (ls: seq<Label>)
    requires op.line == WrittenNotSynced && Short(Finalize(h, 1, GENESIS_PREV_HASH, op.body, op.now))
    ensures Run(h, FRESH, ls).Some?
    ensures var w := Run(h, FRESH, ls).value;
            w.brokenAt == None && Verdict(h, w) == Some(AnchorRefused(Truncated))
  {
    var r := Finalize(h, 1, GENESIS_PREV_HASH, op.body, op.now);
    GenuineNext(h, [], op);
    assert [] + [r] == [r];
    hide Finalize, Genuine, Verdict, Reading, Short;
    ls := [OpenLog, WriteLine(op), Crash(0, 0), Adopt(Renamed), Crash(1, 0)];
    var img := Image(Present(AnchorState(r.seq_, r.hash)), [r], true);
    var w1 := FRESH.(handle := Idle(NO_HEAD));
    var w2 := World([r], 1, FRESH.images, Stale(NO_HEAD), None);
    var w4 := World([r], 1, [img], NoHandle, None);
    FreshOpens(h);
    assert Step(h, w1, ls[1]) == Some(w2);
    KillLeavesLine(h, w2, r);
    AdoptOne(h, w2.(handle := NoHandle), r);
    LoseOne(h, w4, r, img);
    RunTwo(h, FRESH, ls[0], w1, ls[1], w2);
    RunTwo(h, w2, ls[2], w2.(handle := NoHandle), ls[3], w4);
    RunConcat(h, FRESH, [ls[0], ls[1]], [ls[2], ls[3]]);
    RunConcat(h, FRESH, [ls[0], ls[1]] + [ls[2], ls[3]], [ls[4]]);
    assert ls == [ls[0], ls[1]] + [ls[2], ls[3]] + [ls[4]];
    assert Run(h, w4, [ls[4]]) == Step(h, w4, ls[4]) by { assert [ls[4]][1..] == []; }
  }

  lemma FreshOpens(h: Digest)
    ensures Step(h, FRESH, OpenLog) == Some(FRESH.(handle := Idle(NO_HEAD)))
  {
  }

  lemma KillLeavesLine(h: Digest, w: World, r: Record)
    requires w.records == [r] && w.unsynced == 1 && |w.images| == 1 && w.brokenAt == None
    ensures Step(h, w, Crash(0, 0)) == Some(w.(handle := NoHandle))
  {
    assert w.images[..1] == w.images && [r][..1] == [r];
  }

  lemma AdoptOne(h: Digest, w: World, r: Record)
    requires w.records == [r] && w.unsynced == 1 && w.images == [Image(Absent, [], false)] && w.handle == NoHandle
    requires Short(r) && Chained(h, [r])
    ensures Step(h, w, Adopt(Renamed)) ==
            Some(w.(images := [Image(Present(AnchorState(r.seq_, r.hash)), [r], true)]))
  {
    hide Short, Chained, Verdict;
    assert AllShort([r]);
  }

  lemma LoseOne(h: Digest, w: World, r: Record, img: Image)
    requires w == World([r], 1, [img], NoHandle, None) && img.file.Present? && img.file.st.seq_ == 1
    ensures Step(h, w, Crash(1, 0)) == Some(World([], 0, [img], NoHandle, None))
    ensures Verdict(h, World([], 0, [img], NoHandle, None)) == Some(AnchorRefused(Truncated))
  {
    assert [img][..1] == [img] && [r][..0] == [];
  }

  lemma RunTwo(h: Digest, w: World, l1: Label, w1: World, l2: Label, w2: World)
    requires w.images != [] && w1.images != [] && Step(h, w, l1) == Some(w1) && Step(h, w1, l2) == Some(w2)
    ensures Run(h, w, [l1, l2]) == Some(w2)
  {
    hide Step;
    assert [l1, l2][1..] == [l2] && [l2][1..] == [];
    assert Run(h, w1, [l2]) == Some(w2);
  }

  // ---- counting what was appended ----

  function NetLine(l: Label): int {
    match l
    case WriteLine(op) => if op.line == NotWritten then 0 else 1
    case Crash(lost, _) => 0 - lost as int
    case _ => 0
  }

  /** Lines that landed, less those a crash lost. */
  function NetLines(ls: seq<Label>): int {
    if ls == [] then 0 else NetLine(ls[0]) + NetLines(ls[1..])
  }

  lemma {:induction false} RecordsCountLines(h: Digest, w: World, ls: seq<Label>)
    requires w.images != [] && Run(h, w, ls).Some?
    ensures |Run(h, w, ls).value.records| == |w.records| + NetLines(ls)
    decreases |ls|
  {
    hide Verdict, Reading, Finalize;
    if ls != [] {
      RecordsCountLines(h, Step(h, w, ls[0]).value, ls[1..]);
    }
  }

  lemma {:induction false} RunConcat(h: Digest, w: World, xs: seq<Label>, ys: seq<Label>)
    requires w.images != []
    ensures Run(h, w, xs + ys) ==
            if Run(h, w, xs).Some? then Run(h, Run(h, w, xs).value, ys) else None
    decreases |xs|
  {
    hide Step;
    if xs == [] {
      assert xs + ys == ys;
    } else {
      assert (xs + ys)[1..] == xs[1..] + ys;
      if Step(h, w, xs[0]).Some? { RunConcat(h, Step(h, w, xs[0]).value, xs[1..], ys); }
    }
  }

  /**
    ExcessRecords is the number of appends since the surviving anchor was
    written: from the moment it covers all records to a moment it is visible again.
  */
  lemma ExcessCountsAppends(h: Digest, before: seq<Label>, after: seq<Label>)
    requires Run(h, FRESH, before + after).Some? && Run(h, FRESH, before + after).value.brokenAt == None
    requires Run(h, FRESH, before).Some?
    requires var w1, w2 := Run(h, FRESH, before).value, Run(h, FRESH, before + after).value;
             Visible(w1).covered == w1.records && Visible(w2) == Visible(w1) && Visible(w1).file.Present?
    ensures var w2 := Run(h, FRESH, before + after).value;
            FullSnapshot(Visible(w2).file, w2.records).excessRecords ==
            if NetLines(after) > 0 then NetLines(after) else 0
  {
    RunConcat(h, FRESH, before, after);
    RecordsCountLines(h, Run(h, FRESH, before).value, after);
    CrashSafety(h, before + after);
  }

  /** What is synced is never lost or changed: every later disk starts with it. */
  lemma {:induction false} SyncedRecordsPersist(h: Digest, w: World, ls: seq<Label>)
    requires w.images != [] && 0 <= Floor(w) && Run(h, w, ls).Some?
    ensures var w' := Run(h, w, ls).value;
            Floor(w) <= Floor(w') <= |w'.records| && w'.records[..Floor(w)] == w.records[..Floor(w)]
    decreases |ls|
  {
    hide Verdict, Reading, Finalize;
    if ls != [] {
      var w1 := Step(h, w, ls[0]).value;
      SyncedRecordsPersist(h, w1, ls[1..]);
      var w' := Run(h, w, ls).value;
      assert w1.records[..Floor(w)] == w.records[..Floor(w)];
      assert w'.records[..Floor(w)] == w'.records[..Floor(w1)][..Floor(w)] == w1.records[..Floor(w)];
    }
  }

  /** A synced line over the reader's limit, which no append checks, closes the log for good. */
  lemma OversizedLineClosesLog(h: Digest, w: World, ls: seq<Label>, i: nat)
    requires w.images != [] && i < Floor(w) <= |w.records| && !Short(w.records[i]) && Run(h, w, ls).Some?
    ensures Verdict(h, Run(h, w, ls).value) == Some(LogUnreadable(LineTooLong))
  {
    SyncedRecordsPersist(h, w, ls);
    hide Run, Short;
    var w' := Run(h, w, ls).value;
    assert w'.records[i] == w'.records[..Floor(w)][i] == w.records[i];
    assert w'.records[i] in w'.records;
  }
}
