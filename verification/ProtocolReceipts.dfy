/** Audit rows as receipts: what the rows of any run say of what was done. */
module ProtocolReceipts {
  import opened Options
  import opened Blast
  import opened Records
  import opened Plans
  import opened Tokens
  import opened Protocol
  import opened ProtocolSafety

  /** Where the rows of one event stand. */
  function Positions(rows: seq<Record>, event: string): (ps: seq<nat>)
    ensures forall i | 0 <= i < |ps| :: ps[i] < |rows| && rows[ps[i]].event == event
    ensures forall i, j | 0 <= i < j < |ps| :: ps[i] < ps[j]
    ensures forall p | 0 <= p < |rows| && rows[p].event == event :: p in ps
  {
    if rows == [] then []
    else
      var n := |rows| - 1;
      var before := Positions(rows[..n], event);
      if rows[n].event == event then before + [n] else before
  }

  lemma PositionsAppend(rows: seq<Record>, r: Record, event: string)
    ensures Positions(rows + [r], event) == Positions(rows, event) + (if r.event == event then [|rows|] else [])
  {
    assert (rows + [r])[..|rows|] == rows;
  }

  /** An approve row is the one of its token's mint, an execute row the one of an attempt with its token. */
  ghost predicate RowFits(h: History, r: Record, k: Secret) {
    if r.event == EVENT_APPROVE then
      k in h.mints && r == ApproveRow(h.mints[k].s, h.mints[k].approver)
    else
      k in h.outcomes
      && exists a :: a in h.attempts && a.g.key == k && r == ExecuteRow(a.g.s, a.g.approver, a.reach, h.outcomes[k])
  }

  /** Attempts are added, and what was returned stays so. */
  ghost predicate ActsKept(h: History, h': History) {
    AttemptsKept(h, h') && forall k | k in h.outcomes :: k in h'.outcomes && h'.outcomes[k] == h.outcomes[k]
  }

  /** The rows of one event stand for these tokens, in order. */
  ghost predicate RowsFor(h: History, rows: seq<Record>, event: string, keys: seq<Secret>) {
    |Positions(rows, event)| == |keys|
      && forall i | 0 <= i < |keys| :: RowFits(h, rows[Positions(rows, event)[i]], keys[i])
  }

  ghost predicate RowsOk(s: State) {
    RowsFor(s.hist, s.rows, EVENT_APPROVE, s.hist.approveKeys)
      && RowsFor(s.hist, s.rows, EVENT_EXECUTE, s.hist.executeKeys)
  }

  lemma RowFitsGrow(h: History, h': History, r: Record, k: Secret)
    requires RowFits(h, r, k) && MintsGrow(h.mints, h'.mints) && ActsKept(h, h')
    ensures RowFits(h', r, k)
  {
    hide ApproveRow, ExecuteRow;
    if r.event != EVENT_APPROVE {
      var a :| a in h.attempts && a.g.key == k && r == ExecuteRow(a.g.s, a.g.approver, a.reach, h.outcomes[k]);
      assert a in h'.attempts;
    }
  }

  lemma RowsForGrow(h: History, h': History, rows: seq<Record>, event: string, keys: seq<Secret>)
    requires RowsFor(h, rows, event, keys) && MintsGrow(h.mints, h'.mints) && ActsKept(h, h')
    ensures RowsFor(h', rows, event, keys)
  {
    hide RowFits, MintsGrow, ActsKept;
    forall i | 0 <= i < |keys| ensures RowFits(h', rows[Positions(rows, event)[i]], keys[i]) {
      assert RowFits(h, rows[Positions(rows, event)[i]], keys[i]);
      RowFitsGrow(h, h', rows[Positions(rows, event)[i]], keys[i]);
    }
  }

  lemma RowsForOther(h: History, rows: seq<Record>, r: Record, event: string, keys: seq<Secret>)
    requires RowsFor(h, rows, event, keys) && r.event != event
    ensures RowsFor(h, rows + [r], event, keys)
  {
    hide RowFits;
    PositionsAppend(rows, r, event);
    var ps := Positions(rows, event);
    assert Positions(rows + [r], event) == ps;
    assert forall i | 0 <= i < |keys| :: (rows + [r])[ps[i]] == rows[ps[i]];
  }

  lemma RowsForNext(h: History, rows: seq<Record>, r: Record, event: string, keys: seq<Secret>, k: Secret)
    requires RowsFor(h, rows, event, keys) && r.event == event && RowFits(h, r, k)
    ensures RowsFor(h, rows + [r], event, keys + [k])
  {
    hide RowFits;
    PositionsAppend(rows, r, event);
    var ps, ps' := Positions(rows, event), Positions(rows + [r], event);
    assert ps' == ps + [|rows|];
    forall i | 0 <= i < |keys + [k]| ensures RowFits(h, (rows + [r])[ps'[i]], (keys + [k])[i]) {
      if i < |keys| { assert ps'[i] == ps[i] && RowFits(h, rows[ps[i]], keys[i]); }
    }
  }

  /** What a call submits, by where it stands. */
  lemma PendingRowFits(cfg: Config, s: State, call: Call)
    requires CallOk(cfg, s, call) && PendingRow(call).Some?
    ensures var r := PendingRow(call).value;
            && (call.ApproveMinted? <==> r.event == EVENT_APPROVE)
            && (call.ExecCompleted? <==> r.event == EVENT_EXECUTE)
            && (call.ApproveMinted? ==> RowFits(s.hist, r, call.key))
            && (call.ExecCompleted? ==> RowFits(s.hist, r, call.g.key))
  {
    hide StoredOk, Approvable, FormatID, Within, GrantOk;
    if call.ExecCompleted? {
      var a := AttemptWith(call.g, call.reach);
      assert a in s.hist.attempts && s.hist.outcomes[a.g.key] == call.outcome;
      assert PendingRow(call).value == ExecuteRow(a.g.s, a.g.approver, a.reach, call.outcome);
    }
  }

  lemma WriteRowKeepsRows(cfg: Config, s: State, c: nat, io: RowIO)
    requires Inv(cfg, s) && RowsOk(s) && StepWriteRow(s, c, io).Some?
    ensures RowsOk(StepWriteRow(s, c, io).value)
  {
    hide CallOk, RowsFor, RowFits, TokensOk, PlansOk, AttemptsOk, EventsOk, CallsApart, PendingRow, AfterRow;
    var s' := StepWriteRow(s, c, io).value;
    var call := s.calls[c];
    if io != RowLost {
      var r := PendingRow(call).value;
      PendingRowFits(cfg, s, call);
      if call.ApproveMinted? {
        RowsForNext(s.hist, s.rows, r, EVENT_APPROVE, s.hist.approveKeys, call.key);
      } else {
        RowsForOther(s.hist, s.rows, r, EVENT_APPROVE, s.hist.approveKeys);
      }
      if call.ExecCompleted? {
        RowsForNext(s.hist, s.rows, r, EVENT_EXECUTE, s.hist.executeKeys, call.g.key);
      } else {
        RowsForOther(s.hist, s.rows, r, EVENT_EXECUTE, s.hist.executeKeys);
      }
      RowsForGrow(s.hist, s'.hist, s'.rows, EVENT_APPROVE, s'.hist.approveKeys);
      RowsForGrow(s.hist, s'.hist, s'.rows, EVENT_EXECUTE, s'.hist.executeKeys);
    }
  }

  lemma StepKeepsRows(cfg: Config, s: State, l: Label)
    requires Inv(cfg, s) && RowsOk(s) && Step(cfg, s, l).Some?
    ensures RowsOk(Step(cfg, s, l).value)
  {
    if l.WriteRow? {
      WriteRowKeepsRows(cfg, s, l.c, l.io);
    } else {
      OtherStepsKeepRows(cfg, s, l);
      var s' := Step(cfg, s, l).value;
      hide Step, Inv, RowsFor;
      RowsForGrow(s.hist, s'.hist, s.rows, EVENT_APPROVE, s.hist.approveKeys);
      RowsForGrow(s.hist, s'.hist, s.rows, EVENT_EXECUTE, s.hist.executeKeys);
    }
  }

  lemma OutcomeIsNew(cfg: Config, s: State, c: nat)
    requires Inv(cfg, s)
    ensures c in s.calls && s.calls[c].ExecAttempted? ==> s.calls[c].g.key !in s.hist.outcomes
  {
    hide GrantOk, TokensOk, PlansOk, AttemptsOk, CallsApart;
    if c in s.calls { assert CallOk(cfg, s, s.calls[c]); }
  }

  /** What a step other than writing a row keeps. */
  ghost predicate SameRows(s: State, s': State) {
    s'.rows == s.rows && s'.hist.approveKeys == s.hist.approveKeys && s'.hist.executeKeys == s.hist.executeKeys
      && MintsGrow(s.hist.mints, s'.hist.mints) && ActsKept(s.hist, s'.hist)
  }

  lemma ActionReturnsKeepsRows(cfg: Config, s: State, c: nat, outcome: Option<string>, why: string)
    requires Inv(cfg, s) && StepActionReturns(s, c, outcome, why).Some?
    ensures SameRows(s, StepActionReturns(s, c, outcome, why).value)
  {
    OutcomeIsNew(cfg, s, c);
    hide Inv, RefusalOf, ActsKept, MintsGrow;
    if outcome == None {
      NothingActs(s.hist);
    } else {
      OutcomeAdded(s.hist, s.calls[c].g.key, outcome.value);
    }
  }

  lemma NothingActs(h: History)
    ensures ActsKept(h, h) && MintsGrow(h.mints, h.mints)
  {
  }

  lemma OutcomeAdded(h: History, k: Secret, outcome: string)
    requires k !in h.outcomes
    ensures var h' := h.(completions := h.completions + [k], outcomes := h.outcomes[k := outcome]);
            ActsKept(h, h') && MintsGrow(h.mints, h'.mints)
  {
  }

  lemma MintKeepsRows(cfg: Config, s: State, c: nat, random: Option<Secret>, now: int)
    requires Inv(cfg, s) && StepMint(cfg, s, c, random, now).Some?
    ensures SameRows(s, StepMint(cfg, s, c, random, now).value)
  {
    hide PlansOk, CallsOk, CallsApart, AttemptsOk, EventsOk, TokenOk;
  }

  lemma QuietStepsKeepHistory(cfg: Config, s: State, l: Label)
    requires Step(cfg, s, l).Some? && !l.WriteRow? && !l.ActionReturns? && !l.MintToken?
    ensures SameRows(s, Step(cfg, s, l).value)
  {
    hide RowOf, CheckSoD, RenderPlan, VerdictOf, FormatID, StepMint, StepActionReturns, StepWriteRow;
  }

  lemma OtherStepsKeepRows(cfg: Config, s: State, l: Label)
    requires Inv(cfg, s) && Step(cfg, s, l).Some? && !l.WriteRow?
    ensures SameRows(s, Step(cfg, s, l).value)
  {
    hide Inv, SameRows;
    if l.ActionReturns? {
      ActionReturnsKeepsRows(cfg, s, l.c, l.outcome, l.why);
    } else if l.MintToken? {
      MintKeepsRows(cfg, s, l.c, l.random, l.now);
    } else {
      QuietStepsKeepHistory(cfg, s, l);
    }
  }

  lemma {:induction false} RunKeepsRows(cfg: Config, s: State, ls: seq<Label>)
    requires Inv(cfg, s) && RowsOk(s) && Run(cfg, s, ls).Some?
    ensures RowsOk(Run(cfg, s, ls).value)
    decreases |ls|
  {
    hide Inv, Step, RowsOk;
    if ls != [] {
      StepKeepsInv(cfg, s, ls[0]);
      StepKeepsRows(cfg, s, ls[0]);
      RunKeepsRows(cfg, Step(cfg, s, ls[0]).value, ls[1..]);
    }
  }

  // ---- counting ----

  lemma {:induction false} DistinctInCount(xs: seq<Secret>, ys: set<Secret>)
    requires Distinct(xs) && forall x | x in xs :: x in ys
    ensures |xs| <= |ys|
  {
    if xs != [] {
      var n := |xs| - 1;
      var x := xs[n];
      assert x in xs;
      forall y | y in xs[..n] ensures y in ys - {x} {
        var i :| 0 <= i < n && xs[i] == y;
        assert xs[i] != xs[n];
        assert y in xs;
      }
      DistinctInCount(xs[..n], ys - {x});
    }
  }

  lemma {:induction false} ElementCount(ys: seq<Secret>)
    ensures |set y | y in ys| <= |ys|
  {
    if ys != [] {
      var n := |ys| - 1;
      ElementCount(ys[..n]);
      assert (set y | y in ys) == (set y | y in ys[..n]) + {ys[n]};
    }
  }

  lemma DistinctAllInCount(xs: seq<Secret>, ys: seq<Secret>)
    requires Distinct(xs) && AllIn(xs, ys)
    ensures |xs| <= |ys|
  {
    DistinctInCount(xs, set y | y in ys);
    ElementCount(ys);
  }

  function ConsumedTokens(s: State): set<Secret> {
    set k | k in s.tokens && s.tokens[k].consumed
  }

  // ---- presented secrets come from Approve ----

  /** What is consumed is nothing in the store, or a token Approve returned. */
  predicate PresentsReturned(cfg: Config, s: State, l: Label) {
    l.ConsumeToken? && l.c in s.calls && s.calls[l.c].ExecFound? && s.calls[l.c].req.ExecuteRequest? ==>
      var k := KeyNamed(cfg.keyOf, s.calls[l.c].req.token);
      k.Some? && k.value in s.tokens ==> k.value in s.hist.returned
  }

  ghost predicate Honest(cfg: Config, s: State, ls: seq<Label>)
    decreases |ls|
  {
    ls == [] || (PresentsReturned(cfg, s, ls[0])
                 && (Step(cfg, s, ls[0]).Some? ==> Honest(cfg, Step(cfg, s, ls[0]).value, ls[1..])))
  }

  /** Receipt j of the executions has an earlier approval of the same token. */
  predicate HasApproval(rows: seq<Record>, approveKeys: seq<Secret>, k: Secret, position: nat) {
    var ps := Positions(rows, EVENT_APPROVE);
    exists i | 0 <= i < |approveKeys| :: approveKeys[i] == k && i < |ps| && ps[i] < position
  }

  ghost predicate HonestOk(s: State) {
    && (forall k | k in ConsumedTokens(s) :: k in s.hist.returned)
    && (var ps := Positions(s.rows, EVENT_EXECUTE);
        forall j | 0 <= j < |ps| && j < |s.hist.executeKeys| ::
          HasApproval(s.rows, s.hist.approveKeys, s.hist.executeKeys[j], ps[j]))
  }

  lemma HasApprovalGrows(rows: seq<Record>, keys: seq<Secret>, k: Secret, position: nat, r: Record, keys': seq<Secret>)
    requires HasApproval(rows, keys, k, position) && keys <= keys'
    ensures HasApproval(rows + [r], keys', k, position)
  {
    PositionsAppend(rows, r, EVENT_APPROVE);
    var ps := Positions(rows, EVENT_APPROVE);
    var i :| 0 <= i < |keys| && keys[i] == k && i < |ps| && ps[i] < position;
    assert keys'[i] == k && Positions(rows + [r], EVENT_APPROVE)[i] == ps[i];
  }

  lemma ExecutionHasApproval(cfg: Config, s: State, c: nat)
    requires Inv(cfg, s) && RowsOk(s) && HonestOk(s) && c in s.calls && s.calls[c].ExecCompleted?
    ensures HasApproval(s.rows, s.hist.approveKeys, s.calls[c].g.key, |s.rows|)
  {
    hide StoredOk, TokensOk, PlansOk, AttemptsOk, CallsApart, RowFits, FormatID, Approvable;
    assert CallOk(cfg, s, s.calls[c]);
    var k := s.calls[c].g.key;
    assert k in ConsumedTokens(s);
    var i :| 0 <= i < |s.hist.approveKeys| && s.hist.approveKeys[i] == k;
    assert Positions(s.rows, EVENT_APPROVE)[i] < |s.rows|;
  }

  lemma WriteRowKeepsHonest(cfg: Config, s: State, c: nat, io: RowIO)
    requires Inv(cfg, s) && RowsOk(s) && HonestOk(s) && StepWriteRow(s, c, io).Some?
    ensures HonestOk(StepWriteRow(s, c, io).value)
  {
    hide CallOk, RowFits, TokensOk, PlansOk, AttemptsOk, EventsOk, CallsApart, PendingRow, AfterRow, HasApproval;
    var s' := StepWriteRow(s, c, io).value;
    var call := s.calls[c];
    if io != RowLost {
      var r := PendingRow(call).value;
      PendingRowFits(cfg, s, call);
      PositionsAppend(s.rows, r, EVENT_EXECUTE);
      var ps, ps' := Positions(s.rows, EVENT_EXECUTE), Positions(s'.rows, EVENT_EXECUTE);
      forall j | 0 <= j < |ps'| && j < |s'.hist.executeKeys|
        ensures HasApproval(s'.rows, s'.hist.approveKeys, s'.hist.executeKeys[j], ps'[j])
      {
        if j < |ps| {
          assert HasApproval(s.rows, s.hist.approveKeys, s.hist.executeKeys[j], ps[j]);
          HasApprovalGrows(s.rows, s.hist.approveKeys, s.hist.executeKeys[j], ps[j], r, s'.hist.approveKeys);
        } else {
          ExecutionHasApproval(cfg, s, c);
          HasApprovalGrows(s.rows, s.hist.approveKeys, call.g.key, |s.rows|, r, s'.hist.approveKeys);
        }
      }
    }
  }

  lemma ConsumeIsReturned(cfg: Config, s: State, c: nat, now: int, why: string)
    requires PresentsReturned(cfg, s, ConsumeToken(c, now, why)) && StepConsume(cfg, s, c, now, why).Some?
    ensures var s' := StepConsume(cfg, s, c, now, why).value;
            s'.hist == s.hist && forall k | k in ConsumedTokens(s') :: k in ConsumedTokens(s) || k in s.hist.returned
  {
    hide RowOf;
  }

  lemma StepConsumesNothing(cfg: Config, s: State, l: Label)
    requires Inv(cfg, s) && Step(cfg, s, l).Some? && !l.ConsumeToken? && !l.WriteRow?
    ensures var s' := Step(cfg, s, l).value;
            s'.hist.returned == s.hist.returned && ConsumedTokens(s') == ConsumedTokens(s)
  {
    hide RowOf, CheckSoD, RenderPlan, VerdictOf, FormatID, Inv;
  }

  lemma ConsumeKeepsHonest(cfg: Config, s: State, c: nat, now: int, why: string)
    requires Inv(cfg, s) && HonestOk(s) && PresentsReturned(cfg, s, ConsumeToken(c, now, why))
    requires StepConsume(cfg, s, c, now, why).Some?
    ensures HonestOk(StepConsume(cfg, s, c, now, why).value)
  {
    hide Inv, HasApproval, PresentsReturned;
    ConsumeIsReturned(cfg, s, c, now, why);
    assert StepConsume(cfg, s, c, now, why).value.rows == s.rows;
  }

  lemma OtherStepKeepsHonest(cfg: Config, s: State, l: Label)
    requires Inv(cfg, s) && HonestOk(s) && Step(cfg, s, l).Some? && !l.WriteRow? && !l.ConsumeToken?
    ensures HonestOk(Step(cfg, s, l).value)
  {
    OtherStepsKeepRows(cfg, s, l);
    StepConsumesNothing(cfg, s, l);
    hide Step, Inv, HasApproval, ConsumedTokens;
  }

  lemma StepKeepsHonest(cfg: Config, s: State, l: Label)
    requires Inv(cfg, s) && RowsOk(s) && HonestOk(s) && PresentsReturned(cfg, s, l) && Step(cfg, s, l).Some?
    ensures HonestOk(Step(cfg, s, l).value)
  {
    hide Inv, RowsOk, HonestOk, PresentsReturned;
    if l.WriteRow? {
      WriteRowKeepsHonest(cfg, s, l.c, l.io);
    } else if l.ConsumeToken? {
      ConsumeKeepsHonest(cfg, s, l.c, l.now, l.why);
    } else {
      OtherStepKeepsHonest(cfg, s, l);
    }
  }

  lemma {:induction false} RunKeepsHonest(cfg: Config, s: State, ls: seq<Label>)
    requires Inv(cfg, s) && RowsOk(s) && HonestOk(s) && Honest(cfg, s, ls) && Run(cfg, s, ls).Some?
    ensures HonestOk(Run(cfg, s, ls).value)
    decreases |ls|
  {
    hide Inv, Step, RowsOk, HonestOk, PresentsReturned;
    if ls != [] {
      StepKeepsInv(cfg, s, ls[0]);
      StepKeepsRows(cfg, s, ls[0]);
      StepKeepsHonest(cfg, s, ls[0]);
      RunKeepsHonest(cfg, Step(cfg, s, ls[0]).value, ls[1..]);
    }
  }

  // ---- the results ----

  /**
    Whatever audit writes fail and whatever is presented: successful Executes are
    at most the execute rows, these at most the completed actions, these at most
    the attempted ones, and these at most the consumed tokens; and the rows of
    approvals and executions are those of their tokens, one each.
  */
  lemma ReceiptsBoundWhatWasDone(cfg: Config, ls: seq<Label>)
    requires Run(cfg, INITIAL, ls).Some?
    ensures var s := Run(cfg, INITIAL, ls).value;
            && |s.hist.successes| <= |Positions(s.rows, EVENT_EXECUTE)|
            && |Positions(s.rows, EVENT_EXECUTE)| <= |s.hist.completions|
            && |s.hist.completions| <= |s.hist.attempts|
            && |s.hist.attempts| <= |ConsumedTokens(s)|
            && RowsOk(s)
  {
    InitialInv(cfg);
    RunKeepsInv(cfg, INITIAL, ls);
    RunKeepsRows(cfg, INITIAL, ls);
    hide Run, TokensOk, PlansOk, CallsOk, CallsApart, AttemptOk, RowFits;
    var s := Run(cfg, INITIAL, ls).value;
    DistinctAllInCount(s.hist.successes, s.hist.executeKeys);
    DistinctAllInCount(s.hist.executeKeys, s.hist.completions);
    DistinctAllInCount(s.hist.completions, s.hist.tried);
    DistinctInCount(s.hist.tried, ConsumedTokens(s));
  }

  /** The execute row at e, of token k, has an approve row of the same token before it. */
  ghost predicate HasReceipt(s: State, k: Secret, e: nat) {
    var ap := Positions(s.rows, EVENT_APPROVE);
    exists i | 0 <= i < |ap| && i < |s.hist.approveKeys| :: s.hist.approveKeys[i] == k && ReceiptFor(s.rows, ap[i], e)
  }

  /**
    When the secrets presented come only from Approve: the consumed tokens are at
    most the approve rows, and each execute row has its own earlier approve row,
    of the same token, with the same plan hash and the same approver.
  */
  lemma EachExecutionHasItsApproval(cfg: Config, ls: seq<Label>)
    requires Run(cfg, INITIAL, ls).Some? && Honest(cfg, INITIAL, ls)
    ensures var s := Run(cfg, INITIAL, ls).value;
            var ap, ex := Positions(s.rows, EVENT_APPROVE), Positions(s.rows, EVENT_EXECUTE);
            && |ConsumedTokens(s)| <= |ap|
            && |ap| == |s.hist.approveKeys| && |ex| == |s.hist.executeKeys|
            && Distinct(s.hist.executeKeys)
            && forall j | 0 <= j < |ex| :: HasReceipt(s, s.hist.executeKeys[j], ex[j])
  {
    InitialInv(cfg);
    RunKeepsInv(cfg, INITIAL, ls);
    RunKeepsRows(cfg, INITIAL, ls);
    assert ConsumedTokens(INITIAL) == {};
    RunKeepsHonest(cfg, INITIAL, ls);
    hide Run, Honest, HonestOk, TokensOk, PlansOk, CallsOk, CallsApart, AttemptsOk, RowFits, HasReceipt;
    var s := Run(cfg, INITIAL, ls).value;
    ConsumedAtMostApproved(s);
    var ex := Positions(s.rows, EVENT_EXECUTE);
    forall j | 0 <= j < |ex| ensures HasReceipt(s, s.hist.executeKeys[j], ex[j]) {
      ReceiptOfExecution(cfg, s, j);
    }
  }

  lemma ConsumedAtMostApproved(s: State)
    requires HonestOk(s) && EventsOk(s.tokens, s.hist)
    ensures |ConsumedTokens(s)| <= |s.hist.approveKeys|
  {
    SetInSeqCount(ConsumedTokens(s), s.hist.approveKeys);
  }

  lemma ReceiptOfExecution(cfg: Config, s: State, j: nat)
    requires Inv(cfg, s) && RowsOk(s) && HonestOk(s) && j < |Positions(s.rows, EVENT_EXECUTE)|
    ensures var ap, ex := Positions(s.rows, EVENT_APPROVE), Positions(s.rows, EVENT_EXECUTE);
            |ap| == |s.hist.approveKeys| && |ex| == |s.hist.executeKeys| && HasReceipt(s, s.hist.executeKeys[j], ex[j])
  {
    hide Inv, RowFits, ReceiptFor, HasReceipt;
    var ap, ex := Positions(s.rows, EVENT_APPROVE), Positions(s.rows, EVENT_EXECUTE);
    hide Positions;
    var keys := s.hist.approveKeys;
    var k := s.hist.executeKeys[j];
    assert HasApproval(s.rows, keys, k, ex[j]);
    var i :| 0 <= i < |keys| && keys[i] == k && i < |ap| && ap[i] < ex[j];
    RowsOfOneToken(cfg, s, ap[i], ex[j], k);
    ReceiptAt(s, k, ex[j], i);
  }

  lemma ReceiptAt(s: State, k: Secret, e: nat, i: nat)
    requires i < |Positions(s.rows, EVENT_APPROVE)| && i < |s.hist.approveKeys| && s.hist.approveKeys[i] == k
    requires ReceiptFor(s.rows, Positions(s.rows, EVENT_APPROVE)[i], e)
    ensures HasReceipt(s, k, e)
  {
  }

  /** The approve row and the execute row of one token agree on plan hash and approver. */
  lemma RowsOfOneToken(cfg: Config, s: State, a: nat, e: nat, k: Secret)
    requires Inv(cfg, s) && a < e < |s.rows| && s.rows[a].event == EVENT_APPROVE && s.rows[e].event == EVENT_EXECUTE
    requires RowFits(s.hist, s.rows[a], k) && RowFits(s.hist, s.rows[e], k)
    ensures ReceiptFor(s.rows, a, e)
  {
    hide Inv;
    var t := ExecutedAttempt(cfg, s, s.rows[e], k);
  }

  /** The attempt behind an execute row, and what its token was minted for. */
  lemma ExecutedAttempt(cfg: Config, s: State, row: Record, k: Secret) returns (a: Attempt)
    requires Inv(cfg, s) && row.event == EVENT_EXECUTE && RowFits(s.hist, row, k)
    ensures a in s.hist.attempts && a.g.key == k && k in s.hist.outcomes
    ensures row == ExecuteRow(a.g.s, a.g.approver, a.reach, s.hist.outcomes[k])
    ensures a.action == a.g.s.plan.action && a.params == a.g.s.plan.params
    ensures k in s.hist.mints && a.g.approver == s.hist.mints[k].approver
    ensures a.g.s.plan.planHash == s.hist.mints[k].s.plan.planHash
    ensures CheckSoD(cfg.fold, s.hist.mints[k].s.proposer, s.hist.mints[k].approver, s.hist.mints[k].human) == None
  {
    hide StoredOk, PlansOk, EventsOk, CallsOk, CallsApart, Within, CheckSoD, ExecuteRow;
    a :| a in s.hist.attempts && a.g.key == k && row == ExecuteRow(a.g.s, a.g.approver, a.reach, s.hist.outcomes[k]);
    var i :| 0 <= i < |s.hist.attempts| && s.hist.attempts[i] == a;
    assert AttemptOk(cfg, s.tokens, s.hist.attempts[i]);
    assert TokenOk(cfg, s.tokens[k], s.hist.mints[k]);
  }

  /**
    Which execution an execute row is of, for every run: each names an attempt
    with its token, the plan run with the live reach, that plan's proposer, and
    the approver of the token.
  */
  lemma ExecuteRowsNameTheirAttempts(cfg: Config, ls: seq<Label>)
    requires Run(cfg, INITIAL, ls).Some?
    ensures var s := Run(cfg, INITIAL, ls).value;
            var ex := Positions(s.rows, EVENT_EXECUTE);
            && |ex| == |s.hist.executeKeys| && Distinct(s.hist.executeKeys)
            && forall j | 0 <= j < |ex| :: NamesAttempt(s.hist, s.rows[ex[j]], s.hist.executeKeys[j])
  {
    InitialInv(cfg);
    RunKeepsInv(cfg, INITIAL, ls);
    RunKeepsRows(cfg, INITIAL, ls);
    assert Distinct(Run(cfg, INITIAL, ls).value.hist.executeKeys);
    hide Run, Inv, RowFits, NamesAttempt;
    var s := Run(cfg, INITIAL, ls).value;
    var ex := Positions(s.rows, EVENT_EXECUTE);
    forall j | 0 <= j < |ex| ensures NamesAttempt(s.hist, s.rows[ex[j]], s.hist.executeKeys[j]) {
      AttemptNamed(cfg, s, s.rows[ex[j]], s.hist.executeKeys[j]);
    }
  }

  /** The row says what was run, on which live reach, for whom, and what came of it. */
  ghost predicate NamesAttempt(h: History, row: Record, k: Secret) {
    k in h.mints && k in h.outcomes
      && exists a :: a in h.attempts && a.g.key == k && row.action == a.action && row.params == a.params
                     && RowSays(row, "execute", "ALLOW", a.g.s.plan, a.reach, a.g.s.proposer, h.mints[k].approver,
                                h.outcomes[k])
  }

  lemma AttemptNamed(cfg: Config, s: State, row: Record, k: Secret)
    requires Inv(cfg, s) && row.event == EVENT_EXECUTE && RowFits(s.hist, row, k)
    ensures NamesAttempt(s.hist, row, k)
  {
    hide Inv, RowFits;
    var a := ExecutedAttempt(cfg, s, row, k);
    RowsSayWhatTheyShould(a.g.s.plan, a.g.s, a.g.s.proposer, a.g.approver, a.reach, s.hist.outcomes[k]);
    hide ExecuteRow;
    assert row.action == a.action && row.params == a.params;
  }

  /** So do the approve rows: the plan and the pair their token was minted for. */
  lemma ApproveRowsNameTheirMints(cfg: Config, ls: seq<Label>)
    requires Run(cfg, INITIAL, ls).Some?
    ensures var s := Run(cfg, INITIAL, ls).value;
            var ap := Positions(s.rows, EVENT_APPROVE);
            && |ap| == |s.hist.approveKeys|
            && forall j | 0 <= j < |ap| ::
                 var k := s.hist.approveKeys[j];
                 k in s.hist.mints && NamesMint(s.rows[ap[j]], s.hist.mints[k])
  {
    InitialInv(cfg);
    RunKeepsInv(cfg, INITIAL, ls);
    RunKeepsRows(cfg, INITIAL, ls);
    hide Run, Inv, ApproveRow, ExecuteRow, NamesMint;
    var s := Run(cfg, INITIAL, ls).value;
    var ap := Positions(s.rows, EVENT_APPROVE);
    forall j | 0 <= j < |ap|
      ensures s.hist.approveKeys[j] in s.hist.mints
      ensures NamesMint(s.rows[ap[j]], s.hist.mints[s.hist.approveKeys[j]])
    {
      assert RowFits(s.hist, s.rows[ap[j]], s.hist.approveKeys[j]);
      var m := s.hist.mints[s.hist.approveKeys[j]];
      RowsSayWhatTheyShould(m.s.plan, m.s, m.s.proposer, m.approver, m.s.plan.reach, "");
    }
  }

  ghost predicate NamesMint(row: Record, m: MintEvent) {
    RowSays(row, "approve", "ALLOW", m.s.plan, m.s.plan.reach, m.s.proposer, m.approver, "token minted")
  }

  /**
    Separation of duties on an execute row is not what Approve checked: the row
    names the proposer of the plan that was run. It holds of the row exactly when
    the token's approver and that proposer are not one person, and always when
    the plan run was proposed by whom the approved one was.
  */
  lemma ExecuteRowDutiesIff(cfg: Config, ls: seq<Label>)
    requires Run(cfg, INITIAL, ls).Some?
    ensures var s := Run(cfg, INITIAL, ls).value;
            var ex := Positions(s.rows, EVENT_EXECUTE);
            && |ex| == |s.hist.executeKeys|
            && forall j | 0 <= j < |ex| :: DutiesOfRow(cfg, s.hist, s.rows[ex[j]], s.hist.executeKeys[j])
  {
    InitialInv(cfg);
    RunKeepsInv(cfg, INITIAL, ls);
    RunKeepsRows(cfg, INITIAL, ls);
    hide Run, Inv, RowFits, DutiesOfRow;
    var s := Run(cfg, INITIAL, ls).value;
    var ex := Positions(s.rows, EVENT_EXECUTE);
    forall j | 0 <= j < |ex| ensures DutiesOfRow(cfg, s.hist, s.rows[ex[j]], s.hist.executeKeys[j]) {
      RowDuties(cfg, s, s.rows[ex[j]], s.hist.executeKeys[j]);
    }
  }

  predicate SamePerson(fold: char -> char, a: string, b: string) { EqualFold(fold, TrimSpace(a), TrimSpace(b)) }

  /** Of the attempt behind a row: the stored plan it ran, and the mint of the token it used. */
  ghost predicate DutiesOfRow(cfg: Config, h: History, row: Record, k: Secret) {
    k in h.mints
      && exists a :: a in h.attempts && a.g.key == k && row.proposer == a.g.s.proposer
                     && DutiesAsRun(cfg, row, h.mints[k], a.g.s)
  }

  ghost predicate DutiesAsRun(cfg: Config, row: Record, m: MintEvent, ran: Stored) {
    var kept := CheckSoD(cfg.fold, row.proposer, row.approver, m.human) == None;
    && (kept <==> !SamePerson(cfg.fold, m.approver, ran.proposer))
    && (ran.proposer == m.s.proposer ==> kept)
  }

  lemma RowDuties(cfg: Config, s: State, row: Record, k: Secret)
    requires Inv(cfg, s) && row.event == EVENT_EXECUTE && RowFits(s.hist, row, k)
    ensures DutiesOfRow(cfg, s.hist, row, k)
  {
    hide Inv, RowFits;
    var a := ExecutedAttempt(cfg, s, row, k);
    DutiesByPair(cfg, row, s.hist.mints[k], a);
  }

  lemma DutiesByPair(cfg: Config, row: Record, m: MintEvent, a: Attempt)
    requires row.proposer == a.g.s.proposer && row.approver == m.approver
    requires CheckSoD(cfg.fold, m.s.proposer, m.approver, m.human) == None
    ensures DutiesAsRun(cfg, row, m, a.g.s)
  {
    hide TrimSpace, EqualFold;
  }

  predicate ReceiptFor(rows: seq<Record>, a: nat, e: nat) {
    a < e < |rows| && rows[a].event == EVENT_APPROVE && rows[e].event == EVENT_EXECUTE
      && rows[a].planHash == rows[e].planHash && rows[a].approver == rows[e].approver
  }

  lemma SetInSeqCount(xs: set<Secret>, ys: seq<Secret>)
    requires forall x | x in xs :: x in ys
    ensures |xs| <= |ys|
  {
    ElementCount(ys);
    SubsetCount(xs, set y | y in ys);
  }

  lemma {:induction false} SubsetCount(xs: set<Secret>, ys: set<Secret>)
    requires xs <= ys
    ensures |xs| <= |ys|
  {
    if xs != {} {
      var x :| x in xs;
      SubsetCount(xs - {x}, ys - {x});
    }
  }
}
