/** Cursor pagination over the audit log (internal/api/api.go, handleAudit). */
module Pagination {
  import opened Options
  import opened Records
  import opened Chain
  import opened Arithmetic

  const DEFAULT_AUDIT_LIMIT: int := 100
  const MAX_AUDIT_LIMIT: int := 1000

  datatype Page = Page(records: seq<Record>, nextSince: uint64)
  datatype Response = BadRequest | InternalError | Served(page: Page)

  predicate ValidEvent(e: string) {
    e == EVENT_PLAN || e == EVENT_APPROVE || e == EVENT_REFUSE || e == EVENT_EXECUTE || e == EVENT_BREAK_GLASS
  }

  predicate Matches(r: Record, since: uint64, event: string) {
    r.seq_ > since && (event == "" || r.event == event)
  }

  function Filter(rs: seq<Record>, since: uint64, event: string): seq<Record> {
    if rs == [] then []
    else (if Matches(rs[0], since, event) then [rs[0]] else []) + Filter(rs[1..], since, event)
  }

  /** The first `limit` matches, and where to resume when there are more. */
  function PageOf(rs: seq<Record>, since: uint64, event: string, limit: nat): Page
    requires limit > 0
  {
    var all := Filter(rs, since, event);
    if |all| <= limit then Page(all, 0) else Page(all[..limit], all[limit - 1].seq_)
  }

  function EffectiveLimit(limit: Option<int>): int {
    var n := if limit == None then DEFAULT_AUDIT_LIMIT else limit.value;
    if n > MAX_AUDIT_LIMIT then MAX_AUDIT_LIMIT else n
  }

  /** `since` and `limit` come parsed; a missing log stands for an unreadable one. */
  method HandleAudit(all: Option<seq<Record>>, since: uint64, event: string, limit: Option<int>)
    returns (resp: Response)
    ensures resp.BadRequest? <==>
            || event !in ["", "plan", "approve", "refuse", "execute", "break_glass"]
            || (limit.Some? && limit.value < 1)
    ensures resp.InternalError? <==> !resp.BadRequest? && all == None
    ensures resp.Served? ==> resp.page == PageOf(all.value, since, event, EffectiveLimit(limit))
    ensures resp.Served? ==>
              ServesFirst(all.value, since, event,
                          if limit == None then 100 else if limit.value < 1000 then limit.value else 1000, resp.page)
  {
    hide ServesFirst, PageOf;
    if event != "" && !ValidEvent(event) {
      return BadRequest;
    }
    var n := DEFAULT_AUDIT_LIMIT;
    if limit.Some? {
      if limit.value < 1 {
        return BadRequest;
      }
      n := limit.value;
    }
    if n > MAX_AUDIT_LIMIT {
      n := MAX_AUDIT_LIMIT;
    }
    if all == None {
      return InternalError;
    }
    var page := CollectPage(all.value, since, event, n);
    PageServesFirst(all.value, since, event, n);
    return Served(page);
  }

  // ---- what a page is, told by places in the log ----

  /** Asked for: past the cursor and, where one is named, of the event. */
  ghost predicate Wanted(r: Record, since: uint64, event: string) {
    r.seq_ > since && (event == "" || r.event == event)
  }

  /** The places of the wanted records, in order. */
  ghost function Places(rs: seq<Record>, since: uint64, event: string): (ps: seq<nat>)
    ensures forall k | 0 <= k < |ps| :: ps[k] < |rs| && Wanted(rs[ps[k]], since, event)
    ensures forall j, k | 0 <= j < k < |ps| :: ps[j] < ps[k]
    ensures forall p | 0 <= p < |rs| && Wanted(rs[p], since, event) :: p in ps
  {
    if rs == [] then []
    else
      var n := |rs| - 1;
      var before := Places(rs[..n], since, event);
      if Wanted(rs[n], since, event) then before + [n] else before
  }

  lemma {:induction false} FilterPlaces(rs: seq<Record>, since: uint64, event: string)
    ensures var f, ps := Filter(rs, since, event), Places(rs, since, event);
            |f| == |ps| && forall k | 0 <= k < |ps| :: f[k] == rs[ps[k]]
  {
    if rs != [] {
      var n := |rs| - 1;
      FilterPlaces(rs[..n], since, event);
      FilterConcat(rs[..n], [rs[n]], since, event);
      assert rs == rs[..n] + [rs[n]];
      FilterOne(rs[n], since, event);
      hide Filter, Wanted;
      var f, before := Filter(rs[..n], since, event), Places(rs[..n], since, event);
      assert forall k | 0 <= k < |before| :: rs[before[k]] == rs[..n][before[k]];
    }
  }

  lemma FilterOne(r: Record, since: uint64, event: string)
    ensures Filter([r], since, event) == if Wanted(r, since, event) then [r] else []
  {
    assert Filter([r][1..], since, event) == [];
  }

  /**
    The page holds, in log order, the first `limit` wanted records, all of them if
    there are no more; the cursor is the last one's number exactly when a further
    one is wanted, and else 0.
  */
  ghost predicate ServesFirst(rs: seq<Record>, since: uint64, event: string, limit: nat, page: Page) {
    var ps := Places(rs, since, event);
    && |page.records| == (if |ps| < limit then |ps| else limit)
    && (forall k | 0 <= k < |page.records| :: page.records[k] == rs[ps[k]])
    && (|ps| <= limit ==> page.nextSince == 0)
    && (0 < limit < |ps| ==> page.nextSince == rs[ps[limit - 1]].seq_)
  }

  lemma PageServesFirst(rs: seq<Record>, since: uint64, event: string, limit: nat)
    requires limit > 0
    ensures ServesFirst(rs, since, event, limit, PageOf(rs, since, event, limit))
  {
    FilterPlaces(rs, since, event);
    hide Filter, Places;
  }

  method CollectPage(rs: seq<Record>, since: uint64, event: string, limit: nat) returns (page: Page)
    requires limit > 0
    ensures page == PageOf(rs, since, event, limit)
  {
    var out: seq<Record> := [];
    for i := 0 to |rs|
      invariant |out| <= limit && out == Filter(rs[..i], since, event)
    {
      var rec := rs[i];
      FilterPrefix(rs, i, since, event);
      assert rs[..i + 1] == rs[..i] + [rec];
      FilterConcat(rs[..i], [rec], since, event);
      if rec.seq_ <= since {
        continue;
      }
      if event != "" && rec.event != event {
        continue;
      }
      if |out| == limit {
        assert rs[i..][0] == rec;
        return Page(out, out[|out| - 1].seq_);
      }
      out := out + [rec];
    }
    assert rs[..|rs|] == rs;
    return Page(out, 0);
  }

  lemma {:induction false} FilterConcat(xs: seq<Record>, ys: seq<Record>, since: uint64, event: string)
    ensures Filter(xs + ys, since, event) == Filter(xs, since, event) + Filter(ys, since, event)
  {
    if xs == [] {
      assert xs + ys == ys;
    } else {
      hide Matches;
      var zs := xs + ys;
      var first := if Matches(xs[0], since, event) then [xs[0]] else [];
      assert zs[0] == xs[0] && zs[1..] == xs[1..] + ys;
      FilterConcat(xs[1..], ys, since, event);
      assert first + (Filter(xs[1..], since, event) + Filter(ys, since, event))
          == (first + Filter(xs[1..], since, event)) + Filter(ys, since, event);
    }
  }

  lemma FilterPrefix(rs: seq<Record>, i: nat, since: uint64, event: string)
    requires i <= |rs|
    ensures Filter(rs, since, event) == Filter(rs[..i], since, event) + Filter(rs[i..], since, event)
  {
    FilterConcat(rs[..i], rs[i..], since, event);
    assert rs == rs[..i] + rs[i..];
  }

  // ---- following next_since ----

  /** Numbered strictly upward, all above n. */
  predicate Above(rs: seq<Record>, n: uint64) {
    rs == [] || (rs[0].seq_ > n && Above(rs[1..], rs[0].seq_))
  }

  /** What every log Append wrote is. */
  predicate Ascending(rs: seq<Record>) { Above(rs, 0) }

  lemma GenuineIsAscending(h: Digest, rs: seq<Record>)
    requires Genuine(h, rs)
    ensures Ascending(rs)
  {
    CountingIsAbove(rs, 0);
  }

  lemma {:induction false} CountingIsAbove(rs: seq<Record>, n: uint64)
    requires n + |rs| < TWO_TO_THE_64 && forall i | 0 <= i < |rs| :: rs[i].seq_ == n + i + 1
    ensures Above(rs, n)
  {
    if rs != [] {
      CountingIsAbove(rs[1..], n + 1);
    }
  }

  /** Each fetch sees the log of its moment; a later log extends an earlier one. */
  predicate Growing(logs: seq<seq<Record>>) {
    forall i | 0 <= i && i + 1 < |logs| :: logs[i] <= logs[i + 1]
  }

  /** What a reader collects who follows the cursor through these logs until it is 0. */
  datatype Walk = Walk(collected: seq<Record>, pages: nat, finished: bool)

  function Follow(logs: seq<seq<Record>>, since: uint64, event: string, limit: nat): Walk
    requires limit > 0
  {
    if logs == [] then Walk([], 0, false)
    else
      var p := PageOf(logs[0], since, event, limit);
      if p.nextSince == 0 then Walk(p.records, 1, true)
      else
        var w := Follow(logs[1..], p.nextSince, event, limit);
        Walk(p.records + w.collected, 1 + w.pages, w.finished)
  }

  lemma {:induction false} AboveAt(rs: seq<Record>, n: uint64, i: nat)
    requires Above(rs, n) && i < |rs|
    ensures rs[i].seq_ > n && forall j | i < j < |rs| :: rs[j].seq_ > rs[i].seq_
  {
    if i == 0 {
      forall j | 0 < j < |rs| ensures rs[j].seq_ > rs[0].seq_ {
        AboveAt(rs[1..], rs[0].seq_, j - 1);
      }
    } else {
      AboveAt(rs[1..], rs[0].seq_, i - 1);
      forall j | i < j < |rs| ensures rs[j].seq_ > rs[i].seq_ {
        assert rs[1..][j - 1] == rs[j];
      }
    }
  }

  lemma {:induction false} AboveLower(rs: seq<Record>, n: uint64, m: uint64)
    requires Above(rs, n) && m <= n
    ensures Above(rs, m)
  {
  }

  lemma {:induction false} FilterAbove(rs: seq<Record>, n: uint64, since: uint64, event: string)
    requires Above(rs, n)
    ensures Above(Filter(rs, since, event), if n < since then since else n)
  {
    if rs != [] {
      FilterAbove(rs[1..], rs[0].seq_, since, event);
      var g := Filter(rs[1..], since, event);
      if Matches(rs[0], since, event) {
        assert Filter(rs, since, event)[1..] == g;
      } else {
        assert Filter(rs, since, event) == g;
        if rs[0].seq_ > since { AboveLower(g, rs[0].seq_, if n < since then since else n); }
      }
    }
  }

  /** The filter holds exactly the wanted records, numbered upward, so each once. */
  lemma {:induction false} FilterIsTheMatches(rs: seq<Record>, since: uint64, event: string)
    requires Ascending(rs)
    ensures Above(Filter(rs, since, event), since)
    ensures var f := Filter(rs, since, event); forall i, j | 0 <= i < j < |f| :: since < f[i].seq_ < f[j].seq_
    ensures forall r :: r in Filter(rs, since, event) <==>
              r in rs && r.seq_ > since && (event == "" || r.event == event)
  {
    hide Filter;
    FilterAbove(rs, 0, since, event);
    FilterMembers(rs, since, event);
    var f := Filter(rs, since, event);
    forall i, j | 0 <= i < j < |f| ensures since < f[i].seq_ < f[j].seq_ {
      AboveAt(f, since, i);
    }
  }

  lemma {:induction false} FilterMembers(rs: seq<Record>, since: uint64, event: string)
    ensures forall r :: r in Filter(rs, since, event) <==> r in rs && Matches(r, since, event)
  {
    if rs != [] {
      FilterMembers(rs[1..], since, event);
      assert forall r :: r in rs <==> r == rs[0] || r in rs[1..];
    }
  }

  /** Resuming after the k-th match gives the matches after the k-th. */
  lemma {:induction false} FilterResumes(rs: seq<Record>, n: uint64, since: uint64, event: string, k: nat)
    requires Above(rs, n) && 0 < k <= |Filter(rs, since, event)|
    ensures var f := Filter(rs, since, event);
            f[k - 1].seq_ > since && f[k - 1].seq_ > n && Filter(rs, f[k - 1].seq_, event) == f[k..]
  {
    var f := Filter(rs, since, event);
    var g := Filter(rs[1..], since, event);
    if !Matches(rs[0], since, event) {
      assert f == g;
      FilterResumes(rs[1..], rs[0].seq_, since, event, k);
    } else {
      assert f == [rs[0]] + g;
      if k > 1 {
        FilterResumes(rs[1..], rs[0].seq_, since, event, k - 1);
        assert f[k - 1] == g[k - 2] && f[k..] == g[k - 1..];
      } else {
        RaiseSince(rs[1..], rs[0].seq_, since, event);
        assert f[1..] == g;
      }
    }
  }

  lemma {:induction false} RaiseSince(rs: seq<Record>, cut: uint64, since: uint64, event: string)
    requires since <= cut && Above(rs, cut)
    ensures Filter(rs, since, event) == Filter(rs, cut, event)
  {
    if rs != [] {
      AboveLower(rs[1..], rs[0].seq_, cut);
      RaiseSince(rs[1..], cut, since, event);
    }
  }

  lemma FilterOfExtension(xs: seq<Record>, ys: seq<Record>, since: uint64, event: string)
    requires xs <= ys
    ensures Filter(xs, since, event) <= Filter(ys, since, event)
  {
    FilterPrefix(ys, |xs|, since, event);
    assert ys[..|xs|] == xs;
  }

  /** A page that is not the last, and what is left to collect of any later log. */
  lemma PageThenRest(log: seq<Record>, later: seq<Record>, since: uint64, event: string, limit: nat)
    requires limit > 0 && log <= later && Ascending(log) && Ascending(later)
    requires |Filter(log, since, event)| > limit
    ensures var p := PageOf(log, since, event, limit);
            p.nextSince > 0 && Filter(later, since, event) == p.records + Filter(later, p.nextSince, event)
  {
    FilterOfExtension(log, later, since, event);
    var f, g := Filter(log, since, event), Filter(later, since, event);
    assert g[..limit] == f[..limit] && g[limit - 1] == f[limit - 1];
    FilterResumes(later, 0, since, event, limit);
    assert g == g[..limit] + g[limit..];
  }

  lemma GrowingTail(logs: seq<seq<Record>>)
    requires Growing(logs) && logs != []
    ensures Growing(logs[1..])
  {
    forall i | 0 <= i && i + 1 < |logs[1..]| ensures logs[1..][i] <= logs[1..][i + 1] {
      assert logs[i + 1] <= logs[i + 1 + 1];
    }
  }

  /**
    Over a log that may grow between fetches, a walk that ends has collected
    exactly the matches of the log its last page saw; until then it holds a prefix.
  */
  lemma {:induction false} WalkCollectsLastLog(logs: seq<seq<Record>>, since: uint64, event: string, limit: nat)
    requires limit > 0 && Growing(logs) && forall l | l in logs :: Ascending(l)
    ensures var w := Follow(logs, since, event, limit);
            && w.pages <= |logs|
            && (w.finished ==> w.pages > 0 && w.collected == Filter(logs[w.pages - 1], since, event))
            && (!w.finished ==> w.pages == |logs|)
            && (w.pages > 0 ==> w.collected <= Filter(logs[w.pages - 1], since, event))
  {
    if logs != [] {
      var log := logs[0];
      assert log in logs;
      if |Filter(log, since, event)| > limit {
        PageThenRest(log, log, since, event, limit);
        GrowingTail(logs);
        var p := PageOf(log, since, event, limit);
        WalkCollectsLastLog(logs[1..], p.nextSince, event, limit);
        var w := Follow(logs[1..], p.nextSince, event, limit);
        if w.pages > 0 {
          PrefixOfLater(logs, w.pages);
          assert logs[w.pages] in logs && logs[1..][w.pages - 1] == logs[w.pages];
          PageThenRest(log, logs[w.pages], since, event, limit);
        } else {
          PageIsPrefix(log, since, event, limit);
        }
      } else {
        LastPage(log, since, event, limit);
      }
    }
  }

  lemma PageIsPrefix(log: seq<Record>, since: uint64, event: string, limit: nat)
    requires limit > 0
    ensures PageOf(log, since, event, limit).records <= Filter(log, since, event)
  {
  }

  lemma LastPage(log: seq<Record>, since: uint64, event: string, limit: nat)
    requires limit > 0 && |Filter(log, since, event)| <= limit
    ensures PageOf(log, since, event, limit) == Page(Filter(log, since, event), 0)
  {
  }

  lemma {:induction false} PrefixOfLater(logs: seq<seq<Record>>, i: nat)
    requires Growing(logs) && i < |logs|
    ensures logs[0] <= logs[i]
  {
    if i > 0 {
      PrefixOfLater(logs, i - 1);
      assert logs[i - 1] <= logs[i - 1 + 1];
    }
  }

  function PagesNeeded(matches: nat, limit: nat): nat
    requires limit > 0
  {
    if matches == 0 then 1 else (matches + limit - 1) / limit
  }

  /** Over a fixed log the walk ends in exactly that many pages, never fewer, never more. */
  lemma {:induction false} WalkPagesExact(log: seq<Record>, times: nat, since: uint64, event: string, limit: nat)
    requires limit > 0 && Ascending(log)
    ensures var w := Follow(seq(times, _ => log), since, event, limit);
            var need := PagesNeeded(|Filter(log, since, event)|, limit);
            if times >= need then w.finished && w.pages == need && w.collected == Filter(log, since, event)
            else !w.finished && w.pages == times
  {
    hide Filter, PagesNeeded;
    var logs := seq(times, _ => log);
    var m := |Filter(log, since, event)|;
    PagesAreCeiling(m, limit);
    if times > 0 && m > limit {
      PageThenRest(log, log, since, event, limit);
      assert logs[1..] == seq(times - 1, _ => log);
      var p := PageOf(log, since, event, limit);
      WalkPagesExact(log, times - 1, p.nextSince, event, limit);
      OnePageLess(m, limit);
    }
  }

  lemma PagesAreCeiling(m: nat, limit: nat)
    requires limit > 0
    ensures PagesNeeded(m, limit) >= 1 && (PagesNeeded(m, limit) == 1 <==> m <= limit)
  {
    if m > 0 {
      var q := (m + limit - 1) / limit;
      assert m + limit - 1 == q * limit + (m + limit - 1) % limit;
      MulOrder(1, q, limit);
      MulOrder(q, 1, limit);
      MulOrder(0, q, limit);
    }
  }

  lemma OnePageLess(m: nat, limit: nat)
    requires 0 < limit < m
    ensures PagesNeeded(m, limit) == 1 + PagesNeeded(m - limit, limit)
  {
    var q := (m - limit + limit - 1) / limit;
    assert (q + 1) * limit == q * limit + limit;
    assert m - 1 == q * limit + (m - 1) % limit;
    QuotientIs(m + limit - 1, limit, q + 1);
  }
}
