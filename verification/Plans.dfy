/**
  Plans, their hash, separation of duties and identifiers
  (internal/approve, internal/engine).
*/
module Plans {
  import opened Options
  import opened Json
  import opened StringMaps
  import opened Blast
  import opened Chain

  datatype Plan = Plan(
    planID: string, action: string, backend: string, project: string, params: Params, target: string,
    bound: DeclaredBound, reach: Reach, enforcement: Enforcement, verdict: Verdict, withinBound: bool,
    planHash: string, createdAt: int, expiresAt: int)

  predicate Executable(p: Plan) { p.withinBound && p.verdict != BLOCK }

  // ---- what a token is bound to ----

  function CanonicalParams(p: Params): Params {
    if p.Nil? then Entries(map[]) else p
  }

  method CopyCanonically(p: Params) returns (out: Params)
    ensures out == CanonicalParams(p)
    ensures out.Entries? && out.m == if p.Nil? then map[] else p.m
  {
    if p.Nil? {
      return Entries(map[]);
    }
    var keys := SortedKeys(p.m.Keys);
    var copy := CopyEntries(keys, p.m);
    return Entries(copy);
  }

  method CopyEntries(keys: seq<string>, m: map<string, string>) returns (copy: map<string, string>)
    requires forall k :: k in keys <==> k in m
    ensures copy == m
  {
    copy := map[];
    for i := 0 to |keys|
      invariant forall k | k in copy :: k in m && copy[k] == m[k]
      invariant forall j | 0 <= j < i :: keys[j] in copy
    {
      copy := copy[keys[i] := m[keys[i]]];
    }
    assert forall k | k in m :: k in keys;
  }

  function TupleJson(p: Plan): Value {
    Object(
      Field("action", Text(p.action),
      Field("backend", Text(p.backend),
      Field("project", Text(p.project),
      Field("params", MapJson(CanonicalParams(p.params)),
      Field("declared_bound", BoundJson(p.bound),
      Field("computed_reach", ReachJson(p.reach),
      Field("target", Text(p.target), End))))))))
  }

  /** Each field of the hash tuple stands under its own name. */
  lemma TupleFieldsNamed(p: Plan)
    ensures var fs := TupleJson(p).fields;
            && FieldOf(fs, "action") == Some(Text(p.action))
            && FieldOf(fs, "backend") == Some(Text(p.backend))
            && FieldOf(fs, "project") == Some(Text(p.project))
            && FieldOf(fs, "params") == Some(MapJson(if p.params.Nil? then Entries(map[]) else p.params))
            && FieldOf(fs, "declared_bound") == Some(BoundJson(p.bound))
            && FieldOf(fs, "computed_reach") == Some(ReachJson(p.reach))
            && FieldOf(fs, "target") == Some(Text(p.target))
  {
    hide MapJson, BoundJson, ReachJson, FieldOf;
    var fs := TupleJson(p).fields;
    var f4 := fs.rest.rest.rest.rest;
    TwoFields(fs);
    TwoFields(fs.rest.rest);
    TwoFields(f4);
    LastField(f4.rest.rest);
  }

  function PlanPayload(p: Plan): string { Marshal(TupleJson(p)) }

  function PlanHash(h: Digest, p: Plan): string { h(PlanPayload(p)) }

  /** The seven fields of the hash tuple agree; nil and empty params are the same params. */
  predicate SameContent(p: Plan, q: Plan) {
    p.action == q.action && p.backend == q.backend && p.project == q.project
      && CanonicalParams(p.params) == CanonicalParams(q.params)
      && p.bound == q.bound && p.reach == q.reach && p.target == q.target
  }

  predicate PlansCollide(h: Digest, p: Plan, q: Plan) {
    PlanPayload(p) != PlanPayload(q) && PlanHash(h, p) == PlanHash(h, q)
  }

  lemma BoundAndReachJsonInjective(b: DeclaredBound, b': DeclaredBound, r: Reach, r': Reach)
    ensures BoundJson(b) == BoundJson(b') ==> b == b'
    ensures ReachJson(r) == ReachJson(r') ==> r == r'
  {
    BoundRoundTrip(b);
    BoundRoundTrip(b');
    ReachRoundTrip(r);
    ReachRoundTrip(r');
  }

  /** The plan hash covers exactly the seven fields: equal hashes are equal contents, or a collision. */
  lemma PlanHashPinsContent(h: Digest, p: Plan, q: Plan)
    ensures SameContent(p, q) ==> PlanHash(h, p) == PlanHash(h, q)
    ensures PlanHash(h, p) == PlanHash(h, q) ==> SameContent(p, q) || PlansCollide(h, p, q)
    ensures SameContent(p, q) <==>
            && p.action == q.action && p.backend == q.backend && p.project == q.project
            && (p.params == q.params || (p.params in {Nil, Entries(map[])} && q.params in {Nil, Entries(map[])}))
            && p.bound == q.bound && p.reach == q.reach && p.target == q.target
  {
    if PlanPayload(p) == PlanPayload(q) {
      MarshalInjective(TupleJson(p), TupleJson(q));
      MapRoundTrip(CanonicalParams(p.params));
      MapRoundTrip(CanonicalParams(q.params));
      BoundAndReachJsonInjective(p.bound, q.bound, p.reach, q.reach);
    }
  }

  // ---- separation of duties ----

  datatype SoDError = NotHuman | SelfApproval

  /** unicode.IsSpace, which strings.TrimSpace uses. */
  predicate IsSpace(c: char) {
    '\t' <= c <= '\r' || c == ' ' || c == '\U{85}' || c == '\U{A0}' || c == '\U{1680}'
      || '\U{2000}' <= c <= '\U{200A}' || c == '\U{2028}' || c == '\U{2029}' || c == '\U{202F}'
      || c == '\U{205F}' || c == '\U{3000}'
  }

  /** By code: the six of ASCII, next line, no-break space, and the space separators of Unicode. */
  lemma SpaceCodes(c: char)
    ensures IsSpace(c) <==>
            var n := c as nat;
            n in {9, 10, 11, 12, 13, 32, 133, 160, 5760, 8232, 8233, 8239, 8287, 12288} || 8192 <= n <= 8202
  {
  }

  function TrimLeft(s: string): string {
    if s != "" && IsSpace(s[0]) then TrimLeft(s[1..]) else s
  }

  function TrimRight(s: string): string {
    if s != "" && IsSpace(s[|s| - 1]) then TrimRight(s[..|s| - 1]) else s
  }

  function TrimSpace(s: string): string { TrimRight(TrimLeft(s)) }

  /** strings.EqualFold; `fold` takes a character to the representative of its simple case folding. */
  predicate EqualFold(fold: char -> char, s: string, t: string) {
    |s| == |t| && forall i | 0 <= i < |s| :: fold(s[i]) == fold(t[i])
  }

  function CheckSoD(fold: char -> char, proposer: string, approver: string, approverIsHuman: bool): Option<SoDError> {
    if !approverIsHuman then Some(NotHuman)
    else if TrimSpace(approver) == "" then Some(NotHuman)
    else if EqualFold(fold, TrimSpace(approver), TrimSpace(proposer)) then Some(SelfApproval)
    else None
  }

  predicate AllSpace(s: string) { forall c | c in s :: IsSpace(c) }

  /** Trimming takes white space off both ends, all of it and nothing else. */
  lemma TrimSpaceSplits(s: string) returns (pre: string, post: string)
    ensures AllSpace(pre) && AllSpace(post) && s == pre + TrimSpace(s) + post
    ensures var t := TrimSpace(s); t != "" ==> !IsSpace(t[0]) && !IsSpace(t[|t| - 1])
  {
    pre := TrimLeftSplits(s);
    post := TrimRightSplits(TrimLeft(s));
    assert pre + (TrimSpace(s) + post) == pre + TrimSpace(s) + post;
  }

  lemma {:induction false} TrimLeftSplits(s: string) returns (pre: string)
    ensures AllSpace(pre) && s == pre + TrimLeft(s) && (TrimLeft(s) != "" ==> !IsSpace(TrimLeft(s)[0]))
  {
    if s != "" && IsSpace(s[0]) {
      var p := TrimLeftSplits(s[1..]);
      pre := [s[0]] + p;
      assert s == [s[0]] + s[1..] == pre + TrimLeft(s);
    } else {
      pre := "";
    }
  }

  lemma {:induction false} TrimRightSplits(s: string) returns (post: string)
    ensures AllSpace(post) && s == TrimRight(s) + post && TrimRight(s) <= s
    ensures TrimRight(s) != "" ==> !IsSpace(TrimRight(s)[|TrimRight(s)| - 1])
  {
    if s != "" && IsSpace(s[|s| - 1]) {
      var n := |s| - 1;
      var p := TrimRightSplits(s[..n]);
      post := p + [s[n]];
      assert s == s[..n] + [s[n]] == TrimRight(s) + post;
    } else {
      post := "";
    }
  }

  lemma {:induction false} TrimLeftConcat(s: string, t: string)
    ensures TrimLeft(s + t) == if TrimLeft(s) == "" then TrimLeft(t) else TrimLeft(s) + t
    ensures TrimLeft(s) == "" <==> AllSpace(s)
  {
    if s == "" {
      assert s + t == t;
    } else {
      assert (s + t)[1..] == s[1..] + t;
      TrimLeftConcat(s[1..], t);
      assert s == [s[0]] + s[1..];
    }
  }

  lemma {:induction false} TrimRightConcat(s: string, post: string)
    requires AllSpace(post)
    ensures TrimRight(s + post) == TrimRight(s)
  {
    if post == "" {
      assert s + post == s;
    } else {
      var n := |post| - 1;
      assert (s + post)[..|s + post| - 1] == s + post[..n];
      TrimRightConcat(s, post[..n]);
    }
  }

  lemma TrimIgnoresPadding(pre: string, s: string, post: string)
    requires AllSpace(pre) && AllSpace(post)
    ensures TrimSpace(pre + s + post) == TrimSpace(s)
  {
    assert pre + s + post == pre + (s + post);
    TrimLeftConcat(pre, s + post);
    TrimLeftConcat(s, post);
    TrimLeftConcat(post, "");
    TrimRightConcat(TrimLeft(s), post);
  }

  /** Character by character, the two agree under case folding. */
  ghost predicate SameFolded(fold: char -> char, s: string, t: string) {
    |s| == |t| && forall i | 0 <= i < |s| :: fold(s[i]) == fold(t[i])
  }

  /**
    Which duty is broken: no human or no name approves, or else the two trimmed
    names are one under case folding. Padding either name with white space
    changes no answer.
  */
  lemma DutiesKeptIff(fold: char -> char, proposer: string, approver: string, human: bool,
                      pre: string, post: string, pre': string, post': string)
    requires AllSpace(pre) && AllSpace(post) && AllSpace(pre') && AllSpace(post')
    ensures var duties := CheckSoD(fold, proposer, approver, human);
            var same := SameFolded(fold, TrimSpace(approver), TrimSpace(proposer));
            && (duties == Some(NotHuman) <==> !human || AllSpace(approver))
            && (duties == Some(SelfApproval) <==> human && !AllSpace(approver) && same)
            && (duties == None <==> human && !AllSpace(approver) && !same)
    ensures CheckSoD(fold, pre + proposer + post, pre' + approver + post', human)
            == CheckSoD(fold, proposer, approver, human)
  {
    TrimIgnoresPadding(pre, proposer, post);
    TrimIgnoresPadding(pre', approver, post');
    TrimLeftConcat(approver, "");
    var lead, trail := TrimSpaceSplits(approver);
  }

  /** Nor does writing either name in other letter cases. */
  lemma DutiesIgnoreCase(fold: char -> char, proposer: string, approver: string, human: bool,
                         proposer': string, approver': string)
    requires SameFolded(fold, TrimSpace(proposer), TrimSpace(proposer'))
    requires SameFolded(fold, TrimSpace(approver), TrimSpace(approver'))
    ensures CheckSoD(fold, proposer', approver', human) == CheckSoD(fold, proposer, approver, human)
  {
    hide TrimSpace;
    var a, p, a', p' := TrimSpace(approver), TrimSpace(proposer), TrimSpace(approver'), TrimSpace(proposer');
    if SameFolded(fold, a, p) { SameFoldedThree(fold, a', a, p, p'); }
    if SameFolded(fold, a', p') { SameFoldedThree(fold, a, a', p', p); }
    assert EqualFold(fold, a, p) == SameFolded(fold, a, p) && EqualFold(fold, a', p') == SameFolded(fold, a', p');
  }

  lemma SameFoldedThree(fold: char -> char, a: string, b: string, c: string, d: string)
    requires SameFolded(fold, b, a) || SameFolded(fold, a, b)
    requires SameFolded(fold, b, c) && (SameFolded(fold, c, d) || SameFolded(fold, d, c))
    ensures SameFolded(fold, a, d)
  {
  }

  // ---- identifiers ----

  function PadZeros(s: string, width: nat): string
    decreases width - |s|
  {
    if |s| >= width then s else PadZeros("0" + s, width)
  }

  /** fmt.Sprintf("%s_%06d", prefix, n). */
  function FormatID(prefix: string, n: nat): string {
    prefix + ("_" + PadZeros(PutNat(n, ""), 6))
  }

  lemma {:induction false} PaddedValue(s: string, width: nat)
    ensures GetDigits(0, PadZeros(s, width)) == GetDigits(0, s)
    decreases width - |s|
  {
    if |s| < width {
      assert ("0" + s)[1..] == s;
      PaddedValue("0" + s, width);
    }
  }

  /** Padding loses nothing: under one prefix, distinct numbers have distinct ids. */
  lemma FormatIDInjective(prefix: string, m: nat, n: nat)
    requires FormatID(prefix, m) == FormatID(prefix, n)
    ensures m == n
  {
    var p, q := PadZeros(PutNat(m, ""), 6), PadZeros(PutNat(n, ""), 6);
    assert FormatID(prefix, m)[|prefix| + 1..] == p;
    assert FormatID(prefix, n)[|prefix| + 1..] == q;
    PaddedValue(PutNat(m, ""), 6);
    PaddedValue(PutNat(n, ""), 6);
    GetPutDigits(m, "");
    GetPutDigits(n, "");
  }

  /** An id is its prefix, an underscore and the decimal number, padded with zeros to six digits and no further. */
  lemma FormatIDShape(prefix: string, n: nat)
    ensures var id := FormatID(prefix, n);
            var digits := id[|prefix| + 1..];
            && |id| > |prefix| && id[..|prefix|] == prefix && id[|prefix|] == '_'
            && |digits| >= 6 && (forall c | c in digits :: '0' <= c <= '9')
            && GetDigits(0, digits) == (n, "")
            && (|digits| > 6 ==> digits[0] != '0')
  {
    var p := PutNat(n, "");
    var d := PadZeros(p, 6);
    assert FormatID(prefix, n) == prefix + ("_" + d);
    assert FormatID(prefix, n)[|prefix| + 1..] == d;
    PaddedValue(p, 6);
    GetPutDigits(n, "");
    PutNatDigits(n, "");
    PaddedDigits(p, 6);
  }

  lemma {:induction false} PaddedDigits(s: string, width: nat)
    requires forall c | c in s :: IsDigit(c)
    ensures var d := PadZeros(s, width);
            (forall c | c in d :: IsDigit(c)) && |d| == if |s| >= width then |s| else width
    ensures |s| >= width ==> PadZeros(s, width) == s
    decreases width - |s|
  {
    if |s| < width { PaddedDigits("0" + s, width); }
  }

  lemma {:induction false} PutNatDigits(n: nat, tail: string)
    requires forall c | c in tail :: IsDigit(c)
    ensures forall c | c in PutNat(n, tail) :: IsDigit(c)
    ensures n > 0 ==> PutNat(n, tail)[0] != '0'
    ensures |PutNat(n, tail)| == 1 + |tail| || n >= 10
  {
    var last := ['0' + (n % 10) as char] + tail;
    if n >= 10 {
      PutNatDigits(n / 10, last);
    } else {
      assert PutNat(n, tail) == last;
    }
  }
}
