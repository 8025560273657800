/** One-time approval tokens (internal/approve/token.go). */
module Tokens {
  import opened Options
  import opened Json

  type byte = n: nat | n < 256
  type Secret = seq<byte>

  /** SHA-256 of a secret, the key a token is stored under. */
  type KeyOf = Secret -> Secret

  const SECRET_BYTES: nat := 32

  datatype Token = Token(planHash: string, proposer: string, approver: string, expiresAt: int, consumed: bool)
  datatype Consumed = Consumed(planHash: string, proposer: string, approver: string)

  datatype TokenError = TokenUnknown | TokenExpired | TokenConsumed | HashMismatch | EmptyPlanHash | RandFailed
  datatype Outcome<+T> = Ok(value: T) | Err(error: TokenError)

  // ---- hex ----

  function HexEncode(b: Secret): string {
    if b == [] then "" else [HexDigit(b[0] / 16), HexDigit(b[0] % 16)] + HexEncode(b[1..])
  }

  /** Either letter case, an even number of digits, nothing else. */
  function HexDecode(s: string): (r: Option<Secret>) {
    if s == "" then Some([])
    else if |s| == 1 then None
    else
      var hi :- HexValue(s[0]);
      var lo :- HexValue(s[1]);
      var rest :- HexDecode(s[2..]);
      Some([hi * 16 + lo] + rest)
  }

  lemma {:induction false} HexDecodeEncode(b: Secret)
    ensures HexDecode(HexEncode(b)) == Some(b)
  {
    if b != [] {
      HexDecodeEncode(b[1..]);
      assert HexEncode(b)[2..] == HexEncode(b[1..]);
      assert [b[0]] + b[1..] == b;
    }
  }

  /** Byte k is written as its two lower-case digits, the high one first. */
  lemma {:induction false} HexEncodeAt(b: Secret, k: nat)
    requires k < |b|
    ensures |HexEncode(b)| == 2 * |b|
    ensures HexEncode(b)[2 * k] == "0123456789abcdef"[b[k] / 16]
    ensures HexEncode(b)[2 * k + 1] == "0123456789abcdef"[b[k] % 16]
  {
    HexDigitAt(b[k] / 16);
    HexDigitAt(b[k] % 16);
    hide HexDigit;
    assert HexEncode(b)[2..] == HexEncode(b[1..]);
    if k > 0 {
      HexEncodeAt(b[1..], k - 1);
      assert HexEncode(b)[2 * k] == HexEncode(b)[2..][2 * (k - 1)];
      assert HexEncode(b)[2 * k + 1] == HexEncode(b)[2..][2 * (k - 1) + 1];
    } else {
      HexEncodeLength(b[1..]);
    }
  }

  lemma {:induction false} HexEncodeLength(b: Secret)
    ensures |HexEncode(b)| == 2 * |b|
  {
    if b != [] { HexEncodeLength(b[1..]); }
  }

  function LowerHex(c: char): char { if 'A' <= c <= 'F' then 'a' + (c - 'A') else c }

  function LowerHexAll(s: string): string {
    if s == "" then "" else [LowerHex(s[0])] + LowerHexAll(s[1..])
  }

  lemma LowerHexValue(c: char)
    ensures HexValue(LowerHex(c)) == HexValue(c)
    ensures HexValue(c).Some? ==> HexDigit(HexValue(c).value) == LowerHex(c)
  {
    if 'A' <= c <= 'F' {
      assert LowerHex(c) as int == c as int + 32;
    }
  }

  /** A digit stands for a value exactly when, lowered, it is the digit of the encoding. */
  lemma DigitSpelled(c: char, d: nat)
    requires d < 16
    ensures HexValue(c) == Some(d) <==> LowerHex(c) == HexDigit(d)
  {
    LowerHexValue(c);
    HexValueDigit(d);
  }

  lemma DecodeFirstByte(s: string, b: Secret)
    requires |s| >= 2 && b != []
    ensures HexDecode(s) == Some(b) <==>
            HexValue(s[0]) == Some(b[0] / 16) && HexValue(s[1]) == Some(b[0] % 16) && HexDecode(s[2..]) == Some(b[1..])
  {
    var hi, lo, rest := HexValue(s[0]), HexValue(s[1]), HexDecode(s[2..]);
    if hi.Some? && lo.Some? && rest.Some? {
      var d := [hi.value * 16 + lo.value] + rest.value;
      assert HexDecode(s) == Some(d);
      assert d == b <==> d[0] == b[0] && d[1..] == b[1..] by {
        assert b == [b[0]] + b[1..];
      }
    }
  }

  lemma LowerFirstByte(s: string, b: Secret)
    requires |s| >= 2 && b != []
    ensures LowerHexAll(s) == HexEncode(b) <==>
            LowerHex(s[0]) == HexDigit(b[0] / 16) && LowerHex(s[1]) == HexDigit(b[0] % 16)
            && LowerHexAll(s[2..]) == HexEncode(b[1..])
  {
    hide LowerHex, HexDigit;
    assert s[1..][1..] == s[2..];
    assert LowerHexAll(s) == [LowerHex(s[0])] + ([LowerHex(s[1])] + LowerHexAll(s[2..]));
    SamePairs(LowerHex(s[0]), LowerHex(s[1]), LowerHexAll(s[2..]),
              HexDigit(b[0] / 16), HexDigit(b[0] % 16), HexEncode(b[1..]));
  }

  lemma SamePairs(a: char, b: char, s: string, c: char, d: char, t: string)
    ensures [a] + ([b] + s) == [c, d] + t <==> a == c && b == d && s == t
  {
    var x, y := [a] + ([b] + s), [c, d] + t;
    assert x[2..] == s && y[2..] == t;
    assert x[0] == a && x[1] == b && y[0] == c && y[1] == d;
    if a == c && b == d && s == t { assert x == y; }
  }

  /** The spellings of a secret are exactly its encoding with letters in either case. */
  lemma {:induction false} SpellingsOf(s: string, b: Secret)
    ensures HexDecode(s) == Some(b) <==> LowerHexAll(s) == HexEncode(b)
    decreases |s|
  {
    hide HexValue, LowerHex, HexDigit;
    if |s| >= 2 && b != [] {
      SpellingsOf(s[2..], b[1..]);
      DigitSpelled(s[0], b[0] / 16);
      DigitSpelled(s[1], b[0] % 16);
      DecodeFirstByte(s, b);
      LowerFirstByte(s, b);
    } else if s != "" {
      assert |LowerHexAll(s)| >= 1 && (|s| == 1 ==> |LowerHexAll(s)| == 1);
      assert b != [] ==> |HexEncode(b)| >= 2;
    }
  }

  // ---- the store ----

  /** The text is the hex of this 32-byte secret, in any letter case. */
  ghost predicate Presents(text: string, b: Secret) {
    |b| == 32 && LowerHexAll(text) == HexEncode(b)
  }

  type Store = map<Secret, Token>

  /** The key a presented text names: hex of 32 bytes in any spelling. */
  function KeyNamed(keyOf: KeyOf, secretHex: string): Option<Secret> {
    var raw :- HexDecode(secretHex);
    if |raw| == SECRET_BYTES then Some(keyOf(raw)) else None
  }

  /** Known, not consumed, not past its expiry and bound to this plan hash. */
  predicate Consumable(keyOf: KeyOf, rec: Store, secretHex: string, planHash: string, now: int) {
    var k := KeyNamed(keyOf, secretHex);
    k.Some? && k.value in rec && !rec[k.value].consumed && now <= rec[k.value].expiresAt
      && rec[k.value].planHash == planHash
  }

  function Consume(keyOf: KeyOf, rec: Store, secretHex: string, planHash: string, now: int): Outcome<Consumed> {
    var k := KeyNamed(keyOf, secretHex);
    if k == None || k.value !in rec then Err(TokenUnknown)
    else
      var t := rec[k.value];
      if t.consumed then Err(TokenConsumed)
      else if now > t.expiresAt then Err(TokenExpired)
      else if t.planHash != planHash then Err(HashMismatch)
      else Ok(Consumed(t.planHash, t.proposer, t.approver))
  }

  function AfterConsume(keyOf: KeyOf, rec: Store, secretHex: string, planHash: string, now: int): (rec': Store)
    ensures rec'.Keys == rec.Keys
  {
    if Consumable(keyOf, rec, secretHex, planHash, now) then
      var k := KeyNamed(keyOf, secretHex).value;
      rec[k := rec[k].(consumed := true)]
    else rec
  }

  /** What a freshly minted token is stored as. */
  function Minted(planHash: string, proposer: string, approver: string, ttl: int, now: int): Token {
    Token(planHash, proposer, approver, now + ttl, false)
  }

  class TokenStore {
    const keyOf: KeyOf
    var rec: Store

    constructor (keyOf: KeyOf)
      ensures this.keyOf == keyOf && rec == map[]
    {
      this.keyOf, rec := keyOf, map[];
    }

    /** `random` is what rand.Read delivers, None when it fails. The stored token is bound to all that was given. */
    method Mint(planHash: string, proposer: string, approver: string, ttl: int, random: Option<Secret>, now: int)
      returns (out: Outcome<string>)
      requires random.Some? ==> |random.value| == SECRET_BYTES
      modifies this
      ensures out.Ok? <==> planHash != "" && random.Some?
      ensures out.Ok? ==> rec == old(rec)[keyOf(random.value) := Minted(planHash, proposer, approver, ttl, now)]
      ensures out.Ok? ==>
                rec == old(rec)[keyOf(random.value) := Token(planHash, proposer, approver, now + ttl, false)]
      ensures out.Ok? ==> out.value == HexEncode(random.value)
      ensures out.Ok? ==> KeyNamed(keyOf, out.value) == Some(keyOf(random.value))
      ensures out.Err? ==> rec == old(rec)
    {
      if planHash == "" {
        return Err(EmptyPlanHash);
      }
      if random == None {
        return Err(RandFailed);
      }
      var k := keyOf(random.value);
      rec := rec[k := Token(planHash, proposer, approver, now + ttl, false)];
      HexDecodeEncode(random.value);
      return Ok(HexEncode(random.value));
    }

    /** The answer and the store afterwards, told from the one token whose secret the text spells, if there is one. */
    method ConsumeToken(secretHex: string, planHash: string, now: int) returns (out: Outcome<Consumed>)
      modifies this
      ensures out == Err(TokenUnknown) <==> forall b: Secret :: !Presents(secretHex, b) || keyOf(b) !in old(rec)
      ensures forall b: Secret :: Presents(secretHex, b) && keyOf(b) in old(rec) ==>
                var t := old(rec)[keyOf(b)];
                && (out == Err(TokenConsumed) <==> t.consumed)
                && (out == Err(TokenExpired) <==> !t.consumed && t.expiresAt < now)
                && (out == Err(HashMismatch) <==> !t.consumed && now <= t.expiresAt && t.planHash != planHash)
                && (out == Ok(Consumed(planHash, t.proposer, t.approver)) <==>
                      !t.consumed && now <= t.expiresAt && t.planHash == planHash)
                && (out.Ok? ==> rec == old(rec)[keyOf(b) := Token(planHash, t.proposer, t.approver, t.expiresAt, true)])
      ensures out == Consume(keyOf, old(rec), secretHex, planHash, now)
      ensures out.Ok? <==> Consumable(keyOf, old(rec), secretHex, planHash, now)
      ensures rec == AfterConsume(keyOf, old(rec), secretHex, planHash, now)
      ensures out.Err? ==> rec == old(rec)
    {
      var raw := HexDecode(secretHex);
      forall b: Secret ensures Presents(secretHex, b) <==> raw == Some(b) && |b| == SECRET_BYTES {
        SpellingsOf(secretHex, b);
      }
      if raw == None || |raw.value| != SECRET_BYTES {
        return Err(TokenUnknown);
      }
      var k := keyOf(raw.value);
      if k !in rec {
        return Err(TokenUnknown);
      }
      var r := rec[k];
      if r.consumed {
        return Err(TokenConsumed);
      }
      if now > r.expiresAt {
        return Err(TokenExpired);
      }
      if r.planHash != planHash {
        return Err(HashMismatch);
      }
      rec := rec[k := r.(consumed := true)];
      return Ok(Consumed(r.planHash, r.proposer, r.approver));
    }
  }

  // ---- runs ----

  datatype Op =
    | MintOp(secret: Secret, planHash: string, proposer: string, approver: string, ttl: int, now: int)
    | ConsumeOp(secretHex: string, planHash: string, now: int)

  function StoreStep(keyOf: KeyOf, rec: Store, op: Op): Store {
    match op
    case MintOp(secret, planHash, proposer, approver, ttl, now) =>
      if planHash == "" then rec else rec[keyOf(secret) := Minted(planHash, proposer, approver, ttl, now)]
    case ConsumeOp(secretHex, planHash, now) => AfterConsume(keyOf, rec, secretHex, planHash, now)
  }

  function StoreRun(keyOf: KeyOf, rec: Store, ops: seq<Op>): Store
    decreases |ops|
  {
    if ops == [] then rec else StoreRun(keyOf, StoreStep(keyOf, rec, ops[0]), ops[1..])
  }

  /** Every minted secret is new: its key is not in the store when it is minted. */
  predicate Fresh(keyOf: KeyOf, rec: Store, ops: seq<Op>)
    decreases |ops|
  {
    ops == [] ||
    ((ops[0].MintOp? ==> keyOf(ops[0].secret) !in rec) && Fresh(keyOf, StoreStep(keyOf, rec, ops[0]), ops[1..]))
  }

  predicate Succeeds(keyOf: KeyOf, rec: Store, op: Op) {
    op.ConsumeOp? && Consumable(keyOf, rec, op.secretHex, op.planHash, op.now)
  }

  /** Successful consumptions of one key in a run. */
  function Uses(keyOf: KeyOf, rec: Store, ops: seq<Op>, k: Secret): nat
    decreases |ops|
  {
    if ops == [] then 0
    else
      (if Succeeds(keyOf, rec, ops[0]) && KeyNamed(keyOf, ops[0].secretHex) == Some(k) then 1 else 0)
      + Uses(keyOf, StoreStep(keyOf, rec, ops[0]), ops[1..], k)
  }

  /** Tokens are never dropped or rebound, and consumed never reverts. */
  lemma {:induction false} ConsumedNeverReverts(keyOf: KeyOf, rec: Store, ops: seq<Op>, k: Secret)
    requires Fresh(keyOf, rec, ops) && k in rec
    ensures var rec' := StoreRun(keyOf, rec, ops);
            && k in rec' && (rec[k].consumed ==> rec'[k].consumed)
            && rec'[k].(consumed := false) == rec[k].(consumed := false)
    decreases |ops|
  {
    if ops != [] {
      ConsumedNeverReverts(keyOf, StoreStep(keyOf, rec, ops[0]), ops[1..], k);
    }
  }

  /**
    Over any run with fresh secrets a key is consumed at most once, not at all if
    it was consumed before, and exactly when the store ends up saying so.
  */
  lemma {:induction false} ConsumedAtMostOnce(keyOf: KeyOf, rec: Store, ops: seq<Op>, k: Secret)
    requires Fresh(keyOf, rec, ops)
    ensures Uses(keyOf, rec, ops, k) <= 1
    ensures k in rec && rec[k].consumed ==> Uses(keyOf, rec, ops, k) == 0
    ensures var rec' := StoreRun(keyOf, rec, ops);
            (Uses(keyOf, rec, ops, k) == 1 || (k in rec && rec[k].consumed)) <==> k in rec' && rec'[k].consumed
    decreases |ops|
  {
    if ops != [] {
      ConsumedAtMostOnce(keyOf, StoreStep(keyOf, rec, ops[0]), ops[1..], k);
    }
  }

  /** Whatever spelling presents it, the same secret names the same key. */
  lemma SpellingsShareAKey(keyOf: KeyOf, b: Secret, s: string)
    requires |b| == SECRET_BYTES && LowerHexAll(s) == HexEncode(b)
    ensures KeyNamed(keyOf, s) == Some(keyOf(b))
  {
    SpellingsOf(s, b);
  }
}
