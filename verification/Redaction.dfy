/** Masking of secret-shaped params (internal/audit/record.go). */
module Redaction {
  import opened StringMaps

  const REDACT_KEY_SUBSTRINGS: seq<string> := [
    "secret", "token", "password", "passwd", "pass", "key", "credential",
    "auth", "bearer", "digest", "signature", "cookie", "session"
  ]

  const REDACTED_MARKER := "[REDACTED]"

  // ---- ASCII lower-casing and substring search ----

  function LowerChar(c: char): char {
    if 'A' <= c <= 'Z' then 'a' + (c - 'A') else c
  }

  function Lower(s: string): string {
    seq(|s|, i requires 0 <= i < |s| => LowerChar(s[i]))
  }

  method LowerInPlace(b: array<char>)
    modifies b
    ensures b[..] == Lower(old(b[..]))
  {
    for i := 0 to b.Length
      invariant forall j | 0 <= j < i :: b[j] == LowerChar(old(b[j]))
      invariant forall j | i <= j < b.Length :: b[j] == old(b[j])
    {
      if 'A' <= b[i] <= 'Z' {
        b[i] := b[i] + ('a' - 'A');
      }
    }
  }

  method ToLowerASCII(s: string) returns (r: string)
    ensures r == Lower(s)
  {
    var b := new char[|s|](i requires 0 <= i < |s| => s[i]);
    assert b[..] == s;
    LowerInPlace(b);
    return b[..];
  }

  predicate OccursAt(hay: string, needle: string, i: nat) {
    i + |needle| <= |hay| && hay[i..i + |needle|] == needle
  }

  predicate Contains(hay: string, needle: string) {
    exists i | 0 <= i <= |hay| :: OccursAt(hay, needle, i)
  }

  method ContainsASCII(hay: string, needle: string) returns (found: bool)
    ensures found == Contains(hay, needle)
  {
    if |needle| == 0 {
      assert OccursAt(hay, needle, 0);
      return true;
    }
    var i := 0;
    while i + |needle| <= |hay|
      invariant forall j | 0 <= j < i :: !OccursAt(hay, needle, j)
    {
      if hay[i..i + |needle|] == needle {
        assert OccursAt(hay, needle, i);
        return true;
      }
      i := i + 1;
    }
    return false;
  }

  predicate SecretKey(k: string) {
    exists s | s in REDACT_KEY_SUBSTRINGS :: Contains(Lower(k), s)
  }

  method IsSecretKey(k: string) returns (secret: bool)
    ensures secret == SecretKey(k)
  {
    var lk := ToLowerASCII(k);
    for i := 0 to |REDACT_KEY_SUBSTRINGS|
      invariant forall j | 0 <= j < i :: !Contains(lk, REDACT_KEY_SUBSTRINGS[j])
    {
      var found := ContainsASCII(lk, REDACT_KEY_SUBSTRINGS[i]);
      if found {
        return true;
      }
    }
    return false;
  }

  // ---- what the search is for ----

  /** c is the lower-case letter or sign l, in either ASCII case. */
  predicate EitherCase(c: char, l: char) {
    c == l || ('a' <= l <= 'z' && c == 'A' + (l - 'a'))
  }

  ghost predicate OccursInAnyCase(k: string, s: string) {
    exists i: nat :: i + |s| <= |k| && MatchesFrom(k, s, i)
  }

  predicate MatchesFrom(k: string, s: string, i: nat)
    requires i + |s| <= |k|
  {
    forall j | 0 <= j < |s| :: EitherCase(k[i + j], s[j])
  }

  predicate IsLower(s: string) { forall c | c in s :: !('A' <= c <= 'Z') }

  lemma LowerCharEitherCase(c: char, l: char)
    requires !('A' <= l <= 'Z')
    ensures LowerChar(c) == l <==> EitherCase(c, l)
  {
    if 'A' <= c <= 'Z' {
      assert LowerChar(c) as int == c as int + 32;
    }
    if 'a' <= l <= 'z' {
      assert ('A' + (l - 'a')) as int == l as int - 32;
    }
  }

  lemma OccursLowered(k: string, s: string, i: nat)
    requires IsLower(s) && i + |s| <= |k|
    ensures OccursAt(Lower(k), s, i) <==> MatchesFrom(k, s, i)
  {
    var part := Lower(k)[i..i + |s|];
    assert forall j | 0 <= j < |s| :: part[j] == LowerChar(k[i + j]);
    forall j | 0 <= j < |s| ensures LowerChar(k[i + j]) == s[j] <==> EitherCase(k[i + j], s[j]) {
      assert s[j] in s;
      LowerCharEitherCase(k[i + j], s[j]);
    }
    if part == s {
      assert forall j | 0 <= j < |s| :: part[j] == s[j];
    }
  }

  /** A key is secret exactly when it spells a listed word somewhere, in any mix of ASCII cases. */
  lemma SecretKeyInAnyCase(k: string)
    ensures SecretKey(k) <==>
            exists s ::
              s in ["secret", "token", "password", "passwd", "pass", "key", "credential",
                    "auth", "bearer", "digest", "signature", "cookie", "session"]
              && OccursInAnyCase(k, s)
  {
    assert forall s | s in REDACT_KEY_SUBSTRINGS :: IsLower(s);
    if s :| s in REDACT_KEY_SUBSTRINGS && Contains(Lower(k), s) {
      var i :| 0 <= i <= |Lower(k)| && OccursAt(Lower(k), s, i);
      OccursLowered(k, s, i);
      assert OccursInAnyCase(k, s);
    }
    if s :| s in REDACT_KEY_SUBSTRINGS && OccursInAnyCase(k, s) {
      var i: nat :| i + |s| <= |k| && MatchesFrom(k, s, i);
      OccursLowered(k, s, i);
      assert Contains(Lower(k), s);
    }
  }

  // ---- Redact ----

  function Redacted(p: Params): Params {
    match p
    case Nil => Nil
    case Entries(m) => Entries(map k | k in m :: if SecretKey(k) then REDACTED_MARKER else m[k])
  }

  /** The source ranges over the map, so the keys come in any order. */
  method Redact(p: Params) returns (out: Params)
    ensures out == Redacted(p)
  {
    if p.Nil? {
      return Nil;
    }
    var m := p.m;
    var done: map<string, string> := map[];
    var todo := m.Keys;
    while todo != {}
      invariant todo <= m.Keys && done.Keys == m.Keys - todo
      invariant forall k | k in done :: done[k] == if SecretKey(k) then REDACTED_MARKER else m[k]
      decreases |todo|
    {
      var k :| k in todo;
      todo := todo - {k};
      var secret := IsSecretKey(k);
      if secret {
        done := done[k := REDACTED_MARKER];
        continue;
      }
      done := done[k := m[k]];
    }
    return Entries(done);
  }

  /** What holds of the params of every stored row. */
  ghost predicate IsRedacted(p: Params) {
    p.Entries? ==> forall k | k in p.m && SecretKey(k) :: p.m[k] == REDACTED_MARKER
  }

  /** Redaction masks every secret key, keeps the keys and every other value, and is idempotent. */
  lemma RedactedMasks(p: Params)
    ensures IsRedacted(Redacted(p)) && Redacted(Redacted(p)) == Redacted(p)
    ensures p.Nil? <==> Redacted(p).Nil?
    ensures p.Entries? ==> Redacted(p).m.Keys == p.m.Keys
    ensures p.Entries? ==> forall k | k in p.m && !SecretKey(k) :: Redacted(p).m[k] == p.m[k]
  {
    if p.Entries? {
      assert Redacted(Redacted(p)).m == Redacted(p).m;
    }
  }

  /** Redaction leaves params alone exactly when they are redacted already. */
  lemma RedactedFixpoint(p: Params)
    ensures Redacted(p) == p <==> IsRedacted(p)
  {
    RedactedMasks(p);
    if p.Entries? && IsRedacted(p) {
      assert Redacted(p).m == p.m;
    }
  }
}
