/**
  The JSON text that Go's encoding/json.Marshal writes for the structs of this
  program (section 7 of RFC 8259 for string escapes), and its inverse.

  Writers take the text that follows them as `tail`, readers return the text
  left over, so that the law of every pair is the single equation
  `Get(Put(v, tail)) == Some((v, tail))`.

  A Dafny `char` is a Unicode scalar value: strings are valid Unicode, which is
  the domain on which encoding/json does not replace anything.
*/
module Json {
  import opened Options

  datatype Value = Null | Number(n: int) | Text(s: string) | Object(fields: Fields)
  datatype Fields = End | Field(name: string, value: Value, rest: Fields)

  // ---- strings ----

  function HexDigit(d: nat): char
    requires d < 16
  {
    if d < 10 then '0' + d as char else 'a' + (d - 10) as char
  }

  function HexValue(c: char): (r: Option<nat>)
    ensures r.Some? ==> r.value < 16
  {
    if '0' <= c <= '9' then Some((c - '0') as nat)
    else if 'a' <= c <= 'f' then Some((c - 'a') as nat + 10)
    else if 'A' <= c <= 'F' then Some((c - 'A') as nat + 10)
    else None
  }

  /** The characters encoding/json writes as a backslash and one letter. */
  function ShortEscape(c: char): Option<char> {
    if c == '\"' then Some('\"')
    else if c == '\\' then Some('\\')
    else if c == 8 as char then Some('b')
    else if c == 12 as char then Some('f')
    else if c == '\n' then Some('n')
    else if c == '\r' then Some('r')
    else if c == '\t' then Some('t')
    else None
  }

  function FromShortEscape(e: char): Option<char> {
    if e == '\"' then Some('\"')
    else if e == '\\' then Some('\\')
    else if e == '/' then Some('/')
    else if e == 'b' then Some(8 as char)
    else if e == 'f' then Some(12 as char)
    else if e == 'n' then Some('\n')
    else if e == 'r' then Some('\r')
    else if e == 't' then Some('\t')
    else None
  }

  /** The other characters it never writes raw: controls, HTML-sensitive ones, line separators. */
  predicate LongEscaped(c: char) {
    c < ' ' || c == '<' || c == '>' || c == '&' || c == '\U{2028}' || c == '\U{2029}'
  }

  function Escaped(c: char): (s: string)
    ensures s != "" && s[0] != '\"'
  {
    match ShortEscape(c)
    case Some(e) => ['\\', e]
    case None =>
      if LongEscaped(c) then
        var n := c as nat;
        ['\\', 'u', HexDigit(n / 4096), HexDigit(n / 256 % 16), HexDigit(n / 16 % 16), HexDigit(n % 16)]
      else
        [c]
  }

  function PutChar(c: char, tail: string): string { Escaped(c) + tail }

  /** How a string may show a character (section 7 of RFC 8259): itself, its short escape, or its code in hex. */
  ghost predicate Shows(text: string, c: char) {
    || (text == [c] && c >= ' ' && c != '\"' && c != '\\')
    || (text, c) in {("\\\"", '\"'), ("\\\\", '\\'), ("\\b", '\U{08}'), ("\\f", '\U{0C}'),
                     ("\\n", '\n'), ("\\r", '\r'), ("\\t", '\t')}
    || ((c as nat) < 0x10000 &&
        var digits, n := "0123456789abcdef", c as nat;
        text == ['\\', 'u', digits[n / 4096], digits[n / 256 % 16], digits[n / 16 % 16], digits[n % 16]])
  }

  /** Each character is shown, and those that HTML or JavaScript could misread are not shown raw. */
  lemma EscapedShows(c: char)
    ensures Shows(Escaped(c), c)
    ensures Escaped(c) == [c] <==>
            c >= ' ' && c !in {'\"', '\\', '<', '>', '&', '\U{2028}', '\U{2029}'}
  {
    var n := c as nat;
    if ShortEscape(c) == None && LongEscaped(c) {
      HexDigitAt(n / 4096);
      HexDigitAt(n / 256 % 16);
      HexDigitAt(n / 16 % 16);
      HexDigitAt(n % 16);
    }
  }

  lemma HexDigitAt(d: nat)
    requires d < 16
    ensures HexDigit(d) == "0123456789abcdef"[d]
  {
  }

  /** One possibly escaped character, and what follows it. */
  function GetChar(s: string): (r: Option<(char, string)>)
    ensures r.Some? ==> |r.value.1| < |s|
  {
    if s == "" || s[0] < ' ' then None
    else if s[0] != '\\' then Some((s[0], s[1..]))
    else if |s| >= 6 && s[1] == 'u' then
      var a :- HexValue(s[2]);
      var b :- HexValue(s[3]);
      var c :- HexValue(s[4]);
      var d :- HexValue(s[5]);
      var n := a * 4096 + b * 256 + c * 16 + d;
      if 0xD800 <= n < 0xE000 then None else Some((n as char, s[6..]))
    else if |s| >= 2 then
      var c :- FromShortEscape(s[1]);
      Some((c, s[2..]))
    else None
  }

  lemma HexValueDigit(d: nat)
    requires d < 16
    ensures HexValue(HexDigit(d)) == Some(d)
  {
  }

  lemma FourDigits(n: nat)
    requires n < 0x10000
    ensures n / 4096 < 16 && n / 4096 * 4096 + n / 256 % 16 * 256 + n / 16 % 16 * 16 + n % 16 == n
  {
  }

  lemma GetPutChar(c: char, tail: string)
    ensures GetChar(PutChar(c, tail)) == Some((c, tail))
    ensures PutChar(c, tail)[0] != '\"'
  {
    hide HexDigit, HexValue;
    var s := PutChar(c, tail);
    if ShortEscape(c).Some? {
      assert s[2..] == tail;
    } else if LongEscaped(c) {
      var n := c as nat;
      FourDigits(n);
      HexValueDigit(n / 4096);
      HexValueDigit(n / 256 % 16);
      HexValueDigit(n / 16 % 16);
      HexValueDigit(n % 16);
      assert s[6..] == tail;
    } else {
      assert s[1..] == tail;
    }
  }

  function PutChars(cs: string, tail: string): string {
    if cs == "" then tail else PutChar(cs[0], PutChars(cs[1..], tail))
  }

  /** Characters up to the closing quote. */
  function GetChars(s: string): (r: Option<(string, string)>)
    ensures r.Some? ==> |r.value.1| < |s|
    decreases |s|
  {
    if s == "" then None
    else if s[0] == '\"' then Some(("", s[1..]))
    else
      var (c, s1) :- GetChar(s);
      var (cs, s2) :- GetChars(s1);
      Some(([c] + cs, s2))
  }

  lemma {:induction false} GetPutChars(cs: string, tail: string)
    ensures GetChars(PutChars(cs, "\"" + tail)) == Some((cs, tail))
  {
    var s := PutChars(cs, "\"" + tail);
    if cs == "" {
      assert s[1..] == tail;
    } else {
      var s1 := PutChars(cs[1..], "\"" + tail);
      GetPutChar(cs[0], s1);
      GetPutChars(cs[1..], tail);
      assert [cs[0]] + cs[1..] == cs;
    }
  }

  function PutText(cs: string, tail: string): string {
    "\"" + PutChars(cs, "\"" + tail)
  }

  function GetText(s: string): (r: Option<(string, string)>)
    ensures r.Some? ==> |r.value.1| < |s|
  {
    if s == "" || s[0] != '\"' then None else GetChars(s[1..])
  }

  lemma GetPutText(cs: string, tail: string)
    ensures GetText(PutText(cs, tail)) == Some((cs, tail))
  {
    assert PutText(cs, tail)[1..] == PutChars(cs, "\"" + tail);
    GetPutChars(cs, tail);
  }

  // ---- numbers ----

  predicate IsDigit(c: char) { '0' <= c <= '9' }

  predicate StartsWithDigit(s: string) { s != "" && IsDigit(s[0]) }

  function PutNat(n: nat, tail: string): (s: string)
    ensures StartsWithDigit(s)
  {
    var last := ['0' + (n % 10) as char] + tail;
    if n < 10 then last else PutNat(n / 10, last)
  }

  function GetDigits(acc: nat, s: string): (r: (nat, string))
    ensures |r.1| <= |s|
    decreases |s|
  {
    if StartsWithDigit(s) then GetDigits(acc * 10 + (s[0] - '0') as nat, s[1..]) else (acc, s)
  }

  lemma {:induction false} GetPutDigits(n: nat, tail: string)
    ensures GetDigits(0, PutNat(n, tail)) == GetDigits(n, tail)
  {
    var last := ['0' + (n % 10) as char] + tail;
    assert last[1..] == tail;
    if n >= 10 {
      GetPutDigits(n / 10, last);
    }
  }

  function PutInt(n: int, tail: string): string {
    if n < 0 then "-" + PutNat(-n, tail) else PutNat(n, tail)
  }

  function GetInt(s: string): (r: Option<(int, string)>)
    ensures r.Some? ==> |r.value.1| < |s|
  {
    if s != "" && s[0] == '-' && StartsWithDigit(s[1..]) then
      var (n, t) := GetDigits(0, s[1..]);
      Some((0 - n as int, t))
    else if StartsWithDigit(s) then
      var (n, t) := GetDigits((s[0] - '0') as nat, s[1..]);
      Some((n, t))
    else None
  }

  lemma GetPutInt(n: int, tail: string)
    requires !StartsWithDigit(tail)
    ensures GetInt(PutInt(n, tail)) == Some((n, tail))
  {
    if n < 0 {
      assert PutInt(n, tail)[1..] == PutNat(-n, tail);
      GetPutDigits(-n, tail);
    } else {
      GetPutDigits(n, tail);
    }
  }

  // ---- values ----

  function Put(v: Value, tail: string): string {
    match v
    case Null => "null" + tail
    case Number(n) => PutInt(n, tail)
    case Text(cs) => PutText(cs, tail)
    case Object(fs) => "{" + PutFields(fs, "}" + tail)
  }

  function PutFields(fs: Fields, tail: string): string {
    match fs
    case End => tail
    case Field(name, v, rest) =>
      PutText(name, ":" + Put(v, if rest.End? then tail else "," + PutFields(rest, tail)))
  }

  /** The first value of a text, and the text after it. */
  function Get(s: string): (r: Option<(Value, string)>)
    ensures r.Some? ==> |r.value.1| < |s|
    decreases |s|
  {
    if s == "" then None
    else if s[0] == 'n' then
      if |s| >= 4 && s[..4] == "null" then Some((Null, s[4..])) else None
    else if s[0] == '\"' then
      var (cs, t) :- GetText(s);
      Some((Text(cs), t))
    else if s[0] == '{' then
      if |s| >= 2 && s[1] == '}' then Some((Object(End), s[2..]))
      else
        var (fs, t) :- GetFields(s[1..]);
        Some((Object(fs), t))
    else
      var (n, t) :- GetInt(s);
      Some((Number(n), t))
  }

  /** One field or more, up to the closing brace. */
  function GetFields(s: string): (r: Option<(Fields, string)>)
    ensures r.Some? ==> |r.value.1| < |s|
    decreases |s|
  {
    var (name, s1) :- GetText(s);
    if s1 == "" || s1[0] != ':' then None
    else
      var (v, s2) :- Get(s1[1..]);
      if s2 == "" then None
      else if s2[0] == '}' then Some((Field(name, v, End), s2[1..]))
      else if s2[0] == ',' then
        var (rest, s3) :- GetFields(s2[1..]);
        Some((Field(name, v, rest), s3))
      else None
  }

  lemma GetPutEmpty(tail: string)
    ensures Get(Put(Object(End), tail)) == Some((Object(End), tail))
  {
    var close := "}" + tail;
    assert PutFields(End, close) == close;
    var s := Put(Object(End), tail);
    assert s == "{" + close;
    assert s[1] == close[0] == '}' && s[2..] == tail;
  }

  /** Reading inverts writing, whatever non-digit text follows. */
  lemma {:induction false} GetPut(v: Value, tail: string)
    requires !StartsWithDigit(tail)
    ensures Get(Put(v, tail)) == Some((v, tail))
    decreases v, 1
  {
    var s := Put(v, tail);
    match v
    case Null =>
      assert s[..4] == "null" && s[4..] == tail;
    case Number(n) =>
      GetPutInt(n, tail);
    case Text(cs) =>
      GetPutText(cs, tail);
    case Object(fs) =>
      if fs.End? {
        GetPutEmpty(tail);
      } else {
        assert s[1..] == PutFields(fs, "}" + tail);
        assert s[1] == '\"';
        GetPutFields(fs, tail);
      }
  }

  lemma {:induction false} GetPutFields(fs: Fields, tail: string)
    requires fs.Field?
    ensures GetFields(PutFields(fs, "}" + tail)) == Some((fs, tail))
    decreases fs, 0
  {
    var close := "}" + tail;
    var s2 := if fs.rest.End? then close else "," + PutFields(fs.rest, close);
    var s1 := ":" + Put(fs.value, s2);
    GetPutText(fs.name, s1);
    assert s1[1..] == Put(fs.value, s2);
    GetPut(fs.value, s2);
    if fs.rest.End? {
      assert s2[1..] == tail;
    } else {
      assert s2[1..] == PutFields(fs.rest, close);
      GetPutFields(fs.rest, tail);
    }
  }

  /** The whole text of a value. */
  function Marshal(v: Value): string { Put(v, "") }

  /** Distinct values have distinct texts. */
  lemma MarshalInjective(v: Value, w: Value)
    requires Marshal(v) == Marshal(w)
    ensures v == w
  {
    GetPut(v, "");
    GetPut(w, "");
  }

  // ---- the text of a value on one line ----

  lemma {:induction false} PutCharsTail(cs: string, tail: string)
    ensures PutChars(cs, tail) == PutChars(cs, "") + tail
    ensures '\n' !in PutChars(cs, "")
  {
    if cs != "" {
      PutCharsTail(cs[1..], tail);
      PutCharTail(cs[0], PutChars(cs[1..], ""), tail);
    }
  }

  lemma PutCharTail(c: char, rest: string, tail: string)
    requires '\n' !in rest
    ensures PutChar(c, rest + tail) == PutChar(c, rest) + tail
    ensures '\n' !in PutChar(c, rest)
  {
    EscapedIsOneLine(c);
    hide Escaped;
    assert Escaped(c) + (rest + tail) == (Escaped(c) + rest) + tail;
  }

  lemma EscapedIsOneLine(c: char)
    ensures '\n' !in Escaped(c)
  {
    assert forall d: nat | d < 16 :: HexDigit(d) != '\n';
  }

  lemma PutTextTail(cs: string, tail: string)
    ensures PutText(cs, tail) == PutText(cs, "") + tail
    ensures '\n' !in PutText(cs, "")
  {
    PutCharsTail(cs, "\"" + tail);
    PutCharsTail(cs, "\"" + "");
    assert "\"" + tail == ("\"" + "") + tail;
  }

  lemma {:induction false} PutNatTail(n: nat, tail: string)
    ensures PutNat(n, tail) == PutNat(n, "") + tail
    ensures '\n' !in PutNat(n, "")
  {
    var d := ['0' + (n % 10) as char];
    assert d + "" == d;
    if n >= 10 {
      PutNatTail(n / 10, d + tail);
      PutNatTail(n / 10, d);
    }
  }

  lemma PutIntTail(n: int, tail: string)
    ensures PutInt(n, tail) == PutInt(n, "") + tail
    ensures '\n' !in PutInt(n, "")
  {
    PutNatTail(if n < 0 then -n else n, tail);
    if n < 0 {
      assert "-" + (PutNat(-n, "") + tail) == ("-" + PutNat(-n, "")) + tail;
    }
  }

  /** What follows a value does not change its text, and its text has no raw newline. */
  lemma {:induction false} PutTail(v: Value, tail: string)
    ensures Put(v, tail) == Put(v, "") + tail
    ensures '\n' !in Put(v, "")
    decreases v, 1
  {
    match v
    case Null =>
    case Number(n) =>
      PutIntTail(n, tail);
    case Text(cs) =>
      PutTextTail(cs, tail);
    case Object(fs) =>
      PutFieldsTail(fs, "}" + tail);
      PutFieldsTail(fs, "}" + "");
      var body := PutFields(fs, "");
      assert "{" + (body + ("}" + tail)) == ("{" + (body + ("}" + ""))) + tail;
  }

  lemma {:induction false} PutFieldsTail(fs: Fields, tail: string)
    ensures PutFields(fs, tail) == PutFields(fs, "") + tail
    ensures '\n' !in PutFields(fs, "")
    decreases fs, 0
  {
    hide Put, PutText;
    match fs
    case End =>
    case Field(name, v, rest) =>
      var after := if rest.End? then "" else "," + PutFields(rest, "");
      var after' := if rest.End? then tail else "," + PutFields(rest, tail);
      PutFieldsTail(rest, tail);
      assert after' == after + tail;
      PutTail(v, after);
      PutTail(v, after');
      PutTextTail(name, ":" + Put(v, after));
      PutTextTail(name, ":" + Put(v, after'));
      Regroup(PutText(name, ""), ":", Put(v, ""), after, tail);
  }

  lemma Regroup(a: string, b: string, c: string, d: string, tail: string)
    requires '\n' !in a && '\n' !in b && '\n' !in c && '\n' !in d
    ensures a + (b + (c + (d + tail))) == (a + (b + (c + d))) + tail
    ensures '\n' !in a + (b + (c + d))
  {
  }

  // ---- text after a value ----

  lemma GetCharExtend(s: string, x: string)
    requires GetChar(s).Some?
    ensures GetChar(s + x) == Some((GetChar(s).value.0, GetChar(s).value.1 + x))
  {
    hide HexValue;
    var t := s + x;
    assert t[1..] == s[1..] + x;
    if |s| >= 2 { assert t[2..] == s[2..] + x; }
    if |s| >= 6 { assert t[6..] == s[6..] + x; }
  }

  lemma {:induction false} GetCharsExtend(s: string, x: string)
    requires GetChars(s).Some?
    ensures GetChars(s + x) == Some((GetChars(s).value.0, GetChars(s).value.1 + x))
    decreases |s|
  {
    hide GetChar;
    if s[0] == '\"' {
      assert (s + x)[1..] == s[1..] + x;
    } else {
      GetCharExtend(s, x);
      GetCharsExtend(GetChar(s).value.1, x);
    }
  }

  lemma GetTextExtend(s: string, x: string)
    requires GetText(s).Some?
    ensures GetText(s + x) == Some((GetText(s).value.0, GetText(s).value.1 + x))
  {
    assert (s + x)[1..] == s[1..] + x;
    GetCharsExtend(s[1..], x);
  }

  lemma {:induction false} GetDigitsExtend(acc: nat, s: string, x: string)
    requires GetDigits(acc, s).1 != ""
    ensures GetDigits(acc, s + x) == (GetDigits(acc, s).0, GetDigits(acc, s).1 + x)
    decreases |s|
  {
    if StartsWithDigit(s) {
      assert (s + x)[1..] == s[1..] + x;
      GetDigitsExtend(acc * 10 + (s[0] - '0') as nat, s[1..], x);
    }
  }

  lemma GetIntExtend(s: string, x: string)
    requires GetInt(s).Some? && GetInt(s).value.1 != ""
    ensures GetInt(s + x) == Some((GetInt(s).value.0, GetInt(s).value.1 + x))
  {
    assert (s + x)[1..] == s[1..] + x;
    if s[0] == '-' {
      GetDigitsExtend(0, s[1..], x);
    } else {
      GetDigitsExtend((s[0] - '0') as nat, s[1..], x);
    }
  }

  /** What follows a value on its line does not change which value is read, but for a number at the very end. */
  lemma {:induction false} GetExtend(s: string, x: string)
    requires Get(s).Some? && (Get(s).value.0.Number? ==> Get(s).value.1 != "")
    ensures Get(s + x) == Some((Get(s).value.0, Get(s).value.1 + x))
    decreases |s|, 1
  {
    hide GetText, GetInt, GetFields;
    var t := s + x;
    if s[0] == 'n' {
      assert t[..4] == s[..4] && t[4..] == s[4..] + x;
    } else if s[0] == '\"' {
      GetTextExtend(s, x);
    } else if s[0] == '{' {
      assert t[1..] == s[1..] + x;
      if |s| >= 2 && s[1] == '}' {
        assert t[2..] == s[2..] + x;
      } else {
        assert |s| >= 2 by { assert s[1..] == "" || |s| >= 2; NoFieldsInNothing(); }
        GetFieldsExtend(s[1..], x);
      }
    } else {
      GetIntExtend(s, x);
    }
  }

  lemma NoFieldsInNothing()
    ensures GetFields("") == None
  {
  }

  lemma {:induction false} GetFieldsExtend(s: string, x: string)
    requires GetFields(s).Some?
    ensures GetFields(s + x) == Some((GetFields(s).value.0, GetFields(s).value.1 + x))
    decreases |s|, 0
  {
    hide GetText, Get;
    GetTextExtend(s, x);
    var s1 := GetText(s).value.1;
    assert (s1 + x)[1..] == s1[1..] + x;
    GetExtend(s1[1..], x);
    var s2 := Get(s1[1..]).value.1;
    assert (s2 + x)[1..] == s2[1..] + x;
    if s2[0] == ',' { GetFieldsExtend(s2[1..], x); }
  }
}
