/**
  Line framing as bufio.Scanner with ScanLines does it, and the loop of readAll
  over it (internal/audit/log.go), for any decoder of one line.
*/
module Lines {
  import opened Options

  /** The scanner's buffer: a line must leave room for its newline. */
  const MAX_LINE_BYTES: nat := 4 * 1024 * 1024

  type Decoder<!T> = string -> Option<T>

  /** Inaccessible: the file exists and cannot be opened or read. */
  datatype ReadError = Inaccessible | Malformed | LineTooLong
  datatype ReadResult<+T> = Ok(items: seq<T>) | Failed(error: ReadError)

  function Utf8Size(c: char): nat {
    if c < 0x80 as char then 1
    else if c < 0x800 as char then 2
    else if (c as int) < 0x10000 then 3
    else 4
  }

  /** The bytes of a character (section 3 of RFC 3629). */
  ghost function Utf8Bytes(c: char): seq<nat> {
    var n := c as nat;
    if n < 0x80 then [n]
    else if n < 0x800 then [0xC0 + n / 64, 0x80 + n % 64]
    else if n < 0x10000 then [0xE0 + n / 4096, 0x80 + n / 64 % 64, 0x80 + n % 64]
    else [0xF0 + n / 262144, 0x80 + n / 4096 % 64, 0x80 + n / 64 % 64, 0x80 + n % 64]
  }

  lemma Utf8SizeIsBytes(c: char)
    ensures Utf8Size(c) == |Utf8Bytes(c)|
    ensures forall b | b in Utf8Bytes(c) :: b < 256
  {
  }

  function ByteLength(s: string): nat {
    if s == "" then 0 else Utf8Size(s[0]) + ByteLength(s[1..])
  }

  /** Where the first line of a text ends. */
  function LineEnd(text: string): (e: nat)
    ensures e <= |text| && '\n' !in text[..e] && (e < |text| ==> text[e] == '\n')
  {
    if text == "" || text[0] == '\n' then 0 else 1 + LineEnd(text[1..])
  }

  function AfterLine(text: string): (rest: string)
    ensures text != "" ==> |rest| < |text|
  {
    var e := LineEnd(text);
    if e < |text| then text[e + 1..] else ""
  }

  function DropCR(line: string): string {
    if line != "" && line[|line| - 1] == '\r' then line[..|line| - 1] else line
  }

  /** At most one carriage return is taken off, at the end. */
  lemma DropCROnce(line: string)
    ensures DropCR(line + "\r") == line
    ensures line == "" || line[|line| - 1] != '\r' ==> DropCR(line) == line
  {
    assert (line + "\r")[..|line|] == line;
  }

  function Prepend<T>(rs: seq<T>, r: ReadResult<T>): ReadResult<T> {
    match r case Ok(more) => Ok(rs + more) case Failed(e) => Failed(e)
  }

  function AndThen<T>(first: ReadResult<T>, rest: ReadResult<T>): ReadResult<T> {
    match first case Ok(rs) => Prepend(rs, rest) case Failed(e) => Failed(e)
  }

  /** What one line contributes: nothing, one item, or an error. */
  function ReadLine<T>(dec: Decoder<T>, line: string): ReadResult<T> {
    if ByteLength(line) >= MAX_LINE_BYTES then Failed(LineTooLong)
    else
      var l := DropCR(line);
      if l == "" then Ok([])
      else match dec(l) case None => Failed(Malformed) case Some(r) => Ok([r])
  }

  /**
    What one line is read as, told by its bytes and its end: too long with 4 MiB
    or more, a carriage return included; else nothing when there is no more than
    that; else what is decoded of it, without the carriage return.
  */
  lemma ReadLineCases<T>(dec: Decoder<T>, line: string)
    requires line == "" || line[|line| - 1] != '\r'
    ensures forall cr | cr in {"", "\r"} ::
              ReadLine(dec, line + cr) ==
              if ByteLength(line + cr) >= 4 * 1024 * 1024 then Failed(LineTooLong)
              else if line == "" then Ok([])
              else if dec(line) == None then Failed(Malformed) else Ok([dec(line).value])
  {
    DropCROnce(line);
    assert line + "" == line;
  }

  lemma ReadPlainLine<T>(dec: Decoder<T>, line: string, r: T)
    requires line != "" && line[|line| - 1] != '\r' && ByteLength(line) < MAX_LINE_BYTES && dec(line) == Some(r)
    ensures ReadLine(dec, line) == Ok([r])
  {
  }

  function DecodeFile<T>(dec: Decoder<T>, text: string): ReadResult<T>
    decreases |text|
  {
    if text == "" then Ok([])
    else AndThen(ReadLine(dec, text[..LineEnd(text)]), DecodeFile(dec, AfterLine(text)))
  }

  lemma {:induction false} DecodeNeverInaccessible<T>(dec: Decoder<T>, text: string)
    ensures DecodeFile(dec, text) != Failed(Inaccessible)
    decreases |text|
  {
    if text != "" { DecodeNeverInaccessible(dec, AfterLine(text)); }
  }

  method ReadAll<T>(dec: Decoder<T>, text: string) returns (result: ReadResult<T>)
    ensures result == DecodeFile(dec, text)
  {
    var out: seq<T> := [];
    var rest := text;
    while rest != ""
      invariant DecodeFile(dec, text) == Prepend(out, DecodeFile(dec, rest))
      decreases |rest|
    {
      var line := rest[..LineEnd(rest)];
      if ByteLength(line) >= MAX_LINE_BYTES {
        return Failed(LineTooLong);
      }
      line := DropCR(line);
      rest := AfterLine(rest);
      if line != "" {
        match dec(line) {
          case None =>
            return Failed(Malformed);
          case Some(r) =>
            PrependTwice(out, [r], DecodeFile(dec, rest));
            out := out + [r];
        }
      } else {
        PrependTwice(out, [], DecodeFile(dec, rest));
        assert out + [] == out;
      }
    }
    return Ok(out);
  }

  lemma PrependTwice<T>(xs: seq<T>, ys: seq<T>, r: ReadResult<T>)
    ensures Prepend(xs, Prepend(ys, r)) == Prepend(xs + ys, r)
  {
    if r.Ok? { assert xs + (ys + r.items) == xs + ys + r.items; }
  }

  // ---- lines ----

  function JoinLines(lines: seq<string>): string {
    if lines == [] then "" else lines[0] + ("\n" + JoinLines(lines[1..]))
  }

  function ReadEach<T>(dec: Decoder<T>, lines: seq<string>): ReadResult<T> {
    if lines == [] then Ok([]) else AndThen(ReadLine(dec, lines[0]), ReadEach(dec, lines[1..]))
  }

  lemma {:induction false} JoinLinesConcat(xs: seq<string>, ys: seq<string>)
    ensures JoinLines(xs + ys) == JoinLines(xs) + JoinLines(ys)
  {
    if xs == [] {
      assert xs + ys == ys;
    } else {
      assert (xs + ys)[1..] == xs[1..] + ys;
      JoinLinesConcat(xs[1..], ys);
    }
  }

  lemma {:induction false} LineEndAt(line: string, rest: string)
    requires '\n' !in line
    ensures LineEnd(line + ("\n" + rest)) == |line|
    ensures AfterLine(line + ("\n" + rest)) == rest
  {
    var text := line + ("\n" + rest);
    if line != "" {
      LineEndAt(line[1..], rest);
      assert text[1..] == line[1..] + ("\n" + rest);
    }
    assert text[|line| + 1..] == rest;
  }

  lemma DecodeFirstLine<T>(dec: Decoder<T>, line: string, tail: string)
    requires '\n' !in line
    ensures DecodeFile(dec, line + ("\n" + tail)) == AndThen(ReadLine(dec, line), DecodeFile(dec, tail))
  {
    LineEndAt(line, tail);
    assert (line + ("\n" + tail))[..|line|] == line;
  }

  lemma AndThenTwice<T>(a: ReadResult<T>, b: ReadResult<T>, c: ReadResult<T>)
    ensures AndThen(a, AndThen(b, c)) == AndThen(AndThen(a, b), c)
  {
    if a.Ok? && b.Ok? { PrependTwice(a.items, b.items, c); }
  }

  /** Line splitting undoes line joining, whatever text follows. */
  lemma {:induction false} DecodeJoined<T>(dec: Decoder<T>, lines: seq<string>, rest: string)
    requires forall l | l in lines :: '\n' !in l
    ensures DecodeFile(dec, JoinLines(lines) + rest) == AndThen(ReadEach(dec, lines), DecodeFile(dec, rest))
  {
    if lines == [] {
      assert JoinLines(lines) + rest == rest;
      AndThenNothing(DecodeFile(dec, rest));
    } else {
      var tail := JoinLines(lines[1..]) + rest;
      var text := JoinLines(lines) + rest;
      assert text == lines[0] + ("\n" + tail);
      calc {
        DecodeFile(dec, text);
        { DecodeFirstLine(dec, lines[0], tail); }
        AndThen(ReadLine(dec, lines[0]), DecodeFile(dec, tail));
        { DecodeJoined(dec, lines[1..], rest); }
        AndThen(ReadLine(dec, lines[0]), AndThen(ReadEach(dec, lines[1..]), DecodeFile(dec, rest)));
        { AndThenTwice(ReadLine(dec, lines[0]), ReadEach(dec, lines[1..]), DecodeFile(dec, rest)); }
        AndThen(AndThen(ReadLine(dec, lines[0]), ReadEach(dec, lines[1..])), DecodeFile(dec, rest));
      }
    }
  }

  lemma AndThenNothing<T>(r: ReadResult<T>)
    ensures AndThen(Ok([]), r) == r
  {
    if r.Ok? { assert [] + r.items == r.items; }
  }

  // ---- appending to any text ----

  /** What stands after the last newline. */
  function LastLine(text: string): string
    decreases |text|
  {
    var e := LineEnd(text);
    if e < |text| then LastLine(text[e + 1..]) else text
  }

  lemma {:induction false} LastLineOfConcat(text: string, line: string)
    requires '\n' !in line
    ensures LastLine(text + line) == LastLine(text) + line
    decreases |text|
  {
    var e := LineEnd(text);
    if e < |text| {
      var rest := text[e + 1..];
      assert text + line == text[..e] + ("\n" + (rest + line));
      LineEndAt(text[..e], rest + line);
      assert (text + line)[e + 1..] == rest + line;
      LastLineOfConcat(rest, line);
    } else {
      assert text[..e] == text;
      NoNewlineNoEnd(text + line);
    }
  }

  lemma {:induction false} NoNewlineNoEnd(text: string)
    requires '\n' !in text
    ensures LineEnd(text) == |text|
  {
    if text != "" { NoNewlineNoEnd(text[1..]); }
  }

  /** What the lines that end in a newline contribute. */
  function DecodeClosed<T>(dec: Decoder<T>, text: string): ReadResult<T>
    decreases |text|
  {
    var e := LineEnd(text);
    if e < |text| then AndThen(ReadLine(dec, text[..e]), DecodeClosed(dec, text[e + 1..])) else Ok([])
  }

  /** A line contributes nothing when it is empty but for a carriage return. */
  predicate Blank(line: string) { DropCR(line) == "" }

  /** A line that does not end in a carriage return is its own item, or is too long. */
  lemma ReadWholeLine<T>(dec: Decoder<T>, line: string, r: T)
    requires line != "" && line[|line| - 1] != '\r' && dec(line) == Some(r)
    ensures ReadLine(dec, line) == if ByteLength(line) >= MAX_LINE_BYTES then Failed(LineTooLong) else Ok([r])
  {
  }

  lemma ReadRecordLine<T>(dec: Decoder<T>, line: string)
    requires ReadLine(dec, line).Ok? && !Blank(line)
    ensures dec(DropCR(line)).Some? && ReadLine(dec, line) == Ok([dec(DropCR(line)).value])
  {
  }

  /** A text that ends in a newline, or has nothing in it, has a blank last line. */
  lemma {:induction false} TerminatedIsBlank(text: string)
    requires text == "" || text[|text| - 1] == '\n'
    ensures LastLine(text) == ""
    decreases |text|
  {
    var e := LineEnd(text);
    if text != "" {
      assert text[..|text|] == text && text[|text| - 1] in text;
      TerminatedIsBlank(text[e + 1..]);
    }
  }

  /** Reading a text is reading its closed lines and then its last. */
  lemma {:induction false} DecodeWithLast<T>(dec: Decoder<T>, text: string)
    ensures DecodeFile(dec, text) == AndThen(DecodeClosed(dec, text), ReadLine(dec, LastLine(text)))
    decreases |text|
  {
    var e := LineEnd(text);
    if e < |text| {
      DecodeWithLast(dec, text[e + 1..]);
      AndThenTwice(ReadLine(dec, text[..e]), DecodeClosed(dec, text[e + 1..]), ReadLine(dec, LastLine(text)));
    } else {
      assert text[..e] == text;
      AndThenNothing(ReadLine(dec, text));
      AndThenIsLast(ReadLine(dec, text));
    }
  }

  lemma AndThenIsLast<T>(r: ReadResult<T>)
    ensures AndThen(r, Ok([])) == r
  {
    if r.Ok? { assert r.items + [] == r.items; }
  }

  /** A line appended to any text runs on from its last line. */
  lemma {:induction false} DecodeAppended<T>(dec: Decoder<T>, text: string, line: string)
    requires '\n' !in line
    ensures DecodeFile(dec, text + (line + "\n"))
            == AndThen(DecodeClosed(dec, text), ReadLine(dec, LastLine(text) + line))
    decreases |text|
  {
    var e := LineEnd(text);
    if e < |text| {
      var rest := text[e + 1..];
      var last := ReadLine(dec, LastLine(text) + line);
      assert text == text[..e] + ("\n" + rest);
      assert text + (line + "\n") == text[..e] + ("\n" + (rest + (line + "\n")));
      DecodeFirstLine(dec, text[..e], rest + (line + "\n"));
      DecodeAppended(dec, rest, line);
      AndThenTwice(ReadLine(dec, text[..e]), DecodeClosed(dec, rest), last);
    } else {
      assert text[..e] == text;
      assert text + (line + "\n") == (text + line) + ("\n" + "");
      DecodeFirstLine(dec, text + line, "");
      AndThenNothing(ReadLine(dec, text + line));
      AndThenIsLast(ReadLine(dec, text + line));
    }
  }
}
