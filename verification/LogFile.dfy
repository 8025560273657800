/** The log file as text: one record a line (internal/audit/log.go). */
module LogFile {
  import opened Options
  import opened Json
  import opened Records
  import opened Chain
  import opened Lines

  predicate IsJsonSpace(c: char) { c == ' ' || c == '\t' || c == '\r' || c == '\n' }

  function SkipSpace(s: string): string {
    if s != "" && IsJsonSpace(s[0]) then SkipSpace(s[1..]) else s
  }

  /** Only the first value on a line is decoded; what follows it is not looked at. */
  function DecodeLine(line: string): Option<Record> {
    var (v, _) :- Get(SkipSpace(line));
    RecordFromJson(v)
  }

  /** White space before the value plays no part. */
  lemma {:induction false} LeadingSpaceIgnored(pre: string, line: string)
    requires forall c | c in pre :: c in {' ', '\t', '\n', '\r'}
    ensures DecodeLine(pre + line) == DecodeLine(line)
    ensures line == "" || line[0] !in {' ', '\t', '\n', '\r'} ==> SkipSpace(line) == line
  {
    if pre == "" {
      assert pre + line == line;
    } else {
      assert pre[0] in pre && forall c | c in pre[1..] :: c in pre;
      assert (pre + line)[1..] == pre[1..] + line;
      LeadingSpaceIgnored(pre[1..], line);
    }
  }

  /** What reading the log file gives; an absent file is an accessible empty one. */
  function ReadLog(accessible: bool, text: string): ReadResult<Record> {
    if accessible then DecodeFile(DecodeLine, text) else Failed(Inaccessible)
  }

  method ReadFile(accessible: bool, text: string) returns (result: ReadResult<Record>)
    ensures result == ReadLog(accessible, text)
  {
    if !accessible {
      return Failed(Inaccessible);
    }
    result := ReadAll(DecodeLine, text);
  }

  // ---- what appendLine writes ----

  function LinesOf(rs: seq<Record>): (ls: seq<string>)
    ensures |ls| == |rs|
  {
    if rs == [] then [] else [Line(rs[0])] + LinesOf(rs[1..])
  }

  function FileText(rs: seq<Record>): string { JoinLines(LinesOf(rs)) }

  lemma {:induction false} LinesOfConcat(xs: seq<Record>, ys: seq<Record>)
    ensures LinesOf(xs + ys) == LinesOf(xs) + LinesOf(ys)
  {
    if xs == [] {
      assert xs + ys == ys;
    } else {
      assert (xs + ys)[1..] == xs[1..] + ys;
      LinesOfConcat(xs[1..], ys);
    }
  }

  lemma FileTextConcat(xs: seq<Record>, ys: seq<Record>)
    ensures FileText(xs + ys) == FileText(xs) + FileText(ys)
  {
    LinesOfConcat(xs, ys);
    JoinLinesConcat(LinesOf(xs), LinesOf(ys));
  }

  /** Appending one line to the file is appending one record to the sequence. */
  lemma FileTextAppend(rs: seq<Record>, r: Record)
    ensures FileText(rs + [r]) == FileText(rs) + (Line(r) + "\n")
  {
    FileTextConcat(rs, [r]);
    assert LinesOf([r]) == [Line(r)];
    assert JoinLines([Line(r)]) == Line(r) + ("\n" + "");
  }

  predicate Short(r: Record) { ByteLength(Line(r)) < MAX_LINE_BYTES }

  predicate AllShort(rs: seq<Record>) { forall r | r in rs :: Short(r) }

  lemma LineShape(r: Record)
    ensures Line(r) != "" && Line(r)[0] == '{' && Line(r)[|Line(r)| - 1] == '}' && '\n' !in Line(r)
  {
    var v := RecordJson(r);
    PutTail(v, "");
    PutFieldsTail(v.fields, "}" + "");
    assert Line(r) == "{" + (PutFields(v.fields, "") + ("}" + ""));
  }

  lemma DecodeLineInverts(r: Record, rest: string)
    requires !StartsWithDigit(rest)
    ensures DecodeLine(Line(r) + rest) == Some(r)
  {
    LineShape(r);
    PutTail(RecordJson(r), rest);
    GetPut(RecordJson(r), rest);
    RecordRoundTrip(r);
    hide Line, Get, RecordFromJson;
    assert (Line(r) + rest)[0] == '{';
  }

  lemma ReadLineInverts(r: Record, line: string)
    requires line == Line(r)
    ensures ReadLine(DecodeLine, line) == if Short(r) then Ok([r]) else Failed(LineTooLong)
  {
    LineShape(r);
    DecodeLineInverts(r, "");
    assert line + "" == line;
  }

  lemma {:induction false} LinesHaveNoNewline(rs: seq<Record>)
    ensures forall l | l in LinesOf(rs) :: '\n' !in l
  {
    if rs != [] {
      LineShape(rs[0]);
      LinesHaveNoNewline(rs[1..]);
    }
  }

  /** Reading the lines of records gives the records, or fails if any line is too long. */
  lemma {:induction false} ReadEachInverts(rs: seq<Record>)
    ensures ReadEach(DecodeLine, LinesOf(rs)) == if AllShort(rs) then Ok(rs) else Failed(LineTooLong)
  {
    hide Line, Short, ReadLine;
    if rs != [] {
      ReadLineInverts(rs[0], LinesOf(rs)[0]);
      ReadEachInverts(rs[1..]);
      assert rs == [rs[0]] + rs[1..];
      assert LinesOf(rs)[1..] == LinesOf(rs[1..]);
      assert AllShort(rs) <==> Short(rs[0]) && AllShort(rs[1..]);
    }
  }

  /**
    Reading back what was written gives the same records exactly when every
    line is under the scanner's limit, which Append does not check; otherwise the
    whole log is unreadable.
  */
  lemma ReadBackIffShort(rs: seq<Record>)
    ensures DecodeFile(DecodeLine, FileText(rs)) == if AllShort(rs) then Ok(rs) else Failed(LineTooLong)
    ensures AllShort(rs) <==> forall r | r in rs :: ByteLength(Line(r)) < 4 * 1024 * 1024
  {
    hide Line, ReadEach, JoinLines, LinesOf;
    LinesHaveNoNewline(rs);
    DecodeJoined(DecodeLine, LinesOf(rs), "");
    ReadEachInverts(rs);
    assert FileText(rs) + "" == FileText(rs) && rs + [] == rs;
  }

  /** Every recomputed hash matches after a read-back: the chain verifies in the file iff in memory. */
  lemma ReadBackKeepsChain(h: Digest, rs: seq<Record>)
    requires AllShort(rs)
    ensures var back := DecodeFile(DecodeLine, FileText(rs)); back.Ok? && (Chained(h, back.items) <==> Chained(h, rs))
  {
    ReadBackIffShort(rs);
  }

  lemma ReadJoinedLine(a: Record, b: Record, line: string)
    requires line == Line(a) + Line(b) && ByteLength(line) < MAX_LINE_BYTES
    ensures ReadLine(DecodeLine, line) == Ok([a]) && '\n' !in line
  {
    hide Line, DecodeLine, ByteLength, ReadLine;
    LineShape(a);
    LineShape(b);
    DecodeLineInverts(a, Line(b));
    assert line[|line| - 1] == Line(b)[|Line(b)| - 1];
    ReadPlainLine(DecodeLine, line, a);
  }

  /**
    A torn append that lost only its newline makes exactly the next record
    invisible: two lines run together decode as the first record alone.
  */
  lemma LostNewlineHidesNext(rs: seq<Record>, a: Record, b: Record, more: seq<Record>)
    requires AllShort(rs + more)
    requires ByteLength(Line(a) + Line(b)) < MAX_LINE_BYTES
    ensures DecodeFile(DecodeLine, FileText(rs) + (Line(a) + FileText([b] + more))) == Ok(rs + [a] + more)
  {
    hide Short, JoinLines, LinesOf, ReadEach, ReadLine, DecodeFile, ByteLength;
    assert forall r | r in rs :: r in rs + more;
    assert forall r | r in more :: r in rs + more;
    var line := Line(a) + Line(b);
    LinesHaveNoNewline(rs);
    DecodeJoined(DecodeLine, LinesOf(rs), Line(a) + FileText([b] + more));
    ReadEachInverts(rs);
    ReadJoinedLine(a, b, line);
    DecodeFirstLine(DecodeLine, line, FileText(more));
    SplitJoined(a, b, more);
    ReadBackIffShort(more);
    assert rs + ([a] + more) == rs + [a] + more;
  }

  lemma SplitJoined(a: Record, b: Record, more: seq<Record>)
    ensures Line(a) + FileText([b] + more) == (Line(a) + Line(b)) + ("\n" + FileText(more))
  {
    LinesOfConcat([b], more);
    assert LinesOf([b]) == [Line(b)];
    var ls := [Line(b)] + LinesOf(more);
    assert ls[1..] == LinesOf(more);
  }

  // ---- appending to a text Append did not write ----

  lemma {:induction false} SkipSpaceExtend(s: string, x: string)
    requires SkipSpace(s) != ""
    ensures SkipSpace(s + x) == SkipSpace(s) + x
  {
    if s != "" && IsJsonSpace(s[0]) {
      assert (s + x)[1..] == s[1..] + x;
      SkipSpaceExtend(s[1..], x);
    }
  }

  /** A line that decodes does so to the same record whatever is written behind it. */
  lemma DecodeLineExtend(s: string, x: string)
    requires DecodeLine(s).Some?
    ensures DecodeLine(s + x) == DecodeLine(s)
  {
    var t := SkipSpace(s);
    assert t != "";
    SkipSpaceExtend(s, x);
    GetExtend(t, x);
  }

  /** A line written behind an unfinished one: alone when that is blank, invisible when it holds a record. */
  lemma ReadRunOnLine(l: string, r: Record, line: string)
    requires ReadLine(DecodeLine, l).Ok? && line == Line(r)
    ensures ReadLine(DecodeLine, l + line) ==
            if ByteLength(l + line) >= MAX_LINE_BYTES then Failed(LineTooLong)
            else if Blank(l) then Ok([r]) else ReadLine(DecodeLine, l)
  {
    hide Line, ByteLength, DecodeLine, ReadLine;
    LineShape(r);
    DecodeLineInverts(r, "");
    assert line + "" == line;
    var joined := l + line;
    assert joined[|joined| - 1] == '}';
    if Blank(l) {
      assert l == "" || l == "\r";
      if l == "" { assert joined == line; } else { BlankLeads(line); }
      ReadWholeLine(DecodeLine, joined, r);
    } else {
      ReadRecordLine(DecodeLine, l);
      var d := DropCR(l);
      var x := (if d == l then "" else "\r") + line;
      assert joined == d + x;
      DecodeLineExtend(d, x);
      ReadWholeLine(DecodeLine, joined, DecodeLine(d).value);
    }
  }

  lemma BlankLeads(line: string)
    ensures DecodeLine("\r" + line) == DecodeLine(line)
  {
    assert ("\r" + line)[1..] == line;
  }

  /**
    A record appended to any text that reads: it is read back when the last line
    of the text was blank, and otherwise it is not there, its line being read as
    the end of the one before it.
  */
  lemma ReadAfterAppend(text: string, rs: seq<Record>, r: Record)
    requires DecodeFile(DecodeLine, text) == Ok(rs)
    ensures DecodeFile(DecodeLine, text + (Line(r) + "\n")) ==
            if ByteLength(LastLine(text) + Line(r)) >= MAX_LINE_BYTES then Failed(LineTooLong)
            else if Blank(LastLine(text)) then Ok(rs + [r]) else Ok(rs)
  {
    LineShape(r);
    hide Line, DecodeLine, ByteLength, ReadLine, DecodeClosed;
    var l := LastLine(text);
    DecodeWithLast(DecodeLine, text);
    DecodeAppended(DecodeLine, text, Line(r));
    ReadRunOnLine(l, r, Line(r));
    if Blank(l) { BlankReadsNothing(l); }
  }

  lemma BlankReadsNothing(l: string)
    requires Blank(l) && ReadLine(DecodeLine, l).Ok?
    ensures ReadLine(DecodeLine, l) == Ok([])
  {
  }

  lemma {:induction false} FileTextIsClosed(rs: seq<Record>)
    ensures LastLine(FileText(rs)) == ""
  {
    if rs != [] {
      var n := |rs| - 1;
      FileTextAppend(rs[..n], rs[n]);
      assert rs == rs[..n] + [rs[n]];
    }
    TerminatedIsBlank(FileText(rs));
  }

  /** The file of some records without its last newline reads as if it had it. */
  lemma ReadUnterminated(rs: seq<Record>, a: Record)
    requires AllShort(rs + [a])
    ensures DecodeFile(DecodeLine, FileText(rs) + Line(a)) == Ok(rs + [a])
    ensures LastLine(FileText(rs) + Line(a)) == Line(a)
  {
    assert forall r | r in rs :: r in rs + [a];
    assert a in rs + [a];
    LineShape(a);
    ReadLineInverts(a, Line(a));
    LinesHaveNoNewline(rs);
    hide Line, DecodeLine, ReadLine, Short;
    FileTextIsClosed(rs);
    LastLineOfConcat(FileText(rs), Line(a));
    DecodeJoined(DecodeLine, LinesOf(rs), Line(a));
    ReadEachInverts(rs);
    DecodeWithLast(DecodeLine, Line(a));
    LineAlone(Line(a));
    AndThenNothing(ReadLine(DecodeLine, Line(a)));
  }

  lemma LineAlone(line: string)
    requires '\n' !in line
    ensures LastLine(line) == line && DecodeClosed(DecodeLine, line) == Ok([])
  {
    NoNewlineNoEnd(line);
  }
}
