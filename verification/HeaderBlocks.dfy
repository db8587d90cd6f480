/** Header lines and blocks as text, and what the frame automaton makes of them
    (internal/wni/protocol.go). */
module HeaderBlocks {
  import opened Text
  import opened FrameAutomaton

  function HeaderLine(name: string, val: string): string {
    name + ": " + val + "\n"
  }

  lemma Assoc(a: string, b: string, c: string)
    ensures (a + b) + c == a + (b + c)
  {}

  // ---------- lines ----------

  function AfterLine(o: Step, rest: string): StreamResult {
    match o.signal
    case Quiet => Then(Completions(o.frames), Stream(o.state, rest))
    case Ping => Then(Completions(o.frames) + [Acked], Stream(INITIAL, rest))
    case Crash => StreamResult(o.state, Completions(o.frames), true)
  }

  lemma StreamLine(header: Headers, line: string, rest: string)
    requires '\n' !in line && (line != "" ==> line[|line| - 1] != '\r')
    ensures Stream(State(Lines, header, ""), line + "\n" + rest)
            == AfterLine(EndLine(header, line), rest)
  {
    hide Run, Stream, EndLine;
    var s, o := State(Lines, header, ""), EndLine(header, line);
    RunLine(header, line, "");
    assert line + "\n" + "" == line + "\n";
    assert TrimRightCR(line) == line;
    RunOnNothing(o.state);
    AfterFrames(o);
    StreamByRuns(s, line + "\n", rest);
  }

  lemma RunOnNothing(s: State)
    ensures Run(s, "") == RunResult(s, [], Quiet, "")
  {}

  lemma AfterFrames(o: Step)
    ensures After(o.frames, RunResult(o.state, [], Quiet, "")) == RunResult(o.state, o.frames, Quiet, "")
  {
    assert o.frames + [] == o.frames;
  }

  /** A header name or value of the printer: trimmed, on one line, and free of the 'G' that
      a ping line must contain. */
  predicate Plain(s: string) {
    Trimmed(s) && '\n' !in s && 'G' !in s
  }

  lemma StreamField(header: Headers, name: string, val: string, rest: string)
    requires Plain(name) && ':' !in name && Plain(val) && val != ""
    ensures Stream(State(Lines, header, ""), HeaderLine(name, val) + rest)
            == Stream(State(Lines, header[name := val], ""), rest)
  {
    hide Stream, EndBlock;
    var line := name + ": " + val;
    ContainsNeedsChar(line, PING, 'G') by {
      assert PING[0] == 'G';
    }
    IndexOfIsFirst(line, ':', |name|) by {
      assert line[..|name|] == name;
    }
    assert line[..|name|] == name && line[|name| + 1..] == " " + val;
    TrimmedIsFixed(name);
    TrimmedIsFixed(val);
    StreamLine(header, line, rest);
    NothingThen(Stream(State(Lines, header[name := val], ""), rest));
  }

  lemma NothingThen(r: StreamResult)
    ensures Then(Completions([]), r) == r
  {
    assert Completions([]) + r.events == r.events;
  }

  lemma StreamBlank(header: Headers, rest: string)
    ensures Stream(State(Lines, header, ""), "\n" + rest) == AfterLine(EndBlock(header), rest)
  {
    hide Stream, EndBlock;
    StreamLine(header, "", rest);
    assert "" + "\n" + rest == "\n" + rest;
    ContainsNeedsChar("", PING, 'G') by {
      assert PING[0] == 'G';
    }
  }

  lemma StreamBody(header: Headers, body: string, rest: string)
    ensures AfterLine(Open(header, |body|), body + rest)
            == Then([Completed(Data(header, Get(header, "X-WNI-Data-MD5"), body))],
                    Stream(INITIAL, rest))
  {
    hide Run, Stream;
    var frame := Data(header, Get(header, "X-WNI-Data-MD5"), body);
    if body == "" {
      assert body + rest == rest;
    } else {
      var s := State(Body(|body|), header, "");
      RunBody(header, body, "");
      assert body + "" == body;
      RunOnNothing(INITIAL);
      AfterNothing(Run(s, body));
      assert Run(s, body) == RunResult(INITIAL, [frame], Quiet, "");
      StreamByRuns(s, body, rest);
      NothingThen(Stream(s, body + rest));
    }
  }

  // ---------- any header block ----------

  /** A header field whose line reads back as itself, given that it is no ping. */
  predicate FieldLike(name: string, val: string) {
    && Trimmed(name) && ':' !in name && '\n' !in name
    && Trimmed(val) && '\n' !in val
    && !Contains(name + ": " + val, PING)
  }

  datatype Field = Field(name: string, val: string)

  /** The lines of a block, each ended by LF or by CR LF. */
  function FieldLines(fields: seq<Field>, eol: string): string {
    if fields == [] then ""
    else fields[0].name + ": " + fields[0].val + eol + FieldLines(fields[1..], eol)
  }

  function HeaderOf(fields: seq<Field>, header: Headers): Headers {
    if fields == [] then header else HeaderOf(fields[1..], header[fields[0].name := fields[0].val])
  }

  lemma StreamLineEol(header: Headers, line: string, eol: string, rest: string)
    requires '\n' !in line && (line != "" ==> line[|line| - 1] != '\r')
    requires eol == "\n" || eol == "\r\n"
    ensures Stream(State(Lines, header, ""), line + eol + rest) == AfterLine(EndLine(header, line), rest)
  {
    hide Run, Stream, EndLine;
    if eol == "\n" {
      StreamLine(header, line, rest);
    } else {
      var s, o := State(Lines, header, ""), EndLine(header, line);
      RunLine(header, line + "\r", "");
      assert line + "\r" + "\n" + "" == line + "\r" + "\n";
      assert line + eol + rest == line + "\r" + "\n" + rest;
      TrimCR(line);
      RunOnNothing(o.state);
      AfterFrames(o);
      StreamByRuns(s, line + "\r" + "\n", rest);
    }
  }

  lemma TrimCR(line: string)
    requires line != "" ==> line[|line| - 1] != '\r'
    ensures TrimRightCR(line + "\r") == line
  {
    assert (line + "\r")[..|line|] == line;
  }

  lemma FieldEndsLine(header: Headers, f: Field)
    requires FieldLike(f.name, f.val)
    ensures EndLine(header, f.name + ": " + f.val) == Step(State(Lines, header[f.name := f.val], ""), [], Quiet)
  {
    hide EndBlock, Contains;
    var line := f.name + ": " + f.val;
    IndexOfIsFirst(line, ':', |f.name|) by {
      assert line[..|f.name|] == f.name;
    }
    assert line[..|f.name|] == f.name && line[|f.name| + 1..] == " " + f.val;
    TrimmedIsFixed(f.name);
    TrimmedIsFixed(f.val);
  }

  /** Every block of well-formed fields is read as the map of its fields, a later field of the
      same name replacing the earlier one, and then acted upon by its X-WNI-ID; LF and CR LF
      line ends are equally good. */
  lemma {:induction false} AnyBlockParses(header: Headers, fields: seq<Field>, eol: string, rest: string)
    requires forall i :: 0 <= i < |fields| ==> FieldLike(fields[i].name, fields[i].val)
    requires eol == "\n" || eol == "\r\n"
    ensures Stream(State(Lines, header, ""), FieldLines(fields, eol) + eol + rest)
            == AfterLine(EndBlock(HeaderOf(fields, header)), rest)
    decreases |fields|
  {
    hide Stream, EndBlock, EndLine, FieldLike, Contains;
    if fields == [] {
      StreamLineEol(header, "", eol, rest);
      assert "" + eol + rest == FieldLines(fields, eol) + eol + rest;
      BlankEndsBlock(header);
    } else {
      var f := fields[0];
      var line, tail := f.name + ": " + f.val, FieldLines(fields[1..], eol) + eol + rest;
      assert FieldLines(fields, eol) + eol + rest == line + eol + tail by {
        Assoc(line + eol, FieldLines(fields[1..], eol), eol + rest);
      }
      FieldEndsLine(header, f);
      FieldLineIsPlain(f);
      StreamLineEol(header, line, eol, tail);
      AnyBlockParses(header[f.name := f.val], fields[1..], eol, rest);
      NothingThen(Stream(State(Lines, header[f.name := f.val], ""), tail));
    }
  }

  lemma FieldLineIsPlain(f: Field)
    requires FieldLike(f.name, f.val)
    ensures
      var line := f.name + ": " + f.val;
      '\n' !in line && line != "" && line[|line| - 1] != '\r'
  {
    var line := f.name + ": " + f.val;
    assert line[|line| - 1] == if f.val == "" then ' ' else f.val[|f.val| - 1];
  }

  // ---------- a negative length ----------

  lemma AtoiOfNegative(n: int)
    requires MIN_INT <= n < 0
    ensures Atoi(Signed(n)) == Some(n)
  {
    var s := Signed(n);
    assert s[0] == '-' && s[1..] == Decimal(-n);
  }

  lemma SignedIsFieldLike(n: int)
    requires n < 0
    ensures FieldLike("Content-Length", Signed(n))
  {
    var d, s := Decimal(-n), Signed(n);
    assert s == "-" + d;
    assert forall i :: 0 <= i < |d| ==> IsDigit(d[i]);
    ContainsNeedsChar("Content-Length" + ": " + s, PING, 'G') by {
      assert PING[0] == 'G';
    }
  }

  lemma DataIsFieldLike()
    ensures FieldLike("X-WNI-ID", "Data")
  {
    ContainsNeedsChar("X-WNI-ID" + ": " + "Data", PING, 'G') by {
      assert PING[0] == 'G';
    }
  }

  /** Every Data block that announces a negative length of a 64-bit int crashes. */
  lemma NegativeLengthCrashes(header: Headers, n: int, eol: string, rest: string)
    requires MIN_INT <= n < 0 && (eol == "\n" || eol == "\r\n")
    ensures
      var fields := [Field("X-WNI-ID", "Data"), Field("Content-Length", Signed(n))];
      Stream(State(Lines, header, ""), FieldLines(fields, eol) + eol + rest).crashed
  {
    hide Stream, FieldLike, FieldLines, Atoi, Signed, TrimSpace;
    var fields := [Field("X-WNI-ID", "Data"), Field("Content-Length", Signed(n))];
    DataIsFieldLike();
    SignedIsFieldLike(n);
    AnyBlockParses(header, fields, eol, rest);
    HeaderOfTwo(fields[0], fields[1], header);
    AtoiOfNegative(n);
    FieldTrims("Content-Length", Signed(n));
  }

  lemma HeaderOfTwo(f: Field, g: Field, header: Headers)
    ensures HeaderOf([f, g], header) == header[f.name := f.val][g.name := g.val]
  {
    var h := header[f.name := f.val];
    assert [f, g][1..] == [g] && [g][1..] == [];
    assert HeaderOf([g], h) == HeaderOf([], h[g.name := g.val]);
  }

  lemma FieldTrims(name: string, val: string)
    requires FieldLike(name, val)
    ensures TrimSpace(val) == val
  {
    TrimmedIsFixed(val);
  }

  lemma LinesOfTwo(f: Field, g: Field, eol: string)
    ensures FieldLines([f, g], eol) == f.name + ": " + f.val + eol + (g.name + ": " + g.val + eol)
  {
    var line := g.name + ": " + g.val + eol;
    assert [f, g][1..] == [g] && [g][1..] == [];
    assert FieldLines([g], eol) == line + FieldLines([], eol) == line;
  }

  /** A short example. */
  lemma MinusOneCrashes()
    ensures Stream(INITIAL, "X-WNI-ID: Data\nContent-Length: -1\n\n").crashed
  {
    hide Stream, FieldLines;
    NegativeLengthCrashes(map[], -1, "\n", "");
    assert Signed(-1) == "-1" by {
      assert Decimal(1) == "1";
    }
    hide Signed;
    LinesOfTwo(Field("X-WNI-ID", "Data"), Field("Content-Length", "-1"), "\n");
    assert "X-WNI-ID" + ": " + "Data" + "\n" + ("Content-Length" + ": " + "-1" + "\n") + "\n" + ""
        == "X-WNI-ID: Data\nContent-Length: -1\n\n";
  }

  lemma BlankEndsBlock(header: Headers)
    ensures EndLine(header, "") == EndBlock(header)
  {
    hide EndBlock;
    ContainsNeedsChar("", PING, 'G') by {
      assert PING[0] == 'G';
    }
  }

  // ---------- what each line means ----------

  /** A line with a colon sets the field before the first colon to what follows it, both trimmed,
      unless it holds the ping text. */
  lemma ColonLineActs(header: Headers, name: string, val: string, rest: string)
    requires ':' !in name && '\n' !in name && '\n' !in val && (val != "" ==> val[|val| - 1] != '\r')
    requires !Contains(name + ":" + val, "GET / HTTP/1.1")
    ensures Stream(State(Lines, header, ""), name + ":" + val + "\n" + rest)
            == Stream(State(Lines, header[TrimSpace(name) := TrimSpace(val)], ""), rest)
  {
    hide Stream, TrimSpace, EndBlock, Contains;
    var line := name + ":" + val;
    assert line[|line| - 1] == if val == "" then ':' else val[|val| - 1];
    IndexOfIsFirst(line, ':', |name|) by {
      assert line[..|name|] == name;
    }
    assert line[..|name|] == name && line[|name| + 1..] == val;
    StreamLine(header, line, rest);
    NothingThen(Stream(State(Lines, header[TrimSpace(name) := TrimSpace(val)], ""), rest));
  }

  /** Any other line that is not blank is passed over. */
  lemma OtherLineIgnored(header: Headers, line: string, rest: string)
    requires line != "" && ':' !in line && '\n' !in line && line[|line| - 1] != '\r'
    requires !Contains(line, "GET / HTTP/1.1")
    ensures Stream(State(Lines, header, ""), line + "\n" + rest) == Stream(State(Lines, header, ""), rest)
  {
    hide Stream, TrimSpace, EndBlock, Contains;
    StreamLine(header, line, rest);
    NothingThen(Stream(State(Lines, header, ""), rest));
  }

  /** The ping text anywhere in a line asks for one acknowledgement and forgets the headers. */
  lemma PingLineActs(header: Headers, pre: string, post: string, rest: string)
    requires '\n' !in pre && '\n' !in post && (post != "" ==> post[|post| - 1] != '\r')
    ensures Stream(State(Lines, header, ""), pre + "GET / HTTP/1.1" + post + "\n" + rest)
            == Then([Acked], Stream(State(Lines, map[], ""), rest))
  {
    hide Stream, TrimSpace, EndBlock;
    var line := pre + PING + post;
    assert OccursAt(line, PING, |pre|);
    assert line[|line| - 1] == if post == "" then PING[|PING| - 1] else post[|post| - 1];
    StreamLine(header, line, rest);
    assert Completions([]) + [Acked] == [Acked];
  }

  lemma BlockSteps(header: Headers)
    ensures
      var o, id := EndBlock(header), if "X-WNI-ID" in header then header["X-WNI-ID"] else "";
      && (id == "Response" ==> o == Step(State(Lines, map[], ""), [Response(header)], Quiet))
      && (id == "Keep-Alive" ==> o == Step(State(Lines, map[], ""), [KeepAlive], Quiet))
      && (id != "Response" && id != "Keep-Alive" && id != "Data" ==>
            o == Step(State(Lines, map[], ""), [Unknown(id, header)], Quiet))
      && (id == "Data" && ("Content-Length" !in header || Atoi(TrimSpace(header["Content-Length"])) == None) ==>
            o == Step(State(Lines, map[], ""), [], Quiet))
  {
    hide TrimSpace, Atoi, Open;
  }

  /** The blank line acts on the block by its X-WNI-ID. A Data block without a length that can be
      read gives nothing; an unknown or absent X-WNI-ID is reported as such. */
  lemma BlankLineActs(header: Headers, rest: string)
    ensures
      var r, next := Stream(State(Lines, header, ""), "\n" + rest), Stream(State(Lines, map[], ""), rest);
      var id := if "X-WNI-ID" in header then header["X-WNI-ID"] else "";
      && (id == "Response" ==> r == Then([Completed(Response(header))], next))
      && (id == "Keep-Alive" ==> r == Then([Completed(KeepAlive)], next))
      && (id != "Response" && id != "Keep-Alive" && id != "Data" ==>
            r == Then([Completed(Unknown(id, header))], next))
      && (id == "Data" && ("Content-Length" !in header || Atoi(TrimSpace(header["Content-Length"])) == None) ==>
            r == next)
  {
    hide Stream, TrimSpace, Atoi, EndBlock;
    StreamBlank(header, rest);
    BlockSteps(header);
    NothingThen(Stream(State(Lines, map[], ""), rest));
    OneCompletion(Response(header));
    OneCompletion(KeepAlive);
    OneCompletion(Unknown(if "X-WNI-ID" in header then header["X-WNI-ID"] else "", header));
  }

  lemma OneCompletion(f: Frame)
    ensures Completions([f]) == [Completed(f)]
  {}

  /** The length of a Data block counts its body; what comes after the body is the next block. */
  lemma DataBlockActs(header: Headers, n: int, body: string, rest: string)
    requires "X-WNI-ID" in header && header["X-WNI-ID"] == "Data"
    requires "Content-Length" in header && Atoi(TrimSpace(header["Content-Length"])) == Some(n)
    ensures n == |body| ==>
              Stream(State(Lines, header, ""), "\n" + (body + rest))
              == Then([Completed(Data(header,
                                      if "X-WNI-Data-MD5" in header then header["X-WNI-Data-MD5"] else "", body))],
                      Stream(State(Lines, map[], ""), rest))
    ensures n < 0 ==> Stream(State(Lines, header, ""), "\n" + (body + rest)).crashed
  {
    hide Stream, TrimSpace, Atoi;
    StreamBlank(header, body + rest);
    if n == |body| {
      StreamBody(header, body, rest);
    }
  }

  /** Of several fields with one name the last stands. */
  lemma {:induction false} LastFieldStands(fields: seq<Field>, header: Headers, i: nat)
    requires i < |fields| && forall j :: i < j < |fields| ==> fields[j].name != fields[i].name
    ensures fields[i].name in HeaderOf(fields, header) && HeaderOf(fields, header)[fields[i].name] == fields[i].val
    decreases |fields|
  {
    var tail, h := fields[1..], header[fields[0].name := fields[0].val];
    assert forall j :: 0 <= j < |tail| ==> tail[j] == fields[j + 1];
    if i > 0 {
      LastFieldStands(tail, h, i - 1);
    } else {
      OtherFieldsStay(tail, h, fields[0].name);
    }
  }

  /** A name that no field has is as before. */
  lemma {:induction false} OtherFieldsStay(fields: seq<Field>, header: Headers, name: string)
    requires forall j :: 0 <= j < |fields| ==> fields[j].name != name
    ensures name in HeaderOf(fields, header) <==> name in header
    ensures name in header ==> HeaderOf(fields, header)[name] == header[name]
    decreases |fields|
  {
    if fields != [] {
      OtherFieldsStay(fields[1..], header[fields[0].name := fields[0].val], name);
    }
  }
}
