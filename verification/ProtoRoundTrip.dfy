/** What the proto reader promises as a whole: the result depends on the tokens alone, and printing a
    service and reading it back gives the service. */
module ProtoRoundTrip {
  import opened Sequences
  import opened Utf8
  import opened ProtoTokens
  import opened ProtoTokensReader
  import opened ProtoReader
  import opened ParamTypes

  /** What `read_proto_file` returns for a file with these lines. */
  function ReadLines(lines: seq<Bytes>): Option<ProtoServiceDescription> {
    Describe(Consume(FRESH_PARSE, FileTokens(lines)))
  }

  // ---- layout independence ----

  ghost predicate AreLines(lines: seq<Bytes>) {
    forall i :: 0 <= i < |lines| ==> NEWLINE !in lines[i]
  }

  lemma OneLine(line: Bytes)
    requires NEWLINE !in line
    ensures TextTokens(line) == if IsCommentLine(line) then [] else Tokenize(line)
  {
    SplitOneLine(line);
    OnlyLine(line);
    FlatMapOne((l: Bytes) => Tokenize(l), line);
  }

  lemma {:induction false} FileTokensAreThoseOfTheOtherLines(lines: seq<Bytes>)
    requires AreLines(lines)
    ensures FileTokens(lines) == LinesTokens(WithoutComments(lines))
  {
    if lines != [] {
      OneLine(lines[0]);
      FileTokensAreThoseOfTheOtherLines(lines[1..]);
      var rest := WithoutComments(lines[1..]);
      if IsCommentLine(lines[0]) {
        assert WithoutComments(lines) == rest;
      } else {
        assert ([lines[0]] + rest)[1..] == rest;
        assert LinesTokens([lines[0]] + rest) == Tokenize(lines[0]) + LinesTokens(rest);
      }
    }
  }

  /** The lines, comments left out, are some layout of the tokens ts: gaps of any white space and any
      line breaks between them, the only condition being that two words do not touch. */
  ghost predicate LaysOut(lines: seq<Bytes>, ts: seq<Bytes>) {
    var kept := WithoutComments(lines);
    if kept == [] then ts == []
    else exists gaps :: ProperLayout(ts, gaps) && Render(ts, gaps) == Join(kept, NEWLINE)
  }

  /** The reader sees the tokens ts exactly in the layouts of ts. */
  lemma FileTokensAreWhatTheLinesLayOut(lines: seq<Bytes>, ts: seq<Bytes>)
    requires AreLines(lines)
    ensures FileTokens(lines) == ts <==> LaysOut(lines, ts)
  {
    FileTokensAreThoseOfTheOtherLines(lines);
    var kept := WithoutComments(lines);
    if kept != [] {
      LineBreaksKeepTokens(kept);
      TokensAreWhatTheLineLaysOut(Join(kept, NEWLINE), ts);
    }
  }

  /** Breaking lines or spacing differently, or adding whole-line comments, changes nothing. */
  lemma LayoutDoesNotMatter(lines: seq<Bytes>, others: seq<Bytes>, ts: seq<Bytes>)
    requires AreLines(lines) && AreLines(others)
    requires LaysOut(lines, ts) && LaysOut(others, ts)
    ensures ReadLines(lines) == ReadLines(others)
  {
    FileTokensAreWhatTheLinesLayOut(lines, ts);
    FileTokensAreWhatTheLinesLayOut(others, ts);
  }

  lemma CommentLinesDoNotMatter(before: seq<Bytes>, comment: Bytes, after: seq<Bytes>)
    requires NEWLINE !in comment && IsCommentLine(comment)
    ensures ReadLines(before + [comment] + after) == ReadLines(before + after)
  {
    OneLine(comment);
    FileTokensConcat(before + [comment], after);
    FileTokensConcat(before, [comment]);
    FileTokensConcat(before, after);
    FlatMapOne((line: Bytes) => TextTokens(line), comment);
    assert FileTokens(before) + [] == FileTokens(before);
  }

  /** Whatever white space stands before its two slashes. */
  lemma IndentedCommentsDoNotMatter(before: seq<Bytes>, gap: seq<Scalar>, text: Bytes, after: seq<Bytes>)
    requires AllWhiteSpace(gap) && 10 !in EncodeAll(gap) && 10 !in text
    ensures ReadLines(before + [EncodeAll(gap) + [47, 47] + text] + after) == ReadLines(before + after)
  {
    SlashesAreNotTrimmed(gap, text);
    CommentLinesDoNotMatter(before, EncodeAll(gap) + [47, 47] + text, after);
  }

  lemma {:induction false} SkippedOutside(p: Parse, junk: seq<Bytes>)
    requires p.current.Outside? && SERVICE !in junk && RPC !in junk
    ensures Consume(p, junk) == p
    decreases junk
  {
    if junk != [] {
      assert junk[0] in junk;
      SkippedOutside(p, junk[1..]);
    }
  }

  /** Outside a service or rpc header any other tokens can be added: messages, options, imports. */
  lemma OtherTokensOutsideDoNotMatter(before: seq<Bytes>, junk: seq<Bytes>, after: seq<Bytes>)
    requires Consume(FRESH_PARSE, before).current.Outside?
    requires SERVICE !in junk && RPC !in junk
    ensures Consume(FRESH_PARSE, before + junk + after) == Consume(FRESH_PARSE, before + after)
  {
    ConsumeConcat(FRESH_PARSE, before + junk, after);
    ConsumeConcat(FRESH_PARSE, before, junk);
    ConsumeConcat(FRESH_PARSE, before, after);
    SkippedOutside(Consume(FRESH_PARSE, before), junk);
  }

  // ---- printing ----

  datatype DeclaredRpc = DeclaredRpc(name: Bytes, input: Declared, output: Declared)

  datatype DeclaredService = DeclaredService(name: Bytes, rpcs: seq<DeclaredRpc>)

  predicate WellFormedRpc(r: DeclaredRpc) {
    IsWord(r.name) && WellFormed(r.input) && WellFormed(r.output)
  }

  /** No type is called by a word the reader gives a meaning to at that place. */
  predicate AvoidsKeywords(r: DeclaredRpc)
    requires WellFormedRpc(r)
  {
    && (r.input.Nothing? || Dotted(r.input.path) != STREAM)
    && (r.output.Nothing? || (Dotted(r.output.path) != STREAM && Dotted(r.output.path) != RETURNS))
  }

  predicate WellFormedRpcs(rpcs: seq<DeclaredRpc>) {
    forall i :: 0 <= i < |rpcs| ==> WellFormedRpc(rpcs[i])
  }

  predicate AllAvoidKeywords(rpcs: seq<DeclaredRpc>)
    requires WellFormedRpcs(rpcs)
  {
    forall i :: 0 <= i < |rpcs| ==> AvoidsKeywords(rpcs[i])
  }

  function RpcTokens(r: DeclaredRpc): seq<Bytes>
    requires WellFormedRpc(r)
  {
    [RPC, r.name, [OPEN]] + Words(r.input) + [[CLOSE], RETURNS, [OPEN]] + Words(r.output) + [[CLOSE], [SEMICOLON]]
  }

  function RpcsTokens(rpcs: seq<DeclaredRpc>): seq<Bytes>
    requires WellFormedRpcs(rpcs)
  {
    if rpcs == [] then [] else
      assert WellFormedRpc(rpcs[0]);
      RpcTokens(rpcs[0]) + RpcsTokens(rpcs[1..])
  }

  function ServiceTokens(s: DeclaredService): seq<Bytes>
    requires WellFormedRpcs(s.rpcs)
  {
    [SERVICE, s.name, [OPEN_BRACE]] + RpcsTokens(s.rpcs) + [[CLOSE_BRACE]]
  }

  // ---- reading one rpc ----

  /** What is collected for an output parameter: a type called "returns" is skipped as the keyword. */
  function OutputText(d: Declared): Bytes
    requires WellFormed(d)
  {
    if d.Nothing? || Dotted(d.path) != RETURNS then ParamText(d)
    else if d.One? then [] else STREAM
  }

  lemma ThreeSteps(p: Parse, a: Bytes, b: Bytes, c: Bytes)
    requires p.Sound()
    ensures Consume(p, [a, b, c]) == Step(Step(Step(p, a), b), c)
  {
    assert [a, b, c][1..] == [b, c] && [b, c][1..] == [c];
    assert Consume(Step(p, a), [b, c]) == Consume(Step(Step(p, a), b), [c]);
  }

  lemma WordIsNoDelimiter(w: Bytes)
    requires IsWord(w)
    ensures w != [OPEN] && w != [CLOSE] && w != [SEMICOLON]
  {
    assert IsWordByte(w[0]);
  }

  lemma InputIsCollected(p: Parse, d: Declared)
    requires p.Sound() && p.current.ExpectingInput? && p.input == [] && WellFormed(d)
    ensures Consume(p, Words(d)) == p.(input := ParamText(d))
  {
    if !d.Nothing? {
      DottedIsWord(d.path);
      WordIsNoDelimiter(Dotted(d.path));
    }
    if d.Many? { ConsumeTwo(p, STREAM, Dotted(d.path)); }
    else { assert Consume(p, Words(d)) == Consume(Step(p, Words(d)[0]), []); }
  }

  lemma OutputIsCollected(p: Parse, d: Declared)
    requires p.Sound() && p.current.ExpectingOutput? && p.output == [] && WellFormed(d)
    ensures Consume(p, Words(d)) == p.(output := OutputText(d))
  {
    if !d.Nothing? {
      DottedIsWord(d.path);
      WordIsNoDelimiter(Dotted(d.path));
    }
    if d.Many? { ConsumeTwo(p, STREAM, Dotted(d.path)); }
    else { assert Consume(p, Words(d)) == Consume(Step(p, Words(d)[0]), []); }
  }

  /** Reading an rpc adds its entry and nothing of the rpc before it: the semicolon that was appended
      to the output text after the previous entry was made is cleared by the next name. */
  lemma RpcIsRead(p: Parse, r: DeclaredRpc)
    requires p.Sound() && p.current.Outside? && WellFormedRpc(r)
    ensures Consume(p, RpcTokens(r)) == Parse(p.serviceName, Outside, Some(r.name), ParamText(r.input),
      AddWord(OutputText(r.output), [SEMICOLON]), p.rpcs + Entry(r.name, ParamText(r.input), OutputText(r.output)))
  {
    var head, mid, tail := [RPC, r.name, [OPEN]], [[CLOSE], RETURNS, [OPEN]], [[CLOSE], [SEMICOLON]];
    var p1 := Parse(p.serviceName, ExpectingInput, Some(r.name), [], [], p.rpcs);
    ThreeSteps(p, RPC, r.name, [OPEN]);
    var p2 := p1.(input := ParamText(r.input));
    InputIsCollected(p1, r.input);
    var p3 := p2.(current := ExpectingOutput);
    ThreeSteps(p2, [CLOSE], RETURNS, [OPEN]);
    var p4 := p3.(output := OutputText(r.output));
    OutputIsCollected(p3, r.output);
    ConsumeTwo(p4, [CLOSE], [SEMICOLON]);
    ConsumeConcat(p, head, Words(r.input));
    ConsumeConcat(p, head + Words(r.input), mid);
    ConsumeConcat(p, head + Words(r.input) + mid, Words(r.output));
    ConsumeConcat(p, head + Words(r.input) + mid + Words(r.output), tail);
  }

  function Kept(rpcs: seq<DeclaredRpc>): seq<DeclaredRpc> {
    if rpcs == [] then []
    else (if rpcs[0].name == PING then [] else [rpcs[0]]) + Kept(rpcs[1..])
  }

  ghost predicate ReadsAs(entry: ProtoRpc, r: DeclaredRpc)
    requires WellFormedRpc(r)
  {
    && entry.name == r.name
    && ParamOf(entry.inputParam) == Some(Expected(r.input))
    && ParamOf(entry.outputParam) == Some(Expected(r.output))
  }

  lemma NothingLeftToParse()
    ensures ParamOf([]) == None && ParamOf(STREAM) == None
  {
    WordThenRest(STREAM, []);
    assert STREAM + [] == STREAM;
    assert AsciiWords(STREAM) == [STREAM];
    assert FromWords([STREAM][1..], true) == None;
  }

  /** A printed rpc reads back to its name and parameters exactly when its types avoid the keywords. */
  lemma RpcReadsBackExactly(r: DeclaredRpc)
    requires WellFormedRpc(r)
    ensures ReadsAs(ProtoRpc(r.name, ParamText(r.input), OutputText(r.output)), r) <==> AvoidsKeywords(r)
  {
    ParamReadsBackExactly(r.input);
    if !r.output.Nothing? && Dotted(r.output.path) == RETURNS {
      NothingLeftToParse();
    } else {
      ParamReadsBackExactly(r.output);
    }
  }

  const GOOGLE: Bytes := [103, 111, 111, 103, 108, 101]
  const PROTOBUF: Bytes := [112, 114, 111, 116, 111, 98, 117, 102]
  const EMPTY_NAME: Bytes := [69, 109, 112, 116, 121]
  const EMPTY_PATH: seq<Bytes> := [GOOGLE, PROTOBUF, EMPTY_NAME]

  lemma ThreePartsDotted(a: Bytes, b: Bytes, c: Bytes)
    ensures Dotted([a, b, c]) == a + [DOT] + (b + [DOT] + c)
  {
    assert [a, b, c][1..] == [b, c] && [b, c][1..] == [c];
    assert Join([b, c], DOT) == b + [DOT] + Join([c], DOT);
  }

  lemma PathOfWords(path: seq<Bytes>)
    requires |path| == 3 && IsWord(path[0]) && IsWord(path[1]) && IsWord(path[2])
    requires DOT !in path[0] && DOT !in path[1] && DOT !in path[2]
    ensures WellFormedPath(path)
  {
  }

  lemma EmptyPathIsDotted()
    ensures WellFormedPath(EMPTY_PATH) && Dotted(EMPTY_PATH) == EMPTY
  {
    hide Join, WellFormedPath, Dotted;
    ThreePartsDotted(GOOGLE, PROTOBUF, EMPTY_NAME);
    PathOfWords(EMPTY_PATH);
  }

  /** The inputs that show it: a type called stream and an output type called returns leave nothing to
      parse, and a streamed google.protobuf.Empty comes back as the plain unit type. */
  lemma KeywordTypesAreLost()
    ensures ParamOf(ParamText(One([STREAM]))) == None
    ensures ParamOf(OutputText(One([RETURNS]))) == None
    ensures WellFormedPath(EMPTY_PATH) && ParamOf(ParamText(Many(EMPTY_PATH))) == Some(Single(UNIT))
  {
    NothingLeftToParse();
    EmptyPathIsDotted();
    ParamReadsBackExactly(Many(EMPTY_PATH));
  }

  ghost predicate AllReadAs(entries: seq<ProtoRpc>, rpcs: seq<DeclaredRpc>)
    requires WellFormedRpcs(rpcs)
  {
    |entries| == |rpcs| && forall i :: 0 <= i < |rpcs| ==> ReadsAs(entries[i], rpcs[i])
  }

  /** The entries the reader makes of these rpcs. */
  function Entries(rpcs: seq<DeclaredRpc>): seq<ProtoRpc>
    requires WellFormedRpcs(rpcs)
  {
    if rpcs == [] then [] else
      assert WellFormedRpc(rpcs[0]);
      Entry(rpcs[0].name, ParamText(rpcs[0].input), OutputText(rpcs[0].output)) + Entries(rpcs[1..])
  }

  lemma OneMoreReads(entry: ProtoRpc, r: DeclaredRpc, entries: seq<ProtoRpc>, rpcs: seq<DeclaredRpc>)
    requires WellFormedRpc(r) && WellFormedRpcs(rpcs)
    ensures WellFormedRpcs([r] + rpcs)
    ensures AllReadAs([entry] + entries, [r] + rpcs) <==> ReadsAs(entry, r) && AllReadAs(entries, rpcs)
  {
    var es, rs := [entry] + entries, [r] + rpcs;
    assert es[0] == entry && es[1..] == entries && rs[0] == r && rs[1..] == rpcs;
    if AllReadAs(es, rs) {
      forall i | 0 <= i < |rpcs| ensures ReadsAs(entries[i], rpcs[i]) { assert ReadsAs(es[i + 1], rs[i + 1]); }
    }
  }

  lemma OneMoreAvoids(r: DeclaredRpc, rpcs: seq<DeclaredRpc>)
    requires WellFormedRpc(r) && WellFormedRpcs(rpcs) && WellFormedRpcs([r] + rpcs)
    ensures AllAvoidKeywords([r] + rpcs) <==> AvoidsKeywords(r) && AllAvoidKeywords(rpcs)
  {
    var rs := [r] + rpcs;
    assert rs[0] == r && rs[1..] == rpcs;
    if AllAvoidKeywords(rs) {
      forall i | 0 <= i < |rpcs| ensures AvoidsKeywords(rpcs[i]) { assert AvoidsKeywords(rs[i + 1]); }
    }
  }

  /** The entries read as the rpcs that are kept exactly when the kept ones avoid the keywords. */
  lemma {:induction false} EntriesReadAsDeclared(rpcs: seq<DeclaredRpc>)
    requires WellFormedRpcs(rpcs)
    ensures WellFormedRpcs(Kept(rpcs))
    ensures AllReadAs(Entries(rpcs), Kept(rpcs)) <==> AllAvoidKeywords(Kept(rpcs))
  {
    if rpcs != [] {
      assert WellFormedRpc(rpcs[0]);
      EntriesReadAsDeclared(rpcs[1..]);
      if rpcs[0].name != PING {
        RpcReadsBackExactly(rpcs[0]);
        OneMoreReads(ProtoRpc(rpcs[0].name, ParamText(rpcs[0].input), OutputText(rpcs[0].output)), rpcs[0],
          Entries(rpcs[1..]), Kept(rpcs[1..]));
        OneMoreAvoids(rpcs[0], Kept(rpcs[1..]));
      } else {
        assert Entries(rpcs) == Entries(rpcs[1..]) && Kept(rpcs) == Kept(rpcs[1..]);
      }
    }
  }

  lemma {:induction false} RpcsAreRead(p: Parse, rpcs: seq<DeclaredRpc>)
    requires p.Sound() && p.current.Outside? && WellFormedRpcs(rpcs)
    ensures var q := Consume(p, RpcsTokens(rpcs));
      q.current.Outside? && q.serviceName == p.serviceName && q.rpcs == p.rpcs + Entries(rpcs)
    decreases rpcs
  {
    hide Step, RpcTokens, ParamText, OutputText, Entry;
    if rpcs != [] {
      assert WellFormedRpc(rpcs[0]);
      var q := Consume(p, RpcTokens(rpcs[0]));
      var first, rest := Entry(rpcs[0].name, ParamText(rpcs[0].input), OutputText(rpcs[0].output)), Entries(rpcs[1..]);
      assert q.current.Outside? && q.serviceName == p.serviceName && q.rpcs == p.rpcs + first by {
        RpcIsRead(p, rpcs[0]);
      }
      RpcsAreRead(q, rpcs[1..]);
      ConsumeConcat(p, RpcTokens(rpcs[0]), RpcsTokens(rpcs[1..]));
      assert p.rpcs + (first + rest) == p.rpcs + first + rest;
    }
  }

  /** Round trip, at the level of tokens. */
  lemma ServiceReadsBack(s: DeclaredService)
    requires WellFormedRpcs(s.rpcs)
    ensures WellFormedRpcs(Kept(s.rpcs))
    ensures var d := Describe(Consume(FRESH_PARSE, ServiceTokens(s)));
      && d.Some? && d.value.serviceName == s.name
      && (AllReadAs(d.value.rpcs, Kept(s.rpcs)) <==> AllAvoidKeywords(Kept(s.rpcs)))
  {
    EntriesReadAsDeclared(s.rpcs);
    var head := [SERVICE, s.name, [OPEN_BRACE]];
    ThreeSteps(FRESH_PARSE, SERVICE, s.name, [OPEN_BRACE]);
    var p := Consume(FRESH_PARSE, head);
    RpcsAreRead(p, s.rpcs);
    ConsumeConcat(FRESH_PARSE, head, RpcsTokens(s.rpcs));
    ConsumeConcat(FRESH_PARSE, head + RpcsTokens(s.rpcs), [[CLOSE_BRACE]]);
    SkippedOutside(Consume(p, RpcsTokens(s.rpcs)), [[CLOSE_BRACE]]);
    assert p.rpcs + Entries(s.rpcs) == Entries(s.rpcs);
  }

  /** Round trip, at the level of files: however the printed service is laid out and commented, the
      reader gives back its name and, in order, every rpc but `Ping` with its parameters, exactly when
      the types of these rpcs avoid the keywords. */
  lemma PrintedServiceReadsBack(s: DeclaredService, lines: seq<Bytes>)
    requires WellFormedRpcs(s.rpcs)
    requires AreLines(lines) && LaysOut(lines, ServiceTokens(s))
    ensures WellFormedRpcs(Kept(s.rpcs))
    ensures var d := ReadLines(lines);
      && d.Some? && d.value.serviceName == s.name
      && (AllReadAs(d.value.rpcs, Kept(s.rpcs)) <==> AllAvoidKeywords(Kept(s.rpcs)))
  {
    FileTokensAreWhatTheLinesLayOut(lines, ServiceTokens(s));
    ServiceReadsBack(s);
  }

  // ---- one layout there always is ----

  ghost predicate AllTokens(ts: seq<Bytes>) {
    forall i :: 0 <= i < |ts| ==> IsToken(ts[i])
  }

  lemma WordsAreTokens(d: Declared)
    requires WellFormed(d)
    ensures AllTokens(Words(d))
  {
    if !d.Nothing? { DottedIsWord(d.path); }
  }

  lemma TokensConcat(a: seq<Bytes>, b: seq<Bytes>)
    requires AllTokens(a) && AllTokens(b)
    ensures AllTokens(a + b)
  {
  }

  lemma RpcTokensAreTokens(r: DeclaredRpc)
    requires WellFormedRpc(r)
    ensures AllTokens(RpcTokens(r))
  {
    var head, mid, tail := [RPC, r.name, [OPEN]], [[CLOSE], RETURNS, [OPEN]], [[CLOSE], [SEMICOLON]];
    WordsAreTokens(r.input);
    WordsAreTokens(r.output);
    TokensConcat(head, Words(r.input));
    TokensConcat(head + Words(r.input), mid);
    TokensConcat(head + Words(r.input) + mid, Words(r.output));
    TokensConcat(head + Words(r.input) + mid + Words(r.output), tail);
  }

  lemma {:induction false} RpcsTokensAreTokens(rpcs: seq<DeclaredRpc>)
    requires WellFormedRpcs(rpcs)
    ensures AllTokens(RpcsTokens(rpcs))
  {
    if rpcs != [] {
      assert WellFormedRpc(rpcs[0]);
      RpcTokensAreTokens(rpcs[0]);
      RpcsTokensAreTokens(rpcs[1..]);
    }
  }

  lemma {:induction false} RenderedOnOneLine(ts: seq<Bytes>, gaps: seq<Bytes>)
    requires AllTokens(ts) && |gaps| == |ts| + 1
    requires forall i :: 0 <= i < |gaps| ==> NEWLINE !in gaps[i]
    ensures NEWLINE !in Render(ts, gaps)
  {
    if ts != [] {
      RenderedOnOneLine(ts[1..], gaps[1..]);
      assert IsToken(ts[0]);
      assert NEWLINE !in ts[0];
    }
  }

  function PrintedLine(s: DeclaredService): Bytes
    requires WellFormedRpcs(s.rpcs)
  {
    Render(ServiceTokens(s), SpaceGaps(|ServiceTokens(s)|))
  }

  lemma StartsWithLetterIsNoComment(line: Bytes)
    requires line != [] && line[0] == SERVICE[0]
    ensures !IsCommentLine(line)
  {
    assert WhiteSpaceLength(line) == 0;
    assert TrimStart(line) == line;
  }

  /** Printing on a single line is such a layout, so the round trip is never vacuous. */
  lemma PrintedLineReadsBack(s: DeclaredService)
    requires IsWord(s.name) && WellFormedRpcs(s.rpcs)
    ensures LaysOut([PrintedLine(s)], ServiceTokens(s))
    ensures WellFormedRpcs(Kept(s.rpcs))
    ensures var d := ReadLines([PrintedLine(s)]);
      && d.Some? && d.value.serviceName == s.name
      && (AllReadAs(d.value.rpcs, Kept(s.rpcs)) <==> AllAvoidKeywords(Kept(s.rpcs)))
  {
    var ts, line := ServiceTokens(s), PrintedLine(s);
    var gaps := SpaceGaps(|ts|);
    RpcsTokensAreTokens(s.rpcs);
    assert AllTokens([SERVICE, s.name, [OPEN_BRACE]]) && AllTokens([[CLOSE_BRACE]]);
    assert AllTokens(ts);
    SpacesKeepWordsApart(ts, gaps);
    RenderedOnOneLine(ts, gaps);
    assert ts[0] == SERVICE && line[0] == SERVICE[0];
    StartsWithLetterIsNoComment(line);
    OnlyLine(line);
    assert Join([line], NEWLINE) == line;
    PrintedServiceReadsBack(s, [line]);
  }
}
