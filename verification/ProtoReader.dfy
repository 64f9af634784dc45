/** Reading the service description out of a proto file: a state machine over tokens whose state
    outlives each line. */
module ProtoReader {
  import opened Sequences
  import opened Utf8
  import opened ProtoTokens
  import opened ProtoTokensReader

  const DOT: Byte := 46
  const SERVICE: Bytes := [115, 101, 114, 118, 105, 99, 101]
  const RPC: Bytes := [114, 112, 99]
  const RETURNS: Bytes := [114, 101, 116, 117, 114, 110, 115]
  const STREAM: Bytes := [115, 116, 114, 101, 97, 109]
  const PING: Bytes := [80, 105, 110, 103]
  const EMPTY: Bytes :=
    [103, 111, 111, 103, 108, 101, 46, 112, 114, 111, 116, 111, 98, 117, 102, 46, 69, 109, 112, 116, 121]
  const UNIT: Bytes := [OPEN, CLOSE]

  datatype ProtoRpc = ProtoRpc(name: Bytes, inputParam: Bytes, outputParam: Bytes)

  datatype ProtoServiceDescription = ProtoServiceDescription(serviceName: Bytes, rpcs: seq<ProtoRpc>)

  datatype CurrentToken = Outside | Service | Rpc | ExpectingInput | ExpectingOutput

  datatype Parse = Parse(
    serviceName: Option<Bytes>,
    current: CurrentToken,
    rpcName: Option<Bytes>,
    input: Bytes,
    output: Bytes,
    rpcs: seq<ProtoRpc>)
  {
    /** An rpc whose parameters are being read has a name, so closing it cannot panic. */
    predicate Sound() {
      current.ExpectingInput? || current.ExpectingOutput? ==> rpcName.Some?
    }
  }

  const FRESH_PARSE := Parse(None, Outside, None, [], [], [])

  function AddWord(text: Bytes, token: Bytes): Bytes {
    (if text == [] then [] else text + [SPACE]) + token
  }

  function Entry(name: Bytes, input: Bytes, output: Bytes): seq<ProtoRpc> {
    if name == PING then [] else [ProtoRpc(name, input, output)]
  }

  function Step(p: Parse, token: Bytes): (q: Parse)
    requires p.Sound()
    ensures q.Sound()
  {
    match p.current
    case Outside =>
      if token == SERVICE then p.(current := Service)
      else if token == RPC then p.(current := Rpc)
      else p
    case Service => p.(serviceName := Some(token), current := Outside)
    case Rpc => p.(rpcName := Some(token), input := [], output := [], current := ExpectingInput)
    case ExpectingInput =>
      if token == [OPEN] then p
      else if token == [CLOSE] then p.(current := ExpectingOutput)
      else p.(input := AddWord(p.input, token))
    case ExpectingOutput =>
      if token == RETURNS || token == [OPEN] || token == [CLOSE] then p
      else
        // the semicolon closes the rpc and is then appended to the output text all the same
        var q := if token == [SEMICOLON] then
            p.(rpcs := p.rpcs + Entry(p.rpcName.value, p.input, p.output), current := Outside)
          else p;
        q.(output := AddWord(p.output, token))
  }

  function Consume(p: Parse, tokens: seq<Bytes>): (q: Parse)
    requires p.Sound()
    ensures q.Sound()
    decreases tokens
  {
    if tokens == [] then p else Consume(Step(p, tokens[0]), tokens[1..])
  }

  /** Text as bytes. */
  function Ascii(s: string): Bytes
    requires forall i :: 0 <= i < |s| ==> s[i] as int < 128
  {
    seq(|s|, i requires 0 <= i < |s| => s[i] as int)
  }

  lemma KeywordsSpell()
    ensures SERVICE == Ascii("service") && RPC == Ascii("rpc") && RETURNS == Ascii("returns")
    ensures STREAM == Ascii("stream") && PING == Ascii("Ping") && EMPTY == Ascii("google.protobuf.Empty")
    ensures UNIT == Ascii("()") && [DOT] == Ascii(".") && [SPACE] == Ascii(" ") && [SLASH] == Ascii("/")
  {
  }

  /** None where the reader panics: no service was found. */
  function Describe(p: Parse): Option<ProtoServiceDescription> {
    match p.serviceName
    case None => None
    case Some(name) => Some(ProtoServiceDescription(name, p.rpcs))
  }

  function FileTokens(lines: seq<Bytes>): seq<Bytes> {
    FlatMap((line: Bytes) => TextTokens(line), lines)
  }

  lemma {:induction false} ConsumeConcat(p: Parse, a: seq<Bytes>, b: seq<Bytes>)
    requires p.Sound()
    ensures Consume(p, a + b) == Consume(Consume(p, a), b)
    decreases a
  {
    if a == [] {
      assert a + b == b;
    } else {
      assert (a + b)[0] == a[0] && (a + b)[1..] == a[1..] + b;
      ConsumeConcat(Step(p, a[0]), a[1..], b);
    }
  }

  // ---- what any rpc is read as ----

  /** The words with a space between them. */
  function Spaced(words: seq<Bytes>): Bytes {
    if words == [] then [] else Join(words, SPACE)
  }

  ghost predicate NoneEmpty(tokens: seq<Bytes>) {
    forall i :: 0 <= i < |tokens| ==> tokens[i] != []
  }

  lemma SpacedOneMore(words: seq<Bytes>, word: Bytes)
    requires NoneEmpty(words)
    ensures Spaced(words + [word]) == AddWord(Spaced(words), word)
  {
    if words == [] {
      assert words + [word] == [word] && [] + word == word;
    } else {
      JoinOneMore(words, word, SPACE);
      assert Join(words, SPACE)[..|words[0]|] == words[0];
    }
  }

  lemma {:induction false} FilterKeepsNoneEmpty(keep: Bytes -> bool, tokens: seq<Bytes>)
    requires NoneEmpty(tokens)
    ensures NoneEmpty(Filter(keep, tokens))
  {
    if tokens != [] { FilterKeepsNoneEmpty(keep, tokens[1..]); }
  }

  lemma FilterOneMore(keep: Bytes -> bool, tokens: seq<Bytes>)
    requires tokens != []
    ensures Filter(keep, tokens) == Filter(keep, DropLast(tokens)) + (if keep(Last(tokens)) then [Last(tokens)] else [])
  {
    assert tokens == DropLast(tokens) + [Last(tokens)];
    FilterConcat(keep, DropLast(tokens), [Last(tokens)]);
    FilterOne(keep, Last(tokens));
  }

  lemma ConsumeOneMore(p: Parse, tokens: seq<Bytes>)
    requires p.Sound() && tokens != []
    ensures Consume(p, tokens) == Step(Consume(p, DropLast(tokens)), Last(tokens))
  {
    assert tokens == DropLast(tokens) + [Last(tokens)];
    var q, last := Consume(p, DropLast(tokens)), [Last(tokens)];
    ConsumeConcat(p, DropLast(tokens), last);
    assert last[1..] == [];
    assert Consume(q, last) == Consume(Step(q, last[0]), last[1..]);
  }

  /** The words of an input: its tokens but the opening parentheses. */
  function InputWords(tokens: seq<Bytes>): seq<Bytes> {
    Filter((t: Bytes) => t != [40], tokens)
  }

  /** The words of an output: its tokens but the parentheses and the word returns. */
  function OutputWords(tokens: seq<Bytes>): seq<Bytes> {
    Filter((t: Bytes) => t != RETURNS && t != [40] && t != [41], tokens)
  }

  lemma InputWordsOneMore(tokens: seq<Bytes>)
    requires tokens != [] && NoneEmpty(tokens)
    ensures NoneEmpty(InputWords(DropLast(tokens)))
    ensures InputWords(tokens) == InputWords(DropLast(tokens)) + (if Last(tokens) != [40] then [Last(tokens)] else [])
  {
    FilterOneMore((t: Bytes) => t != [40], tokens);
    FilterKeepsNoneEmpty((t: Bytes) => t != [40], DropLast(tokens));
  }

  lemma OutputWordsOneMore(tokens: seq<Bytes>)
    requires tokens != [] && NoneEmpty(tokens)
    ensures NoneEmpty(OutputWords(DropLast(tokens)))
    ensures var t := Last(tokens);
      OutputWords(tokens) ==
        OutputWords(DropLast(tokens)) + (if t != RETURNS && t != [40] && t != [41] then [t] else [])
  {
    FilterOneMore((t: Bytes) => t != RETURNS && t != [40] && t != [41], tokens);
    FilterKeepsNoneEmpty((t: Bytes) => t != RETURNS && t != [40] && t != [41], DropLast(tokens));
  }

  lemma InputStep(p: Parse, words: seq<Bytes>, t: Bytes)
    requires p.Sound() && p.current.ExpectingInput? && p.input == Spaced(words) && NoneEmpty(words) && t != [41]
    ensures Step(p, t) == p.(input := Spaced(words + (if t != [40] then [t] else [])))
  {
    hide Spaced, AddWord;
    if t != [40] { SpacedOneMore(words, t); } else { assert words + [] == words; }
  }

  lemma OutputStep(p: Parse, words: seq<Bytes>, t: Bytes)
    requires p.Sound() && p.current.ExpectingOutput? && p.output == Spaced(words) && NoneEmpty(words) && t != [59]
    ensures Step(p, t) ==
      p.(output := Spaced(words + (if t != RETURNS && t != [40] && t != [41] then [t] else [])))
  {
    hide Spaced, AddWord;
    if t != RETURNS && t != [40] && t != [41] { SpacedOneMore(words, t); } else { assert words + [] == words; }
  }

  lemma {:induction false} AnyInputIsCollected(p: Parse, tokens: seq<Bytes>)
    requires p.Sound() && p.current.ExpectingInput? && p.input == []
    requires NoneEmpty(tokens) && [41] !in tokens
    ensures Consume(p, tokens) == p.(input := Spaced(InputWords(tokens)))
    decreases |tokens|
  {
    if tokens != [] {
      hide Step, Consume, Spaced, InputWords;
      var init := DropLast(tokens);
      AnyInputIsCollected(p, init);
      ConsumeOneMore(p, tokens);
      InputWordsOneMore(tokens);
      assert Last(tokens) in tokens;
      InputStep(Consume(p, init), InputWords(init), Last(tokens));
    }
  }

  lemma {:induction false} AnyOutputIsCollected(p: Parse, tokens: seq<Bytes>)
    requires p.Sound() && p.current.ExpectingOutput? && p.output == []
    requires NoneEmpty(tokens) && [59] !in tokens
    ensures Consume(p, tokens) == p.(output := Spaced(OutputWords(tokens)))
    decreases |tokens|
  {
    if tokens != [] {
      hide Step, Consume, Spaced, OutputWords;
      var init := DropLast(tokens);
      AnyOutputIsCollected(p, init);
      ConsumeOneMore(p, tokens);
      OutputWordsOneMore(tokens);
      assert Last(tokens) in tokens;
      OutputStep(Consume(p, init), OutputWords(init), Last(tokens));
    }
  }

  lemma ConsumeTwo(p: Parse, a: Bytes, b: Bytes)
    requires p.Sound()
    ensures Consume(p, [a, b]) == Step(Step(p, a), b)
  {
    ConsumeOneMore(p, [a, b]);
    ConsumeOneMore(p, [a]);
    assert DropLast([a, b]) == [a] && DropLast([a]) == [];
  }

  /** Whatever tokens stand in an rpc, braces and options included: the input is what comes before the
      first closing parenthesis, the output what comes before the first semicolon after it, which alone
      ends the rpc. */
  lemma AnyRpcIsRead(p: Parse, name: Bytes, ins: seq<Bytes>, outs: seq<Bytes>)
    requires p.Sound() && p.current.Outside?
    requires NoneEmpty(ins) && NoneEmpty(outs) && [41] !in ins && [59] !in outs
    ensures var q := Consume(p, [RPC, name] + ins + [[41]] + outs + [[59]]);
      && q.current.Outside? && q.serviceName == p.serviceName
      && q.rpcs == p.rpcs + (if name == Ascii("Ping") then [] else
           [ProtoRpc(name, Spaced(InputWords(ins)), Spaced(OutputWords(outs)))])
  {
    var p1 := p.(current := ExpectingInput, rpcName := Some(name), input := [], output := []);
    ConsumeTwo(p, RPC, name);
    AnyInputIsCollected(p1, ins);
    ConsumeConcat(p, [RPC, name], ins);
    var head := [RPC, name] + ins;
    var p2 := Consume(p, head + [[41]]);
    ConsumeOneMore(p, head + [[41]]);
    assert DropLast(head + [[41]]) == head;
    AnyOutputIsCollected(p2, outs);
    ConsumeConcat(p, head + [[41]], outs);
    var all := head + [[41]] + outs;
    ConsumeOneMore(p, all + [[59]]);
    assert DropLast(all + [[59]]) == all;
    KeywordsSpell();
  }

  /** A service header names the service, also if there was one before. */
  lemma ServiceHeaderIsRead(p: Parse, name: Bytes)
    requires p.Sound() && p.current.Outside?
    ensures Consume(p, [SERVICE, name]) == p.(serviceName := Some(name))
  {
    ConsumeTwo(p, SERVICE, name);
  }

  lemma FileTokensConcat(a: seq<Bytes>, b: seq<Bytes>)
    ensures FileTokens(a + b) == FileTokens(a) + FileTokens(b)
  {
    FlatMapConcat((line: Bytes) => TextTokens(line), a, b);
  }

  ghost function Pending(next: Option<Bytes>, rest: seq<Bytes>): seq<Bytes> {
    if next.Some? then [next.value] + rest else rest
  }

  lemma ConsumeNext(p: Parse, token: Bytes, rest: seq<Bytes>)
    requires p.Sound()
    ensures Consume(p, [token] + rest) == Consume(Step(p, token), rest)
  {
    assert ([token] + rest)[1..] == rest;
  }

  /** The variables the nested loops over lines and tokens update. */
  class ParserState {
    var serviceName: Option<Bytes>
    var current: CurrentToken
    var rpcName: Option<Bytes>
    var input: Bytes
    var output: Bytes
    var rpcs: seq<ProtoRpc>

    constructor ()
      ensures View() == FRESH_PARSE
    {
      serviceName, current, rpcName, input, output, rpcs := None, Outside, None, [], [], [];
    }

    function View(): Parse
      reads this
    {
      Parse(serviceName, current, rpcName, input, output, rpcs)
    }

    method Accept(token: Bytes)
      requires View().Sound()
      modifies this
      ensures View() == Step(old(View()), token)
    {
      match current
      case Outside =>
        if token == SERVICE { current := Service; }
        if token == RPC { current := Rpc; }
      case Rpc =>
        rpcName, input, output := Some(token), [], [];
        current := ExpectingInput;
      case ExpectingInput =>
        if token == [OPEN] { return; }
        if token == [CLOSE] { current := ExpectingOutput; return; }
        if |input| > 0 { input := input + [SPACE]; }
        input := input + token;
      case ExpectingOutput =>
        if token == RETURNS || token == [OPEN] || token == [CLOSE] { return; }
        if token == [SEMICOLON] {
          if rpcName.value != PING {
            rpcs := rpcs + [ProtoRpc(rpcName.value, input, output)];
          }
          current := Outside;
        }
        if |output| > 0 { output := output + [SPACE]; }
        output := output + token;
      case Service =>
        serviceName := Some(token);
        current := Outside;
    }

    method AcceptLine(line: Bytes)
      requires View().Sound() && ValidUtf8(line)
      modifies this
      ensures View().Sound() && View() == Consume(old(View()), TextTokens(line))
    {
      var reader := new ProtoTokensReader(line);
      var next := reader.GetNext();
      while next.Some?
        invariant fresh(reader) && reader.Valid() && View().Sound()
        invariant next.None? ==> reader.Remaining() == []
        invariant Consume(View(), Pending(next, reader.Remaining())) == Consume(old(View()), TextTokens(line))
        decreases |reader.Remaining()| + if next.Some? then 1 else 0
      {
        ConsumeNext(View(), next.value, reader.Remaining());
        Accept(next.value);
        next := reader.GetNext();
      }
    }
  }

  lemma FileTokensOneMoreLine(lines: seq<Bytes>, i: nat)
    requires i < |lines|
    ensures FileTokens(lines[..i + 1]) == FileTokens(lines[..i]) + TextTokens(lines[i])
  {
    assert lines[..i + 1] == lines[..i] + [lines[i]];
    FileTokensConcat(lines[..i], [lines[i]]);
    FlatMapOne((line: Bytes) => TextTokens(line), lines[i]);
  }

  method ReadProtoFile(lines: seq<Bytes>) returns (description: Option<ProtoServiceDescription>)
    requires AllValidUtf8(lines)
    ensures description == Describe(Consume(FRESH_PARSE, FileTokens(lines)))
  {
    var state := new ParserState();
    for i := 0 to |lines|
      invariant fresh(state) && state.View().Sound()
      invariant state.View() == Consume(FRESH_PARSE, FileTokens(lines[..i]))
    {
      FileTokensOneMoreLine(lines, i);
      ConsumeConcat(FRESH_PARSE, FileTokens(lines[..i]), TextTokens(lines[i]));
      state.AcceptLine(lines[i]);
    }
    assert lines[..|lines|] == lines;
    if state.serviceName.None? { return None; }
    return Some(ProtoServiceDescription(state.serviceName.value, state.rpcs));
  }
}
