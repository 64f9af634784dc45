/** Parsing the parameter text of an rpc into its stream flag and type name. */
module ParamTypes {
  import opened Sequences
  import opened Utf8
  import opened ProtoTokens
  import opened ProtoReader

  datatype ParamType = Single(name: Bytes) | Stream(name: Bytes)

  /** ASCII white space as `split_ascii_whitespace` knows it. */
  predicate IsAsciiWhiteSpace(b: Byte) { b == 9 || b == 10 || b == 12 || b == 13 || b == 32 }

  function RunLength(s: Bytes): (n: nat)
    ensures n <= |s| && (s != [] && !IsAsciiWhiteSpace(s[0]) ==> n > 0)
  {
    if s == [] || IsAsciiWhiteSpace(s[0]) then 0 else 1 + RunLength(s[1..])
  }

  function AsciiWords(s: Bytes): seq<Bytes>
    decreases |s|
  {
    if s == [] then []
    else if IsAsciiWhiteSpace(s[0]) then AsciiWords(s[1..])
    else [s[..RunLength(s)]] + AsciiWords(s[RunLength(s)..])
  }

  function TypeNamed(name: Bytes, isStream: bool): ParamType {
    if name == EMPTY then Single(UNIT)
    else if isStream then Stream(Last(Split(name, DOT)))
    else Single(Last(Split(name, DOT)))
  }

  /** The first word that is not "stream" names the type; "stream" before it sets the flag. */
  function FromWords(words: seq<Bytes>, isStream: bool): Option<ParamType> {
    if words == [] then None
    else if words[0] == STREAM then FromWords(words[1..], true)
    else Some(TypeNamed(words[0], isStream))
  }

  function ParamOf(text: Bytes): Option<ParamType> {
    FromWords(AsciiWords(text), false)
  }

  method Parse(text: Bytes) returns (param: Option<ParamType>)
    ensures param == ParamOf(text)
  {
    var isVec := false;
    var name: Option<Bytes> := None;
    var words := AsciiWords(text);
    var i := 0;
    while i < |words|
      invariant i <= |words| && name.None?
      invariant FromWords(words[i..], isVec) == ParamOf(text)
    {
      if words[i] == STREAM {
        isVec := true;
      } else {
        name := Some(words[i]);
        break;
      }
      i := i + 1;
    }
    if name.None? { return None; }
    return Some(TypeNamed(name.value, isVec));
  }

  // ---- printed parameters ----

  /** A parameter as a proto file declares it; a type is a dotted path of names. */
  datatype Declared = One(path: seq<Bytes>) | Many(path: seq<Bytes>) | Nothing

  function Dotted(path: seq<Bytes>): Bytes
    requires path != []
  {
    Join(path, DOT)
  }

  predicate WellFormedPath(path: seq<Bytes>) {
    path != [] && forall i :: 0 <= i < |path| ==> IsWord(path[i]) && DOT !in path[i]
  }

  predicate WellFormed(d: Declared) {
    d.Nothing? || WellFormedPath(d.path)
  }

  function Words(d: Declared): seq<Bytes>
    requires WellFormed(d)
  {
    match d
    case One(path) => [Dotted(path)]
    case Many(path) => [STREAM, Dotted(path)]
    case Nothing => [EMPTY]
  }

  /** The stream flag and last name segment, except that google.protobuf.Empty is the unit type
      whether or not it is streamed. */
  function Expected(d: Declared): ParamType
    requires WellFormed(d)
  {
    match d
    case One(path) => if Dotted(path) == EMPTY then Single(UNIT) else Single(Last(path))
    case Many(path) => if Dotted(path) == EMPTY then Single(UNIT) else Stream(Last(path))
    case Nothing => Single(UNIT)
  }

  /** Bytes none of which is ASCII white space: tab, line feed, form feed, carriage return or space. */
  predicate NoAsciiWhiteSpace(w: Bytes) {
    forall i :: 0 <= i < |w| ==> w[i] !in {9, 10, 12, 13, 32}
  }

  lemma {:induction false} RunLengthOf(w: Bytes, s: Bytes)
    requires NoAsciiWhiteSpace(w)
    requires s == [] || s[0] in {9, 10, 12, 13, 32}
    ensures RunLength(w + s) == |w|
  {
    if w == [] {
      assert w + s == s;
    } else {
      RunLengthOf(w[1..], s);
      assert (w + s)[0] == w[0] && (w + s)[1..] == w[1..] + s;
    }
  }

  lemma WordThenRest(w: Bytes, s: Bytes)
    requires w != [] && NoAsciiWhiteSpace(w)
    requires s == [] || s[0] in {9, 10, 12, 13, 32}
    ensures AsciiWords(w + s) == [w] + AsciiWords(s)
  {
    RunLengthOf(w, s);
    assert (w + s)[0] == w[0];
    assert (w + s)[..|w|] == w && (w + s)[|w|..] == s;
  }

  /** A text without ASCII white space is one word. */
  lemma WordStaysTogether(w: Bytes)
    requires w != [] && NoAsciiWhiteSpace(w)
    ensures AsciiWords(w) == [w]
  {
    WordThenRest(w, []);
    assert w + [] == w;
  }

  lemma {:induction false} RunIsAWord(s: Bytes)
    ensures NoAsciiWhiteSpace(s[..RunLength(s)])
    ensures RunLength(s) < |s| ==> s[RunLength(s)] in {9, 10, 12, 13, 32}
  {
    if s != [] && !IsAsciiWhiteSpace(s[0]) {
      RunIsAWord(s[1..]);
      assert s[..RunLength(s)] == [s[0]] + s[1..][..RunLength(s[1..])];
    }
  }

  lemma SpaceThenRest(b: Byte, s: Bytes)
    requires b in {9, 10, 12, 13, 32}
    ensures AsciiWords([b] + s) == AsciiWords(s)
  {
    assert ([b] + s)[1..] == s;
  }

  lemma RunThenCut(w: Bytes, rest: Bytes, b: Byte, after: Bytes)
    requires w != [] && NoAsciiWhiteSpace(w) && b in {9, 10, 12, 13, 32}
    requires rest == [] || rest[0] in {9, 10, 12, 13, 32}
    requires AsciiWords(rest + [b] + after) == AsciiWords(rest) + AsciiWords(after)
    ensures AsciiWords(w + rest + [b] + after) == AsciiWords(w + rest) + AsciiWords(after)
  {
    hide AsciiWords;
    WordThenRest(w, rest);
    WordThenRest(w, rest + [b] + after);
    assert w + rest + [b] + after == w + (rest + [b] + after);
    assert [w] + (AsciiWords(rest) + AsciiWords(after)) == [w] + AsciiWords(rest) + AsciiWords(after);
  }

  /** ASCII white space separates words wherever it stands, and is no part of any. */
  lemma {:induction false} WhiteSpaceSplitsWords(before: Bytes, b: Byte, after: Bytes)
    requires b in {9, 10, 12, 13, 32}
    ensures AsciiWords(before + [b] + after) == AsciiWords(before) + AsciiWords(after)
    decreases |before|
  {
    if before == [] {
      SpaceThenRest(b, after);
      assert [] + [b] + after == [b] + after && AsciiWords(before) == [];
    } else {
      hide AsciiWords;
      var n := if IsAsciiWhiteSpace(before[0]) then 1 else RunLength(before);
      var w, rest := before[..n], before[n..];
      assert before == w + rest;
      WhiteSpaceSplitsWords(rest, b, after);
      if IsAsciiWhiteSpace(before[0]) {
        SpaceThenRest(before[0], rest);
        SpaceThenRest(before[0], rest + [b] + after);
        assert before + [b] + after == [before[0]] + (rest + [b] + after) && w == [before[0]];
      } else {
        RunIsAWord(before);
        RunThenCut(w, rest, b, after);
      }
    }
  }

  lemma {:induction false} LeadingStreams(words: seq<Bytes>, k: nat, isStream: bool)
    requires k <= |words| && forall i :: 0 <= i < k ==> words[i] == STREAM
    ensures FromWords(words, isStream) == FromWords(words[k..], isStream || k > 0)
  {
    if k > 0 {
      LeadingStreams(words[1..], k - 1, true);
      assert words[1..][k - 1..] == words[k..];
    } else {
      assert words[0..] == words;
    }
  }

  /** What any text is parsed to: the first word that is not "stream" names the type, with its last
      dotted segment or the unit type, and the parameter is a stream exactly when "stream" came before
      it; without such a word there is no parameter. */
  lemma AnyParamIsParsed(text: Bytes, k: nat)
    requires k <= |AsciiWords(text)| && forall i :: 0 <= i < k ==> AsciiWords(text)[i] == Ascii("stream")
    requires k < |AsciiWords(text)| ==> AsciiWords(text)[k] != Ascii("stream")
    ensures if k == |AsciiWords(text)| then ParamOf(text) == None
      else
        var name := AsciiWords(text)[k];
        if name == Ascii("google.protobuf.Empty") then ParamOf(text) == Some(Single(Ascii("()")))
        else ParamOf(text) == Some(if k > 0 then Stream(Last(Split(name, 46))) else Single(Last(Split(name, 46))))
  {
    KeywordsSpell();
    LeadingStreams(AsciiWords(text), k, false);
  }

  lemma {:induction false} DottedIsWord(path: seq<Bytes>)
    requires WellFormedPath(path)
    ensures IsWord(Dotted(path))
  {
    if |path| > 1 { DottedIsWord(path[1..]); }
  }

  /** The text the reader collects for a parameter: its words with a space between. */
  function ParamText(d: Declared): Bytes
    requires WellFormed(d)
  {
    match d
    case One(path) => Dotted(path)
    case Many(path) => STREAM + [SPACE] + Dotted(path)
    case Nothing => EMPTY
  }

  lemma ParamTextWords(d: Declared)
    requires WellFormed(d)
    ensures AsciiWords(ParamText(d)) == Words(d)
  {
    match d
    case One(path) =>
      DottedIsWord(path);
      WordThenRest(Dotted(path), []);
      assert Dotted(path) + [] == Dotted(path);
    case Many(path) =>
      var t := Dotted(path);
      DottedIsWord(path);
      WordThenRest(t, []);
      assert t + [] == t;
      WordThenRest(STREAM, [SPACE] + t);
      assert STREAM + [SPACE] + t == STREAM + ([SPACE] + t);
      assert ([SPACE] + t)[1..] == t;
    case Nothing =>
      WordThenRest(EMPTY, []);
      assert EMPTY + [] == EMPTY;
  }

  lemma OneWordParses(word: Bytes, isStream: bool)
    ensures FromWords([word], isStream) == if word == STREAM then None else Some(TypeNamed(word, isStream))
  {
    if word == STREAM { assert [word][1..] == []; }
  }

  /** A printed parameter parses to its stream flag and last name segment exactly when its type is
      not called "stream", which the parser takes for the keyword. */
  lemma ParamReadsBackExactly(d: Declared)
    requires WellFormed(d)
    ensures ParamOf(ParamText(d)) == Some(Expected(d)) <==> (d.Nothing? || Dotted(d.path) != STREAM)
  {
    ParamTextWords(d);
    match d
    case Nothing =>
    case One(path) =>
      SplitJoin(path, DOT);
      OneWordParses(Dotted(path), false);
    case Many(path) =>
      SplitJoin(path, DOT);
      OneWordParses(Dotted(path), true);
      assert [STREAM, Dotted(path)][1..] == [Dotted(path)];
  }

  /** The stream flag survives exactly when it is not google.protobuf.Empty that is streamed. */
  lemma StreamFlagIsKeptExactly(d: Declared)
    requires WellFormed(d) && (d.Nothing? || Dotted(d.path) != STREAM)
    ensures ParamOf(ParamText(d)).Some?
    ensures (ParamOf(ParamText(d)).value.Stream? <==> d.Many?) <==> !(d.Many? && Dotted(d.path) == EMPTY)
  {
    ParamReadsBackExactly(d);
  }
}
