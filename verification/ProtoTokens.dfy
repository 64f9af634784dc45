/** The byte tokenizer of proto files. */
module ProtoTokens {
  import opened Sequences
  import opened Utf8

  const NEWLINE: Byte := 10
  const SPACE: Byte := 32
  const OPEN: Byte := 40
  const CLOSE: Byte := 41
  const SLASH: Byte := 47
  const SEMICOLON: Byte := 59
  const OPEN_BRACE: Byte := 123
  const CLOSE_BRACE: Byte := 125

  predicate IsSpace(b: Byte) { b <= 32 }

  predicate IsDelimiter(b: Byte) {
    b == OPEN || b == CLOSE || b == SEMICOLON || b == OPEN_BRACE || b == CLOSE_BRACE
  }

  predicate IsWordByte(b: Byte) { !IsSpace(b) && !IsDelimiter(b) }

  predicate IsBlank(s: Bytes) { forall i :: 0 <= i < |s| ==> IsSpace(s[i]) }

  predicate IsWord(t: Bytes) { t != [] && forall i :: 0 <= i < |t| ==> IsWordByte(t[i]) }

  predicate IsToken(t: Bytes) { IsWord(t) || (|t| == 1 && IsDelimiter(t[0])) }

  function WordLength(s: Bytes): (n: nat)
    ensures n <= |s|
    ensures forall i :: 0 <= i < n ==> IsWordByte(s[i])
    ensures n < |s| ==> !IsWordByte(s[n])
  {
    if s == [] || !IsWordByte(s[0]) then 0 else 1 + WordLength(s[1..])
  }

  function Tokenize(s: Bytes): seq<Bytes>
    decreases |s|
  {
    if s == [] then []
    else if IsSpace(s[0]) then Tokenize(s[1..])
    else if IsDelimiter(s[0]) then [[s[0]]] + Tokenize(s[1..])
    else var n := WordLength(s); [s[..n]] + Tokenize(s[n..])
  }

  // ---- layouts: an independent account of which texts carry which tokens ----

  /** The tokens with gaps[i] before the i-th and the last gap after all of them. */
  function Render(ts: seq<Bytes>, gaps: seq<Bytes>): Bytes
    requires |gaps| == |ts| + 1
  {
    if ts == [] then gaps[0] else gaps[0] + ts[0] + Render(ts[1..], gaps[1..])
  }

  predicate WordsApart(ts: seq<Bytes>, gaps: seq<Bytes>)
    requires |gaps| == |ts| + 1
  {
    |ts| <= 1 || ((IsWord(ts[0]) && IsWord(ts[1]) ==> gaps[1] != []) && WordsApart(ts[1..], gaps[1..]))
  }

  /** Gaps are white space, and two words never touch: so every word is a maximal run. */
  predicate ProperLayout(ts: seq<Bytes>, gaps: seq<Bytes>) {
    && |gaps| == |ts| + 1
    && (forall i :: 0 <= i < |ts| ==> IsToken(ts[i]))
    && (forall i :: 0 <= i < |gaps| ==> IsBlank(gaps[i]))
    && WordsApart(ts, gaps)
  }

  function Gaps(s: Bytes): (g: seq<Bytes>)
    ensures g != []
    decreases |s|
  {
    if s == [] then [[]]
    else if IsSpace(s[0]) then var g := Gaps(s[1..]); [[s[0]] + g[0]] + g[1..]
    else if IsDelimiter(s[0]) then [[]] + Gaps(s[1..])
    else [[]] + Gaps(s[WordLength(s)..])
  }

  lemma {:induction false} BlankPrefix(gap: Bytes, s: Bytes)
    requires IsBlank(gap)
    ensures Tokenize(gap + s) == Tokenize(s)
  {
    if gap == [] {
      assert gap + s == s;
    } else {
      BlankPrefix(gap[1..], s);
      assert (gap + s)[0] == gap[0] && (gap + s)[1..] == gap[1..] + s;
    }
  }

  lemma {:induction false} WordLengthOf(w: Bytes, s: Bytes)
    requires forall i :: 0 <= i < |w| ==> IsWordByte(w[i])
    requires s == [] || !IsWordByte(s[0])
    ensures WordLength(w + s) == |w|
  {
    if w == [] {
      assert w + s == s;
    } else {
      WordLengthOf(w[1..], s);
      assert (w + s)[0] == w[0] && (w + s)[1..] == w[1..] + s;
    }
  }

  lemma TokenPrefix(t: Bytes, s: Bytes)
    requires IsToken(t)
    requires IsWord(t) ==> s == [] || !IsWordByte(s[0])
    ensures Tokenize(t + s) == [t] + Tokenize(s)
  {
    assert (t + s)[0] == t[0];
    if IsWord(t) {
      WordLengthOf(t, s);
      assert (t + s)[..|t|] == t && (t + s)[|t|..] == s;
    } else {
      assert (t + s)[1..] == s && [t[0]] == t;
    }
  }

  /** Any layout of the tokens reads back as these tokens. */
  lemma {:induction false} RenderedTokensReadBack(ts: seq<Bytes>, gaps: seq<Bytes>)
    requires ProperLayout(ts, gaps)
    ensures Tokenize(Render(ts, gaps)) == ts
  {
    if ts == [] {
      BlankPrefix(gaps[0], []);
      assert gaps[0] + [] == gaps[0];
    } else {
      var rest := Render(ts[1..], gaps[1..]);
      RenderedTokensReadBack(ts[1..], gaps[1..]);
      BlankPrefix(gaps[0], ts[0] + rest);
      assert gaps[0] + ts[0] + rest == gaps[0] + (ts[0] + rest);
      if gaps[1] != [] {
        assert rest[0] == gaps[1][0];
      } else if |ts| > 1 {
        assert rest[0] == ts[1][0];
      }
      TokenPrefix(ts[0], rest);
      assert ts == [ts[0]] + ts[1..];
    }
  }

  lemma WordAfterRunHasGap(rest: Bytes)
    requires rest == [] || !IsWordByte(rest[0])
    ensures Tokenize(rest) != [] && IsWord(Tokenize(rest)[0]) ==> Gaps(rest)[0] != []
  {
    if rest != [] && IsDelimiter(rest[0]) { assert !IsWordByte(Tokenize(rest)[0][0]); }
  }

  lemma TokenBeforeLayout(t: Bytes, ts: seq<Bytes>, gaps: seq<Bytes>)
    requires IsToken(t) && ProperLayout(ts, gaps)
    requires ts != [] && IsWord(t) && IsWord(ts[0]) ==> gaps[0] != []
    ensures ProperLayout([t] + ts, [[]] + gaps)
  {
    var us, hs := [t] + ts, [[]] + gaps;
    assert us[1..] == ts && hs[1..] == gaps;
  }

  lemma NoGap(t: Bytes, rest: Bytes)
    ensures [] + t + rest == t + rest
  {
  }

  lemma TokenBeforeRendered(t: Bytes, ts: seq<Bytes>, gaps: seq<Bytes>)
    requires |gaps| == |ts| + 1
    ensures Render([t] + ts, [[]] + gaps) == t + Render(ts, gaps)
  {
    var us, hs := [t] + ts, [[]] + gaps;
    assert us[1..] == ts && hs[1..] == gaps;
    NoGap(t, Render(ts, gaps));
  }

  lemma SpaceBeforeLayout(b: Byte, ts: seq<Bytes>, gaps: seq<Bytes>)
    requires IsSpace(b) && ProperLayout(ts, gaps)
    ensures ProperLayout(ts, [[b] + gaps[0]] + gaps[1..])
    ensures Render(ts, [[b] + gaps[0]] + gaps[1..]) == [b] + Render(ts, gaps)
  {
    var hs := [[b] + gaps[0]] + gaps[1..];
    assert hs[1..] == gaps[1..];
    if ts == [] { assert gaps[1..] == []; }
  }

  /** Every line is a proper layout of its own tokens. */
  lemma {:induction false} LineIsALayoutOfItsTokens(s: Bytes)
    ensures ProperLayout(Tokenize(s), Gaps(s)) && Render(Tokenize(s), Gaps(s)) == s
    decreases |s|
  {
    if s != [] {
      var n := if IsWordByte(s[0]) then WordLength(s) else 1;
      var t, rest := s[..n], s[n..];
      assert s == t + rest && (n == 1 ==> t == [s[0]]);
      LineIsALayoutOfItsTokens(rest);
      if IsSpace(s[0]) {
        SpaceBeforeLayout(s[0], Tokenize(rest), Gaps(rest));
      } else {
        if IsWord(t) { WordAfterRunHasGap(rest); }
        TokenBeforeLayout(t, Tokenize(rest), Gaps(rest));
        TokenBeforeRendered(t, Tokenize(rest), Gaps(rest));
      }
    }
  }

  /** The tokens of a line are exactly the tokens it is a proper layout of. */
  lemma TokensAreWhatTheLineLaysOut(s: Bytes, ts: seq<Bytes>)
    ensures Tokenize(s) == ts <==> exists gaps :: ProperLayout(ts, gaps) && Render(ts, gaps) == s
  {
    LineIsALayoutOfItsTokens(s);
    forall gaps | ProperLayout(ts, gaps) && Render(ts, gaps) == s
      ensures Tokenize(s) == ts
    {
      RenderedTokensReadBack(ts, gaps);
    }
  }

  lemma {:induction false} FilterBlank(s: Bytes)
    requires IsBlank(s)
    ensures Filter((b: Byte) => !IsSpace(b), s) == []
  {
    if s != [] { FilterBlank(s[1..]); }
  }

  lemma {:induction false} FilterToken(s: Bytes)
    requires forall i :: 0 <= i < |s| ==> !IsSpace(s[i])
    ensures Filter((b: Byte) => !IsSpace(b), s) == s
  {
    if s != [] {
      FilterToken(s[1..]);
      assert s == [s[0]] + s[1..];
    }
  }

  lemma {:induction false} RenderDropsNothing(ts: seq<Bytes>, gaps: seq<Bytes>)
    requires ProperLayout(ts, gaps)
    ensures Flatten(ts) == Filter((b: Byte) => !IsSpace(b), Render(ts, gaps))
  {
    var keep := (b: Byte) => !IsSpace(b);
    FilterBlank(gaps[0]);
    if ts != [] {
      RenderDropsNothing(ts[1..], gaps[1..]);
      FilterToken(ts[0]);
      var rest := Render(ts[1..], gaps[1..]);
      FilterConcat(keep, gaps[0] + ts[0], rest);
      FilterConcat(keep, gaps[0], ts[0]);
      assert [] + ts[0] == ts[0];
    }
  }

  function SpaceGaps(n: nat): seq<Bytes> {
    [[]] + seq(n, _ => [SPACE])
  }

  lemma {:induction false} SpacesKeepWordsApart(ts: seq<Bytes>, gaps: seq<Bytes>)
    requires |gaps| == |ts| + 1
    requires forall i :: 0 < i < |gaps| ==> gaps[i] == [SPACE]
    ensures WordsApart(ts, gaps)
  {
    if |ts| > 1 { SpacesKeepWordsApart(ts[1..], gaps[1..]); }
  }

  /** Lossless and canonical: the tokens concatenate to the line without its white space, and the
      tokens joined with single spaces give the same tokens again. */
  lemma TokensAreLosslessAndCanonical(s: Bytes)
    ensures forall i :: 0 <= i < |Tokenize(s)| ==> IsToken(Tokenize(s)[i])
    ensures Flatten(Tokenize(s)) == Filter((b: Byte) => !IsSpace(b), s)
    ensures Tokenize(Render(Tokenize(s), SpaceGaps(|Tokenize(s)|))) == Tokenize(s)
  {
    LineIsALayoutOfItsTokens(s);
    RenderDropsNothing(Tokenize(s), Gaps(s));
    SpacesKeepWordsApart(Tokenize(s), SpaceGaps(|Tokenize(s)|));
    RenderedTokensReadBack(Tokenize(s), SpaceGaps(|Tokenize(s)|));
  }

  // ---- breaking text into pieces ----

  /** Text between a space or a token and the rest of a line. */
  predicate Leads(t: Bytes, s: Bytes) {
    IsBlank(t) || (IsToken(t) && (IsWord(t) ==> s == [] || !IsWordByte(s[0])))
  }

  lemma LeadingPiece(s: Bytes) returns (n: nat)
    requires s != []
    ensures 0 < n <= |s| && Leads(s[..n], s[n..]) && (IsWord(s[..n]) ==> IsWordByte(s[n - 1]))
  {
    n := if IsWordByte(s[0]) then WordLength(s) else 1;
  }

  lemma StillLeads(t: Bytes, rest: Bytes, b: Bytes)
    requires Leads(t, rest) && b != [] && (rest != [] || !IsWord(t) || !IsWordByte(b[0]))
    ensures Leads(t, rest + b)
  {
    if rest != [] { assert (rest + b)[0] == rest[0]; } else { assert rest + b == b; }
  }

  lemma CutBehindPiece(t: Bytes, rest: Bytes, b: Bytes)
    requires Leads(t, rest) && Leads(t, rest + b)
    requires Tokenize(rest + b) == Tokenize(rest) + Tokenize(b)
    ensures Tokenize(t + (rest + b)) == Tokenize(t + rest) + Tokenize(b)
  {
    hide Tokenize;
    if IsBlank(t) {
      BlankPrefix(t, rest);
      BlankPrefix(t, rest + b);
    } else {
      TokenPrefix(t, rest);
      TokenPrefix(t, rest + b);
      assert [t] + (Tokenize(rest) + Tokenize(b)) == [t] + Tokenize(rest) + Tokenize(b);
    }
  }

  /** Cutting text anywhere but inside a word cuts its token sequence. */
  lemma {:induction false} TokenizeConcat(a: Bytes, b: Bytes)
    requires a == [] || b == [] || !IsWordByte(Last(a)) || !IsWordByte(b[0])
    ensures Tokenize(a + b) == Tokenize(a) + Tokenize(b)
    decreases |a|
  {
    if a == [] {
      assert a + b == b;
    } else if b == [] {
      assert a + b == a;
    } else {
      hide Tokenize, Leads, IsWord, IsWordByte;
      var n := LeadingPiece(a);
      var t, rest := a[..n], a[n..];
      assert rest == [] || Last(rest) == Last(a);
      TokenizeConcat(rest, b);
      assert a == t + rest && a + b == t + (rest + b);
      StillLeads(t, rest, b);
      CutBehindPiece(t, rest, b);
    }
  }

  /** The three laws that say what every line tokenises to. A parenthesis, brace or semicolon is a token
      of its own wherever it stands. */
  lemma DelimiterStandsAlone(before: Bytes, d: Byte, after: Bytes)
    requires d in {40, 41, 59, 123, 125}
    ensures Tokenize(before + [d] + after) == Tokenize(before) + [[d]] + Tokenize(after)
  {
    var tail := [d] + after;
    TokenizeConcat(before, tail);
    assert before + [d] + after == before + tail && tail[1..] == after;
    assert Tokenize(tail) == [[d]] + Tokenize(after);
  }

  /** A byte up to 32 separates and is no part of any token. */
  lemma WhiteSpaceSeparates(before: Bytes, b: Byte, after: Bytes)
    requires b <= 32
    ensures Tokenize(before + [b] + after) == Tokenize(before) + Tokenize(after)
  {
    var tail := [b] + after;
    TokenizeConcat(before, tail);
    assert before + [b] + after == before + tail && tail[1..] == after;
  }

  /** Any other bytes stay together. */
  lemma OtherBytesStayTogether(w: Bytes)
    requires w != [] && forall i :: 0 <= i < |w| ==> w[i] > 32 && w[i] !in {40, 41, 59, 123, 125}
    ensures Tokenize(w) == [w]
  {
    assert IsWord(w);
    TokenPrefix(w, []);
    assert w + [] == w;
  }

  function LinesTokens(lines: seq<Bytes>): seq<Bytes> {
    FlatMap((line: Bytes) => Tokenize(line), lines)
  }

  /** Breaking a text into lines keeps its tokens. */
  lemma {:induction false} LineBreaksKeepTokens(lines: seq<Bytes>)
    requires lines != []
    ensures Tokenize(Join(lines, NEWLINE)) == LinesTokens(lines)
  {
    if |lines| == 1 {
      assert LinesTokens(lines[1..]) == [];
    } else {
      var rest := Join(lines[1..], NEWLINE);
      LineBreaksKeepTokens(lines[1..]);
      TokenizeConcat(lines[0], [NEWLINE] + rest);
      assert lines[0] + ([NEWLINE] + rest) == Join(lines, NEWLINE);
      assert ([NEWLINE] + rest)[1..] == rest;
    }
  }
}
