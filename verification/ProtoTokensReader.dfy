/** `ProtoTokensReader`: drops the comment lines of a text and hands out its tokens one by one. */
module ProtoTokensReader {
  import opened Sequences
  import opened Utf8
  import opened ProtoTokens

  // ---- whole-line comments ----

  /** Bytes of the white space character (Unicode White_Space, as `trim` knows it) s starts with, or 0. */
  function WhiteSpaceLength(s: Bytes): (n: nat)
    ensures n <= |s|
  {
    if s == [] then 0
    else if 9 <= s[0] <= 13 || s[0] == SPACE then 1
    else if |s| >= 2 && s[0] == 0xC2 && (s[1] == 0x85 || s[1] == 0xA0) then 2
    else if |s| >= 3 && (
      || (s[0] == 0xE1 && s[1] == 0x9A && s[2] == 0x80)
      || (s[0] == 0xE2 && s[1] == 0x80 && (0x80 <= s[2] <= 0x8A || s[2] == 0xA8 || s[2] == 0xA9 || s[2] == 0xAF))
      || (s[0] == 0xE2 && s[1] == 0x81 && s[2] == 0x9F)
      || (s[0] == 0xE3 && s[1] == 0x80 && s[2] == 0x80)) then 3
    else 0
  }

  function TrimStart(s: Bytes): Bytes
    decreases |s|
  {
    var n := WhiteSpaceLength(s);
    if n == 0 then s else TrimStart(s[n..])
  }

  /** Trimming the end as well would not touch a leading "//". */
  predicate IsCommentLine(line: Bytes) {
    var t := TrimStart(line);
    |t| >= 2 && t[0] == SLASH && t[1] == SLASH
  }

  /** The characters with the Unicode property White_Space. */
  predicate IsWhiteSpace(c: Scalar) {
    || 9 <= c <= 13 || c == 0x20 || c == 0x85 || c == 0xA0 || c == 0x1680 || 0x2000 <= c <= 0x200A
    || c == 0x2028 || c == 0x2029 || c == 0x202F || c == 0x205F || c == 0x3000
  }

  predicate AllWhiteSpace(cs: seq<Scalar>) { forall i :: 0 <= i < |cs| ==> IsWhiteSpace(cs[i]) }

  lemma WhiteSpaceIsTrimmed(c: Scalar, rest: Bytes)
    requires IsWhiteSpace(c)
    ensures TrimStart(Encode(c) + rest) == TrimStart(rest)
  {
    var e := Encode(c);
    var s := e + rest;
    assert forall i :: 0 <= i < |e| ==> s[i] == e[i];
    assert WhiteSpaceLength(s) == |e|;
    assert s[|e|..] == rest;
  }

  lemma TrimmedIsWhiteSpace(s: Bytes) returns (c: Scalar)
    requires WhiteSpaceLength(s) > 0
    ensures IsWhiteSpace(c) && Encode(c) == s[..WhiteSpaceLength(s)]
  {
    var n := WhiteSpaceLength(s);
    if n == 3 {
      var a: int, t: int, u: int := s[0] - 0xE0, s[1] - 0x80, s[2] - 0x80;
      c := 4096 * a + 64 * t + u;
    } else {
      c := s[n - 1];
    }
  }

  lemma {:induction false} GapIsTrimmed(gap: seq<Scalar>, rest: Bytes)
    requires AllWhiteSpace(gap)
    ensures TrimStart(EncodeAll(gap) + rest) == TrimStart(rest)
  {
    if gap == [] {
      assert [] + rest == rest;
    } else {
      GapIsTrimmed(gap[1..], rest);
      WhiteSpaceIsTrimmed(gap[0], EncodeAll(gap[1..]) + rest);
      assert EncodeAll(gap) + rest == Encode(gap[0]) + (EncodeAll(gap[1..]) + rest);
    }
  }

  lemma TrimOnce(s: Bytes)
    requires WhiteSpaceLength(s) > 0
    ensures TrimStart(s) == TrimStart(s[WhiteSpaceLength(s)..])
  {
  }

  lemma GapOneMore(c: Scalar, gap: seq<Scalar>, rest: Bytes)
    requires IsWhiteSpace(c) && AllWhiteSpace(gap)
    ensures AllWhiteSpace([c] + gap) && EncodeAll([c] + gap) + rest == Encode(c) + (EncodeAll(gap) + rest)
  {
    assert ([c] + gap)[1..] == gap;
  }

  lemma NothingToTrim(s: Bytes)
    requires WhiteSpaceLength(s) == 0
    ensures EncodeAll([]) + TrimStart(s) == s
  {
  }

  lemma PutTogether(s: Bytes, n: nat)
    requires n <= |s|
    ensures s == s[..n] + s[n..]
  {
  }

  lemma {:induction false} TrimmedIsAGap(s: Bytes) returns (gap: seq<Scalar>)
    ensures AllWhiteSpace(gap) && s == EncodeAll(gap) + TrimStart(s)
    decreases |s|
  {
    hide Encode, EncodeAll, TrimStart, WhiteSpaceLength, IsWhiteSpace;
    var n := WhiteSpaceLength(s);
    if n == 0 {
      gap := [];
      NothingToTrim(s);
    } else {
      var c := TrimmedIsWhiteSpace(s);
      var rest := TrimmedIsAGap(s[n..]);
      TrimOnce(s);
      GapOneMore(c, rest, TrimStart(s));
      PutTogether(s, n);
      gap := [c] + rest;
    }
  }

  lemma SlashesAreNotTrimmed(gap: seq<Scalar>, rest: Bytes)
    requires AllWhiteSpace(gap)
    ensures IsCommentLine(EncodeAll(gap) + [47, 47] + rest)
  {
    assert EncodeAll(gap) + [47, 47] + rest == EncodeAll(gap) + ([47, 47] + rest);
    GapIsTrimmed(gap, [47, 47] + rest);
    assert WhiteSpaceLength([47, 47] + rest) == 0;
  }

  /** A line is a comment exactly when it starts with two slashes after any white space. */
  lemma CommentLinesExactly(line: Bytes)
    ensures IsCommentLine(line) <==>
      exists gap: seq<Scalar>, rest: Bytes :: AllWhiteSpace(gap) && line == EncodeAll(gap) + [47, 47] + rest
  {
    var t := TrimStart(line);
    if IsCommentLine(line) {
      var gap := TrimmedIsAGap(line);
      assert t == [47, 47] + t[2..];
      assert line == EncodeAll(gap) + [47, 47] + t[2..];
    }
    forall gap: seq<Scalar>, rest: Bytes | AllWhiteSpace(gap) && line == EncodeAll(gap) + [47, 47] + rest
      ensures IsCommentLine(line)
    {
      SlashesAreNotTrimmed(gap, rest);
    }
  }

  function WithoutComments(lines: seq<Bytes>): seq<Bytes> {
    Filter((line: Bytes) => !IsCommentLine(line), lines)
  }

  lemma OnlyLine(line: Bytes)
    ensures WithoutComments([line]) == if IsCommentLine(line) then [] else [line]
  {
    FilterOne((l: Bytes) => !IsCommentLine(l), line);
  }

  lemma WithoutCommentsOneMore(lines: seq<Bytes>, i: nat)
    requires i < |lines|
    ensures WithoutComments(lines[..i + 1]) ==
      WithoutComments(lines[..i]) + (if IsCommentLine(lines[i]) then [] else [lines[i]])
  {
    assert lines[..i + 1] == lines[..i] + [lines[i]];
    OnlyLine(lines[i]);
    FilterConcat((line: Bytes) => !IsCommentLine(line), lines[..i], [lines[i]]);
  }

  function TextTokens(text: Bytes): seq<Bytes> {
    LinesTokens(WithoutComments(Split(text, NEWLINE)))
  }

  lemma CutAtNewline(text: Bytes, n: nat)
    requires ValidUtf8(text) && n < |text| && text[n] == NEWLINE
    ensures ValidUtf8(text[..n]) && ValidUtf8(text[n + 1..])
  {
    AsciiStandsAlone(text, n);
    CutAtBoundary(text, n);
    CutAtBoundary(text, n + 1);
  }

  lemma SplitOneLine(line: Bytes)
    requires NEWLINE !in line
    ensures Split(line, NEWLINE) == [line]
  {
    SplitPrefix(line, [], NEWLINE);
    assert line + [] == line;
  }

  predicate AllValidUtf8(pieces: seq<Bytes>) {
    forall i :: 0 <= i < |pieces| ==> ValidUtf8(pieces[i])
  }

  lemma SplitAtFirst(head: Bytes, rest: Bytes)
    requires NEWLINE !in head
    ensures Split(head + [NEWLINE] + rest, NEWLINE) == [head] + Split(rest, NEWLINE)
  {
    SplitPrefix(head, [NEWLINE] + rest, NEWLINE);
    assert head + [NEWLINE] + rest == head + ([NEWLINE] + rest);
    assert ([NEWLINE] + rest)[1..] == rest;
    assert head + [] == head;
  }

  lemma FirstNewline(text: Bytes) returns (n: nat)
    requires NEWLINE in text
    ensures n < |text| && text[n] == NEWLINE && NEWLINE !in text[..n]
  {
    if text[0] == NEWLINE {
      n := 0;
    } else {
      n := FirstNewline(text[1..]);
      n := n + 1;
      assert text[..n] == [text[0]] + text[1..][..n - 1];
    }
  }

  lemma {:induction false} PiecesAreValidUtf8(text: Bytes)
    requires ValidUtf8(text)
    ensures AllValidUtf8(Split(text, NEWLINE))
    decreases |text|
  {
    hide ValidUtf8, CharLength, Split;
    if NEWLINE in text {
      var n := FirstNewline(text);
      CutAtNewline(text, n);
      PiecesAreValidUtf8(text[n + 1..]);
      SplitAtFirst(text[..n], text[n + 1..]);
      assert text == text[..n] + [NEWLINE] + text[n + 1..];
    } else {
      SplitOneLine(text);
    }
  }

  method CleanUpComments(text: Bytes) returns (result: seq<Bytes>)
    requires ValidUtf8(text)
    ensures result == WithoutComments(Split(text, NEWLINE))
    ensures AllValidUtf8(result)
  {
    hide ValidUtf8, CharLength, Split, IsCommentLine;
    PiecesAreValidUtf8(text);
    var pieces := Split(text, NEWLINE);
    result := [];
    for i := 0 to |pieces|
      invariant result == WithoutComments(pieces[..i])
      invariant AllValidUtf8(result)
    {
      WithoutCommentsOneMore(pieces, i);
      if !IsCommentLine(pieces[i]) {
        result := result + [pieces[i]];
      }
    }
    assert pieces[..|pieces|] == pieces;
  }

  // ---- one line ----

  predicate BlankBetween(line: Bytes, from: nat, to: nat)
    requires from <= to <= |line|
  {
    forall i :: from <= i < to ==> IsSpace(line[i])
  }

  predicate WordBetween(line: Bytes, from: nat, to: nat)
    requires from <= to <= |line|
  {
    forall i :: from <= i < to ==> IsWordByte(line[i])
  }

  /** token is what the line shows next at pos, and reading goes on at next. The token is valid text,
      so turning the slice back into a string cannot fail. */
  ghost predicate IsNextToken(line: Bytes, pos: nat, token: Bytes, next: nat)
    requires pos <= |line|
  {
    && pos < next <= |line|
    && Tokenize(line[pos..]) == [token] + Tokenize(line[next..])
    && ValidUtf8(token) && Boundary(line, next)
  }

  lemma NextToken(line: Bytes, pos: nat, start: nat, end: nat)
    requires pos <= start < end <= |line| && BlankBetween(line, pos, start) && IsToken(line[start..end])
    requires IsWord(line[start..end]) && end < |line| ==> !IsWordByte(line[end])
    ensures Tokenize(line[pos..]) == [line[start..end]] + Tokenize(line[end..])
  {
    assert line[start..] == line[start..end] + line[end..];
    TokenPrefix(line[start..end], line[end..]);
    assert line[pos..] == line[pos..start] + line[start..];
    BlankPrefix(line[pos..start], line[start..]);
  }

  lemma WordIsNextToken(line: Bytes, pos: nat, start: nat, end: nat)
    requires ValidUtf8(line) && Boundary(line, start) && Boundary(line, end)
    requires pos <= start < end && BlankBetween(line, pos, start) && WordBetween(line, start, end)
    requires end < |line| ==> !IsWordByte(line[end])
    ensures IsNextToken(line, pos, line[start..end], end)
  {
    hide ValidUtf8, CharLength;
    assert Tokenize(line[pos..]) == [line[start..end]] + Tokenize(line[end..]) by {
      assert IsWord(line[start..end]);
      NextToken(line, pos, start, end);
    }
    SliceAtBoundaries(line, start, end);
  }

  lemma DelimiterIsNextToken(line: Bytes, pos: nat, at: nat)
    requires ValidUtf8(line) && Boundary(line, at) && Boundary(line, at + 1)
    requires pos <= at && BlankBetween(line, pos, at) && at < |line| && IsDelimiter(line[at])
    ensures IsNextToken(line, pos, line[at..at + 1], at + 1)
  {
    hide ValidUtf8, CharLength;
    assert Tokenize(line[pos..]) == [line[at..at + 1]] + Tokenize(line[at + 1..]) by {
      assert !IsWordByte(line[at..at + 1][0]);
      NextToken(line, pos, at, at + 1);
    }
    SliceAtBoundaries(line, at, at + 1);
  }

  lemma TakeToken(line: Bytes, pos: nat, token: Bytes, next: nat, more: seq<Bytes>)
    requires pos <= |line| && IsNextToken(line, pos, token, next)
    ensures Tokenize(line[pos..]) + more == [token] + (Tokenize(line[next..]) + more)
  {
    var rest := Tokenize(line[next..]);
    assert [token] + rest + more == [token] + (rest + more);
  }

  lemma BlankHasNoTokens(s: Bytes)
    requires IsBlank(s)
    ensures Tokenize(s) == []
  {
    BlankPrefix(s, []);
    assert s + [] == s;
  }

  method IterateThroughLine(line: Bytes, pos: nat) returns (result: Option<(Bytes, nat)>)
    requires ValidUtf8(line) && Boundary(line, pos)
    ensures result.None? ==> Tokenize(line[pos..]) == []
    ensures result.Some? ==> IsNextToken(line, pos, result.value.0, result.value.1)
  {
    hide ValidUtf8, CharLength, Tokenize, WordLength, IsNextToken;
    var p := pos;
    var start: Option<nat> := None;
    while p < |line|
      invariant pos <= p <= |line|
      invariant start.None? ==> BlankBetween(line, pos, p) && Boundary(line, p)
      invariant start.Some? ==>
        && pos <= start.value < p
        && BlankBetween(line, pos, start.value)
        && Boundary(line, start.value)
        && WordBetween(line, start.value, p)
    {
      var b := line[p];
      if IsSpace(b) {
        AsciiStandsAlone(line, p);
        if start.Some? {
          WordIsNextToken(line, pos, start.value, p);
          return Some((line[start.value..p], p));
        }
        p := p + 1;
        continue;
      }
      if IsDelimiter(b) {
        AsciiStandsAlone(line, p);
        if start.Some? {
          WordIsNextToken(line, pos, start.value, p);
          return Some((line[start.value..p], p));
        }
        DelimiterIsNextToken(line, pos, p);
        return Some((line[p..p + 1], p + 1));
      }
      if start.None? {
        start := Some(p);
      }
      p := p + 1;
    }
    if start.Some? {
      WordIsNextToken(line, pos, start.value, p);
      return Some((line[start.value..p], p));
    }
    BlankHasNoTokens(line[pos..]);
    return None;
  }

  // ---- the reader ----

  lemma TextStartsAtBoundary(line: Bytes)
    requires ValidUtf8(line)
    ensures Boundary(line, 0)
  {
  }

  class ProtoTokensReader {
    var content: seq<Bytes>
    var pos: nat

    ghost predicate Valid()
      reads this
    {
      && AllValidUtf8(content)
      && (if content == [] then pos == 0 else Boundary(content[0], pos))
    }

    /** The tokens still to come. */
    ghost function Remaining(): seq<Bytes>
      reads this
      requires Valid()
    {
      if content == [] then [] else Tokenize(content[0][pos..]) + LinesTokens(content[1..])
    }

    constructor (text: Bytes)
      requires ValidUtf8(text)
      ensures Valid() && Remaining() == TextTokens(text)
    {
      var cleaned := CleanUpComments(text);
      content, pos := cleaned, 0;
      new;
      if content != [] {
        TextStartsAtBoundary(content[0]);
        assert content[0][0..] == content[0];
      }
    }

    method GetNext() returns (token: Option<Bytes>)
      requires Valid()
      modifies this
      ensures Valid()
      ensures token.None? <==> old(Remaining()) == []
      ensures token.None? ==> Remaining() == []
      ensures token.Some? ==> old(Remaining()) == [token.value] + Remaining() && ValidUtf8(token.value)
    {
      while |content| > 0
        invariant Valid() && Remaining() == old(Remaining())
        decreases |content|
      {
        var next := IterateThroughLine(content[0], pos);
        if next.Some? {
          var (t, p) := next.value;
          TakeToken(content[0], pos, t, p, LinesTokens(content[1..]));
          pos := p;
          return Some(t);
        }
        content := content[1..];
        pos := 0;
        if content != [] {
          TextStartsAtBoundary(content[0]);
          assert content[0][0..] == content[0];
        }
      }
      return None;
    }
  }
}
