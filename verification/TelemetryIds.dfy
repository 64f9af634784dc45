/** Telemetry ids on the wire: the client interceptor prints them into the "process-id" header, the
    server reads them back. Ids are signed 64-bit numbers in decimal. */
module TelemetryIds {
  import opened Sequences
  import opened Utf8

  const MIN_ID: int := -0x8000_0000_0000_0000
  const MAX_ID: int := 0x7FFF_FFFF_FFFF_FFFF
  const PLUS: Byte := 43
  const COMMA: Byte := 44
  const MINUS: Byte := 45
  const ZERO: Byte := 48

  type Id64 = x: int | MIN_ID <= x <= MAX_ID

  datatype TelemetryContext = Empty | Single(id: Id64) | Multiple(ids: seq<Id64>)

  predicate IsDigit(b: Byte) { ZERO <= b <= ZERO + 9 }

  predicate InRange(x: int) { MIN_ID <= x <= MAX_ID }

  // ---- decimal printing and parsing ----

  function Digits(n: nat): (s: Bytes)
    ensures s != [] && forall i :: 0 <= i < |s| ==> IsDigit(s[i])
  {
    if n < 10 then [ZERO + n] else Digits(n / 10) + [ZERO + n % 10]
  }

  function Print(x: int): Bytes {
    if x < 0 then [MINUS] + Digits(-x) else Digits(x)
  }

  function Value(s: Bytes): (v: int)
    requires forall i :: 0 <= i < |s| ==> IsDigit(s[i])
    ensures v >= 0
  {
    if s == [] then 0 else
      assert IsDigit(Last(s));
      10 * Value(DropLast(s)) + (Last(s) - ZERO)
  }

  predicate HasSign(s: Bytes) { s != [] && (s[0] == PLUS || s[0] == MINUS) }

  function Magnitude(s: Bytes): Bytes { if HasSign(s) then s[1..] else s }

  predicate IsDecimal(s: Bytes) {
    Magnitude(s) != [] && forall i :: 0 <= i < |Magnitude(s)| ==> IsDigit(Magnitude(s)[i])
  }

  function Meaning(s: Bytes): int
    requires IsDecimal(s)
  {
    if HasSign(s) && s[0] == MINUS then -Value(Magnitude(s)) else Value(Magnitude(s))
  }

  /** What parsing should do: accept decimal numerals whose meaning fits. */
  function Parsed(s: Bytes): Option<Id64> {
    if IsDecimal(s) && InRange(Meaning(s)) then Some(Meaning(s)) else None
  }

  lemma {:induction false} PrefixesAreSmaller(s: Bytes, i: nat)
    requires i <= |s| && forall k :: 0 <= k < |s| ==> IsDigit(s[k])
    ensures Value(s[..i]) <= Value(s)
  {
    if i == |s| {
      assert s[..i] == s;
    } else {
      PrefixesAreSmaller(DropLast(s), i);
      assert DropLast(s)[..i] == s[..i];
    }
  }

  /** What parsing does: multiply and add digit by digit in 64 bits, downwards for negative numbers,
      and give up on the first overflow. It overflows exactly on the numerals that do not fit. */
  method ParseChecked(s: Bytes) returns (result: Option<Id64>)
    ensures result == Parsed(s)
  {
    if s == [] || (|s| == 1 && HasSign(s)) { return None; }
    var negative := s[0] == MINUS;
    var digits := Magnitude(s);
    var acc: Id64 := 0;
    for i := 0 to |digits|
      invariant forall k :: 0 <= k < i ==> IsDigit(digits[k])
      invariant acc == if negative then -Value(digits[..i]) else Value(digits[..i])
    {
      if !IsDigit(digits[i]) { return None; }
      var d := digits[i] - ZERO;
      assert DropLast(digits[..i + 1]) == digits[..i];
      var next := if negative then 10 * acc - d else 10 * acc + d;
      if !InRange(10 * acc) || !InRange(next) {
        if IsDecimal(s) { PrefixesAreSmaller(digits, i + 1); }
        return None;
      }
      acc := next;
    }
    assert digits[..|digits|] == digits;
    return Some(acc);
  }

  lemma {:induction false} ValueOfDigits(n: nat)
    ensures Value(Digits(n)) == n
  {
    if n < 10 {
      assert DropLast(Digits(n)) == [];
    } else {
      ValueOfDigits(n / 10);
      assert DropLast(Digits(n)) == Digits(n / 10);
    }
  }

  /** Every printed number means itself, so a numeral is accepted exactly when its number fits. */
  lemma PrintedNumberIsAcceptedExactlyInRange(x: int)
    ensures Parsed(Print(x)) == if InRange(x) then Some(x) else None
  {
    var n: nat := if x < 0 then -x else x;
    ValueOfDigits(n);
    assert IsDigit(Digits(n)[0]);
    assert Magnitude(Print(x)) == Digits(n);
  }

  lemma PrintedIdParses(x: Id64)
    ensures Parsed(Print(x)) == Some(x)
    ensures COMMA !in Print(x)
  {
    PrintedNumberIsAcceptedExactlyInRange(x);
  }

  // ---- the header ----

  function PrintAll(ids: seq<Id64>): seq<Bytes> {
    if ids == [] then [] else [Print(ids[0])] + PrintAll(ids[1..])
  }

  function Encoded(ctx: TelemetryContext): Option<Bytes> {
    match ctx
    case Empty => None
    case Single(id) => Some(Print(id))
    case Multiple(ids) => Some(if ids == [] then [] else Join(PrintAll(ids), COMMA))
  }

  lemma {:induction false} PrintAllOneMore(ids: seq<Id64>, i: nat)
    requires i < |ids|
    ensures PrintAll(ids[..i + 1]) == PrintAll(ids[..i]) + [Print(ids[i])]
  {
    if i > 0 {
      PrintAllOneMore(ids[1..], i - 1);
      assert ids[..i + 1][1..] == ids[1..][..i] && ids[..i][1..] == ids[1..][..i - 1];
    } else {
      assert ids[..1] == [ids[0]] && ids[..1][1..] == [];
    }
  }

  method ToString(ctx: TelemetryContext) returns (header: Option<Bytes>)
    ensures header == Encoded(ctx)
  {
    match ctx
    case Single(id) => return Some(Print(id));
    case Empty => return None;
    case Multiple(ids) =>
      var result: Bytes := [];
      var index := 0;
      while index < |ids|
        invariant index <= |ids|
        invariant result == if index == 0 then [] else Join(PrintAll(ids[..index]), COMMA)
        invariant |PrintAll(ids[..index])| == index
      {
        PrintAllOneMore(ids, index);
        if index > 0 {
          JoinOneMore(PrintAll(ids[..index]), Print(ids[index]), COMMA);
          result := result + [COMMA];
        }
        result := result + Print(ids[index]);
        index := index + 1;
      }
      assert ids[..|ids|] == ids;
      return Some(result);
  }

  function IdOf(piece: Bytes): seq<Id64> {
    match Parsed(piece) case Some(id) => [id] case None => []
  }

  /** The ids among the pieces, the others skipped. */
  function ParsedIds(pieces: seq<Bytes>): seq<Id64> {
    FlatMap((piece: Bytes) => IdOf(piece), pieces)
  }

  function Decoded(header: Option<Bytes>): TelemetryContext {
    match header
    case None => Empty
    case Some(h) =>
      if !ValidUtf8(h) then Empty
      else if COMMA in h then Multiple(ParsedIds(Split(h, COMMA)))
      else match Parsed(h) case Some(id) => Single(id) case None => Empty
  }

  method HasMultipleIds(src: Bytes) returns (found: bool)
    ensures found <==> COMMA in src
  {
    for i := 0 to |src|
      invariant COMMA !in src[..i]
    {
      if src[i] == COMMA { return true; }
    }
    return false;
  }

  lemma ParsedIdsFrom(pieces: seq<Bytes>, i: nat, ids: seq<Id64>)
    requires i < |pieces|
    ensures ids + ParsedIds(pieces[i..]) ==
      (if Parsed(pieces[i]).Some? then ids + [Parsed(pieces[i]).value] else ids) + ParsedIds(pieces[i + 1..])
  {
    assert pieces[i..][1..] == pieces[i + 1..] && pieces[i..][0] == pieces[i];
    var rest := ParsedIds(pieces[i + 1..]);
    var head := IdOf(pieces[i]);
    assert ids + (head + rest) == ids + head + rest;
    assert ids + [] == ids;
  }

  method ParseEach(pieces: seq<Bytes>) returns (ids: seq<Id64>)
    ensures ids == ParsedIds(pieces)
  {
    ids := [];
    for i := 0 to |pieces|
      invariant ids + ParsedIds(pieces[i..]) == ParsedIds(pieces)
    {
      var id := ParseChecked(pieces[i]);
      ParsedIdsFrom(pieces, i, ids);
      if id.Some? { ids := ids + [id.value]; }
    }
  }

  method GetTelemetry(header: Option<Bytes>) returns (ctx: TelemetryContext)
    ensures ctx == Decoded(header)
  {
    if header.Some? && ValidUtf8(header.value) {
      var multiple := HasMultipleIds(header.value);
      if multiple {
        var pieces := Split(header.value, COMMA);
        var ids := ParseEach(pieces);
        return Multiple(ids);
      }
      var id := ParseChecked(header.value);
      if id.Some? { return Single(id.value); }
    }
    return Empty;
  }

  // ---- round trip ----

  /** What can be told apart on the wire: no ids is no context, and one id is a single id. */
  function Normal(ctx: TelemetryContext): TelemetryContext {
    if ctx == Multiple([]) then Empty
    else if ctx.Multiple? && |ctx.ids| == 1 then Single(ctx.ids[0])
    else ctx
  }

  lemma {:induction false} PrintedIdsParse(ids: seq<Id64>)
    ensures ParsedIds(PrintAll(ids)) == ids
    ensures |PrintAll(ids)| == |ids|
    ensures forall i :: 0 <= i < |PrintAll(ids)| ==> COMMA !in PrintAll(ids)[i]
  {
    if ids != [] {
      PrintedIdParses(ids[0]);
      PrintedIdsParse(ids[1..]);
      assert PrintAll(ids)[1..] == PrintAll(ids[1..]);
      assert ids == [ids[0]] + ids[1..];
    }
  }

  lemma {:induction false} AsciiIsValidUtf8(s: Bytes)
    requires forall i :: 0 <= i < |s| ==> s[i] <= 0x7F
    ensures ValidUtf8(s)
  {
    if s != [] { AsciiIsValidUtf8(s[1..]); }
  }

  lemma PrintIsAscii(x: int)
    ensures forall i :: 0 <= i < |Print(x)| ==> Print(x)[i] <= 0x7F
  {
  }

  lemma {:induction false} JoinedIdsAreAscii(ids: seq<Id64>)
    requires ids != []
    ensures PrintAll(ids) != []
    ensures var s := Join(PrintAll(ids), COMMA); forall i :: 0 <= i < |s| ==> s[i] <= 0x7F
    ensures |ids| > 1 ==> COMMA in Join(PrintAll(ids), COMMA)
  {
    PrintIsAscii(ids[0]);
    if |ids| > 1 {
      JoinedIdsAreAscii(ids[1..]);
      assert PrintAll(ids)[1..] == PrintAll(ids[1..]);
      var s := Join(PrintAll(ids), COMMA);
      assert s[|Print(ids[0])|] == COMMA;
    }
  }

  /** Reading what the interceptor wrote gives the normal form of the context, for every context. */
  lemma DecodeEncode(ctx: TelemetryContext)
    ensures Decoded(Encoded(ctx)) == Normal(ctx)
  {
    match ctx
    case Empty =>
    case Single(id) =>
      PrintedIdParses(id);
      PrintIsAscii(id);
      AsciiIsValidUtf8(Print(id));
    case Multiple(ids) =>
      if ids != [] {
        var s := Join(PrintAll(ids), COMMA);
        PrintedIdsParse(ids);
        JoinedIdsAreAscii(ids);
        AsciiIsValidUtf8(s);
        if |ids| == 1 {
          assert PrintAll(ids) == [Print(ids[0])];
          PrintedIdParses(ids[0]);
        } else {
          SplitJoin(PrintAll(ids), COMMA);
        }
      }
  }

  // ---- what any header is read as ----

  lemma ValueOneMore(s: Bytes, d: Byte)
    requires IsDigit(d) && forall i :: 0 <= i < |s| ==> IsDigit(s[i])
    ensures Value(s + [d]) == 10 * Value(s) + (d - 48)
  {
    assert DropLast(s + [d]) == s && Last(s + [d]) == d;
  }

  /** Numerals are decimal: digits are the bytes 48 to 57, a further digit is worth one place less, and
      a plus (43) or minus (45) may stand before them. */
  lemma NumeralsAreDecimal(s: Bytes, d: Byte)
    requires s != [] && forall i :: 0 <= i < |s| ==> 48 <= s[i] <= 57
    requires 48 <= d <= 57
    ensures Meaning([d]) == d - 48
    ensures Meaning(s + [d]) == 10 * Meaning(s) + (d - 48)
    ensures Meaning([43] + s) == Meaning(s) && Meaning([45] + s) == -Meaning(s)
  {
    ValueOneMore([], d);
    ValueOneMore(s, d);
    assert [] + [d] == [d] && Magnitude([d]) == [d] && Magnitude(s + [d]) == s + [d];
    assert ([43] + s)[1..] == s && ([45] + s)[1..] == s;
    assert IsDigit(s[0]);
  }

  /** A text with any byte that is not a digit, but for one sign at its start, is no numeral; neither is
      a sign alone. */
  lemma OtherTextsAreNoNumerals(s: Bytes, i: nat)
    requires s == [] || s == [43] || s == [45]
      || (i < |s| && !(48 <= s[i] <= 57) && (i > 0 || (s[0] != 43 && s[0] != 45)))
    ensures Parsed(s) == None
  {
    if |s| > 1 {
      assert !IsDigit(Magnitude(s)[if HasSign(s) then i - 1 else i]);
    }
  }

  /** The numbers that fit are those of 64 bits with a sign. */
  lemma SixtyFourBits(x: int)
    ensures Parsed(Print(x)).Some? <==> -9_223_372_036_854_775_808 <= x <= 9_223_372_036_854_775_807
  {
    PrintedNumberIsAcceptedExactlyInRange(x);
  }

  lemma {:induction false} JoinHasSeparator(pieces: seq<Bytes>, sep: Byte)
    requires |pieces| > 1
    ensures sep in Join(pieces, sep)
  {
    assert Join(pieces, sep)[|pieces[0]|] == sep;
  }

  /** In a list of ids a piece that is no id is skipped, and the ids before and after it are kept. */
  lemma BadPieceIsSkipped(before: seq<Id64>, bad: Bytes, after: seq<Id64>)
    requires before != [] || after != []
    requires 44 !in bad && Parsed(bad) == None
    requires ValidUtf8(Join(PrintAll(before) + [bad] + PrintAll(after), 44))
    ensures Decoded(Some(Join(PrintAll(before) + [bad] + PrintAll(after), 44))) == Multiple(before + after)
  {
    hide ValidUtf8, CharLength, Print, PrintAll, Join, Split, FlatMap, Parsed;
    var pieces := PrintAll(before) + [bad] + PrintAll(after);
    PrintedIdsParse(before);
    PrintedIdsParse(after);
    JoinHasSeparator(pieces, 44);
    SplitJoin(pieces, 44);
    var id := (piece: Bytes) => IdOf(piece);
    FlatMapConcat(id, PrintAll(before) + [bad], PrintAll(after));
    FlatMapConcat(id, PrintAll(before), [bad]);
    FlatMapOne(id, bad);
    assert before + [] == before;
  }

  /** No header, a header that is no text and a lone piece that is no id give the empty context. */
  lemma UnreadableHeaderIsEmpty(h: Bytes)
    ensures Decoded(None) == Empty
    ensures !ValidUtf8(h) ==> Decoded(Some(h)) == Empty
    ensures 44 !in h && Parsed(h) == None ==> Decoded(Some(h)) == Empty
  {
  }

  /** Headers byte by byte: 7 and -12 are sent as "7,-12", an empty list as an empty header, and no
      context as no header. */
  lemma HeaderOfTwoIds()
    ensures Encoded(Empty) == None && Encoded(Multiple([])) == Some([])
    ensures Encoded(Multiple([7, -12])) == Some([55, 44, 45, 49, 50])
  {
    var ids: seq<Id64>, last: seq<Id64> := [7, -12], [-12];
    assert ids[1..] == last && last[1..] == [];
    assert Digits(1) == [49] && Digits(7) == [55];
    assert Digits(12) == Digits(12 / 10) + [48 + 12 % 10];
    assert PrintAll(last) == [Print(-12)] + PrintAll(last[1..]);
    var pieces := [Print(7), Print(-12)];
    assert PrintAll(ids) == pieces && pieces[1..] == [Print(-12)];
    assert Join(pieces, COMMA) == Print(7) + [COMMA] + Join(pieces[1..], COMMA);
    assert Digits(12) == [49, 50];
    assert Print(-12) == [45, 49, 50];
    assert Join(pieces, COMMA) == [55] + [44] + [45, 49, 50];
    assert [55] + [44] + [45, 49, 50] == [55, 44, 45, 49, 50];
  }
}
