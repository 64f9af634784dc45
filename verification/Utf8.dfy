/** Bytes and well-formed UTF-8 (section 4 of RFC 3629). */
module Utf8 {

  type Byte = b: int | 0 <= b < 256
  type Bytes = seq<Byte>

  predicate IsTail(b: Byte) { 0x80 <= b <= 0xBF }

  predicate TailsFrom(s: Bytes, from: nat, to: nat) {
    to <= |s| && forall i :: from <= i < to ==> IsTail(s[i])
  }

  /** The length of the well-formed character that s starts with, 0 if there is none. */
  function CharLength(s: Bytes): (n: nat)
    ensures n <= |s| && n <= 4
    ensures n > 0 ==> !IsTail(s[0]) && TailsFrom(s, 1, n)
  {
    if s == [] then 0
    else if s[0] <= 0x7F then 1
    else if 0xC2 <= s[0] <= 0xDF && TailsFrom(s, 1, 2) then 2
    else if TailsFrom(s, 1, 3) && (
      || (s[0] == 0xE0 && s[1] >= 0xA0)
      || 0xE1 <= s[0] <= 0xEC
      || (s[0] == 0xED && s[1] <= 0x9F)
      || 0xEE <= s[0] <= 0xEF) then 3
    else if TailsFrom(s, 1, 4) && (
      || (s[0] == 0xF0 && s[1] >= 0x90)
      || 0xF1 <= s[0] <= 0xF3
      || (s[0] == 0xF4 && s[1] <= 0x8F)) then 4
    else 0
  }

  predicate ValidUtf8(s: Bytes) {
    s == [] || (CharLength(s) > 0 && ValidUtf8(s[CharLength(s)..]))
  }

  /** A position between two characters of valid text. */
  predicate Boundary(s: Bytes, i: nat) {
    i <= |s| && (i < |s| ==> !IsTail(s[i]))
  }

  lemma CharLengthIsLocal(s: Bytes, i: nat)
    requires CharLength(s) <= i <= |s| && CharLength(s) > 0
    ensures CharLength(s[..i]) == CharLength(s)
  {
    var n := CharLength(s);
    var t := s[..i];
    assert forall k :: 0 <= k < n ==> t[k] == s[k];
    assert TailsFrom(t, 1, n);
    if TailsFrom(t, 1, 3) { assert TailsFrom(s, 1, 3); }
    if TailsFrom(t, 1, 4) { assert TailsFrom(s, 1, 4); }
  }

  /** Cutting valid text at a boundary leaves two valid texts. */
  lemma {:induction false} CutAtBoundary(s: Bytes, i: nat)
    requires ValidUtf8(s) && Boundary(s, i)
    ensures ValidUtf8(s[..i]) && ValidUtf8(s[i..])
  {
    if i == 0 {
      assert s[0..] == s;
    } else {
      var n := CharLength(s);
      assert n <= i;
      CutAtBoundary(s[n..], i - n);
      CharLengthIsLocal(s, i);
      assert s[..i][n..] == s[n..][..i - n];
      assert s[n..][i - n..] == s[i..];
    }
  }

  lemma SliceAtBoundaries(s: Bytes, i: nat, j: nat)
    requires ValidUtf8(s) && Boundary(s, i) && Boundary(s, j) && i <= j
    ensures ValidUtf8(s[i..j])
  {
    hide ValidUtf8, CharLength;
    CutAtBoundary(s, i);
    CutAtBoundary(s[i..], j - i);
    assert s[i..][..j - i] == s[i..j];
  }

  /** An ASCII byte of valid text is a character on its own. */
  lemma AsciiStandsAlone(s: Bytes, i: nat)
    requires ValidUtf8(s) && i < |s| && s[i] <= 0x7F
    ensures Boundary(s, i) && Boundary(s, i + 1)
  {
    CutAtBoundary(s, i);
    assert ValidUtf8(s[i..][1..]);
    assert s[i..][1..] == s[i + 1..];
    if i + 1 < |s| { assert s[i + 1..][0] == s[i + 1]; }
  }

  // ---- the encoding of characters, as section 3 of RFC 3629 gives it ----

  type Scalar = c: int | 0 <= c < 0xD800 || 0xE000 <= c < 0x11_0000

  function Encode(c: Scalar): (s: Bytes)
    ensures 1 <= |s| <= 4
  {
    if c < 0x80 then [c]
    else if c < 0x800 then [0xC0 + c / 64, 0x80 + c % 64]
    else if c < 0x1_0000 then [0xE0 + c / 4096, 0x80 + c / 64 % 64, 0x80 + c % 64]
    else [0xF0 + c / 26_2144, 0x80 + c / 4096 % 64, 0x80 + c / 64 % 64, 0x80 + c % 64]
  }

  function EncodeAll(cs: seq<Scalar>): Bytes {
    if cs == [] then [] else Encode(cs[0]) + EncodeAll(cs[1..])
  }

  lemma EncodedIsACharacter(c: Scalar, rest: Bytes)
    ensures CharLength(Encode(c) + rest) == |Encode(c)|
  {
    var e := Encode(c);
    var s := e + rest;
    assert forall i :: 0 <= i < |e| ==> s[i] == e[i];
  }

  lemma LastSix(high: nat, low: nat)
    requires low < 64
    ensures (64 * high + low) / 64 == high && (64 * high + low) % 64 == low
  {
  }

  lemma NextSix(high: nat, mid: nat, low: nat)
    requires mid < 64 && low < 64
    ensures var c := 4096 * high + 64 * mid + low;
      c / 4096 == high && c / 64 % 64 == mid && c % 64 == low && c / 64 == 64 * high + mid
  {
    LastSix(64 * high + mid, low);
    LastSix(high, mid);
    assert 4096 * high + 64 * mid + low == 64 * (64 * high + mid) + low;
  }

  lemma TwoBytes(s: Bytes) returns (c: Scalar)
    requires CharLength(s) == 2
    ensures Encode(c) == s[..2]
  {
    assert IsTail(s[1]);
    var a: nat, t: nat := s[0] - 0xC0, s[1] - 0x80;
    LastSix(a, t);
    c := 64 * a + t;
  }

  lemma ThreeBytes(s: Bytes) returns (c: Scalar)
    requires CharLength(s) == 3
    ensures Encode(c) == s[..3]
  {
    assert IsTail(s[1]) && IsTail(s[2]);
    var a: nat, t: nat, u: nat := s[0] - 0xE0, s[1] - 0x80, s[2] - 0x80;
    NextSix(a, t, u);
    c := 4096 * a + 64 * t + u;
  }

  lemma FourBytes(s: Bytes) returns (c: Scalar)
    requires CharLength(s) == 4
    ensures Encode(c) == s[..4]
  {
    assert IsTail(s[1]) && IsTail(s[2]) && IsTail(s[3]);
    var a: nat, t: nat, u: nat, v: nat := s[0] - 0xF0, s[1] - 0x80, s[2] - 0x80, s[3] - 0x80;
    NextSix(64 * a + t, u, v);
    NextSix(a, t, u);
    c := 4096 * (64 * a + t) + 64 * u + v;
  }

  lemma CharacterIsEncoded(s: Bytes) returns (c: Scalar)
    requires CharLength(s) > 0
    ensures Encode(c) == s[..CharLength(s)]
  {
    match CharLength(s)
    case 1 => c := s[0];
    case 2 => c := TwoBytes(s);
    case 3 => c := ThreeBytes(s);
    case _ => c := FourBytes(s);
  }

  lemma {:induction false} EncodedIsValid(cs: seq<Scalar>)
    ensures ValidUtf8(EncodeAll(cs))
  {
    if cs != [] {
      var rest := EncodeAll(cs[1..]);
      EncodedIsValid(cs[1..]);
      EncodedIsACharacter(cs[0], rest);
      assert (Encode(cs[0]) + rest)[|Encode(cs[0])|..] == rest;
    }
  }

  lemma {:induction false} ValidIsEncoded(s: Bytes) returns (cs: seq<Scalar>)
    requires ValidUtf8(s)
    ensures EncodeAll(cs) == s
  {
    if s == [] {
      cs := [];
    } else {
      var n := CharLength(s);
      var c := CharacterIsEncoded(s);
      var rest := ValidIsEncoded(s[n..]);
      cs := [c] + rest;
      assert cs[1..] == rest && s == s[..n] + s[n..];
    }
  }

  /** Valid text is exactly text that encodes some characters. */
  lemma ValidExactlyIfEncoded(s: Bytes)
    ensures ValidUtf8(s) <==> exists cs :: EncodeAll(cs) == s
  {
    if ValidUtf8(s) {
      var cs := ValidIsEncoded(s);
    }
    forall cs | EncodeAll(cs) == s ensures ValidUtf8(s) { EncodedIsValid(cs); }
  }
}
