/**
 Bytes and the well-formedness of UTF-8 text, by the grammar in section 4 of RFC 3629.
 Go strings are byte sequences, so method names and invocation ids are `seq<byte>` here.
 */
module Utf8 {

  type byte = x: int | 0 <= x < 256

  predicate Tail(s: seq<byte>, i: nat)
  {
    i < |s| && 0x80 <= s[i] <= 0xBF
  }

  predicate In(s: seq<byte>, i: nat, lo: int, hi: int)
  {
    i < |s| && lo <= s[i] <= hi
  }

  /** Number of bytes of the first well-formed character of `s`, or 0 if there is none. */
  function FirstLength(s: seq<byte>): (n: nat)
    ensures n <= |s| && n <= 4
  {
    if In(s, 0, 0x00, 0x7F) then 1
    else if In(s, 0, 0xC2, 0xDF) && Tail(s, 1) then 2
    else if In(s, 0, 0xE0, 0xE0) && In(s, 1, 0xA0, 0xBF) && Tail(s, 2) then 3
    else if In(s, 0, 0xED, 0xED) && In(s, 1, 0x80, 0x9F) && Tail(s, 2) then 3
    else if In(s, 0, 0xE1, 0xEF) && s[0] != 0xED && Tail(s, 1) && Tail(s, 2) then 3
    else if In(s, 0, 0xF0, 0xF0) && In(s, 1, 0x90, 0xBF) && Tail(s, 2) && Tail(s, 3) then 4
    else if In(s, 0, 0xF1, 0xF3) && Tail(s, 1) && Tail(s, 2) && Tail(s, 3) then 4
    else if In(s, 0, 0xF4, 0xF4) && In(s, 1, 0x80, 0x8F) && Tail(s, 2) && Tail(s, 3) then 4
    else 0
  }

  /** True on the empty string. */
  predicate Valid(s: seq<byte>)
  {
    s == [] || (FirstLength(s) > 0 && Valid(s[FirstLength(s)..]))
  }

  // ---- the same set, from the encoding side -------------------------------------------

  /** A Unicode scalar value: a code point that is not a surrogate. */
  predicate Scalar(cp: int)
  {
    0 <= cp <= 0x10FFFF && !(0xD800 <= cp <= 0xDFFF)
  }

  function EncodeScalar(cp: int): seq<byte>
    requires Scalar(cp)
  {
    if cp < 0x80 then [cp]
    else if cp < 0x800 then [0xC0 + cp / 64, 0x80 + cp % 64]
    else if cp < 0x1_0000 then [0xE0 + cp / 4096, 0x80 + cp / 64 % 64, 0x80 + cp % 64]
    else [0xF0 + cp / 0x4_0000, 0x80 + cp / 4096 % 64, 0x80 + cp / 64 % 64, 0x80 + cp % 64]
  }

  function EncodeAll(cps: seq<int>): seq<byte>
    requires forall i :: 0 <= i < |cps| ==> Scalar(cps[i])
  {
    if cps == [] then [] else EncodeScalar(cps[0]) + EncodeAll(cps[1..])
  }

  /** An encoded scalar value is a well-formed character, whatever follows it. */
  lemma EncodedIsFirst(cp: int, rest: seq<byte>)
    requires Scalar(cp)
    ensures FirstLength(EncodeScalar(cp) + rest) == |EncodeScalar(cp)|
  {
  }

  lemma ThreeBytes(a: int, b: int, c: int)
    requires 0 <= a < 16 && 0 <= b < 64 && 0 <= c < 64 && (a == 0 ==> b >= 32) && (a == 13 ==> b < 32)
    ensures var cp := a * 4096 + b * 64 + c; Scalar(cp) && EncodeScalar(cp) == [0xE0 + a, 0x80 + b, 0x80 + c]
  {
    var cp := a * 4096 + b * 64 + c;
    assert cp / 64 == a * 64 + b && cp / 4096 == a;
  }

  lemma FourBytes(a: int, b: int, c: int, d: int)
    requires 0 <= a <= 4 && 0 <= b < 64 && 0 <= c < 64 && 0 <= d < 64 && (a == 0 ==> b >= 16) && (a == 4 ==> b < 16)
    ensures var cp := a * 0x4_0000 + b * 4096 + c * 64 + d;
            Scalar(cp) && EncodeScalar(cp) == [0xF0 + a, 0x80 + b, 0x80 + c, 0x80 + d]
  {
    var cp := a * 0x4_0000 + b * 4096 + c * 64 + d;
    assert cp / 64 == a * 4096 + b * 64 + c;
    assert cp / 4096 == a * 64 + b && cp / 0x4_0000 == a;
  }

  /** And a well-formed character encodes a scalar value. */
  lemma FirstIsEncoded(s: seq<byte>) returns (cp: int)
    requires FirstLength(s) > 0
    ensures Scalar(cp) && EncodeScalar(cp) == s[..FirstLength(s)]
  {
    var n := FirstLength(s);
    if n == 1 {
      cp := s[0];
    } else if n == 2 {
      cp := (s[0] as int - 0xC0) * 64 + (s[1] as int - 0x80);
    } else if n == 3 {
      var a, b, c := s[0] as int - 0xE0, s[1] as int - 0x80, s[2] as int - 0x80;
      ThreeBytes(a, b, c);
      cp := a * 4096 + b * 64 + c;
    } else {
      var a, b, c, d := s[0] as int - 0xF0, s[1] as int - 0x80, s[2] as int - 0x80, s[3] as int - 0x80;
      FourBytes(a, b, c, d);
      cp := a * 0x4_0000 + b * 4096 + c * 64 + d;
    }
  }

  lemma {:induction false} EncodedIsValid(cps: seq<int>)
    requires forall i :: 0 <= i < |cps| ==> Scalar(cps[i])
    ensures Valid(EncodeAll(cps))
  {
    if cps != [] {
      var first, rest := EncodeScalar(cps[0]), EncodeAll(cps[1..]);
      EncodedIsValid(cps[1..]);
      EncodedIsFirst(cps[0], rest);
      assert (first + rest)[|first|..] == rest;
    }
  }

  lemma {:induction false} ValidIsEncoded(s: seq<byte>) returns (cps: seq<int>)
    requires Valid(s)
    ensures forall i :: 0 <= i < |cps| ==> Scalar(cps[i])
    ensures EncodeAll(cps) == s
    decreases |s|
  {
    if s == [] {
      return [];
    }
    var n := FirstLength(s);
    var cp := FirstIsEncoded(s);
    var rest := ValidIsEncoded(s[n..]);
    cps := [cp] + rest;
    assert cps[1..] == rest;
    assert s == s[..n] + s[n..];
  }

  /** The accepted strings are exactly the concatenations of encoded scalar values. */
  lemma ValidIffEncoded(s: seq<byte>)
    ensures Valid(s) <==> exists cps :: (forall i :: 0 <= i < |cps| ==> Scalar(cps[i])) && EncodeAll(cps) == s
  {
    if Valid(s) {
      var cps := ValidIsEncoded(s);
    }
    if cps :| (forall i :: 0 <= i < |cps| ==> Scalar(cps[i])) && EncodeAll(cps) == s {
      EncodedIsValid(cps);
    }
  }
}
