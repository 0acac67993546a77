/** UTF-8 as section 3 and 4 of RFC 3629 define it, and the validator of the WebSocket layer. */
module Utf8 {
  import opened Bytes

  type Scalar = v: int | 0 <= v <= 0x10FFFF && !(0xD800 <= v <= 0xDFFF)

  /** The UTF-8 form of one Unicode scalar value. */
  function EncodeScalar(v: Scalar): (s: bytes)
    ensures 1 <= |s| <= 4
  {
    if v < 0x80 then [v]
    else if v < 0x800 then [0xC0 + v / 64, 0x80 + v % 64]
    else if v < 0x1_0000 then [0xE0 + v / 4096, 0x80 + v / 64 % 64, 0x80 + v % 64]
    else [0xF0 + v / 0x4_0000, 0x80 + v / 4096 % 64, 0x80 + v / 64 % 64, 0x80 + v % 64]
  }

  function Encode(vs: seq<Scalar>): bytes {
    if vs == [] then [] else EncodeScalar(vs[0]) + Encode(vs[1..])
  }

  ghost predicate IsUtf8(s: bytes) {
    exists vs: seq<Scalar> :: Encode(vs) == s
  }

  predicate IsCont(b: byte) {
    b / 64 == 2
  }

  /** The size of the character that starts `s`, or 0 where the validator returns false. */
  function CharSize(s: bytes): (n: nat)
    requires s != []
    ensures n <= |s|
  {
    var b := s[0];
    if b <= 0x7F then 1
    else if 0xC2 <= b <= 0xDF then
      if |s| < 2 || !IsCont(s[1]) then 0 else 2
    else if 0xE0 <= b <= 0xEF then
      if |s| < 3 || !IsCont(s[1]) || !IsCont(s[2]) then 0
      else if b == 0xE0 && s[1] < 0xA0 then 0
      else if b == 0xED && s[1] > 0x9F then 0
      else 3
    else if 0xF0 <= b <= 0xF4 then
      if |s| < 4 || !IsCont(s[1]) || !IsCont(s[2]) || !IsCont(s[3]) then 0
      else if b == 0xF0 && s[1] < 0x90 then 0
      else if b == 0xF4 && s[1] > 0x8F then 0
      else 4
    else 0
  }

  predicate Valid(s: bytes) {
    s == [] || (CharSize(s) > 0 && Valid(s[CharSize(s)..]))
  }

  /** The scalar value written by an accepted character. */
  function DecodeChar(s: bytes): (v: Scalar)
    requires s != [] && CharSize(s) > 0
  {
    match CharSize(s)
    case 1 => s[0]
    case 2 => Tail(s[0] - 0xC0, s[1])
    case 3 => Tail(Tail(s[0] - 0xE0, s[1]), s[2])
    case _ => Tail(Tail(Tail(s[0] - 0xF0, s[1]), s[2]), s[3])
  }

  /** Appends the six payload bits of a continuation byte. */
  function Tail(high: int, b: byte): int {
    high * 64 + (b as int - 0x80)
  }

  function Decode(s: bytes): seq<Scalar>
    requires Valid(s)
  {
    if s == [] then [] else [DecodeChar(s)] + Decode(s[CharSize(s)..])
  }

  lemma TailParts(high: int, b: byte)
    requires IsCont(b)
    ensures Tail(high, b) / 64 == high && 0x80 + Tail(high, b) % 64 == b
  {
  }

  lemma EncodeDecode3(s: bytes)
    requires s != [] && CharSize(s) == 3
    ensures EncodeScalar(DecodeChar(s)) == s[..3]
  {
    var top := Tail(s[0] - 0xE0, s[1]);
    var v := DecodeChar(s);
    TailParts(s[0] - 0xE0, s[1]);
    TailParts(top, s[2]);
    assert v / 4096 == v / 64 / 64;
    assert v >= 0x800;
  }

  lemma EncodeDecode4(s: bytes)
    requires s != [] && CharSize(s) == 4
    ensures EncodeScalar(DecodeChar(s)) == s[..4]
  {
    var top := Tail(s[0] - 0xF0, s[1]);
    var v := DecodeChar(s);
    TailParts(s[0] - 0xF0, s[1]);
    TailParts(top, s[2]);
    TailParts(Tail(top, s[2]), s[3]);
    assert v / 4096 == v / 64 / 64;
    assert v / 0x4_0000 == v / 64 / 64 / 64;
    assert v >= 0x1_0000;
  }

  lemma EncodeDecodeChar(s: bytes)
    requires s != [] && CharSize(s) > 0
    ensures EncodeScalar(DecodeChar(s)) == s[..CharSize(s)]
  {
    match CharSize(s)
    case 1 =>
    case 2 =>
      TailParts(s[0] - 0xC0, s[1]);
    case 3 =>
      EncodeDecode3(s);
    case _ =>
      EncodeDecode4(s);
  }

  lemma EncodedCharSize(v: Scalar, rest: bytes)
    ensures CharSize(EncodeScalar(v) + rest) == |EncodeScalar(v)|
  {
    var s := EncodeScalar(v) + rest;
    assert s[..|EncodeScalar(v)|] == EncodeScalar(v);
  }

  lemma {:induction false} EncodeDecode(s: bytes)
    requires Valid(s)
    ensures Encode(Decode(s)) == s
  {
    if s != [] {
      EncodeDecodeChar(s);
      EncodeDecode(s[CharSize(s)..]);
      assert Decode(s)[1..] == Decode(s[CharSize(s)..]);
    }
  }

  /** A character decodes to the scalar value it was made from, whatever follows it. */
  lemma DecodeEncodedChar(v: Scalar, rest: bytes)
    ensures CharSize(EncodeScalar(v) + rest) > 0 && DecodeChar(EncodeScalar(v) + rest) == v
  {
    EncodedCharSize(v, rest);
    var s, e := EncodeScalar(v) + rest, EncodeScalar(v);
    assert forall i :: 0 <= i < |e| ==> s[i] == e[i];
    if 0x800 <= v < 0x1_0000 {
      assert v / 64 / 64 == v / 4096;
    } else if 0x1_0000 <= v {
      assert v / 64 / 64 == v / 4096 && v / 4096 / 64 == v / 0x4_0000;
    }
  }

  /** Decoding an encoding gives the scalar values back, so no two sequences have the same encoding. */
  lemma {:induction false} DecodeEncode(vs: seq<Scalar>)
    ensures Valid(Encode(vs)) && Decode(Encode(vs)) == vs
  {
    if vs != [] {
      var rest := Encode(vs[1..]);
      EncodedCharSize(vs[0], rest);
      DecodeEncodedChar(vs[0], rest);
      DecodeEncode(vs[1..]);
      assert Encode(vs)[|EncodeScalar(vs[0])|..] == rest;
    }
  }

  /** The validator accepts exactly the encodings of sequences of Unicode scalar values. */
  lemma ValidIffUtf8(s: bytes)
    ensures Valid(s) <==> IsUtf8(s)
  {
    if Valid(s) {
      EncodeDecode(s);
    }
    if IsUtf8(s) {
      var vs: seq<Scalar> :| Encode(vs) == s;
      DecodeEncode(vs);
    }
  }

  /** The index loop of the source over `data`. */
  method Validate(data: seq<byte>) returns (ok: bool)
    ensures ok <==> IsUtf8(data)
  {
    ValidIffUtf8(data);
    var i, len := 0, |data|;
    while i < len
      invariant 0 <= i <= len
      invariant Valid(data) <==> Valid(data[i..])
    {
      var b := data[i];
      ghost var s := data[i..];
      var size: nat;
      if b <= 0x7F {
        size := 1;
      } else if b >= 0xC2 && b <= 0xDF {
        if i + 1 >= len || !IsCont(data[i + 1]) {
          return false;
        }
        size := 2;
      } else if b >= 0xE0 && b <= 0xEF {
        if i + 2 >= len || !IsCont(data[i + 1]) || !IsCont(data[i + 2]) {
          return false;
        }
        if (b == 0xE0 && data[i + 1] < 0xA0) || (b == 0xED && data[i + 1] > 0x9F) {
          return false;
        }
        size := 3;
      } else if b >= 0xF0 && b <= 0xF4 {
        if i + 3 >= len || !IsCont(data[i + 1]) || !IsCont(data[i + 2]) || !IsCont(data[i + 3]) {
          return false;
        }
        if (b == 0xF0 && data[i + 1] < 0x90) || (b == 0xF4 && data[i + 1] > 0x8F) {
          return false;
        }
        size := 4;
      } else {
        return false;
      }
      assert CharSize(s) == size;
      assert s[size..] == data[i + size..];
      i := i + size;
    }
    return true;
  }
}
