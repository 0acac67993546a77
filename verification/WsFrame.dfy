/** The WebSocket frame header codec and payload masking of section 5.2 and 5.3 of RFC 6455. */
module WsFrame {
  import opened Bytes

  type Key = k: bytes | |k| == 4 witness [0, 0, 0, 0]

  const OPCODE_CONT := 0
  const OPCODE_TEXT := 1
  const OPCODE_BINARY := 2
  const OPCODE_CLOSE := 8
  const OPCODE_PING := 9
  const OPCODE_PONG := 10

  const TWO_63 := 0x8000_0000_0000_0000
  const TWO_64 := 0x1_0000_0000_0000_0000

  /** `key` is present exactly when the MASK bit is set. */
  datatype Header = Header(
    fin: bool, rsv1: bool, rsv2: bool, rsv3: bool, opcode: nat, key: Option<Key>, len: nat)

  /** The result of parsing a header: positive size, zero, or negative in the source. */
  datatype Parsed = NeedMore | Invalid | Complete(header: Header, size: nat)

  /** How many extended length bytes the seven bit length announces. */
  function ExtendedSize(len7: nat): nat {
    if len7 < 126 then 0 else if len7 == 126 then 2 else 8
  }

  function ParseHeader(s: bytes): (p: Parsed)
    ensures p.Complete? ==> 2 <= p.size <= 14 && p.size <= |s| && p.header.opcode < 16
    ensures p.NeedMore? ==> |s| < 14
  {
    if |s| < 2 then NeedMore
    else
      var len7 := s[1] % 128;
      var ext := ExtendedSize(len7);
      var masked := s[1] >= 128;
      if |s| < 2 + ext then NeedMore
      else if ext == 8 && s[2] >= 128 then Invalid
      else if masked && |s| < 2 + ext + 4 then NeedMore
      else
        var len := if ext == 0 then len7 else FromBigEndian(s[2..2 + ext]);
        var key := if masked then Some(s[2 + ext..2 + ext + 4]) else None;
        Complete(
          Header(s[0] >= 128, s[0] / 64 % 2 == 1, s[0] / 32 % 2 == 1, s[0] / 16 % 2 == 1, s[0] % 16, key, len),
          2 + ext + if masked then 4 else 0)
  }

  /** A verdict on a prefix is the verdict on every longer input. */
  lemma ParseHeaderStable(s: bytes, t: bytes)
    requires !ParseHeader(s).NeedMore?
    ensures ParseHeader(s + t) == ParseHeader(s)
  {
    var u := s + t;
    assert u[0] == s[0] && u[1] == s[1];
    var ext := ExtendedSize(s[1] % 128);
    assert u[2..2 + ext] == s[2..2 + ext];
    if s[1] >= 128 && |s| >= 2 + ext + 4 {
      assert u[2 + ext..2 + ext + 4] == s[2 + ext..2 + ext + 4];
    }
  }

  /** The header bytes for a frame; None is the source's argument error. */
  function BuildHeader(fin: bool, rsv1: nat, opcode: nat, key: Option<Key>, len: nat): (r: Option<bytes>)
    requires len < TWO_64
  {
    if rsv1 > 1 || opcode > 15 then None
    else
      var b0: byte := (if fin then 128 else 0) + (if rsv1 == 1 then 64 else 0) + opcode;
      var mask := if key.Some? then 128 else 0;
      Some([b0] + LengthField(mask, len) + if key.Some? then key.value else [])
  }

  /** The second byte and the extended length. */
  function LengthField(mask: nat, len: nat): (s: bytes)
    requires mask in {0, 128} && len < TWO_64
    ensures 1 <= |s| <= 9
  {
    if len < 126 then [mask + len]
    else if len <= 0xFFFF then [mask + 126] + ToBigEndian(len, 2)
    else [mask + 127] + ToBigEndian(len, 8)
  }

  lemma Pow256Values()
    ensures Pow256(1) == 256
    ensures Pow256(2) == 0x1_0000
    ensures Pow256(7) == 0x100_0000_0000_0000
    ensures Pow256(8) == TWO_64
  {
    assert Pow256(2) == 0x1_0000;
    assert Pow256(4) == 0x1_0000_0000;
    assert Pow256(6) == 0x1_0000_0000_0000;
  }

  /** The announced length starts with a set bit exactly when it is 2^63 or more. */
  lemma TopBit(len: nat)
    requires len < TWO_64
    ensures ToBigEndian(len, 8)[0] >= 128 <==> len >= TWO_63
  {
    Pow256Values();
    BigEndianRoundTrip(len, 8);
    BigEndianHead(ToBigEndian(len, 8));
  }

  /** What a header with these parts parses to. */
  lemma ParseParts(s: bytes, ext: nat, len: nat, key: Option<Key>)
    requires |s| == 2 + ext + (if key.Some? then 4 else 0) && ext == ExtendedSize(s[1] % 128)
    requires (s[1] >= 128 <==> key.Some?) && (ext == 0 ==> s[1] % 128 == len)
    requires ext > 0 ==> FromBigEndian(s[2..2 + ext]) == len
    requires key.Some? ==> s[2 + ext..2 + ext + 4] == key.value
    requires ext == 8 ==> (s[2] >= 128 <==> len >= TWO_63)
    ensures ParseHeader(s) ==
      if ext == 8 && len >= TWO_63 then Invalid
      else Complete(
        Header(s[0] >= 128, s[0] / 64 % 2 == 1, s[0] / 32 % 2 == 1, s[0] / 16 % 2 == 1, s[0] % 16, key, len), |s|)
  {
  }

  /**
   * Parsing a built header followed by any bytes gives back the same fields and consumes exactly
   * the built bytes, except that a length of 2^63 or more is refused by the parser.
   */
  lemma BuildParse(fin: bool, rsv1: nat, opcode: nat, key: Option<Key>, len: nat, rest: bytes)
    requires rsv1 <= 1 && opcode <= 15 && len < TWO_64
    ensures
      var built := BuildHeader(fin, rsv1, opcode, key, len).value;
      ParseHeader(built + rest) ==
        if len < TWO_63 then Complete(Header(fin, rsv1 == 1, false, false, opcode, key, len), |built|) else Invalid
  {
    var built := BuildHeader(fin, rsv1, opcode, key, len).value;
    var ext := LengthSize(len);
    HeaderBits(fin, rsv1, opcode);
    BuiltBytes(fin, rsv1, opcode, key, len, built);
    LengthBytes(if key.Some? then 128 else 0, len);
    ParseParts(built, ext, len, key);
    ParseHeaderStable(built, rest);
  }

  /** How many extended length bytes a length takes. */
  function LengthSize(len: nat): nat {
    if len < 126 then 0 else if len <= 0xFFFF then 2 else 8
  }

  /** The length field carries the length. */
  lemma LengthBytes(mask: nat, len: nat)
    requires mask in {0, 128} && len < TWO_64
    ensures
      var field, ext := LengthField(mask, len), LengthSize(len);
      && |field| == 1 + ext && ExtendedSize(field[0] % 128) == ext && (field[0] >= 128 <==> mask == 128)
      && (ext == 0 ==> field[0] % 128 == len) && (ext > 0 ==> FromBigEndian(field[1..]) == len)
      && (ext == 8 ==> (field[1] >= 128 <==> len >= TWO_63))
  {
    Pow256Values();
    var field, ext := LengthField(mask, len), LengthSize(len);
    if ext > 0 {
      assert field[1..] == ToBigEndian(len, ext);
      BigEndianRoundTrip(len, ext);
    }
    if ext == 8 {
      TopBit(len);
      assert field[1] == field[1..][0];
    }
  }

  /** Where the parts of a built header are. */
  lemma BuiltBytes(fin: bool, rsv1: nat, opcode: nat, key: Option<Key>, len: nat, built: bytes)
    requires rsv1 <= 1 && opcode <= 15 && len < TWO_64 && built == BuildHeader(fin, rsv1, opcode, key, len).value
    ensures
      var field := LengthField(if key.Some? then 128 else 0, len);
      var n := 1 + |field|;
      && |built| == n + (if key.Some? then 4 else 0)
      && built[0] == (if fin then 128 else 0) + (if rsv1 == 1 then 64 else 0) + opcode
      && built[1] == field[0] && (|field| > 1 ==> built[2] == field[1]) && built[2..n] == field[1..]
      && (key.Some? ==> built[n..n + 4] == key.value)
  {
    var field := LengthField(if key.Some? then 128 else 0, len);
    var last: bytes := if key.Some? then key.value else [];
    var n := 1 + |field|;
    assert built == [built[0]] + field + last;
    assert built[1..n] == field;
    assert built[2..n] == built[1..n][1..];
    assert built[n..] == last;
  }

  lemma HeaderBits(fin: bool, rsv1: nat, opcode: nat)
    requires rsv1 <= 1 && opcode <= 15
    ensures
      var b := (if fin then 128 else 0) + (if rsv1 == 1 then 64 else 0) + opcode;
      (b >= 128 <==> fin) && (b / 64 % 2 == rsv1) && b / 32 % 2 == 0 && b / 16 % 2 == 0 && b % 16 == opcode
  {
  }

  /** Every strict prefix of a built header asks for more bytes. */
  lemma BuildStrictPrefix(fin: bool, rsv1: nat, opcode: nat, key: Option<Key>, len: nat, k: nat)
    requires rsv1 <= 1 && opcode <= 15 && len < TWO_63
    requires k < |BuildHeader(fin, rsv1, opcode, key, len).value|
    ensures ParseHeader(BuildHeader(fin, rsv1, opcode, key, len).value[..k]) == NeedMore
  {
    var built := BuildHeader(fin, rsv1, opcode, key, len).value;
    var p := built[..k];
    if !ParseHeader(p).NeedMore? {
      ParseHeaderStable(p, built[k..]);
      assert p + built[k..] == built + [];
      BuildParse(fin, rsv1, opcode, key, len, []);
      assert false;
    }
  }

  /** `s` masked (or unmasked) as the bytes at offset `off` of a payload. */
  function Mask(s: bytes, key: Key, off: nat): (r: bytes)
    ensures |r| == |s|
  {
    seq(|s|, i requires 0 <= i < |s| => Xor(s[i], key[(off + i) % 4]))
  }

  /** Every byte of `r` is the byte of `s` with the digits flipped that the next byte of the key has. */
  predicate Flipped(s: bytes, key: Key, off: nat, r: bytes) {
    |r| == |s| && forall i :: 0 <= i < |s| ==> ExclusiveOr(s[i], key[(off + i) % 4], r[i])
  }

  /** The masked bytes are those and no others. */
  lemma MaskExactly(s: bytes, key: Key, off: nat, r: bytes)
    ensures Flipped(s, key, off, r) <==> r == Mask(s, key, off)
  {
    forall i | 0 <= i < |s|
      ensures ExclusiveOr(s[i], key[(off + i) % 4], Mask(s, key, off)[i])
      ensures |r| == |s| && ExclusiveOr(s[i], key[(off + i) % 4], r[i]) ==> r[i] == Mask(s, key, off)[i]
    {
      XorDigits(s[i], key[(off + i) % 4]);
      if |r| == |s| && ExclusiveOr(s[i], key[(off + i) % 4], r[i]) {
        DigitsFix(s[i], key[(off + i) % 4], r[i], Mask(s, key, off)[i]);
      }
    }
  }

  lemma MaskTwice(s: bytes, key: Key, off: nat)
    ensures Mask(Mask(s, key, off), key, off) == s
  {
    forall i | 0 <= i < |s|
      ensures Mask(Mask(s, key, off), key, off)[i] == s[i]
    {
      XorTwice(s[i], key[(off + i) % 4]);
    }
  }

  lemma MaskConcat(s: bytes, t: bytes, key: Key, off: nat)
    ensures Mask(s + t, key, off) == Mask(s, key, off) + Mask(t, key, off + |s|)
  {
    var whole := Mask(s + t, key, off);
    var parts := Mask(s, key, off) + Mask(t, key, off + |s|);
    forall i | 0 <= i < |s + t|
      ensures whole[i] == parts[i]
    {
      if i >= |s| {
        assert (s + t)[i] == t[i - |s|];
      }
    }
  }

  /** Unmasking chunk by chunk with the running offset of a streamed frame. */
  function MaskChunks(chunks: seq<bytes>, key: Key, off: nat): bytes {
    if chunks == [] then [] else Mask(chunks[0], key, off) + MaskChunks(chunks[1..], key, off + |chunks[0]|)
  }

  /** Every partition of a payload unmasks to the payload unmasked whole. */
  lemma {:induction false} MaskPartition(chunks: seq<bytes>, key: Key, off: nat)
    ensures MaskChunks(chunks, key, off) == Mask(Flatten(chunks), key, off)
  {
    if chunks != [] {
      var head, tail := chunks[0], chunks[1..];
      MaskPartition(tail, key, off + |head|);
      MaskConcat(head, Flatten(tail), key, off);
    }
  }

  /** Parses the header at `buf[lo..hi]`, accumulating a 64-bit length byte by byte. */
  method ReadHeader(buf: array<byte>, lo: nat, hi: nat) returns (p: Parsed)
    requires lo <= hi <= buf.Length
    ensures p == ParseHeader(buf[lo..hi])
  {
    if hi - lo < 2 {
      return NeedMore;
    }
    var b0, b1 := buf[lo], buf[lo + 1];
    var len7 := b1 % 128;
    var masked := b1 >= 128;
    var offset: nat, len: nat := 2, 0;
    if len7 < 126 {
      len := len7;
    } else {
      var ext: nat := if len7 == 126 then 2 else 8;
      if hi - lo < 2 + ext {
        return NeedMore;
      }
      for i := 0 to ext
        invariant len == FromBigEndian(buf[lo + 2..lo + 2 + i])
      {
        assert buf[lo + 2..lo + 2 + i + 1][..i] == buf[lo + 2..lo + 2 + i];
        len := len * 256 + buf[lo + 2 + i];
      }
      assert buf[lo..hi][2] == buf[lo + 2];
      if ext == 8 && buf[lo + 2] >= 128 {
        return Invalid;
      }
      offset := offset + ext;
      SubSlice(buf[..], lo, hi, 2, 2 + ext);
    }
    var key: Option<Key> := None;
    if masked {
      if hi - lo < offset + 4 {
        return NeedMore;
      }
      var k: Key := buf[lo + offset..lo + offset + 4];
      key := Some(k);
      SubSlice(buf[..], lo, hi, offset, offset + 4);
      offset := offset + 4;
    }
    p := Complete(
      Header(b0 >= 128, b0 / 64 % 2 == 1, b0 / 32 % 2 == 1, b0 / 16 % 2 == 1, b0 % 16, key, len), offset);
  }

  lemma SameSlice(s: bytes, t: bytes, lo: nat, hi: nat)
    requires lo <= hi <= |s| == |t| && forall k :: lo <= k < hi ==> s[k] == t[k]
    ensures s[lo..hi] == t[lo..hi]
  {
  }

  /** A range in two parts. */
  lemma SplitSlice(s: bytes, lo: nat, mid: nat, hi: nat)
    requires lo <= mid <= hi <= |s|
    ensures s[lo..hi][..mid - lo] == s[lo..mid] && s[lo..hi][mid - lo..] == s[mid..hi]
  {
  }

  lemma SubSlice(s: bytes, lo: nat, hi: nat, i: nat, j: nat)
    requires lo <= hi <= |s| && i <= j <= hi - lo
    ensures s[lo..hi][i..j] == s[lo + i..lo + j]
  {
    forall k | 0 <= k < j - i
      ensures s[lo..hi][i..j][k] == s[lo + i..lo + j][k]
    {
      assert s[lo..hi][i + k] == s[lo + (i + k)];
    }
  }

  /** Writes `v` as `ext` big-endian bytes at `buf[at..]`. */
  method WriteBigEndian(buf: array<byte>, at: nat, v: nat, ext: nat)
    requires at + ext <= buf.Length
    modifies buf
    ensures buf[..] == old(buf[..at]) + ToBigEndian(v, ext) + old(buf[at + ext..])
  {
    var rest, i := v, ext;
    ghost var done: bytes := [];
    while i > 0
      invariant 0 <= i <= ext && |done| == ext - i
      invariant ToBigEndian(rest, i) + done == ToBigEndian(v, ext)
      invariant buf[at + i..at + ext] == done
      invariant buf[..at + i] == old(buf[..at + i]) && buf[at + ext..] == old(buf[at + ext..])
    {
      i := i - 1;
      buf[at + i] := rest % 256;
      assert ToBigEndian(rest, i + 1) + done == ToBigEndian(rest / 256, i) + ([rest % 256] + done);
      done := [rest % 256] + done;
      rest := rest / 256;
    }
    assert buf[..] == buf[..at] + buf[at..at + ext] + buf[at + ext..];
  }

  /** Writes the header bytes into `buf` with a moving offset and returns how many, or -1. */
  method WriteHeader(buf: array<byte>, fin: bool, rsv1: nat, opcode: nat, key: Option<Key>, len: nat)
    returns (n: int)
    requires buf.Length >= 14 && len < TWO_64
    modifies buf
    ensures
      match BuildHeader(fin, rsv1, opcode, key, len)
      case None => n == -1 && buf[..] == old(buf[..])
      case Some(header) => n == |header| && buf[..n] == header && buf[n..] == old(buf[n..])
  {
    if rsv1 > 1 || opcode > 15 {
      return -1;
    }
    ghost var header, was := BuildHeader(fin, rsv1, opcode, key, len).value, buf[..];
    buf[0] := (if fin then 128 else 0) + (if rsv1 == 1 then 64 else 0) + opcode;
    var mask := if key.Some? then 128 else 0;
    ghost var first := buf[0];
    n := WriteLength(buf, mask, len);
    ghost var at, mid := n, buf[..];
    assert header == mid[..at] + (if key.Some? then key.value else []) && mid[at..] == was[at..];
    if key.Some? {
      n := WriteKey(buf, n, key.value);
      assert mid[n..] == mid[at..][4..] == was[at..][4..] == was[n..];
    }
  }

  /** The length byte and its extension behind the first byte. */
  method WriteLength(buf: array<byte>, mask: nat, len: nat) returns (n: nat)
    requires buf.Length >= 14 && mask in {0, 128} && len < TWO_64
    modifies buf
    ensures n == 1 + |LengthField(mask, len)| <= 10
    ensures buf[..n] == [old(buf[0])] + LengthField(mask, len) && buf[n..] == old(buf[n..])
  {
    if len < 126 {
      buf[1] := mask + len;
      n := 2;
    } else {
      var ext: nat := if len <= 0xFFFF then 2 else 8;
      buf[1] := mask + if ext == 2 then 126 else 127;
      ghost var start := buf[..2];
      WriteBigEndian(buf, 2, len, ext);
      n := 2 + ext;
      assert buf[..n] == start + ToBigEndian(len, ext);
    }
  }

  method WriteKey(buf: array<byte>, at: nat, key: Key) returns (n: nat)
    requires at + 4 <= buf.Length
    modifies buf
    ensures n == at + 4 && buf[..n] == old(buf[..at]) + key && buf[n..] == old(buf[n..])
  {
    buf[at], buf[at + 1], buf[at + 2], buf[at + 3] := key[0], key[1], key[2], key[3];
    n := at + 4;
  }

  /** XORs `buf[lo..hi]` in place as the bytes at offset `off` of a masked payload. */
  method ApplyMask(buf: array<byte>, lo: nat, hi: nat, key: Key, off: nat)
    requires lo <= hi <= buf.Length
    modifies buf
    ensures buf[lo..hi] == Mask(old(buf[lo..hi]), key, off)
    ensures forall k :: lo <= k < hi ==> ExclusiveOr(old(buf[k]), key[(off + (k - lo)) % 4], buf[k])
    ensures forall k :: 0 <= k < lo || hi <= k < buf.Length ==> buf[k] == old(buf[k])
  {
    ghost var was := buf[lo..hi];
    for i := 0 to hi - lo
      invariant buf[lo..lo + i] == Mask(was, key, off)[..i]
      invariant buf[lo + i..hi] == was[i..]
      invariant forall k :: 0 <= k < lo || hi <= k < buf.Length ==> buf[k] == old(buf[k])
    {
      assert buf[lo + i] == was[i..][0];
      buf[lo + i] := Xor(buf[lo + i], key[(off + i) % 4]);
      assert buf[lo..lo + i + 1] == buf[lo..lo + i] + [Mask(was, key, off)[i]];
    }
    MaskExactly(was, key, off, buf[lo..hi]);
    forall k | lo <= k < hi
      ensures ExclusiveOr(old(buf[k]), key[(off + (k - lo)) % 4], buf[k])
    {
      assert was[k - lo] == old(buf[k]) && buf[lo..hi][k - lo] == buf[k];
    }
  }
}
