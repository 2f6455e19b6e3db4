/**
 * Reference encodings of the wire values the descriptor decoders read, as the
 * Protocol Buffers encoding guide defines them ("Base 128 Varints", "Message
 * Structure", "Signed Integers" for int32 sign extension, "Length-Delimited
 * Records"), and lemmas that each `Wire` read inverts its encoding wherever
 * the encoding appears in a larger buffer.
 */
module Encode {
  import opened Results
  import opened Wire

  /** A field key: `(number << 3) | wireType`. */
  function EncodeTag(number: nat, wireType: nat): (e: seq<byte>)
    requires wireType < 8
    ensures |e| >= 1
  {
    EncodeVarint(number * 8 + wireType)
  }

  /** An int32 value: non-negative values as themselves, negative ones sign-extended to 64 bits. */
  function EncodeInt32(v: int): (e: seq<byte>)
    requires -0x8000_0000 <= v < 0x8000_0000
    ensures |e| >= 1
  {
    EncodeVarint(if v >= 0 then v else v + 0x1_0000_0000_0000_0000)
  }

  function EncodeBool(b: bool): (e: seq<byte>)
    ensures |e| == 1
  {
    EncodeVarint(if b then 1 else 0)
  }

  /** A length-delimited payload: its length as a varint, then the bytes. */
  function EncodeBytes(bs: seq<byte>): (e: seq<byte>)
    ensures |e| > |bs|
  {
    EncodeVarint(|bs|) + bs
  }

  /** The inverse of `Latin` on text whose characters all fit in one byte. */
  function BytesOf(s: string): (bs: seq<byte>)
    requires forall i :: 0 <= i < |s| ==> s[i] as int < 256
    ensures |bs| == |s|
    ensures Latin(bs) == s
  {
    seq(|s|, i requires 0 <= i < |s| => s[i] as int as byte)
  }

  /** Where `a + b` sits at `pos`, `a` sits at `pos` and `b` right after it. */
  lemma SplitAt(buf: seq<byte>, pos: nat, a: seq<byte>, b: seq<byte>)
    requires pos + |a| + |b| <= |buf|
    requires buf[pos..pos + |a| + |b|] == a + b
    ensures buf[pos..pos + |a|] == a
    ensures buf[pos + |a|..pos + |a| + |b|] == b
  {
    assert buf[pos..pos + |a|] == (a + b)[..|a|];
    assert buf[pos + |a|..pos + |a| + |b|] == (a + b)[|a|..];
  }

  lemma Uint32RoundTrip(buf: seq<byte>, pos: nat, n: nat)
    requires n < Two32
    requires pos + |EncodeVarint(n)| <= |buf|
    requires buf[pos..pos + |EncodeVarint(n)|] == EncodeVarint(n)
    ensures Uint32(buf, pos) == Ok((n, pos + |EncodeVarint(n)|))
  {
    VarintRoundTrip(buf, pos, n);
  }

  lemma TagRoundTrip(buf: seq<byte>, pos: nat, number: nat, wireType: nat)
    requires wireType < 8 && number * 8 + wireType < Two32
    requires pos + |EncodeTag(number, wireType)| <= |buf|
    requires buf[pos..pos + |EncodeTag(number, wireType)|] == EncodeTag(number, wireType)
    ensures Uint32(buf, pos) == Ok((number * 8 + wireType, pos + |EncodeTag(number, wireType)|))
    ensures FieldNumber(number * 8 + wireType) == number
    ensures WireType(number * 8 + wireType) == wireType
  {
    Uint32RoundTrip(buf, pos, number * 8 + wireType);
  }

  /** `int32()` recovers every 32-bit signed value, negative ones from their ten-byte form. */
  lemma Int32RoundTrip(buf: seq<byte>, pos: nat, v: int)
    requires -0x8000_0000 <= v < 0x8000_0000
    requires pos + |EncodeInt32(v)| <= |buf|
    requires buf[pos..pos + |EncodeInt32(v)|] == EncodeInt32(v)
    ensures Int32(buf, pos) == Ok((v, pos + |EncodeInt32(v)|))
  {
    var n: nat := if v >= 0 then v else v + 0x1_0000_0000_0000_0000;
    VarintRoundTrip(buf, pos, n);
    if v < 0 {
      assert n == (v + Two32) + (Two32 - 1) * Two32;
      assert n % Two32 == v + Two32;
    }
  }

  lemma BoolRoundTrip(buf: seq<byte>, pos: nat, b: bool)
    requires pos + 1 <= |buf|
    requires buf[pos..pos + 1] == EncodeBool(b)
    ensures Bool(buf, pos) == Ok((b, pos + 1))
  {
    VarintRoundTrip(buf, pos, if b then 1 else 0);
  }

  lemma BytesRoundTrip(buf: seq<byte>, pos: nat, bs: seq<byte>)
    requires |bs| < Two32
    requires pos + |EncodeBytes(bs)| <= |buf|
    requires buf[pos..pos + |EncodeBytes(bs)|] == EncodeBytes(bs)
    ensures Bytes(buf, pos) == Ok((bs, pos + |EncodeBytes(bs)|))
  {
    SplitAt(buf, pos, EncodeVarint(|bs|), bs);
    VarintRoundTrip(buf, pos, |bs|);
  }

  lemma StrRoundTrip(buf: seq<byte>, pos: nat, bs: seq<byte>)
    requires |bs| < Two32
    requires pos + |EncodeBytes(bs)| <= |buf|
    requires buf[pos..pos + |EncodeBytes(bs)|] == EncodeBytes(bs)
    ensures Str(buf, pos) == Ok((Latin(bs), pos + |EncodeBytes(bs)|))
  {
    BytesRoundTrip(buf, pos, bs);
  }

  /** `skipType(0)` steps over exactly one varint. */
  lemma SkipVarint(buf: seq<byte>, pos: nat, n: nat)
    requires pos + |EncodeVarint(n)| <= |buf|
    requires buf[pos..pos + |EncodeVarint(n)|] == EncodeVarint(n)
    ensures Skip(buf, pos, 0) == Ok(pos + |EncodeVarint(n)|)
  {
    VarintRoundTrip(buf, pos, n);
  }

  /** `skipType(2)` steps over exactly one length-delimited payload. */
  lemma SkipBytes(buf: seq<byte>, pos: nat, bs: seq<byte>)
    requires |bs| < Two32
    requires pos + |EncodeBytes(bs)| <= |buf|
    requires buf[pos..pos + |EncodeBytes(bs)|] == EncodeBytes(bs)
    ensures Skip(buf, pos, 2) == Ok(pos + |EncodeBytes(bs)|)
  {
    BytesRoundTrip(buf, pos, bs);
  }
}
