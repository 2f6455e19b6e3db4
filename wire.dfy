/**
 * The byte cursor the descriptor decoders read from, written to the rules of
 * the Protocol Buffers binary encoding (base-128 varints, length-delimited
 * payloads, fixed-width values, skipping by wire type).
 *
 * Every read is specified by a function of the buffer and the position it
 * starts at, returning the value and the position after it; a read past the
 * end of the buffer fails.
 */
module Wire {
  import opened Results

  newtype byte = x: int | 0 <= x < 256

  const Two32: nat := 0x1_0000_0000

  datatype Error =
    | TruncatedInput
    | UnsupportedWireType(wireType: nat)   // start-group and end-group markers
    | InvalidWireType(wireType: nat)       // wire types 6 and 7
    | MissingRequiredField(field: string)

  /** A decoded value together with the cursor position after it. */
  type Read<T> = Result<(T, nat), Error>

  /**
   * A base-128 varint starting at `pos`; `acc` and `scale` carry the value
   * of the groups already read and the weight of the next one.
   */
  function VarintFrom(buf: seq<byte>, pos: nat, acc: nat, scale: nat): (r: Read<nat>)
    decreases |buf| - pos
    ensures r.Ok? ==> pos < r.value.1 <= |buf|
  {
    if pos >= |buf| then Err(TruncatedInput)
    else if buf[pos] < 128 then Ok((acc + scale * buf[pos] as nat, pos + 1))
    else VarintFrom(buf, pos + 1, acc + scale * (buf[pos] as nat - 128), scale * 128)
  }

  /**
   * A varint ends at the first byte below 128; when every byte from `pos` on
   * is 128 or more, the read runs off the buffer and fails.
   */
  lemma {:induction false} VarintFromStops(buf: seq<byte>, pos: nat, acc: nat, scale: nat)
    ensures VarintFrom(buf, pos, acc, scale).Ok? ==>
      var end := VarintFrom(buf, pos, acc, scale).value.1;
      buf[end - 1] < 128 && forall i :: pos <= i < end - 1 ==> buf[i] >= 128
    ensures VarintFrom(buf, pos, acc, scale).Err? <==> forall i :: pos <= i < |buf| ==> buf[i] >= 128
    ensures VarintFrom(buf, pos, acc, scale).Err? ==> VarintFrom(buf, pos, acc, scale).error == TruncatedInput
    decreases |buf| - pos
  {
    if pos < |buf| && buf[pos] >= 128 {
      VarintFromStops(buf, pos + 1, acc + scale * (buf[pos] as nat - 128), scale * 128);
    }
  }

  function Varint(buf: seq<byte>, pos: nat): (r: Read<nat>)
    ensures r.Ok? ==> pos < r.value.1 <= |buf|
  {
    VarintFrom(buf, pos, 0, 1)
  }

  /** `uint32()`: a varint truncated to its low 32 bits. */
  function Uint32(buf: seq<byte>, pos: nat): (r: Read<nat>)
    ensures r.Ok? ==> r.value.0 < Two32 && pos < r.value.1 <= |buf|
  {
    var v :- Varint(buf, pos);
    Ok((v.0 % Two32, v.1))
  }

  /** Two's-complement reading of a 32-bit pattern. */
  function ToInt32(u: nat): (i: int)
    requires u < Two32
    ensures -0x8000_0000 <= i < 0x8000_0000
    ensures (i + Two32) % Two32 == u
  {
    if u < 0x8000_0000 then u else u - Two32
  }

  /** `int32()`: the low 32 bits of a varint, read as a signed integer. */
  function Int32(buf: seq<byte>, pos: nat): (r: Read<int>)
    ensures r.Ok? ==> pos < r.value.1 <= |buf|
  {
    var v :- Uint32(buf, pos);
    Ok((ToInt32(v.0), v.1))
  }

  /** `bool()`: true exactly when the low 32 bits of the varint are not all zero. */
  function Bool(buf: seq<byte>, pos: nat): (r: Read<bool>)
    ensures r.Ok? ==> pos < r.value.1 <= |buf|
  {
    var v :- Uint32(buf, pos);
    Ok((v.0 != 0, v.1))
  }

  /** `n` raw bytes starting at `pos`. */
  function Fixed(buf: seq<byte>, pos: nat, n: nat): (r: Read<seq<byte>>)
    ensures r.Ok? <==> pos + n <= |buf|
    ensures r.Ok? ==> r.value.1 == pos + n && r.value.0 == buf[pos..pos + n]
  {
    if pos + n <= |buf| then Ok((buf[pos..pos + n], pos + n)) else Err(TruncatedInput)
  }

  /** Reading `n + k` bytes is reading `n` bytes and then `k` more. */
  lemma FixedSplit(buf: seq<byte>, pos: nat, n: nat, k: nat)
    ensures Fixed(buf, pos, n + k).Ok? <==> Fixed(buf, pos, n).Ok? && Fixed(buf, pos + n, k).Ok?
    ensures Fixed(buf, pos, n + k).Ok? ==>
      Fixed(buf, pos, n + k).value.0 == Fixed(buf, pos, n).value.0 + Fixed(buf, pos + n, k).value.0
  {
    if pos + n + k <= |buf| {
      assert buf[pos..pos + n + k] == buf[pos..pos + n] + buf[pos + n..pos + n + k];
    }
  }

  /** `bytes()`: a uint32 length followed by that many bytes. */
  function Bytes(buf: seq<byte>, pos: nat): (r: Read<seq<byte>>)
    ensures r.Ok? ==> pos < r.value.1 <= |buf|
  {
    var len :- Uint32(buf, pos);
    Fixed(buf, len.1, len.0)
  }

  /** A byte read as the character with the same code; this is UTF-8 decoding on ASCII text. */
  function CharOf(b: byte): char
  {
    (b as int) as char
  }

  function Latin(bs: seq<byte>): (s: string)
    ensures |s| == |bs|
    ensures forall i :: 0 <= i < |bs| ==> s[i] == CharOf(bs[i])
  {
    seq(|bs|, i requires 0 <= i < |bs| => CharOf(bs[i]))
  }

  /** Distinct byte strings decode to distinct text, so decoding loses nothing. */
  lemma LatinInjective(a: seq<byte>, b: seq<byte>)
    ensures Latin(a) == Latin(b) <==> a == b
  {
    if Latin(a) == Latin(b) {
      forall i | 0 <= i < |a|
        ensures a[i] == b[i]
      {
        assert CharOf(a[i]) == Latin(a)[i] == Latin(b)[i] == CharOf(b[i]);
      }
    }
  }

  /** Text decoding works byte by byte, so it distributes over concatenation. */
  lemma LatinAppend(a: seq<byte>, b: seq<byte>)
    ensures Latin(a + b) == Latin(a) + Latin(b)
  {
    assert forall i :: 0 <= i < |a + b| ==> Latin(a + b)[i] == (Latin(a) + Latin(b))[i];
  }

  /** `string()`: a length-delimited payload read as text. */
  function Str(buf: seq<byte>, pos: nat): (r: Read<string>)
    ensures r.Ok? ==> pos < r.value.1 <= |buf|
  {
    var bs :- Bytes(buf, pos);
    Ok((Latin(bs.0), bs.1))
  }

  /** `skipType(wireType)`: the position after a value of that wire type. */
  function Skip(buf: seq<byte>, pos: nat, wireType: nat): (r: Result<nat, Error>)
    ensures r.Ok? ==> pos <= r.value <= |buf|
    ensures r.Ok? ==> wireType in {0, 1, 2, 5}
  {
    match wireType
    case 0 => var v :- Varint(buf, pos); Ok(v.1)
    case 1 => var b :- Fixed(buf, pos, 8); Ok(b.1)
    case 2 => var b :- Bytes(buf, pos); Ok(b.1)
    case 5 => var b :- Fixed(buf, pos, 4); Ok(b.1)
    case 3 => Err(UnsupportedWireType(3))
    case 4 => Err(UnsupportedWireType(4))
    case _ => Err(InvalidWireType(wireType))
  }

  /** `tag >>> 3` and `tag & 7` on a 32-bit tag. */
  function FieldNumber(tag: nat): nat { tag / 8 }
  function WireType(tag: nat): (w: nat) ensures w < 8 { tag % 8 }

  /** A method result agrees with a read function: same value and final position, or same error. */
  predicate Tracks<T(==)>(res: Result<T, Error>, spec: Read<T>, pos: nat)
  {
    match spec
    case Ok(vp) => res == Ok(vp.0) && pos == vp.1
    case Err(e) => res == Err(e)
  }

  predicate TracksPos(res: Result<(), Error>, spec: Result<nat, Error>, pos: nat)
  {
    match spec
    case Ok(p) => res == Ok(()) && pos == p
    case Err(e) => res == Err(e)
  }

  /**
   * The reference encoding of a varint, least significant group first, as
   * the encoding guide describes it; the decoder inverts it.
   */
  function EncodeVarint(n: nat): (e: seq<byte>)
    ensures |e| >= 1
    decreases n
  {
    if n < 128 then [n as byte] else [(128 + n % 128) as byte] + EncodeVarint(n / 128)
  }

  lemma DivModSplit(n: nat, acc: nat, scale: nat)
    ensures acc + scale * (n % 128) + scale * 128 * (n / 128) == acc + scale * n
  {
    var q, r := n / 128, n % 128;
    assert n == 128 * q + r;
    assert scale * n == scale * r + scale * 128 * q by {
      assert scale * (128 * q + r) == scale * r + scale * (128 * q);
    }
  }

  lemma {:induction false} VarintFromEncoded(buf: seq<byte>, pos: nat, acc: nat, scale: nat, n: nat)
    requires pos + |EncodeVarint(n)| <= |buf|
    requires buf[pos..pos + |EncodeVarint(n)|] == EncodeVarint(n)
    ensures VarintFrom(buf, pos, acc, scale) == Ok((acc + scale * n, pos + |EncodeVarint(n)|))
    decreases n
  {
    var e := EncodeVarint(n);
    assert buf[pos] == e[0];
    if n >= 128 {
      var tail := EncodeVarint(n / 128);
      var low := n % 128;
      assert e == [(128 + low) as byte] + tail;
      assert buf[pos] as nat - 128 == low;
      assert buf[pos + 1..pos + 1 + |tail|] == tail by {
        assert buf[pos + 1..pos + 1 + |tail|] == e[1..];
      }
      VarintFromEncoded(buf, pos + 1, acc + scale * low, scale * 128, n / 128);
      DivModSplit(n, acc, scale);
    }
  }

  /** Decoding a varint at the start of its reference encoding yields the encoded number. */
  lemma VarintRoundTrip(buf: seq<byte>, pos: nat, n: nat)
    requires pos + |EncodeVarint(n)| <= |buf|
    requires buf[pos..pos + |EncodeVarint(n)|] == EncodeVarint(n)
    ensures Varint(buf, pos) == Ok((n, pos + |EncodeVarint(n)|))
  {
    VarintFromEncoded(buf, pos, 0, 1, n);
  }

  /** The cursor the decode routines share: a buffer and a position in it. */
  class Reader {
    const buf: seq<byte>
    var pos: nat

    ghost predicate Valid()
      reads this
    {
      pos <= |buf|
    }

    constructor (bytes: seq<byte>)
      ensures Valid() && buf == bytes && pos == 0
    {
      buf := bytes;
      pos := 0;
    }

    /** `len` of the protobufjs reader: the length of the whole buffer. */
    function Len(): nat
    {
      |buf|
    }

    method ReadVarint() returns (res: Result<nat, Error>)
      requires Valid()
      modifies this
      ensures Valid()
      ensures Tracks(res, Varint(buf, old(pos)), pos)
    {
      var acc: nat, scale: nat := 0, 1;
      while pos < |buf|
        invariant pos <= |buf|
        invariant VarintFrom(buf, pos, acc, scale) == Varint(buf, old(pos))
        decreases |buf| - pos
      {
        var b := buf[pos];
        pos := pos + 1;
        if b < 128 {
          assert VarintFrom(buf, pos - 1, acc, scale) == Ok((acc + scale * b as nat, pos));
          return Ok(acc + scale * b as nat);
        }
        var digit: nat := b as nat - 128;
        assert VarintFrom(buf, pos - 1, acc, scale) == VarintFrom(buf, pos, acc + scale * digit, scale * 128);
        acc, scale := acc + scale * digit, scale * 128;
      }
      return Err(TruncatedInput);
    }

    method ReadUint32() returns (res: Result<nat, Error>)
      requires Valid()
      modifies this
      ensures Valid()
      ensures Tracks(res, Uint32(buf, old(pos)), pos)
    {
      var v :- ReadVarint();
      return Ok(v % Two32);
    }

    method ReadInt32() returns (res: Result<int, Error>)
      requires Valid()
      modifies this
      ensures Valid()
      ensures Tracks(res, Int32(buf, old(pos)), pos)
    {
      var u :- ReadUint32();
      return Ok(ToInt32(u));
    }

    method ReadBool() returns (res: Result<bool, Error>)
      requires Valid()
      modifies this
      ensures Valid()
      ensures Tracks(res, Bool(buf, old(pos)), pos)
    {
      var u :- ReadUint32();
      return Ok(u != 0);
    }

    method ReadFixed(n: nat) returns (res: Result<seq<byte>, Error>)
      requires Valid()
      modifies this
      ensures Valid()
      ensures Tracks(res, Fixed(buf, old(pos), n), pos)
    {
      if pos + n > |buf| {
        return Err(TruncatedInput);
      }
      res := Ok(buf[pos..pos + n]);
      pos := pos + n;
    }

    method ReadBytes() returns (res: Result<seq<byte>, Error>)
      requires Valid()
      modifies this
      ensures Valid()
      ensures Tracks(res, Bytes(buf, old(pos)), pos)
    {
      var len :- ReadUint32();
      res := ReadFixed(len);
    }

    method ReadString() returns (res: Result<string, Error>)
      requires Valid()
      modifies this
      ensures Valid()
      ensures Tracks(res, Str(buf, old(pos)), pos)
    {
      var bs :- ReadBytes();
      return Ok(Latin(bs));
    }

    method SkipType(wireType: nat) returns (res: Result<(), Error>)
      requires Valid()
      modifies this
      ensures Valid()
      ensures TracksPos(res, Skip(buf, old(pos), wireType), pos)
    {
      match wireType {
        case 0 => var v :- ReadVarint();
        case 1 => var b :- ReadFixed(8);
        case 2 => var b :- ReadBytes();
        case 5 => var b :- ReadFixed(4);
        case 3 => return Err(UnsupportedWireType(3));
        case 4 => return Err(UnsupportedWireType(4));
        case _ => return Err(InvalidWireType(wireType));
      }
      return Ok(());
    }
  }
}
