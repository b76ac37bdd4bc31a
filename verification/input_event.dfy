/**
 * The Linux `struct input_event` record as the controller reads it: a
 * 16-byte little-endian block holding a `timeval` (two signed 32-bit words),
 * an unsigned 16-bit event type, an unsigned 16-bit event code and a signed
 * 32-bit value. Only the byte layout is modelled; the stream read itself is not.
 */
module InputEvent {
  import opened Wrappers

  /** One octet of the byte stream. */
  type Byte = b: int | 0 <= b < 256

  /** Go's `uint16`. */
  type U16 = x: int | 0 <= x < 0x1_0000

  /** Go's `int32`. */
  type I32 = x: int | -0x8000_0000 <= x < 0x8000_0000

  /** `timeVal`: seconds and microseconds, both 32-bit. */
  datatype TimeVal = TimeVal(sec: I32, usec: I32)

  /** `inputEvent`: one decoded record. */
  datatype Event = Event(time: TimeVal, typ: U16, code: U16, value: I32)

  /** Size in bytes of one record on the wire. */
  const EventSize: nat := 16

  /** A read that ended before a full record was available. */
  datatype DecodeError = ShortRead(available: nat)

  function Pow256(k: nat): (p: nat)
    ensures p >= 1
  {
    if k == 0 then 1 else 256 * Pow256(k - 1)
  }

  /** The unsigned number whose little-endian bytes are `bs`. */
  function Unsigned(bs: seq<Byte>): (n: nat)
    ensures n < Pow256(|bs|)
  {
    if |bs| == 0 then 0 else bs[0] + 256 * Unsigned(bs[1..])
  }

  /** The `k` little-endian bytes of `n`. */
  function Bytes(n: nat, k: nat): (bs: seq<Byte>)
    requires n < Pow256(k)
    ensures |bs| == k
  {
    if k == 0 then [] else [n % 256] + Bytes(n / 256, k - 1)
  }

  lemma DivMod256(n: nat)
    ensures n == n % 256 + 256 * (n / 256)
  {
  }

  lemma {:induction false} UnsignedBytes(n: nat, k: nat)
    requires n < Pow256(k)
    ensures Unsigned(Bytes(n, k)) == n
  {
    if k > 0 {
      var bs := Bytes(n, k);
      assert bs[0] == n % 256;
      assert bs[1..] == Bytes(n / 256, k - 1);
      UnsignedBytes(n / 256, k - 1);
      DivMod256(n);
      calc {
        Unsigned(bs);
        bs[0] + 256 * Unsigned(bs[1..]);
        n % 256 + 256 * (n / 256);
        n;
      }
    }
  }

  lemma SplitLowByte(lo: nat, hi: nat)
    requires lo < 256
    ensures (lo + 256 * hi) % 256 == lo
    ensures (lo + 256 * hi) / 256 == hi
  {
  }

  lemma {:induction false} BytesUnsigned(bs: seq<Byte>)
    ensures Bytes(Unsigned(bs), |bs|) == bs
  {
    if |bs| > 0 {
      var n := Unsigned(bs);
      assert n == bs[0] + 256 * Unsigned(bs[1..]);
      SplitLowByte(bs[0], Unsigned(bs[1..]));
      BytesUnsigned(bs[1..]);
      assert n % 256 == bs[0];
    }
  }

  /** Two's-complement reading of four bytes as a signed 32-bit word. */
  function ToI32(u: nat): (v: I32)
    requires u < 0x1_0000_0000
  {
    if u < 0x8000_0000 then u else u - 0x1_0000_0000
  }

  function FromI32(v: I32): (u: nat)
    ensures u < 0x1_0000_0000
  {
    if v >= 0 then v else v + 0x1_0000_0000
  }

  function EncodeU16(x: U16): (bs: seq<Byte>)
    ensures |bs| == 2
  {
    Bytes(x, 2)
  }

  function EncodeI32(v: I32): (bs: seq<Byte>)
    ensures |bs| == 4
  {
    Bytes(FromI32(v), 4)
  }

  function DecodeU16(bs: seq<Byte>): U16
    requires |bs| == 2
  {
    Unsigned(bs)
  }

  function DecodeI32(bs: seq<Byte>): I32
    requires |bs| == 4
  {
    assert Pow256(4) == 0x1_0000_0000;
    ToI32(Unsigned(bs))
  }

  /** The 16 bytes `binary.Read` consumes for one record, in field order. */
  function Encode(e: Event): (bs: seq<Byte>)
    ensures |bs| == EventSize
  {
    EncodeI32(e.time.sec) + EncodeI32(e.time.usec)
      + EncodeU16(e.typ) + EncodeU16(e.code) + EncodeI32(e.value)
  }

  /**
   * Reads one record from the front of `bs`, returning it with the bytes
   * that follow; fails, reporting how many bytes there were, when fewer than
   * 16 bytes are available.
   */
  function Decode(bs: seq<Byte>): (r: Result<(Event, seq<Byte>), DecodeError>)
    ensures r.Failure? <==> |bs| < EventSize
    ensures r.Failure? ==> r.error == ShortRead(|bs|)
    ensures r.Success? ==> r.value.1 == bs[EventSize..]
  {
    if |bs| < EventSize then Failure(ShortRead(|bs|))
    else
      var time := TimeVal(DecodeI32(bs[0..4]), DecodeI32(bs[4..8]));
      Success((Event(time, DecodeU16(bs[8..10]), DecodeU16(bs[10..12]), DecodeI32(bs[12..16])),
               bs[16..]))
  }

  lemma DecodeEncodeU16(x: U16)
    ensures DecodeU16(EncodeU16(x)) == x
  {
    UnsignedBytes(x, 2);
  }

  lemma DecodeEncodeI32(v: I32)
    ensures DecodeI32(EncodeI32(v)) == v
  {
    assert Pow256(4) == 0x1_0000_0000;
    UnsignedBytes(FromI32(v), 4);
  }

  lemma EncodeDecodeI32(bs: seq<Byte>)
    requires |bs| == 4
    ensures EncodeI32(DecodeI32(bs)) == bs
  {
    assert Pow256(4) == 0x1_0000_0000;
    BytesUnsigned(bs);
  }

  lemma EncodeDecodeU16(bs: seq<Byte>)
    requires |bs| == 2
    ensures EncodeU16(DecodeU16(bs)) == bs
  {
    BytesUnsigned(bs);
  }

  /** Decoding what was encoded gives the record back and leaves the rest of the stream. */
  lemma DecodeEncode(e: Event, rest: seq<Byte>)
    ensures Decode(Encode(e) + rest) == Success((e, rest))
  {
    var bs := Encode(e) + rest;
    assert bs[0..4] == EncodeI32(e.time.sec);
    assert bs[4..8] == EncodeI32(e.time.usec);
    assert bs[8..10] == EncodeU16(e.typ);
    assert bs[10..12] == EncodeU16(e.code);
    assert bs[12..16] == EncodeI32(e.value);
    assert bs[16..] == rest;
    DecodeEncodeI32(e.time.sec);
    DecodeEncodeI32(e.time.usec);
    DecodeEncodeU16(e.typ);
    DecodeEncodeU16(e.code);
    DecodeEncodeI32(e.value);
  }

  /** Every 16-byte block is a valid record, and re-encoding it gives the block back. */
  lemma EncodeDecode(bs: seq<Byte>)
    requires |bs| >= EventSize
    ensures Decode(bs).Success?
    ensures Encode(Decode(bs).value.0) + Decode(bs).value.1 == bs
  {
    EncodeDecodeI32(bs[0..4]);
    EncodeDecodeI32(bs[4..8]);
    EncodeDecodeU16(bs[8..10]);
    EncodeDecodeU16(bs[10..12]);
    EncodeDecodeI32(bs[12..16]);
    assert bs == bs[0..4] + bs[4..8] + bs[8..10] + bs[10..12] + bs[12..16] + bs[16..];
  }
}
