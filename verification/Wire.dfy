/**
 The queue-message envelope: big-endian two's-complement fields written and read through
 the cursors of a bounded buffer.
 */
module Wire {
  import opened Wrappers

  type Byte = b: int | 0 <= b < 256

  const EXIT_MSG_TYPE: int := 0
  const ENVELOPE_HEADER_SIZE: nat := 6
  const SIGNAL_HEADER_SIZE: nat := 8

  predicate IsI32(v: int) { -0x8000_0000 <= v < 0x8000_0000 }

  predicate IsI16(v: int) { -0x8000 <= v < 0x8000 }

  /** The `n` big-endian bytes of an unsigned value. */
  function Bytes(u: nat, n: nat): (b: seq<Byte>)
    ensures |b| == n
  {
    if n == 0 then [] else Bytes(u / 0x100, n - 1) + [u % 0x100]
  }

  /** The value of the `n` bytes from `at` on. */
  function Unsigned(b: seq<Byte>, at: nat, n: nat): nat
    requires at + n <= |b|
  {
    if n == 0 then 0 else Unsigned(b, at, n - 1) * 0x100 + b[at + n - 1]
  }

  function Power(n: nat): nat {
    if n == 0 then 1 else 0x100 * Power(n - 1)
  }

  /** Every value that `n` bytes can hold comes back from them, wherever they stand. */
  lemma {:induction false} BytesRoundTrip(u: nat, n: nat, before: seq<Byte>, after: seq<Byte>)
    requires u < Power(n)
    ensures Unsigned(before + Bytes(u, n) + after, |before|, n) == u
  {
    if n > 0 {
      BytesRoundTrip(u / 0x100, n - 1, before, [u % 0x100] + after);
      assert before + Bytes(u, n) + after == before + Bytes(u / 0x100, n - 1) + ([u % 0x100] + after);
    }
  }

  /** `i32::to_be_bytes` */
  function I32Bytes(v: int): (b: seq<Byte>)
    requires IsI32(v)
    ensures |b| == 4
  {
    Bytes(if v < 0 then v + 0x1_0000_0000 else v, 4)
  }

  /** `i32::from_be_bytes` of the four bytes from `at` on */
  function I32At(b: seq<Byte>, at: nat): int
    requires at + 4 <= |b|
  {
    var u := Unsigned(b, at, 4);
    if u < 0x8000_0000 then u else u - 0x1_0000_0000
  }

  /** `i16::to_be_bytes` */
  function I16Bytes(v: int): (b: seq<Byte>)
    requires IsI16(v)
    ensures |b| == 2
  {
    Bytes(if v < 0 then v + 0x1_0000 else v, 2)
  }

  lemma I32RoundTrip(v: int, before: seq<Byte>, after: seq<Byte>)
    requires IsI32(v)
    ensures I32At(before + I32Bytes(v) + after, |before|) == v
  {
    assert Power(4) == 0x100 * (0x100 * (0x100 * (0x100 * Power(0))));
    BytesRoundTrip(if v < 0 then v + 0x1_0000_0000 else v, 4, before, after);
  }

  datatype SerStatus = SerOk | NoRoomLeft | DeserBufferEmpty | DeserSizeMismatch

  /** Type, port number 0, id and signal, in that order. */
  function SignalHeader(msgType: int, smId: int, signal: int): (b: seq<Byte>)
    requires IsI32(msgType) && IsI32(smId) && IsI32(signal)
    ensures |b| == ENVELOPE_HEADER_SIZE + SIGNAL_HEADER_SIZE
  {
    I32Bytes(msgType) + I16Bytes(0) + I32Bytes(smId) + I32Bytes(signal)
  }

  /** The leading field of a message, if it is long enough to have one. */
  function MsgTypeOf(bytes: seq<Byte>): Option<int> {
    if |bytes| < 4 then None else Some(I32At(bytes, 0))
  }

  /** What stands in the id and signal fields, if the message reaches that far. */
  function SignalOf(bytes: seq<Byte>): Option<(int, int)> {
    if |bytes| < 14 then None else Some((I32At(bytes, 6), I32At(bytes, 10)))
  }

  /** What a sender writes is what the dispatcher reads. */
  lemma SignalRoundTrip(msgType: int, smId: int, signal: int, data: seq<Byte>)
    requires IsI32(msgType) && IsI32(smId) && IsI32(signal)
    ensures MsgTypeOf(SignalHeader(msgType, smId, signal) + data) == Some(msgType)
    ensures SignalOf(SignalHeader(msgType, smId, signal) + data) == Some((smId, signal))
    ensures (SignalHeader(msgType, smId, signal) + data)[14..] == data
  {
    var b := SignalHeader(msgType, smId, signal) + data;
    var t, p, i, g := I32Bytes(msgType), I16Bytes(0), I32Bytes(smId), I32Bytes(signal);
    I32RoundTrip(msgType, [], p + i + g + data);
    assert b == [] + t + (p + i + g + data);
    I32RoundTrip(smId, t + p, g + data);
    assert b == t + p + i + (g + data);
    I32RoundTrip(signal, t + p + i, data);
    assert b == t + p + i + g + data;
  }

  /** A serialization buffer: bytes up to the write cursor, and a read cursor. */
  class Buffer {
    const capacity: nat
    var bytes: seq<Byte>
    var deser: nat

    ghost predicate Valid()
      reads this
    {
      |bytes| <= capacity && deser <= |bytes|
    }

    constructor (capacity: nat)
      ensures Valid() && this.capacity == capacity && bytes == [] && deser == 0
    {
      this.capacity := capacity;
      bytes, deser := [], 0;
    }

    /** Append if there is room; a write resets the read cursor. */
    method WriteRaw(data: seq<Byte>) returns (status: SerStatus)
      requires Valid()
      modifies this
      ensures Valid()
      ensures status == if |old(bytes)| + |data| <= capacity then SerOk else NoRoomLeft
      ensures status == SerOk ==> bytes == old(bytes) + data && deser == 0
      ensures status != SerOk ==> bytes == old(bytes) && deser == old(deser)
    {
      if |bytes| + |data| > capacity {
        return NoRoomLeft;
      }
      bytes, deser := bytes + data, 0;
      return SerOk;
    }

    method ReadI32() returns (status: SerStatus, v: int)
      requires Valid()
      modifies this`deser
      ensures Valid()
      ensures status == if |bytes| == old(deser) then DeserBufferEmpty
                        else if |bytes| - old(deser) < 4 then DeserSizeMismatch else SerOk
      ensures status == SerOk ==> deser == old(deser) + 4 && v == I32At(bytes, old(deser))
      ensures status != SerOk ==> deser == old(deser)
    {
      if |bytes| == deser {
        return DeserBufferEmpty, 0;
      }
      if |bytes| - deser < 4 {
        return DeserSizeMismatch, 0;
      }
      v := I32At(bytes, deser);
      deser := deser + 4;
      status := SerOk;
    }

    method MoveDeserTo(offset: nat) returns (status: SerStatus)
      requires Valid()
      modifies this`deser
      ensures Valid()
      ensures status == if bytes == [] then DeserBufferEmpty else if |bytes| < offset then DeserSizeMismatch else SerOk
      ensures deser == if status == SerOk then offset else 0
    {
      deser := 0;
      if bytes == [] {
        return DeserBufferEmpty;
      }
      if |bytes| < offset {
        return DeserSizeMismatch;
      }
      deser := offset;
      return SerOk;
    }

    /** Write the header of an internal signal; it fits exactly when there is room for all of it. */
    method WriteSignalHeader(msgType: int, smId: int, signal: int) returns (status: SerStatus)
      requires Valid() && IsI32(msgType) && IsI32(smId) && IsI32(signal)
      modifies this
      ensures Valid()
      ensures status == if |old(bytes)| + 14 <= capacity then SerOk else NoRoomLeft
      ensures status == SerOk ==> bytes == old(bytes) + SignalHeader(msgType, smId, signal)
    {
      status := WriteRaw(I32Bytes(msgType));
      if status == SerOk {
        status := WriteRaw(I16Bytes(0));
      }
      if status == SerOk {
        status := WriteRaw(I32Bytes(smId));
      }
      if status == SerOk {
        status := WriteRaw(I32Bytes(signal));
      }
    }

    /** Read the id and signal back; `None` exactly when one of the asserts fails. */
    method ReadSignalHeader() returns (r: Option<(int, int)>)
      requires Valid()
      modifies this`deser
      ensures Valid() && r == SignalOf(bytes)
      ensures r.Some? ==> deser == 14
    {
      var status := MoveDeserTo(ENVELOPE_HEADER_SIZE);
      if status != SerOk {
        return None;
      }
      var smId: int, signal: int;
      status, smId := ReadI32();
      if status != SerOk {
        return None;
      }
      status, signal := ReadI32();
      if status != SerOk {
        return None;
      }
      return Some((smId, signal));
    }
  }
}
