// Deserializer: a cursor over a copy of a serial buffer. Each read either
// copies the next bytes out and advances, reports failure (false) leaving the
// cursor where the failing read found it, or trips the buffer's index
// assertion. The reads are first given as functions over the bytes and a
// position; the class follows them.
module Deserializers {
  import opened Common
  import opened FastTypedArenas
  import opened Serializers

  /** The outcome of a read starting at some position: the value read and the
      position after it; a `false` return with the cursor at `at`; or a failed
      hit_assert. Chains with `:-`, propagating the failure. */
  datatype Read<T> = Got(value: T, at: nat) | Short(at: nat) | Tripped
  {
    predicate IsFailure() { !Got? }
    function PropagateFailure<U>(): Read<U>
      requires IsFailure()
    {
      if Short? then Short(at) else Tripped
    }
    function Extract(): (T, nat)
      requires !IsFailure()
    {
      (value, at)
    }
  }

  /** The cursor a read leaves is never past the end of the bytes. */
  predicate Within<T>(r: Read<T>, bytes: seq<byte>)
  {
    !r.Tripped? ==> r.at <= |bytes|
  }

  /** `image` sits in `bytes` at `position`. */
  predicate Written(bytes: seq<byte>, position: nat, image: seq<byte>)
  {
    position + |image| <= |bytes| && bytes[position..position + |image|] == image
  }

  /** A method's (success, value) result as a Read at the cursor it leaves. */
  function Outcome<T>(r: Option<T>, at: nat): Read<T>
  {
    if r.Some? then Got(r.value, at) else Short(at)
  }

  /** try_deserialize / try_deserialize_array of n bytes: false when fewer
      than n are left; otherwise the copy reads m_buffer[position], which
      asserts the position is inside the buffer, even for n = 0. */
  function Take(bytes: seq<byte>, position: nat, n: nat): (r: Read<seq<byte>>)
    requires position <= |bytes|
    ensures Within(r, bytes)
  {
    if n > |bytes| - position then Short(position)
    else if position == |bytes| then Tripped
    else Got(bytes[position..position + n], position + n)
  }

  /** try_deserialize(&x) for a ui64. */
  function ReadU64(bytes: seq<byte>, position: nat): (r: Read<nat>)
    requires position <= |bytes|
    ensures Within(r, bytes) && !r.Tripped?
    ensures r.Got? ==> r.value < U64_LIMIT && r.at == position + 8
    ensures r.Short? <==> |bytes| - position < 8
  {
    var (image, at) :- Take(bytes, position, 8);
    FromLittleEndianBound(image);
    Power256Values();
    Got(FromLittleEndian(image), at)
  }

  /** try_deserialize(&x) for a ui32 or an enum. */
  function ReadU32(bytes: seq<byte>, position: nat): (r: Read<nat>)
    requires position <= |bytes|
    ensures Within(r, bytes) && !r.Tripped?
    ensures r.Got? ==> r.value < U32_LIMIT && r.at == position + 4
    ensures r.Short? <==> |bytes| - position < 4
  {
    var (image, at) :- Take(bytes, position, 4);
    FromLittleEndianBound(image);
    Power256Values();
    Got(FromLittleEndian(image), at)
  }

  /** try_deserialize_string: a ui64 length, then that many characters. A
      length longer than what is left fails with the cursor already past the
      length; an empty string at the very end trips the index assertion. */
  function ReadString(bytes: seq<byte>, position: nat): (r: Read<CString>)
    requires position <= |bytes|
    ensures Within(r, bytes)
  {
    var (length, at) :- ReadU64(bytes, position);
    var (chars, end) :- Take(bytes, at, length);
    Got(BytesString(chars), end)
  }

  /** An image split in two: each half sits where it should. */
  lemma WrittenSplit(bytes: seq<byte>, position: nat, a: seq<byte>, b: seq<byte>)
    requires Written(bytes, position, a + b)
    ensures Written(bytes, position, a) && Written(bytes, position + |a|, b)
  {
    assert bytes[position..position + |a|] == (a + b)[..|a|];
    assert bytes[position + |a|..position + |a| + |b|] == (a + b)[|a|..];
  }

  /** Taking a written image of at least one byte gets it back. */
  lemma TakeWritten(bytes: seq<byte>, position: nat, image: seq<byte>)
    requires Written(bytes, position, image) && |image| > 0
    ensures Take(bytes, position, |image|) == Got(image, position + |image|)
  {
  }

  /** A ui64 written by the serializer reads back as itself. */
  lemma ReadU64Written(bytes: seq<byte>, position: nat, x: nat)
    requires x < U64_LIMIT && Written(bytes, position, EncodeU64(x))
    ensures ReadU64(bytes, position) == Got(x, position + 8)
  {
    TakeWritten(bytes, position, EncodeU64(x));
    Power256Values();
    LittleEndianRoundTrip(x, 8);
  }

  /** A ui32 or an enum written by the serializer reads back as itself. */
  lemma ReadU32Written(bytes: seq<byte>, position: nat, x: nat)
    requires x < U32_LIMIT && Written(bytes, position, EncodeU32(x))
    ensures ReadU32(bytes, position) == Got(x, position + 4)
  {
    TakeWritten(bytes, position, EncodeU32(x));
    Power256Values();
    LittleEndianRoundTrip(x, 4);
  }

  /** A non-empty string written by the serializer reads back as itself. */
  lemma ReadStringWritten(bytes: seq<byte>, position: nat, s: CString)
    requires 0 < |s| < U64_LIMIT && Written(bytes, position, EncodeString(s))
    ensures ReadString(bytes, position) == Got(s, position + |EncodeString(s)|)
  {
    WrittenSplit(bytes, position, EncodeU64(|s|), StringBytes(s));
    ReadU64Written(bytes, position, |s|);
    TakeWritten(bytes, position + 8, StringBytes(s));
    StringBytesRoundTrip(s);
  }

  /** As written, a string whose length overruns the buffer fails without
      giving back the eight bytes of its length. */
  lemma ReadStringKeepsLength(bytes: seq<byte>, position: nat)
    requires position + 8 <= |bytes|
    requires FromLittleEndian(bytes[position..position + 8]) > |bytes| - (position + 8)
    ensures ReadString(bytes, position) == Short(position + 8)
  {
  }

  class Deserializer {
    /** data() of m_buffer, the copy of the serial buffer. */
    var bytes: seq<byte>
    /** m_current_position. */
    var position: nat

    ghost predicate Valid()
      reads this
    {
      position <= |bytes|
    }

    /** Deserializer(buffer): a copy of the buffer, read from position 0. */
    constructor FromBuffer(buffer: FastTypedArena<byte>)
      requires buffer.Valid()
      ensures Valid() && bytes == buffer.Data() && position == 0
    {
      bytes, position := buffer.Data(), 0;
    }

    /** Deserializer(serializer): the serializer's buffer, read from 0. */
    constructor FromSerializer(serializer: Serializer)
      requires serializer.Valid()
      ensures Valid() && bytes == serializer.Bytes() && position == 0
    {
      bytes, position := serializer.Bytes(), 0;
    }

    /** go_to(p): only to a position inside the buffer. */
    method GoTo(p: nat) returns (ok: bool)
      requires Valid()
      modifies this`position
      ensures Valid()
      ensures ok <==> p < |bytes|
      ensures position == if ok then p else old(position)
    {
      if p >= |bytes| {
        return false;
      }
      position := p;
      return true;
    }

    /** get_left_size(). */
    function LeftSize(): (n: nat)
      reads this
      requires Valid()
      ensures position + n == |bytes|
    {
      |bytes| - position
    }

    /** get_total_size(). */
    function TotalSize(): nat
      reads this
    {
      |bytes|
    }

    /** try_deserialize<T>(&out): sizeof(T) = n bytes, at least one. */
    method TryDeserialize(n: nat) returns (r: Option<seq<byte>>)
      requires Valid() && n > 0
      modifies this`position
      ensures Valid()
      ensures Take(old(bytes), old(position), n) == Outcome(r, position)
    {
      r := TryDeserializeArray(n);
    }

    /** try_deserialize_array(out, count) with count * sizeof(T) = n bytes;
        for n = 0 the copy still reads m_buffer[position]. */
    method TryDeserializeArray(n: nat) returns (r: Option<seq<byte>>)
      requires Valid() && !Take(bytes, position, n).Tripped?
      modifies this`position
      ensures Valid()
      ensures Take(old(bytes), old(position), n) == Outcome(r, position)
    {
      if n > LeftSize() {
        return None;
      }
      r := Some(bytes[position..position + n]);
      position := position + n;
    }

    /** try_deserialize_string(&out). */
    method TryDeserializeString() returns (r: Option<CString>)
      requires Valid() && !ReadString(bytes, position).Tripped?
      modifies this`position
      ensures Valid()
      ensures ReadString(old(bytes), old(position)) == Outcome(r, position)
    {
      var length := TryDeserializeU64();
      if length.None? {
        return None;
      }
      if length.value > LeftSize() {
        return None;
      }
      r := Some(BytesString(bytes[position..position + length.value]));
      position := position + length.value;
    }

    /** try_deserialize(&x) for a ui64. */
    method TryDeserializeU64() returns (r: Option<nat>)
      requires Valid()
      modifies this`position
      ensures Valid()
      ensures ReadU64(old(bytes), old(position)) == Outcome(r, position)
    {
      var image := TryDeserialize(8);
      if image.None? {
        return None;
      }
      r := Some(FromLittleEndian(image.value));
    }

    /** try_deserialize(&x) for a ui32 or an enum. */
    method TryDeserializeU32() returns (r: Option<nat>)
      requires Valid()
      modifies this`position
      ensures Valid()
      ensures ReadU32(old(bytes), old(position)) == Outcome(r, position)
    {
      var image := TryDeserialize(4);
      if image.None? {
        return None;
      }
      r := Some(FromLittleEndian(image.value));
    }

    /** deserialize<T>(): asserts the read succeeds. */
    method Deserialize(n: nat) returns (image: seq<byte>)
      requires Valid() && n > 0 && Take(bytes, position, n).Got?
      modifies this`position
      ensures Valid()
      ensures Take(old(bytes), old(position), n) == Got(image, position)
    {
      var r := TryDeserialize(n);
      image := r.value;
    }

    /** deserialize_array<T>(count): asserts the read succeeds. */
    method DeserializeArray(n: nat) returns (image: seq<byte>)
      requires Valid() && Take(bytes, position, n).Got?
      modifies this`position
      ensures Valid()
      ensures Take(old(bytes), old(position), n) == Got(image, position)
    {
      var r := TryDeserializeArray(n);
      image := r.value;
    }

    /** deserialize_string(): asserts the read succeeds. */
    method DeserializeString() returns (s: CString)
      requires Valid() && ReadString(bytes, position).Got?
      modifies this`position
      ensures Valid()
      ensures ReadString(old(bytes), old(position)) == Got(s, position)
    {
      var r := TryDeserializeString();
      s := r.value;
    }
  }

  /** Whatever a serializer wrote after a fresh start, a deserializer built
      from it reads back: here a ui64 followed by a string. */
  method WriteThenRead(x: nat, s: CString) returns (y: nat, t: CString)
    requires x < U64_LIMIT && 0 < |s| < U64_LIMIT
    ensures y == x && t == s
  {
    var out := new Serializer();
    out.Serialize(EncodeU64(x));
    out.SerializeString(s);
    var bytes := out.Bytes();
    assert bytes == EncodeU64(x) + EncodeString(s);
    var d := new Deserializer.FromSerializer(out);
    WrittenSplit(bytes, 0, EncodeU64(x), EncodeString(s));
    ReadU64Written(bytes, 0, x);
    ReadStringWritten(bytes, 8, s);
    var image := d.Deserialize(8);
    y := FromLittleEndian(image);
    t := d.DeserializeString();
  }
}
