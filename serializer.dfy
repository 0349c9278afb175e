// Serializer: appends the byte images of values to a FastTypedArena<ui8>.
// Every write is a push_array of the image's length followed by a memcpy into
// the slots it hands out, so the output is the concatenation of the images in
// call order. The images of the engine's integers, enums and strings are the
// pure functions at the top of the module; Deserializer reads them back.
module Serializers {
  import opened Common
  import opened FastTypedArenas

  /** The image of a ui64: eight little-endian bytes. */
  function EncodeU64(x: nat): (r: seq<byte>)
    ensures |r| == 8
  {
    LittleEndian(x, 8)
  }

  /** The image of a ui32 or of an enum (an int): four little-endian bytes. */
  function EncodeU32(x: nat): (r: seq<byte>)
    ensures |r| == 4
  {
    LittleEndian(x, 4)
  }

  /** serialize(std::string): the length as a ui64, then the characters, with
      no terminator. */
  function EncodeString(s: CString): (r: seq<byte>)
    ensures |r| == 8 + |s|
    ensures r[..8] == EncodeU64(|s|) && r[8..] == StringBytes(s)
  {
    EncodeU64(|s|) + StringBytes(s)
  }

  /** serialize(const T* data, count) for ui32 elements: the elements' images
      back to back, with no count. */
  function EncodeWords(words: seq<u32>): (r: seq<byte>)
    ensures |r| == 4 * |words|
  {
    if words == [] then [] else EncodeU32(words[0]) + EncodeWords(words[1..])
  }

  class Serializer {
    /** m_buffer, a FastTypedArena<ui8>. */
    const buffer: FastTypedArena<byte>

    ghost predicate Valid()
      reads this, buffer
    {
      buffer.Valid() && buffer.capacity > 0
    }

    /** Every byte the arena has handed out, in order. */
    function Written(): seq<byte>
      reads this, buffer
    {
      buffer.store
    }

    /** get_serialized_data() over get_total_size() bytes: the arena's data(). */
    function Bytes(): (b: seq<byte>)
      reads this, buffer
      requires Valid()
      ensures |b| == buffer.size
      ensures buffer.Compact() ==> b == Written()
    {
      buffer.Data()
    }

    /** get_total_size(). */
    function TotalSize(): (n: nat)
      reads this, buffer
      requires Valid()
      ensures n == |Bytes()|
    {
      buffer.size
    }

    /** Serializer(): a buffer of capacity sizeof(ui8). */
    constructor ()
      ensures Valid() && fresh(buffer) && buffer.Compact() && Written() == []
    {
      buffer := new FastTypedArena<byte>.Sized(1);
    }

    /** Serializer(buffer) and Serializer(other): a copy of the arena. */
    constructor FromBuffer(source: FastTypedArena<byte>)
      requires source.Valid() && source.capacity > 0
      ensures Valid() && fresh(buffer)
      ensures Written() == source.store && Bytes() == source.Data()
    {
      buffer := new FastTypedArena<byte>.Copy(source);
    }

    /** serialize(const T& data) and serialize(const T* data, count), given the
        bytes memcpy copies (sizeof(T) or count * sizeof(T) of them): push that
        many slots, which asserts there is at least one, then copy. */
    method Serialize(image: seq<byte>)
      requires Valid() && |image| > 0
      modifies buffer
      ensures Valid() && buffer.Compact() == old(buffer.Compact())
      ensures Written() == old(Written()) + image
      ensures TotalSize() == old(TotalSize()) + |image|
      ensures old(buffer.Compact()) ==> Bytes() == old(Bytes()) + image
    {
      var at := buffer.PushArray(|image|);
      buffer.Write(at, image);
      assert buffer.store == old(buffer.store) + image;
    }

    /** serialize(const std::string&): the length as a ui64, then push_array of
        the length, which asserts the string is not empty. */
    method SerializeString(s: CString)
      requires Valid() && |s| > 0
      modifies buffer
      ensures Valid() && buffer.Compact() == old(buffer.Compact())
      ensures Written() == old(Written()) + EncodeString(s)
      ensures TotalSize() == old(TotalSize()) + |EncodeString(s)|
    {
      Serialize(EncodeU64(|s|));
      Serialize(StringBytes(s));
    }

    /** serialize(const std::vector<T>&) for ui32 elements: the data pointer
        and the element count, so an empty vector trips push_array's assertion. */
    method SerializeWords(words: seq<u32>)
      requires Valid() && |words| > 0
      modifies buffer
      ensures Valid() && buffer.Compact() == old(buffer.Compact())
      ensures Written() == old(Written()) + EncodeWords(words)
      ensures TotalSize() == old(TotalSize()) + 4 * |words|
    {
      Serialize(EncodeWords(words));
    }

    /** reset(), as written: FastTypedArena::clear forgets the count but not the
        arena's used bytes, so the total size reads 0 while later writes land
        behind the old ones. */
    method Reset()
      requires Valid()
      modifies buffer
      ensures Valid() && TotalSize() == 0 && Written() == old(Written())
    {
      buffer.Clear();
    }

    /** reset() with a clear that also gives the arena's bytes back. */
    method ResetCorrected()
      requires Valid()
      modifies buffer
      ensures Valid() && buffer.Compact() && TotalSize() == 0 && Written() == []
    {
      buffer.ClearCorrected();
    }
  }

  /** As written: serialize byte 1, reset, serialize byte 2; the serialized
      data then reads 1, not 2. */
  method ResetThenSerializeAsWritten() returns (data: seq<byte>)
    ensures data == [1]
  {
    var s := new Serializer();
    s.Serialize([1]);
    s.Reset();
    s.Serialize([2]);
    data := s.Bytes();
  }

  /** With the corrected reset, whatever was written before, the serialized
      data after a reset and one write is exactly that write. */
  method ResetThenSerialize(s: Serializer, image: seq<byte>) returns (data: seq<byte>)
    requires s.Valid() && |image| > 0
    modifies s.buffer
    ensures data == image
  {
    s.ResetCorrected();
    s.Serialize(image);
    data := s.Bytes();
  }
}
