// Shared vocabulary of the model: optional values, the outcome of code that
// may hit an engine assertion, fixed-width integers, 8-bit characters and the
// little-endian byte images the serialiser copies with memcpy.
module Common {

  datatype Option<T> = None | Some(value: T)

  /** The result of a step of engine code that may reach a failing `hit_assert`,
      which aborts the program. Chains with `:-`. */
  datatype Run<T> = Ok(value: T) | Abort
  {
    predicate IsFailure() { Abort? }
    function PropagateFailure<U>(): Run<U> requires IsFailure() { Abort }
    function Extract(): T requires !IsFailure() { value }
  }

  /** A hit_assert(condition) as a step that yields nothing. */
  function Check(condition: bool): (r: Run<()>)
    ensures r.Ok? <==> condition
  {
    if condition then Ok(()) else Abort
  }

  const U8_LIMIT: int := 0x100
  const U32_LIMIT: int := 0x1_0000_0000
  const U64_LIMIT: int := 0x1_0000_0000_0000_0000
  const U32_MAX: int := U32_LIMIT - 1
  const I32_MIN: int := -0x8000_0000
  const I32_MAX: int := 0x7FFF_FFFF

  type byte = x: int | 0 <= x < U8_LIMIT
  type u32 = x: int | 0 <= x < U32_LIMIT
  type u64 = x: int | 0 <= x < U64_LIMIT
  type i32 = x: int | I32_MIN <= x <= I32_MAX

  /** A C++ `char`: one byte of a std::string. */
  type Char = c: char | c as int < U8_LIMIT witness 'a'
  /** A C++ std::string. */
  type CString = seq<Char>

  /** Unsigned 64-bit wrap-around of an arbitrary integer. */
  function Wrap64(x: int): (r: u64)
    ensures 0 <= x < U64_LIMIT ==> r == x
  {
    x % U64_LIMIT
  }

  /** The `n`-byte little-endian image of `x` (the bytes memcpy copies out of
      an unsigned integer on the engine's little-endian targets). */
  function LittleEndian(x: nat, n: nat): (r: seq<byte>)
    ensures |r| == n
  {
    if n == 0 then [] else [x % U8_LIMIT] + LittleEndian(x / U8_LIMIT, n - 1)
  }

  /** The unsigned value whose little-endian image is `bytes`. */
  function FromLittleEndian(bytes: seq<byte>): (r: nat)
  {
    if bytes == [] then 0 else bytes[0] + U8_LIMIT * FromLittleEndian(bytes[1..])
  }

  function Power256(n: nat): (r: nat)
    ensures r > 0
  {
    if n == 0 then 1 else U8_LIMIT * Power256(n - 1)
  }

  lemma {:induction false} FromLittleEndianBound(bytes: seq<byte>)
    ensures FromLittleEndian(bytes) < Power256(|bytes|)
  {
    if bytes != [] {
      FromLittleEndianBound(bytes[1..]);
    }
  }

  /** Reading back an image yields the value whenever it fits in `n` bytes. */
  lemma {:induction false} LittleEndianRoundTrip(x: nat, n: nat)
    requires x < Power256(n)
    ensures FromLittleEndian(LittleEndian(x, n)) == x
  {
    if n > 0 {
      LittleEndianRoundTrip(x / U8_LIMIT, n - 1);
    }
  }

  /** Writing the value of an image reproduces the image. */
  lemma {:induction false} LittleEndianOfBytes(bytes: seq<byte>)
    ensures LittleEndian(FromLittleEndian(bytes), |bytes|) == bytes
  {
    if bytes != [] {
      LittleEndianOfBytes(bytes[1..]);
      var v := FromLittleEndian(bytes[1..]);
      assert (bytes[0] + U8_LIMIT * v) % U8_LIMIT == bytes[0];
      assert (bytes[0] + U8_LIMIT * v) / U8_LIMIT == v;
    }
  }

  lemma Power256Values()
    ensures Power256(4) == U32_LIMIT && Power256(8) == U64_LIMIT
  {
    assert Power256(4) == 0x1_0000_0000 by {
      assert Power256(2) == 0x1_0000;
    }
    assert Power256(8) == 0x1_0000_0000_0000_0000 by {
      assert Power256(6) == 0x1_0000_0000_0000;
    }
  }

  /** The bytes memcpy copies out of a std::string's characters. */
  function StringBytes(s: CString): (r: seq<byte>)
    ensures |r| == |s|
    ensures forall i :: 0 <= i < |s| ==> r[i] == s[i] as int
  {
    if s == [] then [] else [s[0] as int] + StringBytes(s[1..])
  }

  /** The characters of a std::string filled from raw bytes. */
  function BytesString(b: seq<byte>): (r: CString)
    ensures |r| == |b|
    ensures forall i :: 0 <= i < |b| ==> r[i] as int == b[i]
  {
    if b == [] then [] else [b[0] as char] + BytesString(b[1..])
  }

  lemma StringBytesRoundTrip(s: CString)
    ensures BytesString(StringBytes(s)) == s
  {
    var r := BytesString(StringBytes(s));
    assert |r| == |s|;
    forall i | 0 <= i < |s| ensures r[i] == s[i] {
      assert r[i] as int == s[i] as int;
    }
  }

  /** Appending regroups freely. */
  lemma AppendAssoc<T>(a: seq<T>, b: seq<T>, c: seq<T>)
    ensures a + b + c == a + (b + c)
  {
  }
}
