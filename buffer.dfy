// ShaderData::Type and its byte sizes.
module ShaderData {
  /** ShaderData::Type, in declaration order. */
  datatype Type = None | Bool | Int | Int2 | Int3 | Int4 | Float | Float2 | Float3 | Float4 | Mat2 | Mat3 | Mat4

  /** The enumerator's value: its position in the declaration. */
  function Ordinal(t: Type): (n: nat)
    ensures n < 13
  {
    match t
    case None => 0
    case Bool => 1
    case Int => 2
    case Int2 => 3
    case Int3 => 4
    case Int4 => 5
    case Float => 6
    case Float2 => 7
    case Float3 => 8
    case Float4 => 9
    case Mat2 => 10
    case Mat3 => 11
    case Mat4 => 12
  }

  /** Distinct enumerators have distinct values. */
  lemma OrdinalInjective(a: Type, b: Type)
    requires Ordinal(a) == Ordinal(b)
    ensures a == b
  {
  }

  /** The number of 32-bit components of a type: vectors by length, square
      matrices by rows times columns. */
  function Components(t: Type): nat
  {
    match t
    case None => 0
    case Bool => 1
    case Int => 1
    case Float => 1
    case Int2 => 2
    case Float2 => 2
    case Int3 => 3
    case Float3 => 3
    case Int4 => 4
    case Float4 => 4
    case Mat2 => 2 * 2
    case Mat3 => 3 * 3
    case Mat4 => 4 * 4
  }

  /** ShaderData::size(): bytes of a value of the type. A bool takes one
      byte, every other component four. */
  function Size(t: Type): (n: nat)
    ensures t != Bool ==> n == 4 * Components(t)
    ensures t == Bool ==> n == 1
    ensures n == 0 <==> t == None
  {
    match t
    case Bool => 1
    case Int => 4
    case Float => 4
    case Int2 => 8
    case Float2 => 8
    case Int3 => 12
    case Float3 => 12
    case Int4 => 16
    case Float4 => 16
    case Mat2 => 16
    case Mat3 => 36
    case Mat4 => 64
    case None => 0
  }
}

// BufferData and BufferLayout: a vertex or uniform layout. Each element has
// a size, its offset (the sum of the sizes before it), its ShaderData type
// and a name. Both serialise field by field through a Serializer and read
// back through a Deserializer.
module Buffers {
  import opened Common
  import opened Serializers
  import opened Deserializers
  import ShaderData

  /** BufferData. `dataType` holds the enum's value as stored, which need not
      name an enumerator after a read. */
  datatype BufferData = BufferData(size: nat, offset: nat, dataType: nat, name: CString)

  /** BufferLayout: m_layout and m_total_size. */
  datatype BufferLayout = BufferLayout(elements: seq<BufferData>, totalSize: nat)
  {
    /** elem_count(). */
    function ElemCount(): nat
    {
      |elements|
    }

    /** stride(). */
    function Stride(): nat
    {
      totalSize
    }
  }

  /** BufferData(): every field zero. */
  function DefaultData(): BufferData
  {
    BufferData(0, 0, 0, [])
  }

  /** The sum of the sizes of the inputs. */
  function SizeSum(data: seq<(ShaderData.Type, CString)>): nat
  {
    if data == [] then 0 else SizeSum(data[..|data| - 1]) + ShaderData.Size(data[|data| - 1].0)
  }

  /** `l` is the layout of `data`: one element per input, in input order, each
      at the sum of the sizes before it, and the stride the sum of all. */
  ghost predicate LaysOut(l: BufferLayout, data: seq<(ShaderData.Type, CString)>)
  {
    && |l.elements| == |data|
    && l.totalSize == SizeSum(data)
    && forall i :: 0 <= i < |data| ==> l.elements[i] == Element(data, i)
  }

  /** The element for input i: its type's size, placed after inputs 0..i-1. */
  function Element(data: seq<(ShaderData.Type, CString)>, i: nat): BufferData
    requires i < |data|
  {
    BufferData(ShaderData.Size(data[i].0), SizeSum(data[..i]), ShaderData.Ordinal(data[i].0), data[i].1)
  }

  /** BufferLayout(vector) and BufferLayout(initializer_list), which run the
      same loop: accumulate the offset while appending the elements. */
  method NewLayout(data: seq<(ShaderData.Type, CString)>) returns (l: BufferLayout)
    ensures LaysOut(l, data)
  {
    var offset: nat := 0;
    var elements: seq<BufferData> := [];
    var i: nat := 0;
    while i < |data|
      invariant i <= |data| && |elements| == i
      invariant offset == SizeSum(data[..i])
      invariant forall j :: 0 <= j < i ==> elements[j] == Element(data, j)
    {
      var (t, name) := data[i];
      var size := ShaderData.Size(t);
      elements := elements + [BufferData(size, offset, ShaderData.Ordinal(t), name)];
      SizeSumNext(data, i);
      offset := offset + size;
      i := i + 1;
    }
    assert data[..i] == data;
    l := BufferLayout(elements, offset);
  }

  /** The sum over one input more. */
  lemma SizeSumNext(data: seq<(ShaderData.Type, CString)>, i: nat)
    requires i < |data|
    ensures SizeSum(data[..i + 1]) == SizeSum(data[..i]) + ShaderData.Size(data[i].0)
  {
    assert data[..i + 1][..i] == data[..i];
  }

  /** A laid-out buffer is contiguous: each element starts where the previous
      one ends, the first at 0, and the stride is where the last one ends. */
  lemma {:induction false} LaysOutContiguous(l: BufferLayout, data: seq<(ShaderData.Type, CString)>)
    requires LaysOut(l, data)
    ensures |data| > 0 ==> l.elements[0].offset == 0
    ensures forall i :: 0 <= i < |data| - 1 ==>
              l.elements[i + 1].offset == l.elements[i].offset + l.elements[i].size
    ensures l.Stride() == if data == [] then 0 else l.elements[|data| - 1].offset + l.elements[|data| - 1].size
  {
    forall i | 0 <= i < |data| - 1
      ensures l.elements[i + 1].offset == l.elements[i].offset + l.elements[i].size
    {
      SizeSumNext(data, i);
    }
    if data != [] {
      assert data[..|data|][..|data| - 1] == data[..|data| - 1];
      assert data[..|data|] == data;
    }
  }

  /** The index of the first element named `name` from position i on. */
  function FirstNamed(elements: seq<BufferData>, name: CString, i: nat): (r: Option<nat>)
    requires i <= |elements|
    decreases |elements| - i
    ensures r.Some? ==> i <= r.value < |elements| && elements[r.value].name == name
    ensures r.Some? ==> forall j :: i <= j < r.value ==> elements[j].name != name
    ensures r.None? ==> forall j :: i <= j < |elements| ==> elements[j].name != name
  {
    if i == |elements| then None
    else if elements[i].name == name then Some(i)
    else FirstNamed(elements, name, i + 1)
  }

  /** has_data(name): some element has that name. */
  function HasData(l: BufferLayout, name: CString): (r: bool)
    ensures r <==> exists i :: 0 <= i < |l.elements| && l.elements[i].name == name
  {
    FirstNamed(l.elements, name, 0).Some?
  }

  /** get_data(name): the first element with that name, or BufferData(). */
  function GetData(l: BufferLayout, name: CString): (r: BufferData)
    ensures HasData(l, name) ==> r.name == name && r in l.elements
    ensures HasData(l, name) ==>
              exists i :: 0 <= i < |l.elements| && l.elements[i] == r && forall j :: 0 <= j < i ==> l.elements[j].name != name
    ensures !HasData(l, name) ==> r == DefaultData()
  {
    var found := FirstNamed(l.elements, name, 0);
    if found.Some? then l.elements[found.value] else DefaultData()
  }

  // ---- Serialisation ----

  /** BufferData::serialize: size, offset, type, name. */
  function EncodeData(x: BufferData): (r: seq<byte>)
    ensures |r| == 28 + |x.name|
  {
    EncodeU64(x.size) + EncodeU64(x.offset) + EncodeU32(x.dataType) + EncodeString(x.name)
  }

  /** The elements' images back to back. */
  function EncodeDataList(es: seq<BufferData>): seq<byte>
  {
    if es == [] then [] else EncodeDataList(es[..|es| - 1]) + EncodeData(es[|es| - 1])
  }

  /** BufferLayout::serialize: the count, the elements, the total size. */
  function EncodeLayout(l: BufferLayout): seq<byte>
  {
    EncodeU64(|l.elements|) + EncodeDataList(l.elements) + EncodeU64(l.totalSize)
  }

  /** A BufferData the serializer can write: its name is not empty (an empty
      one reaches push_array(0)). */
  predicate DataWritable(x: BufferData)
  {
    |x.name| > 0
  }

  predicate LayoutWritable(l: BufferLayout)
  {
    forall x :: x in l.elements ==> DataWritable(x)
  }

  /** Every field fits the width it is written with. */
  predicate DataFits(x: BufferData)
  {
    x.size < U64_LIMIT && x.offset < U64_LIMIT && x.dataType < U32_LIMIT && |x.name| < U64_LIMIT
  }

  predicate LayoutFits(l: BufferLayout)
  {
    |l.elements| < U64_LIMIT && l.totalSize < U64_LIMIT && forall x :: x in l.elements ==> DataFits(x)
  }

  /** BufferData::serialize. It always reports success. */
  method SerializeData(x: BufferData, s: Serializer) returns (ok: bool)
    requires s.Valid() && DataWritable(x)
    modifies s.buffer
    ensures s.Valid() && s.buffer.Compact() == old(s.buffer.Compact())
    ensures ok && s.Written() == old(s.Written()) + EncodeData(x)
  {
    s.Serialize(EncodeU64(x.size));
    s.Serialize(EncodeU64(x.offset));
    s.Serialize(EncodeU32(x.dataType));
    s.SerializeString(x.name);
    return true;
  }

  /** The loop of BufferLayout::serialize over the elements. */
  method SerializeDataList(es: seq<BufferData>, s: Serializer) returns (ok: bool)
    requires s.Valid() && forall x :: x in es ==> DataWritable(x)
    modifies s.buffer
    ensures s.Valid() && s.buffer.Compact() == old(s.buffer.Compact())
    ensures ok && s.Written() == old(s.Written()) + EncodeDataList(es)
  {
    ghost var before := s.Written();
    var i: nat := 0;
    while i < |es|
      invariant i <= |es|
      invariant s.Valid() && s.buffer.Compact() == old(s.buffer.Compact())
      invariant s.Written() == before + EncodeDataList(es[..i])
    {
      var written := SerializeData(es[i], s);
      if !written {
        return false;
      }
      EncodeDataListSnoc(es, i);
      AppendAssoc(before, EncodeDataList(es[..i]), EncodeData(es[i]));
      i := i + 1;
    }
    assert es[..i] == es;
    return true;
  }

  /** BufferLayout::serialize. */
  method SerializeLayout(l: BufferLayout, s: Serializer) returns (ok: bool)
    requires s.Valid() && LayoutWritable(l)
    modifies s.buffer
    ensures s.Valid() && s.buffer.Compact() == old(s.buffer.Compact())
    ensures ok && s.Written() == old(s.Written()) + EncodeLayout(l)
  {
    ghost var before := s.Written();
    var a, b, c := EncodeU64(|l.elements|), EncodeDataList(l.elements), EncodeU64(l.totalSize);
    s.Serialize(a);
    ok := SerializeDataList(l.elements, s);
    if !ok {
      return false;
    }
    s.Serialize(c);
    return true;
  }

  /** BufferData::deserialize: the four fields in order, stopping at the
      first read that fails. */
  function ReadData(bytes: seq<byte>, position: nat): (r: Read<BufferData>)
    requires position <= |bytes|
    ensures Within(r, bytes)
  {
    var (size, p1) :- ReadU64(bytes, position);
    var (offset, p2) :- ReadU64(bytes, p1);
    var (dataType, p3) :- ReadU32(bytes, p2);
    var (name, p4) :- ReadString(bytes, p3);
    Got(BufferData(size, offset, dataType, name), p4)
  }

  /** `count` more BufferData in order, appended to those already read. */
  function ReadDataList(bytes: seq<byte>, position: nat, count: nat, read: seq<BufferData>): (r: Read<seq<BufferData>>)
    requires position <= |bytes|
    ensures Within(r, bytes)
    ensures r.Got? ==> |r.value| == |read| + count
    decreases count
  {
    if count == 0 then Got(read, position)
    else
      var next: nat := count - 1;
      var (x, p) :- ReadData(bytes, position);
      ReadDataList(bytes, p, next, read + [x])
  }

  /** BufferLayout::deserialize: the count, that many elements, the total. */
  function ReadLayout(bytes: seq<byte>, position: nat): (r: Read<BufferLayout>)
    requires position <= |bytes|
    ensures Within(r, bytes)
  {
    var (count, p1) :- ReadU64(bytes, position);
    var (es, p2) :- ReadDataList(bytes, p1, count, []);
    var (total, p3) :- ReadU64(bytes, p2);
    Got(BufferLayout(es, total), p3)
  }

  /** One step of a list read: the first element read, the rest follow it. */
  lemma {:induction false} ReadDataListStep(bytes: seq<byte>, position: nat, count: nat, read: seq<BufferData>, x: BufferData, at: nat, next: nat)
    requires position <= |bytes| && count == next + 1 && ReadData(bytes, position) == Got(x, at)
    ensures ReadDataList(bytes, position, count, read) == ReadDataList(bytes, at, next, read + [x])
  {
    var first := ReadData(bytes, position);
    assert !first.IsFailure() && first.Extract() == (x, at);
  }

  /** A list read fails where its first element's read fails. */
  lemma {:induction false} ReadDataListFails(bytes: seq<byte>, position: nat, count: nat, read: seq<BufferData>)
    requires position <= |bytes| && count > 0 && !ReadData(bytes, position).Got?
    ensures ReadDataList(bytes, position, count, read) == ReadData(bytes, position).PropagateFailure()
  {
  }

  /** The images of one element more. */
  lemma EncodeDataListSnoc(es: seq<BufferData>, i: nat)
    requires i < |es|
    ensures EncodeDataList(es[..i + 1]) == EncodeDataList(es[..i]) + EncodeData(es[i])
  {
    assert es[..i + 1][..i] == es[..i];
  }

  /** The elements' images can also be split at the front. */
  lemma {:induction false} EncodeDataListFront(es: seq<BufferData>)
    requires es != []
    ensures EncodeDataList(es) == EncodeData(es[0]) + EncodeDataList(es[1..])
  {
    if |es| > 1 {
      var init := es[..|es| - 1];
      assert init[1..] == es[1..][..|es[1..]| - 1];
      EncodeDataListFront(init);
      assert init[0] == es[0];
    } else {
      assert es[1..] == [];
      assert es[..0] == [];
    }
  }

  /** ReadData from the outcomes of its four reads. */
  lemma ReadDataSteps(bytes: seq<byte>, position: nat, x: BufferData, p1: nat, p2: nat, p3: nat, p4: nat)
    requires position <= |bytes| && ReadU64(bytes, position) == Got(x.size, p1)
    requires p1 <= |bytes| && ReadU64(bytes, p1) == Got(x.offset, p2)
    requires p2 <= |bytes| && ReadU32(bytes, p2) == Got(x.dataType, p3)
    requires p3 <= |bytes| && ReadString(bytes, p3) == Got(x.name, p4)
    ensures ReadData(bytes, position) == Got(x, p4)
  {
  }

  /** A BufferData written by SerializeData reads back as itself. */
  lemma ReadDataWritten(bytes: seq<byte>, position: nat, x: BufferData)
    requires DataWritable(x) && DataFits(x) && Written(bytes, position, EncodeData(x))
    ensures ReadData(bytes, position) == Got(x, position + |EncodeData(x)|)
  {
    var a, b, c, d := EncodeU64(x.size), EncodeU64(x.offset), EncodeU32(x.dataType), EncodeString(x.name);
    assert a + b + c + d == a + (b + (c + d));
    var p1: nat, p2: nat, p3: nat := position + 8, position + 16, position + 20;
    WrittenSplit(bytes, position, a, b + (c + d));
    WrittenSplit(bytes, p1, b, c + d);
    WrittenSplit(bytes, p2, c, d);
    ReadU64Written(bytes, position, x.size);
    ReadU64Written(bytes, p1, x.offset);
    ReadU32Written(bytes, p2, x.dataType);
    ReadStringWritten(bytes, p3, x.name);
    ReadDataSteps(bytes, position, x, p1, p2, p3, p3 + |d|);
  }

  /** An image made of two parts: each part sits where it should. */
  lemma WrittenSplitAt(bytes: seq<byte>, position: nat, a: seq<byte>, b: seq<byte>, whole: seq<byte>, at: nat)
    requires whole == a + b && Written(bytes, position, whole) && at == position + |a|
    ensures Written(bytes, position, a) && Written(bytes, at, b) && at + |b| == position + |whole|
  {
    WrittenSplit(bytes, position, a, b);
  }

  /** The first element's image, then the rest's. */
  lemma WrittenFront(bytes: seq<byte>, position: nat, es: seq<BufferData>, at: nat)
    requires es != [] && Written(bytes, position, EncodeDataList(es)) && at == position + |EncodeData(es[0])|
    ensures Written(bytes, position, EncodeData(es[0])) && Written(bytes, at, EncodeDataList(es[1..]))
    ensures at + |EncodeDataList(es[1..])| == position + |EncodeDataList(es)|
  {
    EncodeDataListFront(es);
    WrittenSplitAt(bytes, position, EncodeData(es[0]), EncodeDataList(es[1..]), EncodeDataList(es), at);
  }

  lemma AppendFront(read: seq<BufferData>, es: seq<BufferData>)
    requires es != []
    ensures read + [es[0]] + es[1..] == read + es
  {
    assert [es[0]] + es[1..] == es;
  }

  /** A list of BufferData written back to back reads back as itself. */
  lemma {:induction false} ReadDataListWritten(bytes: seq<byte>, position: nat, es: seq<BufferData>, read: seq<BufferData>)
    requires forall x :: x in es ==> DataWritable(x) && DataFits(x)
    requires Written(bytes, position, EncodeDataList(es))
    ensures ReadDataList(bytes, position, |es|, read) == Got(read + es, position + |EncodeDataList(es)|)
    decreases |es|
  {
    if es == [] {
      assert read + es == read;
    } else {
      var at: nat := position + |EncodeData(es[0])|;
      var next: nat := |es| - 1;
      WrittenFront(bytes, position, es, at);
      ReadDataWritten(bytes, position, es[0]);
      ReadDataListStep(bytes, position, |es|, read, es[0], at, next);
      ReadDataListWritten(bytes, at, es[1..], read + [es[0]]);
      AppendFront(read, es);
    }
  }

  /** ReadLayout from the outcomes of its three reads. */
  lemma ReadLayoutSteps(bytes: seq<byte>, position: nat, count: nat, p1: nat, es: seq<BufferData>, p2: nat, total: nat, p3: nat)
    requires position <= |bytes| && ReadU64(bytes, position) == Got(count, p1)
    requires p1 <= |bytes| && ReadDataList(bytes, p1, count, []) == Got(es, p2)
    requires p2 <= |bytes| && ReadU64(bytes, p2) == Got(total, p3)
    ensures ReadLayout(bytes, position) == Got(BufferLayout(es, total), p3)
  {
  }

  /** A layout written by SerializeLayout reads back as itself. */
  lemma ReadLayoutWritten(bytes: seq<byte>, position: nat, l: BufferLayout)
    requires LayoutWritable(l) && LayoutFits(l) && Written(bytes, position, EncodeLayout(l))
    ensures ReadLayout(bytes, position) == Got(l, position + |EncodeLayout(l)|)
  {
    var a, b, c := EncodeU64(|l.elements|), EncodeDataList(l.elements), EncodeU64(l.totalSize);
    assert a + b + c == a + (b + c);
    var p1: nat, p2: nat := position + 8, position + 8 + |b|;
    WrittenSplit(bytes, position, a, b + c);
    WrittenSplit(bytes, p1, b, c);
    ReadU64Written(bytes, position, |l.elements|);
    ReadDataListWritten(bytes, p1, l.elements, []);
    assert [] + l.elements == l.elements;
    ReadU64Written(bytes, p2, l.totalSize);
    ReadLayoutSteps(bytes, position, |l.elements|, p1, l.elements, p2, l.totalSize, p2 + 8);
  }

  /** BufferData::deserialize on a Deserializer. */
  method DeserializeData(d: Deserializer) returns (r: Option<BufferData>)
    requires d.Valid() && !ReadData(d.bytes, d.position).Tripped?
    modifies d`position
    ensures d.Valid()
    ensures ReadData(d.bytes, old(d.position)) == Outcome(r, d.position)
  {
    var size := d.TryDeserializeU64();
    if size.None? {
      return None;
    }
    var offset := d.TryDeserializeU64();
    if offset.None? {
      return None;
    }
    var dataType := d.TryDeserializeU32();
    if dataType.None? {
      return None;
    }
    var name := d.TryDeserializeString();
    if name.None? {
      return None;
    }
    r := Some(BufferData(size.value, offset.value, dataType.value, name.value));
  }

  /** The loop of BufferLayout::deserialize over the resized element vector. */
  method DeserializeDataList(d: Deserializer, count: nat) returns (r: Option<seq<BufferData>>)
    requires d.Valid() && !ReadDataList(d.bytes, d.position, count, []).Tripped?
    modifies d`position
    ensures d.Valid()
    ensures ReadDataList(d.bytes, old(d.position), count, []) == Outcome(r, d.position)
  {
    ghost var bytes, start := d.bytes, d.position;
    var elements: seq<BufferData> := [];
    var left := count;
    while left > 0
      invariant d.Valid() && d.bytes == bytes
      invariant ReadDataList(bytes, d.position, left, elements) == ReadDataList(bytes, start, count, [])
    {
      ghost var at := d.position;
      var x := DeserializeData(d);
      if x.None? {
        ReadDataListFails(bytes, at, left, elements);
        return None;
      }
      var next: nat := left - 1;
      ReadDataListStep(bytes, at, left, elements, x.value, d.position, next);
      elements := elements + [x.value];
      left := next;
    }
    return Some(elements);
  }

  /** BufferLayout::deserialize on a Deserializer: the count, the elements,
      the total size. */
  method DeserializeLayout(d: Deserializer) returns (r: Option<BufferLayout>)
    requires d.Valid() && !ReadLayout(d.bytes, d.position).Tripped?
    modifies d`position
    ensures d.Valid()
    ensures ReadLayout(d.bytes, old(d.position)) == Outcome(r, d.position)
  {
    var count := d.TryDeserializeU64();
    if count.None? {
      return None;
    }
    var elements := DeserializeDataList(d, count.value);
    if elements.None? {
      return None;
    }
    var total := d.TryDeserializeU64();
    if total.None? {
      return None;
    }
    r := Some(BufferLayout(elements.value, total.value));
  }
}
