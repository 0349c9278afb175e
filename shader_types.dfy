// ShaderUniform and ShaderProgram: a compiled shader stage with its vertex
// attributes, its uniforms and its SPIR-V words, serialised field by field
// through a Serializer and read back through a Deserializer.
module ShaderTypes {
  import opened Common
  import opened Serializers
  import opened Deserializers
  import opened Buffers

  /** ShaderUniform::Type, in declaration order. */
  datatype UniformType = PushConstant | ImageSampler | UniformBuffer
  {
    function Ordinal(): (n: nat)
      ensures n < 3
    {
      match this
      case PushConstant => 0
      case ImageSampler => 1
      case UniformBuffer => 2
    }
  }

  /** ShaderProgram::Type, in declaration order. */
  datatype ProgramType = Vertex | Fragment
  {
    function Ordinal(): (n: nat)
      ensures n < 2
    {
      match this
      case Vertex => 0
      case Fragment => 1
    }
  }

  /** ShaderUniform. `kind` holds the enum's value as stored. */
  datatype ShaderUniform = ShaderUniform(kind: nat, layout: BufferLayout, name: CString)
  {
    /** is_push_constant(), is_image_sampler(), is_uniform_buffer(). */
    predicate Is(t: UniformType)
    {
      kind == t.Ordinal()
    }
  }

  /** ShaderProgram. `kind` holds the enum's value as stored. */
  datatype ShaderProgram = ShaderProgram(kind: nat, source: seq<u32>, attributes: BufferLayout,
                                         maxUniforms: nat, uniforms: seq<ShaderUniform>)

  // ---- Images ----

  /** ShaderUniform::serialize: type, layout, name. */
  function EncodeUniform(u: ShaderUniform): seq<byte>
  {
    EncodeU32(u.kind) + (EncodeLayout(u.layout) + EncodeString(u.name))
  }

  /** The uniforms' images back to back. */
  function EncodeUniformList(us: seq<ShaderUniform>): seq<byte>
  {
    if us == [] then [] else EncodeUniformList(us[..|us| - 1]) + EncodeUniform(us[|us| - 1])
  }

  /** ShaderProgram::serialize: type, attributes, max_uniforms, the uniform
      count and the uniforms, the source word count and the source words. */
  function EncodeProgram(p: ShaderProgram): seq<byte>
  {
    EncodeU32(p.kind) + (EncodeLayout(p.attributes) + (EncodeU64(p.maxUniforms)
    + (EncodeU64(|p.uniforms|) + (EncodeUniformList(p.uniforms)
    + (EncodeU64(|p.source|) + EncodeWords(p.source))))))
  }

  /** What the serializer can write without tripping push_array(0): a
      non-empty uniform name, non-empty element names and a non-empty source. */
  predicate UniformWritable(u: ShaderUniform)
  {
    LayoutWritable(u.layout) && |u.name| > 0
  }

  predicate ProgramWritable(p: ShaderProgram)
  {
    && LayoutWritable(p.attributes)
    && (forall u :: u in p.uniforms ==> UniformWritable(u))
    && |p.source| > 0
  }

  /** Every field fits the width it is written with. */
  predicate UniformFits(u: ShaderUniform)
  {
    u.kind < U32_LIMIT && LayoutFits(u.layout) && |u.name| < U64_LIMIT
  }

  predicate ProgramFits(p: ShaderProgram)
  {
    && p.kind < U32_LIMIT && LayoutFits(p.attributes) && p.maxUniforms < U64_LIMIT
    && |p.uniforms| < U64_LIMIT && (forall u :: u in p.uniforms ==> UniformFits(u))
    && |p.source| < U64_LIMIT
  }

  // ---- Reading ----

  /** ShaderUniform::deserialize. */
  function ReadUniform(bytes: seq<byte>, position: nat): (r: Read<ShaderUniform>)
    requires position <= |bytes|
    ensures Within(r, bytes)
  {
    var (kind, p1) :- ReadU32(bytes, position);
    var (layout, p2) :- ReadLayout(bytes, p1);
    var (name, p3) :- ReadString(bytes, p2);
    Got(ShaderUniform(kind, layout, name), p3)
  }

  /** `count` more uniforms in order, appended to those already read. */
  function ReadUniformList(bytes: seq<byte>, position: nat, count: nat, read: seq<ShaderUniform>): (r: Read<seq<ShaderUniform>>)
    requires position <= |bytes|
    ensures Within(r, bytes)
    decreases count, 0
  {
    if count == 0 then Got(read, position)
    else
      var next: nat := count - 1;
      ReadUniformsAfter(bytes, ReadUniform(bytes, position), next, read)
  }

  /** The rest of a uniform list read, once its first uniform's read has given `first`. */
  function ReadUniformsAfter(bytes: seq<byte>, first: Read<ShaderUniform>, next: nat, read: seq<ShaderUniform>): (r: Read<seq<ShaderUniform>>)
    requires Within(first, bytes)
    ensures Within(r, bytes)
    decreases next, 1
  {
    match first
    case Got(u, p) => ReadUniformList(bytes, p, next, read + [u])
    case Short(at) => Short(at)
    case Tripped => Tripped
  }

  /** The `count` words of a little-endian image of 4 * count bytes. */
  function DecodeWords(image: seq<byte>, count: nat): (r: seq<u32>)
    requires |image| == 4 * count
    ensures |r| == count
  {
    if count == 0 then []
    else
      var next: nat := count - 1;
      FromLittleEndianBound(image[..4]);
      Power256Values();
      [FromLittleEndian(image[..4])] + DecodeWords(image[4..], next)
  }

  /** try_deserialize_array(source.data(), count) after source.resize(count):
      four bytes a word; an empty vector hands over a null pointer, which is
      refused. */
  function ReadWords(bytes: seq<byte>, position: nat, count: nat): (r: Read<seq<u32>>)
    requires position <= |bytes|
    ensures Within(r, bytes)
  {
    if count == 0 then Short(position)
    else
      var n: nat := 4 * count;
      var (image, at) :- Take(bytes, position, n);
      Got(DecodeWords(image, count), at)
  }

  /** ShaderProgram::deserialize: the fields in the order they are written,
      stopping at the first read that fails. */
  function ReadProgram(bytes: seq<byte>, position: nat): (r: Read<ShaderProgram>)
    requires position <= |bytes|
    ensures Within(r, bytes)
  {
    var (kind, p1) :- ReadU32(bytes, position);
    var (attributes, p2) :- ReadLayout(bytes, p1);
    var (maxUniforms, p3) :- ReadU64(bytes, p2);
    var (count, p4) :- ReadU64(bytes, p3);
    var (uniforms, p5) :- ReadUniformList(bytes, p4, count, []);
    var (size, p6) :- ReadU64(bytes, p5);
    var (source, p7) :- ReadWords(bytes, p6, size);
    Got(ShaderProgram(kind, source, attributes, maxUniforms, uniforms), p7)
  }

  // ---- Round trips ----

  /** ReadUniform from the outcomes of its three reads. */
  lemma ReadUniformSteps(bytes: seq<byte>, position: nat, u: ShaderUniform, p1: nat, p2: nat, p3: nat)
    requires position <= |bytes| && ReadU32(bytes, position) == Got(u.kind, p1)
    requires p1 <= |bytes| && ReadLayout(bytes, p1) == Got(u.layout, p2)
    requires p2 <= |bytes| && ReadString(bytes, p2) == Got(u.name, p3)
    ensures ReadUniform(bytes, position) == Got(u, p3)
  {
  }

  /** A uniform written by SerializeUniform reads back as itself. */
  lemma ReadUniformWritten(bytes: seq<byte>, position: nat, u: ShaderUniform)
    requires UniformWritable(u) && UniformFits(u) && Written(bytes, position, EncodeUniform(u))
    ensures ReadUniform(bytes, position) == Got(u, position + |EncodeUniform(u)|)
  {
    var a, b, c := EncodeU32(u.kind), EncodeLayout(u.layout), EncodeString(u.name);
    var p1: nat := position + |a|;
    var p2: nat := p1 + |b|;
    var p3: nat := p2 + |c|;
    WrittenSplitAt(bytes, position, a, b + c, EncodeUniform(u), p1);
    WrittenSplitAt(bytes, p1, b, c, b + c, p2);
    ReadU32Written(bytes, position, u.kind);
    ReadLayoutWritten(bytes, p1, u.layout);
    ReadStringWritten(bytes, p2, u.name);
    ReadUniformSteps(bytes, position, u, p1, p2, p3);
  }

  /** One step of a uniform list read. */
  lemma {:induction false} ReadUniformListStep(bytes: seq<byte>, position: nat, count: nat, read: seq<ShaderUniform>, u: ShaderUniform, at: nat, next: nat)
    requires position <= |bytes| && count == next + 1
    requires ReadUniform(bytes, position) == Got(u, at)
    ensures ReadUniformList(bytes, position, count, read) == ReadUniformList(bytes, at, next, read + [u])
  {
    ReadUniformListUnfold(bytes, position, next, read);
    ReadUniformsAfterGot(bytes, u, at, next, read);
  }

  lemma ReadUniformListUnfold(bytes: seq<byte>, position: nat, next: nat, read: seq<ShaderUniform>)
    requires position <= |bytes|
    ensures ReadUniformList(bytes, position, next + 1, read) == ReadUniformsAfter(bytes, ReadUniform(bytes, position), next, read)
  {
  }

  lemma ReadUniformsAfterGot(bytes: seq<byte>, u: ShaderUniform, at: nat, next: nat, read: seq<ShaderUniform>)
    requires at <= |bytes|
    ensures ReadUniformsAfter(bytes, Got(u, at), next, read) == ReadUniformList(bytes, at, next, read + [u])
  {
  }

  /** A uniform list read fails where its first uniform's read fails. */
  lemma {:induction false} ReadUniformListFails(bytes: seq<byte>, position: nat, count: nat, read: seq<ShaderUniform>)
    requires position <= |bytes| && count > 0 && !ReadUniform(bytes, position).Got?
    ensures ReadUniformList(bytes, position, count, read) == ReadUniform(bytes, position).PropagateFailure()
  {
  }

  /** The uniforms' images can also be split at the front. */
  lemma {:induction false} EncodeUniformListFront(us: seq<ShaderUniform>)
    requires us != []
    ensures EncodeUniformList(us) == EncodeUniform(us[0]) + EncodeUniformList(us[1..])
  {
    if |us| > 1 {
      var init := us[..|us| - 1];
      assert init[1..] == us[1..][..|us[1..]| - 1];
      EncodeUniformListFront(init);
      assert init[0] == us[0];
    } else {
      assert us[1..] == [];
      assert us[..0] == [];
    }
  }

  /** The images of one uniform more. */
  lemma EncodeUniformListSnoc(us: seq<ShaderUniform>, i: nat)
    requires i < |us|
    ensures EncodeUniformList(us[..i + 1]) == EncodeUniformList(us[..i]) + EncodeUniform(us[i])
  {
    assert us[..i + 1][..i] == us[..i];
  }

  /** The first uniform's image, then the rest's. */
  lemma UniformWrittenFront(bytes: seq<byte>, position: nat, us: seq<ShaderUniform>, at: nat)
    requires us != [] && Written(bytes, position, EncodeUniformList(us)) && at == position + |EncodeUniform(us[0])|
    ensures Written(bytes, position, EncodeUniform(us[0])) && Written(bytes, at, EncodeUniformList(us[1..]))
    ensures at + |EncodeUniformList(us[1..])| == position + |EncodeUniformList(us)|
  {
    EncodeUniformListFront(us);
    WrittenSplitAt(bytes, position, EncodeUniform(us[0]), EncodeUniformList(us[1..]), EncodeUniformList(us), at);
  }

  lemma UniformsFront(read: seq<ShaderUniform>, us: seq<ShaderUniform>)
    requires us != []
    ensures read + [us[0]] + us[1..] == read + us
  {
    assert [us[0]] + us[1..] == us;
  }

  /** A list of uniforms written back to back reads back as itself. */
  lemma {:induction false} ReadUniformListWritten(bytes: seq<byte>, position: nat, us: seq<ShaderUniform>, count: nat, read: seq<ShaderUniform>)
    requires count == |us| && forall u :: u in us ==> UniformWritable(u) && UniformFits(u)
    requires Written(bytes, position, EncodeUniformList(us))
    ensures ReadUniformList(bytes, position, count, read) == Got(read + us, position + |EncodeUniformList(us)|)
    decreases count
  {
    if us == [] {
      assert read + us == read;
    } else {
      var u := us[0];
      var at: nat := position + |EncodeUniform(u)|;
      var next: nat := count - 1;
      UniformWrittenFront(bytes, position, us, at);
      assert u in us;
      ReadUniformWritten(bytes, position, u);
      ReadUniformListStep(bytes, position, count, read, u, at, next);
      ReadUniformListWritten(bytes, at, us[1..], next, read + [u]);
      UniformsFront(read, us);
    }
  }

  /** Decoding the words' image gives the words back. */
  lemma {:induction false} DecodeEncodeWords(words: seq<u32>)
    ensures DecodeWords(EncodeWords(words), |words|) == words
  {
    if words != [] {
      var image := EncodeWords(words);
      assert image[..4] == EncodeU32(words[0]);
      assert image[4..] == EncodeWords(words[1..]);
      Power256Values();
      LittleEndianRoundTrip(words[0], 4);
      DecodeEncodeWords(words[1..]);
      assert [words[0]] + words[1..] == words;
    }
  }

  /** A non-empty source written by SerializeWords reads back as itself. */
  lemma ReadWordsWritten(bytes: seq<byte>, position: nat, words: seq<u32>, count: nat)
    requires count == |words| && count > 0 && Written(bytes, position, EncodeWords(words))
    ensures ReadWords(bytes, position, count).Got? && ReadWords(bytes, position, count).value == words
    ensures ReadWords(bytes, position, count).at == position + 4 * count
  {
    ReadWordsImage(bytes, position, count, EncodeWords(words));
    DecodeEncodeWords(words);
  }

  /** ReadWords takes the image sitting at the cursor and decodes it. */
  lemma ReadWordsImage(bytes: seq<byte>, position: nat, count: nat, image: seq<byte>)
    requires count > 0 && |image| == 4 * count && Written(bytes, position, image)
    ensures ReadWords(bytes, position, count).Got? && ReadWords(bytes, position, count).at == position + |image|
    ensures ReadWords(bytes, position, count).value == DecodeWords(image, count)
  {
    TakeWritten(bytes, position, image);
  }

  /** ReadProgram from the outcomes of its seven reads. */
  lemma ReadProgramSteps(bytes: seq<byte>, position: nat, p: ShaderProgram,
                         uniformCount: nat, sourceCount: nat,
                         p1: nat, p2: nat, p3: nat, p4: nat, p5: nat, p6: nat, p7: nat)
    requires uniformCount == |p.uniforms| && sourceCount == |p.source|
    requires position <= |bytes| && ReadU32(bytes, position) == Got(p.kind, p1)
    requires p1 <= |bytes| && ReadLayout(bytes, p1) == Got(p.attributes, p2)
    requires p2 <= |bytes| && ReadU64(bytes, p2) == Got(p.maxUniforms, p3)
    requires p3 <= |bytes| && ReadU64(bytes, p3) == Got(uniformCount, p4)
    requires p4 <= |bytes| && ReadUniformList(bytes, p4, uniformCount, []) == Got(p.uniforms, p5)
    requires p5 <= |bytes| && ReadU64(bytes, p5) == Got(sourceCount, p6)
    requires p6 <= |bytes| && ReadWords(bytes, p6, sourceCount).Got?
    requires ReadWords(bytes, p6, sourceCount).value == p.source && ReadWords(bytes, p6, sourceCount).at == p7
    ensures ReadProgram(bytes, position) == Got(p, p7)
  {
  }

  /** The first four fields of a written program read back, and what
      follows them sits right after. */
  lemma ReadProgramHead(bytes: seq<byte>, position: nat, p: ShaderProgram, uniformCount: nat, rest: seq<byte>,
                        p1: nat, p2: nat, p3: nat, p4: nat)
    requires p.kind < U32_LIMIT && LayoutWritable(p.attributes) && LayoutFits(p.attributes)
    requires p.maxUniforms < U64_LIMIT && uniformCount < U64_LIMIT
    requires Written(bytes, position, EncodeU32(p.kind) + (EncodeLayout(p.attributes)
               + (EncodeU64(p.maxUniforms) + (EncodeU64(uniformCount) + rest))))
    requires p1 == position + 4 && p2 == p1 + |EncodeLayout(p.attributes)| && p3 == p2 + 8 && p4 == p3 + 8
    ensures ReadU32(bytes, position) == Got(p.kind, p1)
    ensures p1 <= |bytes| && ReadLayout(bytes, p1) == Got(p.attributes, p2)
    ensures p2 <= |bytes| && ReadU64(bytes, p2) == Got(p.maxUniforms, p3)
    ensures p3 <= |bytes| && ReadU64(bytes, p3) == Got(uniformCount, p4)
    ensures Written(bytes, p4, rest)
  {
    var a, b, c, d := EncodeU32(p.kind), EncodeLayout(p.attributes), EncodeU64(p.maxUniforms), EncodeU64(uniformCount);
    WrittenSplitAt(bytes, position, a, b + (c + (d + rest)), a + (b + (c + (d + rest))), p1);
    WrittenSplitAt(bytes, p1, b, c + (d + rest), b + (c + (d + rest)), p2);
    WrittenSplitAt(bytes, p2, c, d + rest, c + (d + rest), p3);
    WrittenSplitAt(bytes, p3, d, rest, d + rest, p4);
    ReadU32Written(bytes, position, p.kind);
    ReadLayoutWritten(bytes, p1, p.attributes);
    ReadU64Written(bytes, p2, p.maxUniforms);
    ReadU64Written(bytes, p3, uniformCount);
  }

  /** The uniforms, the source size and the source words of a written
      program read back. */
  lemma ReadProgramTail(bytes: seq<byte>, p4: nat, p: ShaderProgram, uniformCount: nat, sourceCount: nat,
                        p5: nat, p6: nat, p7: nat)
    requires forall u :: u in p.uniforms ==> UniformWritable(u) && UniformFits(u)
    requires uniformCount == |p.uniforms| && sourceCount == |p.source| && 0 < sourceCount < U64_LIMIT
    requires Written(bytes, p4, EncodeUniformList(p.uniforms) + (EncodeU64(sourceCount) + EncodeWords(p.source)))
    requires p5 == p4 + |EncodeUniformList(p.uniforms)| && p6 == p5 + 8 && p7 == p6 + 4 * sourceCount
    ensures p4 <= |bytes| && ReadUniformList(bytes, p4, uniformCount, []) == Got(p.uniforms, p5)
    ensures p5 <= |bytes| && ReadU64(bytes, p5) == Got(sourceCount, p6)
    ensures p6 <= |bytes| && ReadWords(bytes, p6, sourceCount).Got?
    ensures ReadWords(bytes, p6, sourceCount).value == p.source && ReadWords(bytes, p6, sourceCount).at == p7
  {
    var e, f, g := EncodeUniformList(p.uniforms), EncodeU64(sourceCount), EncodeWords(p.source);
    WrittenSplitAt(bytes, p4, e, f + g, e + (f + g), p5);
    WrittenSplitAt(bytes, p5, f, g, f + g, p6);
    ReadUniformListWritten(bytes, p4, p.uniforms, uniformCount, []);
    assert [] + p.uniforms == p.uniforms;
    ReadU64Written(bytes, p5, sourceCount);
    ReadWordsWritten(bytes, p6, p.source, sourceCount);
  }

  /** A program written by SerializeProgram reads back as itself: every
      field, the uniforms and the source words included. */
  lemma ReadProgramWritten(bytes: seq<byte>, position: nat, p: ShaderProgram)
    requires ProgramWritable(p) && ProgramFits(p) && Written(bytes, position, EncodeProgram(p))
    ensures ReadProgram(bytes, position) == Got(p, position + |EncodeProgram(p)|)
  {
    var uniformCount: nat, sourceCount: nat := |p.uniforms|, |p.source|;
    var rest := EncodeUniformList(p.uniforms) + (EncodeU64(sourceCount) + EncodeWords(p.source));
    var p1: nat := position + 4;
    var p2: nat := p1 + |EncodeLayout(p.attributes)|;
    var p3: nat := p2 + 8;
    var p4: nat := p3 + 8;
    var p5: nat := p4 + |EncodeUniformList(p.uniforms)|;
    var p6: nat := p5 + 8;
    var p7: nat := p6 + 4 * sourceCount;
    ReadProgramHead(bytes, position, p, uniformCount, rest, p1, p2, p3, p4);
    ReadProgramTail(bytes, p4, p, uniformCount, sourceCount, p5, p6, p7);
    ReadProgramSteps(bytes, position, p, uniformCount, sourceCount, p1, p2, p3, p4, p5, p6, p7);
  }

  // ---- On a Serializer and a Deserializer ----

  /** ShaderUniform::serialize. It reports failure only where the layout
      does, which never happens. */
  method SerializeUniform(u: ShaderUniform, s: Serializer) returns (ok: bool)
    requires s.Valid() && UniformWritable(u)
    modifies s.buffer
    ensures s.Valid() && s.buffer.Compact() == old(s.buffer.Compact())
    ensures ok && s.Written() == old(s.Written()) + EncodeUniform(u)
  {
    ghost var before := s.Written();
    var a, b, c := EncodeU32(u.kind), EncodeLayout(u.layout), EncodeString(u.name);
    s.Serialize(a);
    ok := SerializeLayout(u.layout, s);
    if !ok {
      return false;
    }
    s.SerializeString(u.name);
    AppendAssoc(before + a, b, c);
    AppendAssoc(before, a, b + c);
    return true;
  }

  /** The loop of ShaderProgram::serialize over the uniforms. */
  method SerializeUniformList(us: seq<ShaderUniform>, s: Serializer) returns (ok: bool)
    requires s.Valid() && forall u :: u in us ==> UniformWritable(u)
    modifies s.buffer
    ensures s.Valid() && s.buffer.Compact() == old(s.buffer.Compact())
    ensures ok && s.Written() == old(s.Written()) + EncodeUniformList(us)
  {
    ghost var before := s.Written();
    var i: nat := 0;
    while i < |us|
      invariant i <= |us|
      invariant s.Valid() && s.buffer.Compact() == old(s.buffer.Compact())
      invariant s.Written() == before + EncodeUniformList(us[..i])
    {
      var written := SerializeUniform(us[i], s);
      if !written {
        return false;
      }
      EncodeUniformListSnoc(us, i);
      AppendAssoc(before, EncodeUniformList(us[..i]), EncodeUniform(us[i]));
      i := i + 1;
    }
    assert us[..i] == us;
    return true;
  }

  /** ShaderProgram::serialize. */
  method SerializeProgram(p: ShaderProgram, s: Serializer) returns (ok: bool)
    requires s.Valid() && ProgramWritable(p)
    modifies s.buffer
    ensures s.Valid() && s.buffer.Compact() == old(s.buffer.Compact())
    ensures ok && s.Written() == old(s.Written()) + EncodeProgram(p)
  {
    ghost var before := s.Written();
    var a, b, c := EncodeU32(p.kind), EncodeLayout(p.attributes), EncodeU64(p.maxUniforms);
    var d, e, f, g := EncodeU64(|p.uniforms|), EncodeUniformList(p.uniforms), EncodeU64(|p.source|), EncodeWords(p.source);
    s.Serialize(a);
    ok := SerializeLayout(p.attributes, s);
    if !ok {
      return false;
    }
    s.Serialize(c);
    s.Serialize(d);
    ok := SerializeUniformList(p.uniforms, s);
    if !ok {
      return false;
    }
    s.Serialize(f);
    s.SerializeWords(p.source);
    AppendAssoc(before + a + b + c + d + e, f, g);
    AppendAssoc(before + a + b + c + d, e, f + g);
    AppendAssoc(before + a + b + c, d, e + (f + g));
    AppendAssoc(before + a + b, c, d + (e + (f + g)));
    AppendAssoc(before + a, b, c + (d + (e + (f + g))));
    AppendAssoc(before, a, b + (c + (d + (e + (f + g)))));
  }

  /** ShaderUniform::deserialize on a Deserializer. */
  method DeserializeUniform(d: Deserializer) returns (r: Option<ShaderUniform>)
    requires d.Valid() && !ReadUniform(d.bytes, d.position).Tripped?
    modifies d`position
    ensures d.Valid()
    ensures ReadUniform(d.bytes, old(d.position)) == Outcome(r, d.position)
  {
    var kind := d.TryDeserializeU32();
    if kind.None? {
      return None;
    }
    var layout := DeserializeLayout(d);
    if layout.None? {
      return None;
    }
    var name := d.TryDeserializeString();
    if name.None? {
      return None;
    }
    r := Some(ShaderUniform(kind.value, layout.value, name.value));
  }

  /** The loop of ShaderProgram::deserialize over the resized uniforms. */
  method DeserializeUniformList(d: Deserializer, count: nat) returns (r: Option<seq<ShaderUniform>>)
    requires d.Valid() && !ReadUniformList(d.bytes, d.position, count, []).Tripped?
    modifies d`position
    ensures d.Valid()
    ensures ReadUniformList(d.bytes, old(d.position), count, []) == Outcome(r, d.position)
  {
    ghost var bytes, start := d.bytes, d.position;
    var uniforms: seq<ShaderUniform> := [];
    var left := count;
    while left > 0
      invariant d.Valid() && d.bytes == bytes
      invariant ReadUniformList(bytes, d.position, left, uniforms) == ReadUniformList(bytes, start, count, [])
    {
      ghost var at := d.position;
      var u := DeserializeUniform(d);
      if u.None? {
        ReadUniformListFails(bytes, at, left, uniforms);
        return None;
      }
      var next: nat := left - 1;
      ReadUniformListStep(bytes, at, left, uniforms, u.value, d.position, next);
      uniforms := uniforms + [u.value];
      left := next;
    }
    return Some(uniforms);
  }

  /** source.resize(count) then try_deserialize_array(source.data(), count). */
  method DeserializeWords(d: Deserializer, count: nat) returns (r: Option<seq<u32>>)
    requires d.Valid() && !ReadWords(d.bytes, d.position, count).Tripped?
    modifies d`position
    ensures d.Valid()
    ensures ReadWords(d.bytes, old(d.position), count) == Outcome(r, d.position)
  {
    if count == 0 {
      return None;
    }
    var n: nat := 4 * count;
    var image := d.TryDeserializeArray(n);
    if image.None? {
      return None;
    }
    r := Some(DecodeWords(image.value, count));
  }

  /** ShaderProgram::deserialize on a Deserializer. */
  method DeserializeProgram(d: Deserializer) returns (r: Option<ShaderProgram>)
    requires d.Valid() && !ReadProgram(d.bytes, d.position).Tripped?
    modifies d`position
    ensures d.Valid()
    ensures ReadProgram(d.bytes, old(d.position)) == Outcome(r, d.position)
  {
    var kind := d.TryDeserializeU32();
    if kind.None? {
      return None;
    }
    var attributes := DeserializeLayout(d);
    if attributes.None? {
      return None;
    }
    var maxUniforms := d.TryDeserializeU64();
    if maxUniforms.None? {
      return None;
    }
    var count := d.TryDeserializeU64();
    if count.None? {
      return None;
    }
    var uniforms := DeserializeUniformList(d, count.value);
    if uniforms.None? {
      return None;
    }
    var size := d.TryDeserializeU64();
    if size.None? {
      return None;
    }
    var source := DeserializeWords(d, size.value);
    if source.None? {
      return None;
    }
    r := Some(ShaderProgram(kind.value, source.value, attributes.value, maxUniforms.value, uniforms.value));
  }

  /** A program serialized into a fresh Serializer and deserialized from it
      comes back whole. */
  method ProgramRoundTrip(p: ShaderProgram) returns (r: Option<ShaderProgram>)
    requires ProgramWritable(p) && ProgramFits(p)
    ensures r == Some(p)
  {
    var s := new Serializer();
    var ok := SerializeProgram(p, s);
    var d := new Deserializer.FromSerializer(s);
    assert d.bytes == EncodeProgram(p);
    assert Written(d.bytes, 0, EncodeProgram(p)) by {
      assert d.bytes[0..|EncodeProgram(p)|] == d.bytes;
    }
    ReadProgramWritten(d.bytes, 0, p);
    r := DeserializeProgram(d);
  }
}
