// The shader description reader of the tools. A shader file is a
// configuration file whose "Shader" root block names the shader and its
// pass, holds the GLSL text of its stages in the source blocks "Vertex" and
// "Fragment", and describes vertex inputs, push constants, uniform buffers
// and texture maps in inner blocks whose properties map an identifier to the
// name of a data type.
module ShaderParsing {
  import opened Common
  import opened OrderedMaps
  import SD = ShaderData
  import opened Buffers
  import opened ShaderTypes
  import SH = StringHelpers
  import Lx = ConfigLexer
  import opened ConfigFiles

  // ---- Names the configuration file uses ----

  const ShaderKey: CString := "Shader"
  const NameKey: CString := "name"
  const PassKey: CString := "pass"
  const VertexKey: CString := "Vertex"
  const FragmentKey: CString := "Fragment"
  const VertexInputKey: CString := "VertexInput"
  const PushConstantKey: CString := "VertexPushConstant"
  const VertexUniformKey: CString := "VertexUniform"
  const FragmentUniformKey: CString := "FragmentUniform"
  const LayoutKey: CString := "Layout"
  const TexturesMapsKey: CString := "TexturesMaps"
  const InstancesKey: CString := "instances"
  const TextureKind: CString := "texture"

  // ---- Data type names ----

  /** The name str_to_shader_data compares a type against; None has none. */
  function TypeName(t: SD.Type): CString
  {
    match t
    case None => ""
    case Bool => "bool"
    case Int => "int"
    case Int2 => "ivec2"
    case Int3 => "ivec3"
    case Int4 => "ivec4"
    case Float => "float"
    case Float2 => "vec2"
    case Float3 => "vec3"
    case Float4 => "vec4"
    case Mat2 => "mat2"
    case Mat3 => "mat3"
    case Mat4 => "mat4"
  }

  /** str_to_shader_data(str): the first type whose name equals str ignoring
      case, or None. */
  function StrToShaderData(s: CString): (r: SD.Type)
    ensures r != SD.None ==> SH.InsensitiveEqual(s, TypeName(r))
  {
    if SH.InsensitiveEqual(s, "bool") then SD.Bool
    else if SH.InsensitiveEqual(s, "int") then SD.Int
    else if SH.InsensitiveEqual(s, "ivec2") then SD.Int2
    else if SH.InsensitiveEqual(s, "ivec3") then SD.Int3
    else if SH.InsensitiveEqual(s, "ivec4") then SD.Int4
    else if SH.InsensitiveEqual(s, "float") then SD.Float
    else if SH.InsensitiveEqual(s, "vec2") then SD.Float2
    else if SH.InsensitiveEqual(s, "vec3") then SD.Float3
    else if SH.InsensitiveEqual(s, "vec4") then SD.Float4
    else if SH.InsensitiveEqual(s, "mat2") then SD.Mat2
    else if SH.InsensitiveEqual(s, "mat3") then SD.Mat3
    else if SH.InsensitiveEqual(s, "mat4") then SD.Mat4
    else SD.None
  }

  /** No character of s is an upper-case letter. */
  predicate LowerCase(s: CString)
  {
    forall i :: 0 <= i < |s| ==> !('A' <= s[i] <= 'Z')
  }

  /** Between strings without upper-case letters, comparing ignoring case is
      plain equality. */
  lemma LowerCaseEqual(a: CString, b: CString)
    requires LowerCase(a) && LowerCase(b) && SH.InsensitiveEqual(a, b)
    ensures a == b
  {
    SH.InsensitiveEqualMeaning(a, b);
    assert forall i :: 0 <= i < |a| ==> a[i] == SH.ToLower(a[i]) == SH.ToLower(b[i]) == b[i];
  }

  lemma TypeNameLowerCase(t: SD.Type)
    ensures LowerCase(TypeName(t))
  {
  }

  /** No two types share a name, even ignoring case. */
  lemma TypeNamesApart(a: SD.Type, b: SD.Type)
    requires SH.InsensitiveEqual(TypeName(a), TypeName(b))
    ensures a == b
  {
    TypeNameLowerCase(a);
    TypeNameLowerCase(b);
    LowerCaseEqual(TypeName(a), TypeName(b));
  }

  /** str_to_shader_data yields a type exactly for the strings equal to its
      name ignoring case, and None for every other string. */
  lemma StrToShaderDataMeaning(s: CString, t: SD.Type)
    requires t != SD.None
    ensures StrToShaderData(s) == t <==> SH.InsensitiveEqual(s, TypeName(t))
    ensures StrToShaderData(s) == SD.None ==> !SH.InsensitiveEqual(s, TypeName(t))
  {
    var r := StrToShaderData(s);
    if SH.InsensitiveEqual(s, TypeName(t)) && r != SD.None {
      SH.InsensitiveEqualIsEquivalence(s, TypeName(r), TypeName(t));
      SH.InsensitiveEqualIsEquivalence(TypeName(r), s, TypeName(t));
      TypeNamesApart(r, t);
    }
  }

  // ---- Inputs and layouts ----

  /** A property holding one string. */
  predicate IsText(p: Property)
  {
    p.IsSingle() && p.content.value.IsString()
  }

  /** The string of a property holding one. */
  function TextOf(p: Property): CString
    requires IsText(p)
  {
    p.content.value.text
  }

  /** The layout inputs read_shader collects from a block's properties: the
      data type named by each property holding one string, with its
      identifier, in the order of the map; other properties are skipped. */
  function StringInputs(props: Entries<Property>): (r: seq<(SD.Type, CString)>)
    ensures |r| <= |props|
  {
    if props == [] then []
    else
      var last := props[|props| - 1];
      StringInputs(props[..|props| - 1]) + (if IsText(last.1) then [(StrToShaderData(TextOf(last.1)), last.0)] else [])
  }

  /** Input x is the one property k of the map gives. */
  predicate InputFrom(props: Entries<Property>, k: int, x: (SD.Type, CString))
  {
    0 <= k < |props| && IsText(props[k].1) && x == (StrToShaderData(TextOf(props[k].1)), props[k].0)
  }

  /** Some property of the map gives input x. */
  predicate IsInput(props: Entries<Property>, x: (SD.Type, CString))
  {
    exists k :: 0 <= k < |props| && InputFrom(props, k, x)
  }

  /** Every input comes from a property holding a string, and every such
      property gives an input. */
  lemma {:induction false} StringInputsMeaning(props: Entries<Property>)
    ensures forall i :: 0 <= i < |StringInputs(props)| ==> IsInput(props, StringInputs(props)[i])
    ensures forall k :: 0 <= k < |props| && IsText(props[k].1) ==>
      (StrToShaderData(TextOf(props[k].1)), props[k].0) in StringInputs(props)
  {
    if props != [] {
      var front := props[..|props| - 1];
      var n := |props| - 1;
      StringInputsMeaning(front);
      var f := StringInputs(front);
      var r := StringInputs(props);
      assert r[..|f|] == f;
      forall i | 0 <= i < |r|
        ensures IsInput(props, r[i])
      {
        if i < |f| {
          var k :| 0 <= k < |front| && InputFrom(front, k, f[i]);
          assert props[k] == front[k];
          assert InputFrom(props, k, r[i]);
        } else {
          assert IsText(props[n].1);
          assert InputFrom(props, n, r[i]);
        }
      }
      forall k | 0 <= k < |props| && IsText(props[k].1)
        ensures (StrToShaderData(TextOf(props[k].1)), props[k].0) in r
      {
        if k < |front| {
          assert props[k] == front[k];
        }
      }
    }
  }

  /** The inputs follow the order of the map, so their identifiers strictly
      increase: layouts list their fields alphabetically, not in the order
      of the file. */
  lemma {:induction false} StringInputsInKeyOrder(props: Entries<Property>)
    requires Ordered(props)
    ensures forall i, j :: 0 <= i < j < |StringInputs(props)| ==> Below(StringInputs(props)[i].1, StringInputs(props)[j].1)
  {
    if props != [] {
      var front := props[..|props| - 1];
      var last := props[|props| - 1];
      StringInputsInKeyOrder(front);
      StringInputsMeaning(front);
      var f := StringInputs(front);
      var r := StringInputs(props);
      assert r[..|f|] == f;
      forall i | 0 <= i < |f|
        ensures Below(f[i].1, last.0)
      {
        var k :| 0 <= k < |front| && InputFrom(front, k, f[i]);
        assert front[k] == props[k];
      }
    }
  }

  /** The layout BufferLayout(vector) builds from the inputs. */
  function LayoutOf(data: seq<(SD.Type, CString)>): (l: BufferLayout)
    ensures LaysOut(l, data)
  {
    BufferLayout(seq(|data|, i requires 0 <= i < |data| => Element(data, i)), SizeSum(data))
  }

  /** A layout is determined by its inputs. */
  lemma LaysOutUnique(l: BufferLayout, data: seq<(SD.Type, CString)>)
    requires LaysOut(l, data)
    ensures l == LayoutOf(data)
  {
    assert l.elements == LayoutOf(data).elements;
  }

  /** BufferLayout() as default-constructed: no elements, stride 0. */
  const EmptyLayout := BufferLayout([], 0)

  /** A uniform of the given type. */
  function Uniform(t: UniformType, layout: BufferLayout, name: CString): (u: ShaderUniform)
    ensures u.Is(t) && u.layout == layout && u.name == name
  {
    ShaderUniform(t.Ordinal(), layout, name)
  }

  // ---- Uniforms ----

  /** The TexturesMaps loop: an image sampler for each property holding a
      string equal to "texture" ignoring case, named by the property's
      identifier; properties not holding a string are skipped, and the first
      string that is not "texture" ends the loop. */
  function Textures(props: Entries<Property>): (r: seq<ShaderUniform>)
    ensures |r| <= |props|
  {
    if props == [] then []
    else
      var rest := Textures(props[1..]);
      var first := props[0];
      if !IsText(first.1) then rest
      else if !SH.InsensitiveEqual(TextOf(first.1), TextureKind) then []
      else [Uniform(ImageSampler, EmptyLayout, first.0)] + rest
  }

  /** Every texture uniform is an image sampler without a layout, named by a
      property that holds "texture". */
  lemma {:induction false} TexturesMeaning(props: Entries<Property>)
    ensures forall i :: 0 <= i < |Textures(props)| ==>
      && Textures(props)[i].Is(ImageSampler) && Textures(props)[i].layout == EmptyLayout
      && IsTexture(props, Textures(props)[i].name)
  {
    if props != [] {
      var rest := Textures(props[1..]);
      TexturesMeaning(props[1..]);
      TexturesShift(props, rest);
      if IsText(props[0].1) && SH.InsensitiveEqual(TextOf(props[0].1), TextureKind) {
        var r := Textures(props);
        assert TextureFrom(props, 0, props[0].0);
        assert forall i :: 1 <= i < |r| ==> r[i] == rest[i - 1];
      }
    }
  }

  /** Property k of the map holds "texture" and is named name. */
  predicate TextureFrom(props: Entries<Property>, k: int, name: CString)
  {
    0 <= k < |props| && props[k].0 == name && IsText(props[k].1) && SH.InsensitiveEqual(TextOf(props[k].1), TextureKind)
  }

  /** Some property of the map named name holds "texture". */
  predicate IsTexture(props: Entries<Property>, name: CString)
  {
    exists k :: 0 <= k < |props| && TextureFrom(props, k, name)
  }

  /** The texture uniforms of the properties after the first come from the
      whole map. */
  lemma TexturesShift(props: Entries<Property>, rest: seq<ShaderUniform>)
    requires props != []
    requires forall i :: 0 <= i < |rest| ==> IsTexture(props[1..], rest[i].name)
    ensures forall i :: 0 <= i < |rest| ==> IsTexture(props, rest[i].name)
  {
    forall i | 0 <= i < |rest|
      ensures IsTexture(props, rest[i].name)
    {
      var k :| 0 <= k < |props[1..]| && TextureFrom(props[1..], k, rest[i].name);
      assert TextureFrom(props, k + 1, rest[i].name);
    }
  }

  /** A string that is not "texture" stops the loop: what follows it is
      never read. */
  lemma {:induction false} TexturesStop(props: Entries<Property>, k: nat)
    requires k < |props| && IsText(props[k].1) && !SH.InsensitiveEqual(TextOf(props[k].1), TextureKind)
    ensures Textures(props) == Textures(props[..k])
  {
    if k > 0 {
      TexturesStop(props[1..], k - 1);
      assert props[1..][..k - 1] == props[..k][1..];
    }
  }

  /** The uniforms a block inside FragmentUniform gives: a uniform buffer for
      "Layout", the texture maps for "TexturesMaps", nothing otherwise. */
  function BlockUniforms(id: CString, b: Block): (r: seq<ShaderUniform>)
  {
    if id == LayoutKey then LayoutUniform(Some(b), FragmentUniformKey)
    else if id == TexturesMapsKey then TextureUniforms(Some(b))
    else []
  }

  /** The uniform buffer named name that a "Layout" block describes, when
      there is one. */
  function LayoutUniform(layout: Option<Block>, name: CString): (r: seq<ShaderUniform>)
  {
    if layout.None? then [] else [Uniform(UniformBuffer, LayoutOf(StringInputs(layout.value.properties)), name)]
  }

  /** The image samplers of a "TexturesMaps" block, when there is one. */
  function TextureUniforms(maps: Option<Block>): (r: seq<ShaderUniform>)
  {
    if maps.None? then [] else Textures(maps.value.properties)
  }

  /** The loop over the blocks inside FragmentUniform, in key order. */
  function FragmentUniforms(inner: Entries<Block>): (r: seq<ShaderUniform>)
  {
    if inner == [] then []
    else FragmentUniforms(inner[..|inner| - 1]) + BlockUniforms(inner[|inner| - 1].0, inner[|inner| - 1].1)
  }

  /** The blocks inside FragmentUniform are visited in key order, and
      "Layout" comes before "TexturesMaps": the uniform buffer, when there is
      one, precedes the image samplers. */
  lemma {:induction false} FragmentUniformsByKey(inner: Entries<Block>)
    requires Ordered(inner)
    ensures FragmentUniforms(inner) ==
      LayoutUniform(Lookup(inner, LayoutKey), FragmentUniformKey) + TextureUniforms(Lookup(inner, TexturesMapsKey))
  {
    if inner != [] {
      var front := inner[..|inner| - 1];
      assert Ordered(front);
      FragmentUniformsByKey(front);
      FragmentUniformsStep(inner);
    }
  }

  /** The inductive step of FragmentUniformsByKey: one more block, last in
      key order. */
  lemma FragmentUniformsStep(inner: Entries<Block>)
    requires Ordered(inner) && inner != []
    requires var front := inner[..|inner| - 1];
      FragmentUniforms(front) ==
      LayoutUniform(Lookup(front, LayoutKey), FragmentUniformKey) + TextureUniforms(Lookup(front, TexturesMapsKey))
    ensures FragmentUniforms(inner) ==
      LayoutUniform(Lookup(inner, LayoutKey), FragmentUniformKey) + TextureUniforms(Lookup(inner, TexturesMapsKey))
  {
    var key := inner[|inner| - 1].0;
    if key == LayoutKey {
      LayoutStep(inner);
    } else if key == TexturesMapsKey {
      TexturesMapsStep(inner);
    } else {
      OtherBlockStep(inner);
    }
  }

  /** The last block is "Layout": nothing came before it. */
  lemma LayoutStep(inner: Entries<Block>)
    requires Ordered(inner) && inner != []
    requires var front := inner[..|inner| - 1];
      FragmentUniforms(front) ==
      LayoutUniform(Lookup(front, LayoutKey), FragmentUniformKey) + TextureUniforms(Lookup(front, TexturesMapsKey))
    requires inner[|inner| - 1].0 == LayoutKey
    ensures FragmentUniforms(inner) ==
      LayoutUniform(Lookup(inner, LayoutKey), FragmentUniformKey) + TextureUniforms(Lookup(inner, TexturesMapsKey))
  {
    var front := inner[..|inner| - 1];
    var b := inner[|inner| - 1].1;
    assert BlockUniforms(LayoutKey, b) == LayoutUniform(Some(b), FragmentUniformKey);
    LookupLast(inner, LayoutKey);
    LookupLast(inner, TexturesMapsKey);
    assert LayoutKey[0] != TexturesMapsKey[0];
    assert Below(LayoutKey, TexturesMapsKey);
    assert FragmentUniforms(front) == [];
    assert FragmentUniforms(inner) == LayoutUniform(Some(b), FragmentUniformKey);
  }

  /** The last block is "TexturesMaps": only a "Layout" came before it. */
  lemma TexturesMapsStep(inner: Entries<Block>)
    requires Ordered(inner) && inner != []
    requires var front := inner[..|inner| - 1];
      FragmentUniforms(front) ==
      LayoutUniform(Lookup(front, LayoutKey), FragmentUniformKey) + TextureUniforms(Lookup(front, TexturesMapsKey))
    requires inner[|inner| - 1].0 == TexturesMapsKey
    ensures FragmentUniforms(inner) ==
      LayoutUniform(Lookup(inner, LayoutKey), FragmentUniformKey) + TextureUniforms(Lookup(inner, TexturesMapsKey))
  {
    var front := inner[..|inner| - 1];
    var b := inner[|inner| - 1].1;
    var layout := Lookup(front, LayoutKey);
    assert LayoutKey[0] != TexturesMapsKey[0];
    assert BlockUniforms(TexturesMapsKey, b) == TextureUniforms(Some(b));
    assert FragmentUniforms(inner) == FragmentUniforms(front) + TextureUniforms(Some(b));
    LookupLast(inner, LayoutKey);
    LookupLast(inner, TexturesMapsKey);
    assert FragmentUniforms(front) == LayoutUniform(layout, FragmentUniformKey);
  }

  /** Any other last block adds no uniform and hides no key. */
  lemma OtherBlockStep(inner: Entries<Block>)
    requires Ordered(inner) && inner != []
    requires var front := inner[..|inner| - 1];
      FragmentUniforms(front) ==
      LayoutUniform(Lookup(front, LayoutKey), FragmentUniformKey) + TextureUniforms(Lookup(front, TexturesMapsKey))
    requires inner[|inner| - 1].0 != LayoutKey && inner[|inner| - 1].0 != TexturesMapsKey
    ensures FragmentUniforms(inner) ==
      LayoutUniform(Lookup(inner, LayoutKey), FragmentUniformKey) + TextureUniforms(Lookup(inner, TexturesMapsKey))
  {
    var front := inner[..|inner| - 1];
    assert BlockUniforms(inner[|inner| - 1].0, inner[|inner| - 1].1) == [];
    assert FragmentUniforms(inner) == FragmentUniforms(front);
    LookupLast(inner, LayoutKey);
    LookupLast(inner, TexturesMapsKey);
  }

  // ---- Instance counts ----

  /** The number of digits s starts with. */
  function DigitRun(s: CString): (n: nat)
    ensures n <= |s| && forall i :: 0 <= i < n ==> Lx.IsDigit(s[i])
    ensures n < |s| ==> !Lx.IsDigit(s[n])
  {
    if s == [] || !Lx.IsDigit(s[0]) then 0 else 1 + DigitRun(s[1..])
  }

  /** The value of a run of decimal digits. */
  function DigitsValue(s: CString): nat
    requires forall i :: 0 <= i < |s| ==> Lx.IsDigit(s[i])
  {
    if s == [] then 0
    else
      var d := s[|s| - 1];
      assert Lx.IsDigit(d);
      DigitsValue(s[..|s| - 1]) * 10 + (d as int - '0' as int)
  }

  /** (i32) of the non-negative number a lexeme denotes: the value of its
      leading digits. */
  function IntegerPart(s: CString): nat
  {
    DigitsValue(s[..DigitRun(s)])
  }

  /** For a number lexeme, digits with an optional fraction, the integer
      part is the value of the digits before the '.'. */
  lemma IntegerPartOfDecimal(s: CString, k: nat)
    requires Lx.DecimalAt(s, k)
    ensures IntegerPart(s) == DigitsValue(s[..k])
  {
  }

  /** The instance count an "instances" property gives: the integer part of
      a number, 1 for anything else. */
  function Instances(p: Property): (n: nat)
  {
    if p.IsSingle() && p.content.value.IsNumber() then IntegerPart(p.content.value.lexeme) else 1
  }

  // ---- Reading a stage ----

  /** The name of a stage's source block. */
  function StageName(t: ProgramType): CString
  {
    match t
    case Vertex => VertexKey
    case Fragment => FragmentKey
  }

  /** The name of the block holding a stage's uniform buffer and instance
      count. */
  function UniformBlockName(t: ProgramType): CString
  {
    match t
    case Vertex => VertexUniformKey
    case Fragment => FragmentUniformKey
  }

  /** max_uniforms: 0 unless the stage's uniform block has "instances". */
  function MaxUniformsOf(shader: Block, t: ProgramType): (n: nat)
  {
    var uniform := shader.GetInnerBlock(UniformBlockName(t));
    if uniform.Some? && uniform.value.HasProperty(InstancesKey) then Instances(uniform.value.GetProperty(InstancesKey)) else 0
  }

  /** The vertex attributes: the layout of "VertexInput" for the vertex
      stage, none otherwise. */
  function AttributesOf(shader: Block, t: ProgramType): BufferLayout
  {
    var input := shader.GetInnerBlock(VertexInputKey);
    if t == Vertex && input.Some? then LayoutOf(StringInputs(input.value.properties)) else EmptyLayout
  }

  /** The push constant the "VertexPushConstant" block describes. */
  function PushConstantUniforms(shader: Block): seq<ShaderUniform>
  {
    var push := shader.GetInnerBlock(PushConstantKey);
    if push.Some? then [Uniform(PushConstant, LayoutOf(StringInputs(push.value.properties)), PushConstantKey)] else []
  }

  /** The uniform buffer the "Layout" block inside "VertexUniform" describes. */
  function VertexBufferUniforms(shader: Block): seq<ShaderUniform>
  {
    var uniform := shader.GetInnerBlock(VertexUniformKey);
    if uniform.Some? then LayoutUniform(uniform.value.GetInnerBlock(LayoutKey), VertexUniformKey) else []
  }

  /** The uniforms of a stage, in the order read_shader appends them. */
  function UniformsOf(shader: Block, t: ProgramType): seq<ShaderUniform>
  {
    match t
    case Vertex => PushConstantUniforms(shader) + VertexBufferUniforms(shader)
    case Fragment =>
      var uniform := shader.GetInnerBlock(FragmentUniformKey);
      if uniform.Some? then FragmentUniforms(uniform.value.inner) else []
  }

  /** ShaderSource: the program description and the GLSL text of a stage. */
  datatype ShaderSource = ShaderSource(program: ShaderProgram, source: CString)

  /** read_shader(type) on the "Shader" block. The stage's block must exist:
      its absence fails the engine assertion. */
  function ShaderOf(shader: Block, t: ProgramType): (r: Run<ShaderSource>)
    ensures r.Ok? <==> shader.HasInnerBlock(StageName(t))
    ensures r.Ok? ==> r.value.source == shader.GetInnerBlock(StageName(t)).value.source
    ensures r.Ok? ==> r.value.program.kind == t.Ordinal() && r.value.program.source == []
    ensures r.Ok? && t == Fragment ==> r.value.program.attributes == EmptyLayout
    ensures r.Ok? && !shader.HasInnerBlock(UniformBlockName(t)) ==> r.value.program.maxUniforms == 0
  {
    var stage := shader.GetInnerBlock(StageName(t));
    if stage.None? then Abort
    else Ok(ShaderSource(ShaderProgram(t.Ordinal(), [], AttributesOf(shader, t), MaxUniformsOf(shader, t), UniformsOf(shader, t)), stage.value.source))
  }

  /** The layout of a block's inputs has an element per input, in
      increasing identifier order, each of the type its property names. */
  lemma LayoutInKeyOrder(props: Entries<Property>)
    requires Ordered(props)
    ensures var data := StringInputs(props);
      var els := LayoutOf(data).elements;
      && |els| == |data|
      && (forall i, j :: 0 <= i < j < |els| ==> Below(els[i].name, els[j].name))
      && (forall i :: 0 <= i < |els| ==> IsInput(props, (data[i].0, els[i].name)) && els[i].dataType == SD.Ordinal(data[i].0))
  {
    var data := StringInputs(props);
    var els := LayoutOf(data).elements;
    StringInputsInKeyOrder(props);
    StringInputsMeaning(props);
    assert forall i :: 0 <= i < |els| ==> els[i] == Element(data, i);
  }

  /** Every property holding a string names an element of the layout. */
  lemma LayoutCoversInputs(props: Entries<Property>)
    ensures forall k :: 0 <= k < |props| && IsText(props[k].1) ==> Names(LayoutOf(StringInputs(props)), props[k].0)
  {
    var data := StringInputs(props);
    var els := LayoutOf(data).elements;
    StringInputsMeaning(props);
    forall k | 0 <= k < |props| && IsText(props[k].1)
      ensures Names(LayoutOf(data), props[k].0)
    {
      var i :| 0 <= i < |data| && data[i] == (StrToShaderData(TextOf(props[k].1)), props[k].0);
      assert els[i] == Element(data, i);
    }
  }

  /** Some element of the layout is named name. */
  predicate Names(l: BufferLayout, name: CString)
  {
    exists i :: 0 <= i < |l.elements| && l.elements[i].name == name
  }

  /** The vertex attributes are the layout of "VertexInput": its string
      properties, in increasing identifier order. */
  lemma AttributesInKeyOrder(shader: Block)
    requires shader.HasInnerBlock(VertexInputKey) && shader.HasInnerBlock(VertexKey)
    requires Ordered(shader.GetInnerBlock(VertexInputKey).value.properties)
    ensures var els := ShaderOf(shader, Vertex).value.program.attributes.elements;
      forall i, j :: 0 <= i < j < |els| ==> Below(els[i].name, els[j].name)
  {
    var props := shader.GetInnerBlock(VertexInputKey).value.properties;
    assert ShaderOf(shader, Vertex).value.program.attributes == LayoutOf(StringInputs(props));
    LayoutInKeyOrder(props);
  }

  // ---- The parser ----

  /** ShaderParser: the shader's configuration file, by its root blocks. */
  datatype ShaderParser = ShaderParser(roots: Entries<Block>)
  {
    /** get_block("Shader"). */
    function Shader(): Option<Block>
    {
      Lookup(roots, ShaderKey)
    }

    /** has_configuration(): the file has a "Shader" block whose "name" and
        "pass" each hold one string, with a "Vertex" or a "Fragment" block,
        and each of the two that is present is a source block. */
    function HasConfiguration(): (r: bool)
      ensures r <==>
        && Shader().Some?
        && HasText(Shader().value, NameKey) && HasText(Shader().value, PassKey)
        && (Shader().value.HasInnerBlock(VertexKey) || Shader().value.HasInnerBlock(FragmentKey))
        && (Shader().value.HasInnerBlock(VertexKey) ==> Shader().value.GetInnerBlock(VertexKey).value.IsSourceBlock())
        && (Shader().value.HasInnerBlock(FragmentKey) ==> Shader().value.GetInnerBlock(FragmentKey).value.IsSourceBlock())
    {
      if roots == [] then false
      else if Shader().None? then false
      else
        var shader := Shader().value;
        if !shader.HasProperty(NameKey) || !IsText(shader.GetProperty(NameKey)) then false
        else if !shader.HasProperty(PassKey) || !IsText(shader.GetProperty(PassKey)) then false
        else if !shader.HasInnerBlock(VertexKey) && !shader.HasInnerBlock(FragmentKey) then false
        else if shader.HasInnerBlock(VertexKey) && !shader.GetInnerBlock(VertexKey).value.IsSourceBlock() then false
        else if shader.HasInnerBlock(FragmentKey) && !shader.GetInnerBlock(FragmentKey).value.IsSourceBlock() then false
        else true
    }

    /** get_shader_name(): the string of "name"; the "Shader" block must
        exist and "name" must hold a string, which has_configuration()
        guarantees. */
    function GetShaderName(): (r: CString)
      requires Shader().Some? && HasText(Shader().value, NameKey)
      ensures Shader().value.GetProperty(NameKey).content == Single(Text(r))
    {
      TextOf(Shader().value.GetProperty(NameKey))
    }

    /** get_pass_name(): the string of "pass", under the same conditions. */
    function GetPassName(): (r: CString)
      requires Shader().Some? && HasText(Shader().value, PassKey)
      ensures Shader().value.GetProperty(PassKey).content == Single(Text(r))
    {
      TextOf(Shader().value.GetProperty(PassKey))
    }

    /** has_shader_type(type): the stage's block is present and is a source
        block; read_shader then reads its text. */
    function HasShaderType(t: ProgramType): (r: bool)
      requires Shader().Some?
      ensures r ==> ShaderOf(Shader().value, t).Ok? && ShaderOf(Shader().value, t).value.source != []
      ensures !r ==> !Shader().value.HasInnerBlock(StageName(t)) || !Shader().value.GetInnerBlock(StageName(t)).value.IsSourceBlock()
    {
      var shader := Shader().value;
      if !shader.HasInnerBlock(StageName(t)) then false
      else shader.GetInnerBlock(StageName(t)).value.IsSourceBlock()
    }

    /** read_shader(type). */
    method ReadShader(t: ProgramType) returns (r: Run<ShaderSource>)
      requires Shader().Some?
      ensures r == ShaderOf(Shader().value, t)
    {
      var shader := Shader().value;
      var attributes, maxUniforms, uniforms;
      if t == Vertex {
        attributes, maxUniforms, uniforms := ReadVertex(shader);
      } else {
        attributes, maxUniforms, uniforms := ReadFragment(shader);
      }
      var stage := shader.GetInnerBlock(StageName(t));
      if stage.None? {
        return Abort;
      }
      r := Ok(ShaderSource(ShaderProgram(t.Ordinal(), [], attributes, maxUniforms, uniforms), stage.value.source));
    }
  }

  /** The Vertex branch of read_shader: attributes from "VertexInput", a
      push constant from "VertexPushConstant", then the uniform buffer and
      instance count of "VertexUniform". */
  method ReadVertex(shader: Block) returns (attributes: BufferLayout, maxUniforms: nat, uniforms: seq<ShaderUniform>)
    ensures attributes == AttributesOf(shader, Vertex)
    ensures maxUniforms == MaxUniformsOf(shader, Vertex)
    ensures uniforms == UniformsOf(shader, Vertex)
  {
    attributes := EmptyLayout;
    maxUniforms := 0;
    var input := shader.GetInnerBlock(VertexInputKey);
    if input.Some? {
      attributes := BuildLayout(input.value.properties);
    }
    var push := shader.GetInnerBlock(PushConstantKey);
    var pushed: seq<ShaderUniform> := [];
    if push.Some? {
      var layout := BuildLayout(push.value.properties);
      pushed := [Uniform(PushConstant, layout, PushConstantKey)];
    }
    var uniform := shader.GetInnerBlock(VertexUniformKey);
    var buffers: seq<ShaderUniform> := [];
    if uniform.Some? {
      if uniform.value.HasProperty(InstancesKey) {
        maxUniforms := Instances(uniform.value.GetProperty(InstancesKey));
      }
      var layoutBlock := uniform.value.GetInnerBlock(LayoutKey);
      if layoutBlock.Some? {
        var layout := BuildLayout(layoutBlock.value.properties);
        buffers := [Uniform(UniformBuffer, layout, VertexUniformKey)];
      }
    }
    uniforms := pushed + buffers;
  }

  /** The Fragment branch of read_shader: the instance count of
      "FragmentUniform" and the uniforms of the blocks inside it. */
  method ReadFragment(shader: Block) returns (attributes: BufferLayout, maxUniforms: nat, uniforms: seq<ShaderUniform>)
    ensures attributes == AttributesOf(shader, Fragment)
    ensures maxUniforms == MaxUniformsOf(shader, Fragment)
    ensures uniforms == UniformsOf(shader, Fragment)
  {
    attributes := EmptyLayout;
    maxUniforms := 0;
    uniforms := [];
    var uniform := shader.GetInnerBlock(FragmentUniformKey);
    if uniform.Some? {
      if uniform.value.HasProperty(InstancesKey) {
        maxUniforms := Instances(uniform.value.GetProperty(InstancesKey));
      }
      uniforms := CollectFragmentUniforms(uniform.value.inner);
    }
  }

  /** A property of the block named id holds one string. */
  predicate HasText(b: Block, id: CString)
  {
    b.HasProperty(id) && IsText(b.GetProperty(id))
  }

  /** A configured shader has a stage to read, and its stages are exactly
      the stage blocks present. */
  lemma ConfiguredStages(p: ShaderParser)
    requires p.HasConfiguration()
    ensures p.Shader().Some?
    ensures p.HasShaderType(Vertex) || p.HasShaderType(Fragment)
    ensures forall t :: p.HasShaderType(t) <==> p.Shader().value.HasInnerBlock(StageName(t))
  {
  }

  /** ShaderParser(source): reads the configuration file of the text. */
  method NewShaderParser(src: CString) returns (p: ShaderParser)
    ensures var loading := Load(src, Lx.AsWritten, false);
      p.roots == if loading.Loaded? then loading.roots else []
  {
    var config := new StandardConfigurationFile(src);
    p := ShaderParser(config.roots);
  }

  // ---- The push_back loops ----

  /** The loop over a block's properties that collects layout inputs. */
  method CollectInputs(props: Entries<Property>) returns (data: seq<(SD.Type, CString)>)
    ensures data == StringInputs(props)
  {
    data := [];
    var i := 0;
    while i < |props|
      invariant i <= |props| && data == StringInputs(props[..i])
    {
      var (id, p) := props[i];
      if IsText(p) {
        data := data + [(StrToShaderData(TextOf(p)), id)];
      }
      assert props[..i + 1][..i] == props[..i];
      i := i + 1;
    }
    assert props[..i] == props;
  }

  /** The inputs collected and turned into a BufferLayout. */
  method BuildLayout(props: Entries<Property>) returns (l: BufferLayout)
    ensures l == LayoutOf(StringInputs(props))
  {
    var data := CollectInputs(props);
    l := NewLayout(data);
    LaysOutUnique(l, data);
  }

  /** The TexturesMaps loop. */
  method CollectTextures(props: Entries<Property>) returns (us: seq<ShaderUniform>)
    ensures us == Textures(props)
  {
    us := [];
    var i := 0;
    while i < |props|
      invariant i <= |props| && us + Textures(props[i..]) == Textures(props)
    {
      var (id, p) := props[i];
      assert props[i..][1..] == props[i + 1..];
      if IsText(p) {
        if !SH.InsensitiveEqual(TextOf(p), TextureKind) {
          break;
        }
        us := us + [Uniform(ImageSampler, EmptyLayout, id)];
      }
      i := i + 1;
    }
  }

  /** The loop over the blocks inside FragmentUniform. */
  method CollectFragmentUniforms(inner: Entries<Block>) returns (us: seq<ShaderUniform>)
    ensures us == FragmentUniforms(inner)
  {
    us := [];
    var i := 0;
    while i < |inner|
      invariant i <= |inner| && us == FragmentUniforms(inner[..i])
    {
      var (id, block) := inner[i];
      if id == LayoutKey {
        var layout := BuildLayout(block.properties);
        us := us + [Uniform(UniformBuffer, layout, FragmentUniformKey)];
      } else if id == TexturesMapsKey {
        var textures := CollectTextures(block.properties);
        us := us + textures;
      }
      assert inner[..i + 1][..i] == inner[..i];
      i := i + 1;
    }
    assert inner[..i] == inner;
  }
}
