// The parser of the configuration format and the file it builds. A file is a
// sequence of root blocks; a block is a naming followed by either a source
// block ('::' and braces) or a braced body of 'name: value' properties and
// inner blocks; a value is a number, a string or a naming, or a bracketed
// list of them. Blocks and properties are kept in maps keyed by identifier,
// where a later entry overwrites an earlier one.
//
// Blocks, properties and values are values: the parser copies them into the
// maps. Numbers are kept as their text. Where the parser as written would
// loop forever the model reports Stuck.
module ConfigFiles {
  import opened Common
  import opened OrderedMaps
  import Lx = ConfigLexer

  /** config::Value: a string or a number. */
  datatype Value = Text(text: CString) | Number(lexeme: CString)
  {
    predicate IsString() { Text? }
    predicate IsNumber() { Number? }
  }

  /** Value(): the number 0.0. */
  const DefaultValue: Value := Number("0")

  /** The two shapes of a property's value. */
  datatype Content = Single(value: Value) | List(values: seq<Value>)

  /** config::Property. */
  datatype Property = Property(identifier: CString, content: Content)
  {
    predicate IsSingle() { content.Single? }
    predicate IsList() { content.List? }

    /** set_value(value). */
    function SetValue(v: Value): (r: Property)
      ensures r.IsSingle() && r.content.value == v && r.identifier == identifier
    {
      this.(content := Single(v))
    }

    /** set_value(values). */
    function SetValues(vs: seq<Value>): (r: Property)
      ensures r.IsList() && r.content.values == vs && r.identifier == identifier
    {
      this.(content := List(vs))
    }
  }

  /** Property(): single, the default value, no identifier. */
  const DefaultProperty: Property := Property("", Single(DefaultValue))

  /** config::Block: an identifier, the content of a source block, and the
      properties and inner blocks keyed by identifier. */
  datatype Block = Block(identifier: CString, source: CString, properties: Entries<Property>, inner: Entries<Block>)
  {
    /** Both maps keep their keys in order. */
    predicate Valid()
    {
      Ordered(properties) && Ordered(inner)
    }

    /** is_source_block(): the source content is not empty. */
    predicate IsSourceBlock()
    {
      source != []
    }

    /** has_property(id). */
    predicate HasProperty(id: CString)
    {
      id in Keys(properties)
    }

    /** get_property(id): the property stored under id, or a default one. */
    function GetProperty(id: CString): (r: Property)
      ensures HasProperty(id) ==> exists i :: 0 <= i < |properties| && properties[i] == (id, r)
      ensures !HasProperty(id) ==> r == DefaultProperty
    {
      var found := Lookup(properties, id);
      if found.Some? then found.value else DefaultProperty
    }

    /** has_inner_block(id). */
    predicate HasInnerBlock(id: CString)
    {
      id in Keys(inner)
    }

    /** get_inner_block(id): the block stored under id, or null. */
    function GetInnerBlock(id: CString): (r: Option<Block>)
      ensures r.Some? <==> HasInnerBlock(id)
      ensures r.Some? ==> exists i :: 0 <= i < |inner| && inner[i] == (id, r.value)
    {
      Lookup(inner, id)
    }

    /** add_property(p): stores p under its identifier, replacing what was
        there, and changes nothing else. */
    function AddProperty(p: Property): (r: Block)
      requires Valid()
      ensures r.Valid() && r.HasProperty(p.identifier) && r.GetProperty(p.identifier) == p
      ensures forall id :: id != p.identifier ==> Lookup(r.properties, id) == Lookup(properties, id)
      ensures r.identifier == identifier && r.source == source && r.inner == inner
    {
      this.(properties := Insert(properties, p.identifier, p))
    }

    /** add_inner_block(b): stores b under its identifier, replacing what was
        there, and changes nothing else. */
    function AddInnerBlock(b: Block): (r: Block)
      requires Valid()
      ensures r.Valid() && r.GetInnerBlock(b.identifier) == Some(b)
      ensures forall id :: id != b.identifier ==> r.GetInnerBlock(id) == GetInnerBlock(id)
      ensures r.identifier == identifier && r.source == source && r.properties == properties
    {
      this.(inner := Insert(inner, b.identifier, b))
    }
  }

  /** Block(identifier): nothing set but the identifier. */
  function NewBlock(id: CString): (r: Block)
    ensures r.Valid() && r.identifier == id && !r.IsSourceBlock()
    ensures forall k :: !r.HasProperty(k) && !r.HasInnerBlock(k)
  {
    Block(id, [], [], [])
  }

  /** The defaults of the value classes: a default value is the number 0, a
      default property is a single default value without identifier, and
      set_value switches a property between its shapes keeping its
      identifier. */
  lemma Defaults(id: CString, v: Value, vs: seq<Value>)
    ensures DefaultValue.IsNumber() && !DefaultValue.IsString()
    ensures DefaultProperty.IsSingle() && DefaultProperty.content.value == DefaultValue && DefaultProperty.identifier == []
    ensures DefaultProperty.SetValues(vs).SetValue(v) == DefaultProperty.SetValue(v)
    ensures !NewBlock(id).IsSourceBlock() && NewBlock(id).(source := "x").IsSourceBlock()
  {
  }

  /** What a parse step ends with: a result and the position after it, a
      loop that never ends, or (under the strict rule) a block whose '}' is
      missing. */
  datatype Parse<T> = Parsed(value: T, next: nat) | Stuck | Unclosed

  /** parse_value(): a number, a string or a naming; anything else is the
      default value and is not consumed. */
  function ValueAt(ts: seq<Lx.Token>, p: nat): (r: (Value, nat))
    requires Lx.Ends(ts) && p < |ts|
    ensures p <= r.1 < |ts|
    ensures r.1 == p + 1 <==> ts[p].kind == Lx.Number || ts[p].kind == Lx.String || ts[p].kind == Lx.Naming
    ensures ts[p].kind == Lx.Number ==> r.0 == Number(ts[p].value)
    ensures ts[p].kind == Lx.String || ts[p].kind == Lx.Naming ==> r.0 == Text(ts[p].value)
    ensures r.1 == p ==> r.0 == DefaultValue
  {
    match ts[p].kind
    case Number => (Number(ts[p].value), p + 1)
    case String => (Text(ts[p].value), p + 1)
    case Naming => (Text(ts[p].value), p + 1)
    case _ => (DefaultValue, p)
  }

  /** The list loop of parse_property: values separated by commas up to ']';
      a value followed by anything else ends the list. */
  function ListAt(ts: seq<Lx.Token>, p: nat, acc: seq<Value>): (r: (seq<Value>, nat))
    requires Lx.Ends(ts) && p < |ts|
    decreases |ts| - p
    ensures p <= r.1 < |ts| && |acc| <= |r.0|
    ensures r.0[..|acc|] == acc
  {
    if ts[p].kind == Lx.ListClose || p + 1 >= |ts| then (acc, p)
    else
      var v := ValueAt(ts, p);
      if ts[v.1].kind == Lx.ListClose then ListAt(ts, v.1, acc + [v.0])
      else if ts[v.1].kind == Lx.Comma then ListAt(ts, v.1 + 1, acc + [v.0])
      else (acc + [v.0], v.1)
  }

  /** What follows a property's ':': a bracketed list, whose ']' is consumed
      when it is there, or a single value. */
  function ContentAt(ts: seq<Lx.Token>, q: nat): (r: (Content, nat))
    requires Lx.Ends(ts) && q < |ts|
    ensures q <= r.1 < |ts|
    ensures r.0.List? <==> ts[q].kind == Lx.ListOpen
    ensures r.0.List? ==> q < r.1
  {
    if ts[q].kind == Lx.ListOpen then
      var items := ListAt(ts, q + 1, []);
      (List(items.0), if ts[items.1].kind == Lx.ListClose then items.1 + 1 else items.1)
    else
      var v := ValueAt(ts, q);
      (Single(v.0), v.1)
  }

  /** parse_property(): the identifier, then after ':' a value or a list.
      The caller stands on a naming followed by ':'. */
  function PropertyAt(ts: seq<Lx.Token>, p: nat): (r: (Property, nat))
    requires Lx.Ends(ts) && p + 1 < |ts|
    ensures p + 1 <= r.1 < |ts|
    ensures r.0.identifier == ts[p].value
    ensures ts[p + 1].kind == Lx.Assign ==> p + 2 <= r.1
    ensures ts[p + 1].kind == Lx.Assign && ts[p + 2].kind == Lx.ListOpen <==> r.0.IsList()
  {
    var id := ts[p].value;
    if ts[p + 1].kind != Lx.Assign then (Property(id, Single(DefaultValue)), p + 1)
    else
      var c := ContentAt(ts, p + 2);
      (Property(id, c.0), c.1)
  }

  /** parse_block(): a naming, then a source block, a body in braces, or
      nothing more. Anything but a naming yields an empty block and is not
      consumed. strict makes a missing '}' an error. */
  function BlockAt(ts: seq<Lx.Token>, p: nat, strict: bool): (r: Parse<Block>)
    requires Lx.Ends(ts) && p < |ts|
    decreases |ts| - p, 0
    ensures r.Parsed? ==> p <= r.next < |ts| && r.value.Valid()
    ensures r.Parsed? ==> (p < r.next <==> ts[p].kind == Lx.Naming)
    ensures r.Parsed? && ts[p].kind == Lx.Naming ==> r.value.identifier == ts[p].value
    ensures r.Parsed? && ts[p].kind == Lx.Naming && ts[p + 1].kind == Lx.Source ==>
      r.value.source == ts[p + 1].value && r.value.properties == [] && r.value.inner == []
    ensures r.Unclosed? ==> strict
  {
    if ts[p].kind != Lx.Naming then Parsed(NewBlock([]), p)
    else
      var b := NewBlock(ts[p].value);
      if ts[p + 1].kind == Lx.Source then Parsed(b.(source := ts[p + 1].value), p + 2)
      else if ts[p + 1].kind == Lx.BlockOpen then BodyAt(ts, p + 2, b, strict)
      else Parsed(b, p + 1)
  }

  /** The body loop of parse_block: properties and inner blocks up to '}'.
      A token that starts neither is reported and not consumed, so the loop
      repeats it forever; the end of the tokens ends the body without its
      '}'. */
  function BodyAt(ts: seq<Lx.Token>, p: nat, b: Block, strict: bool): (r: Parse<Block>)
    requires Lx.Ends(ts) && p < |ts| && b.Valid()
    decreases |ts| - p, 1
    ensures r.Parsed? ==> p <= r.next < |ts| && r.value.Valid() && r.value.identifier == b.identifier
    ensures r.Unclosed? ==> strict
  {
    if ts[p].kind == Lx.BlockClose then Parsed(b, p + 1)
    else if p + 1 >= |ts| then (if strict then Unclosed else Parsed(b, p))
    else if ts[p].kind == Lx.Naming && ts[p + 1].kind == Lx.Assign then
      var prop := PropertyAt(ts, p);
      BodyAt(ts, prop.1, b.AddProperty(prop.0), strict)
    else if ts[p].kind == Lx.Naming && (ts[p + 1].kind == Lx.BlockOpen || ts[p + 1].kind == Lx.Source) then
      var inner := BlockAt(ts, p, strict);
      if !inner.Parsed? then inner
      else BodyAt(ts, inner.next, b.AddInnerBlock(inner.value), strict)
    else Stuck
  }

  /** build_block_tree's loop: root blocks up to the end token. A root token
      that is not a naming is not consumed, so the loop repeats it forever. */
  function RootsAt(ts: seq<Lx.Token>, p: nat, acc: seq<Block>, strict: bool): (r: Parse<seq<Block>>)
    requires Lx.Ends(ts) && p < |ts|
    decreases |ts| - p
    ensures r.Parsed? ==> |acc| <= |r.value| && r.value[..|acc|] == acc
    ensures r.Unclosed? ==> strict
  {
    if p + 1 >= |ts| then Parsed(acc, p)
    else
      var b := BlockAt(ts, p, strict);
      if b.Stuck? then Stuck
      else if b.Unclosed? then Unclosed
      else if b.next == p then Stuck
      else
        var r := RootsAt(ts, b.next, acc + [b.value], strict);
        assert r.Parsed? ==> r.value[..|acc|] == (acc + [b.value])[..|acc|];
        r
  }

  /** build_block_tree(): no blocks when the tokens are a lone invalid one. */
  function BuildTree(ts: seq<Lx.Token>, strict: bool): (r: Parse<seq<Block>>)
    requires Lx.Finished(ts)
    ensures ts[0].kind == Lx.Invalid ==> r == Parsed([], 0)
    ensures r.Unclosed? ==> strict
  {
    if ts[0].kind == Lx.Invalid then Parsed([], 0) else RootsAt(ts, 0, [], strict)
  }

  /** The last of the blocks named id. */
  function LastNamed(bs: seq<Block>, id: CString): (r: Option<Block>)
    ensures r.Some? ==> r.value in bs && r.value.identifier == id
    ensures r.Some? ==> exists i :: 0 <= i < |bs| && bs[i] == r.value && forall j :: i < j < |bs| ==> bs[j].identifier != id
    ensures r.None? <==> forall i :: 0 <= i < |bs| ==> bs[i].identifier != id
  {
    if bs == [] then None
    else if bs[|bs| - 1].identifier == id then Some(bs[|bs| - 1])
    else
      var r := LastNamed(bs[..|bs| - 1], id);
      assert r.Some? ==> exists i :: 0 <= i < |bs| - 1 && bs[i] == r.value && forall j :: i < j < |bs| - 1 ==> bs[j].identifier != id;
      r
  }

  /** The root map: each block stored under its identifier in turn, so the
      last block of a name is the one kept. */
  function RootMap(bs: seq<Block>): (r: Entries<Block>)
    ensures Ordered(r)
    ensures forall id :: Lookup(r, id) == LastNamed(bs, id)
  {
    if bs == [] then []
    else
      var last := bs[|bs| - 1];
      var r := Insert(RootMap(bs[..|bs| - 1]), last.identifier, last);
      assert forall id :: LastNamed(bs, id) == if id == last.identifier then Some(last) else LastNamed(bs[..|bs| - 1], id);
      r
  }

  /** How a parse under the strict rule relates to the same parse as
      written: they agree on every result and every loop that never ends,
      and where the strict parse finds a '}' missing, the parse as written
      accepts what it read, up to the end token at position last. */
  predicate StrictAgrees<T(==)>(strict: Parse<T>, lax: Parse<T>, last: nat)
  {
    && (strict.Parsed? ==> lax == strict)
    && (strict.Stuck? ==> lax.Stuck?)
    && (strict.Unclosed? ==> lax.Parsed? && lax.next == last)
  }

  lemma {:induction false} BlockStrict(ts: seq<Lx.Token>, p: nat)
    requires Lx.Ends(ts) && p < |ts|
    decreases |ts| - p, 0
    ensures StrictAgrees(BlockAt(ts, p, true), BlockAt(ts, p, false), |ts| - 1)
  {
    if ts[p].kind == Lx.Naming && ts[p + 1].kind != Lx.Source && ts[p + 1].kind == Lx.BlockOpen {
      BodyStrict(ts, p + 2, NewBlock(ts[p].value));
    }
  }

  lemma {:induction false} BodyStrict(ts: seq<Lx.Token>, p: nat, b: Block)
    requires Lx.Ends(ts) && p < |ts| && b.Valid()
    decreases |ts| - p, 1
    ensures StrictAgrees(BodyAt(ts, p, b, true), BodyAt(ts, p, b, false), |ts| - 1)
  {
    if ts[p].kind == Lx.BlockClose || p + 1 >= |ts| {
    } else if ts[p].kind == Lx.Naming && ts[p + 1].kind == Lx.Assign {
      var prop := PropertyAt(ts, p);
      BodyStrict(ts, prop.1, b.AddProperty(prop.0));
    } else if ts[p].kind == Lx.Naming && (ts[p + 1].kind == Lx.BlockOpen || ts[p + 1].kind == Lx.Source) {
      BlockStrict(ts, p);
      var inner := BlockAt(ts, p, true);
      if inner.Parsed? {
        BodyStrict(ts, inner.next, b.AddInnerBlock(inner.value));
      } else if inner.Unclosed? {
        var lax := BlockAt(ts, p, false);
        assert BodyAt(ts, lax.next, b.AddInnerBlock(lax.value), false) == Parsed(b.AddInnerBlock(lax.value), |ts| - 1);
      }
    }
  }

  lemma {:induction false} RootsStrict(ts: seq<Lx.Token>, p: nat, acc: seq<Block>)
    requires Lx.Ends(ts) && p < |ts|
    decreases |ts| - p
    ensures StrictAgrees(RootsAt(ts, p, acc, true), RootsAt(ts, p, acc, false), |ts| - 1)
  {
    if p + 1 < |ts| {
      BlockStrict(ts, p);
      var b := BlockAt(ts, p, true);
      if b.Parsed? && b.next != p {
        RootsStrict(ts, b.next, acc + [b.value]);
      } else if b.Unclosed? {
        var lax := BlockAt(ts, p, false);
        assert RootsAt(ts, lax.next, acc + [lax.value], false) == Parsed(acc + [lax.value], |ts| - 1);
      }
    }
  }

  /** A missing '}' is the only place where the strict rule and the rule as
      written part: the strict load then keeps no blocks, the load as written
      keeps what it read. */
  lemma StrictLoad(src: CString, rule: Lx.LoopRule)
    ensures Load(src, rule, true) != Load(src, rule, false) ==>
      Load(src, rule, true) == Loaded([]) && Load(src, rule, false).Loaded?
  {
    var lexed := Lx.Lex(src, rule);
    Lx.LexOutcome(src, rule);
    if lexed.Lexed? && lexed.tokens[0].kind != Lx.Invalid {
      RootsStrict(lexed.tokens, 0, []);
    }
  }

  /** A first token that is neither a naming nor the end is never consumed:
      build_block_tree reads it again and again. */
  lemma StrayRootToken(ts: seq<Lx.Token>, strict: bool)
    requires Lx.Finished(ts) && 1 < |ts| && ts[0].kind != Lx.Naming
    ensures BuildTree(ts, strict) == Stuck
  {
  }

  /** What constructing a configuration file ends with. */
  datatype Loading = Loaded(roots: Entries<Block>) | NeverEnds | ReadsPastEnd

  /** StandardConfigurationFile(source), with the lexer's loop rule and the
      parser's treatment of a missing '}' as parameters; as written they are
      Lx.AsWritten and false. A missing '}' under strict leaves no blocks. */
  function Load(src: CString, rule: Lx.LoopRule, strict: bool): (r: Loading)
    ensures r.Loaded? ==> Ordered(r.roots)
    ensures r.NeverEnds? && rule == Lx.ToEnd ==> Lx.Lex(src, rule).Lexed?
    ensures r.ReadsPastEnd? ==> |src| > 0 && src[|src| - 1] == '#'
  {
    var lexed := Lx.Lex(src, rule);
    Lx.LexOutcome(src, rule);
    if lexed.Hangs? then NeverEnds
    else if lexed.Undefined? then ReadsPastEnd
    else
      var tree := BuildTree(lexed.tokens, strict);
      if tree.Stuck? then NeverEnds
      else if tree.Unclosed? then Loaded([])
      else Loaded(RootMap(tree.value))
  }

  /** The parser: the token reader and the parsing methods that advance it. */
  class Parser {
    const reader: Lx.TokenReader

    /** Parser(source): reads the tokens of the text. */
    constructor (src: CString, rule: Lx.LoopRule)
      ensures fresh(reader) && reader.current == 0 && reader.lexing == Lx.Lex(src, rule)
      ensures reader.lexing.Lexed? ==> reader.tokens == reader.lexing.tokens
    {
      reader := new Lx.TokenReader(src, rule);
    }

    /** build_block_tree(). */
    method BuildBlockTree(strict: bool) returns (r: Parse<seq<Block>>)
      requires reader.lexing.Lexed? && reader.tokens == reader.lexing.tokens && reader.current == 0
      requires Lx.Finished(reader.tokens)
      modifies reader`current
      ensures r == BuildTree(reader.tokens, strict)
    {
      if reader.tokens[0].kind == Lx.Invalid {
        return Parsed([], 0);
      }
      var blocks: seq<Block> := [];
      while reader.HasNext()
        invariant reader.Valid()
        invariant RootsAt(reader.tokens, reader.current, blocks, strict) == BuildTree(reader.tokens, strict)
        decreases |reader.tokens| - reader.current
      {
        var before := reader.current;
        var b := ParseBlock(strict);
        if b.Stuck? {
          return Stuck;
        }
        if b.Unclosed? {
          return Unclosed;
        }
        if reader.current == before {
          return Stuck;
        }
        blocks := blocks + [b.value];
      }
      return Parsed(blocks, reader.current);
    }

    /** parse_block(). */
    method ParseBlock(strict: bool) returns (r: Parse<Block>)
      requires reader.Valid()
      modifies reader`current
      decreases |reader.tokens| - reader.current, 0
      ensures r == BlockAt(reader.tokens, old(reader.current), strict)
      ensures reader.Valid() && (r.Parsed? ==> reader.current == r.next)
    {
      var named := reader.Consume(Lx.Naming);
      if !named {
        return Parsed(NewBlock([]), reader.current);
      }
      var block := NewBlock(reader.GetPast().value);
      var source := reader.Consume(Lx.Source);
      if source {
        return Parsed(block.(source := reader.GetPast().value), reader.current);
      }
      var open := reader.Consume(Lx.BlockOpen);
      if !open {
        return Parsed(block, reader.current);
      }
      r := ParseBody(block, strict);
    }

    /** The body loop of parse_block and its closing '}'. */
    method ParseBody(b: Block, strict: bool) returns (r: Parse<Block>)
      requires reader.Valid() && b.Valid()
      modifies reader`current
      decreases |reader.tokens| - reader.current, 1
      ensures r == BodyAt(reader.tokens, old(reader.current), b, strict)
      ensures reader.Valid() && (r.Parsed? ==> reader.current == r.next)
    {
      var block := b;
      while !reader.Check(Lx.BlockClose) && reader.HasNext()
        invariant reader.Valid() && block.Valid() && old(reader.current) <= reader.current
        invariant BodyAt(reader.tokens, reader.current, block, strict) == BodyAt(reader.tokens, old(reader.current), b, strict)
        decreases |reader.tokens| - reader.current
      {
        if reader.Check(Lx.Naming) {
          if reader.Match(Lx.Assign) {
            var p := ParseProperty();
            block := block.AddProperty(p);
            continue;
          } else if reader.Match(Lx.BlockOpen) || reader.Match(Lx.Source) {
            var inner := ParseBlock(strict);
            if !inner.Parsed? {
              return inner;
            }
            block := block.AddInnerBlock(inner.value);
            continue;
          }
        }
        return Stuck;
      }
      var closed := reader.Consume(Lx.BlockClose);
      if !closed && strict {
        return Unclosed;
      }
      return Parsed(block, reader.current);
    }

    /** parse_property(). */
    method ParseProperty() returns (p: Property)
      requires reader.Valid() && reader.current + 1 < |reader.tokens|
      modifies reader`current
      ensures (p, reader.current) == PropertyAt(reader.tokens, old(reader.current))
      ensures reader.Valid()
    {
      var token := reader.GetCurrent();
      reader.Advance();
      p := DefaultProperty.(identifier := token.value);
      var colon := reader.Consume(Lx.Assign);
      if colon {
        p := ParseContent(p);
      }
    }

    /** The part of parse_property after ':'. */
    method ParseContent(p: Property) returns (r: Property)
      requires reader.Valid()
      modifies reader`current
      ensures var c := ContentAt(reader.tokens, old(reader.current));
        r == p.(content := c.0) && reader.current == c.1
      ensures reader.Valid()
    {
      var list := reader.Consume(Lx.ListOpen);
      if list {
        var values := ParseList();
        var closed := reader.Consume(Lx.ListClose);
        r := p.SetValues(values);
      } else {
        var v := ParseValue();
        r := p.SetValue(v);
      }
    }

    /** The list loop of parse_property. */
    method ParseList() returns (values: seq<Value>)
      requires reader.Valid()
      modifies reader`current
      ensures (values, reader.current) == ListAt(reader.tokens, old(reader.current), [])
      ensures reader.Valid()
    {
      values := [];
      while !reader.Check(Lx.ListClose) && reader.HasNext()
        invariant reader.Valid() && old(reader.current) <= reader.current
        invariant ListAt(reader.tokens, reader.current, values) == ListAt(reader.tokens, old(reader.current), [])
        decreases |reader.tokens| - reader.current
      {
        var v := ParseValue();
        values := values + [v];
        if !reader.Check(Lx.ListClose) {
          var comma := reader.Consume(Lx.Comma);
          if !comma {
            break;
          }
        }
      }
    }

    /** parse_value(). */
    method ParseValue() returns (v: Value)
      requires reader.Valid()
      modifies reader`current
      ensures (v, reader.current) == ValueAt(reader.tokens, old(reader.current))
      ensures reader.Valid()
    {
      var number := reader.Consume(Lx.Number);
      if number {
        return Number(reader.GetPast().value);
      }
      var text := reader.Consume(Lx.String);
      if !text {
        text := reader.Consume(Lx.Naming);
      }
      if text {
        return Text(reader.GetPast().value);
      }
      return DefaultValue;
    }
  }

  /** StandardConfigurationFile: the root blocks by identifier. */
  class StandardConfigurationFile {
    /** m_root_blocks. */
    var roots: Entries<Block>
    /** How the construction ended. */
    var loading: Loading

    /** StandardConfigurationFile(source): parse the text and store each root
        block under its identifier. */
    constructor (src: CString)
      ensures loading == Load(src, Lx.AsWritten, false)
      ensures roots == if loading.Loaded? then loading.roots else []
    {
      var parser := new Parser(src, Lx.AsWritten);
      Lx.LexOutcome(src, Lx.AsWritten);
      var stored: Entries<Block> := [];
      var outcome: Loading;
      if parser.reader.lexing.Hangs? {
        outcome := NeverEnds;
      } else if parser.reader.lexing.Undefined? {
        outcome := ReadsPastEnd;
      } else {
        var tree := parser.BuildBlockTree(false);
        if tree.Stuck? {
          outcome := NeverEnds;
        } else {
          stored := StoreRoots(tree.value);
          outcome := Loaded(stored);
        }
      }
      roots, loading := stored, outcome;
    }

    /** The constructor's loop: m_root_blocks[block.identifier] = block for
        each block in turn. */
    static method StoreRoots(blocks: seq<Block>) returns (stored: Entries<Block>)
      ensures stored == RootMap(blocks)
    {
      stored := [];
      var i := 0;
      while i < |blocks|
        invariant i <= |blocks| && stored == RootMap(blocks[..i])
      {
        assert blocks[..i + 1][..i] == blocks[..i];
        stored := Insert(stored, blocks[i].identifier, blocks[i]);
        i := i + 1;
      }
      assert blocks[..i] == blocks;
    }

    /** has_configuration(): some root block was read. */
    function HasConfiguration(): (r: bool)
      reads this
      ensures r <==> exists id :: HasBlock(id)
    {
      assert roots != [] ==> HasBlock(roots[0].0) by {
        if roots != [] {
          assert Keys(roots)[0] == roots[0].0;
        }
      }
      roots != []
    }

    /** has_block(id): some stored root block carries the identifier. */
    function HasBlock(id: CString): (r: bool)
      reads this
      ensures r <==> exists i :: 0 <= i < |roots| && roots[i].0 == id
    {
      id in Keys(roots)
    }

    /** get_block(id): the root block stored under id, or null. */
    function GetBlock(id: CString): (r: Option<Block>)
      reads this
      ensures r.Some? <==> HasBlock(id)
      ensures r.Some? ==> exists i :: 0 <= i < |roots| && roots[i] == (id, r.value)
    {
      Lookup(roots, id)
    }
  }
}

/** A block whose '}' is missing at the end of the text: the parser as
    written keeps it, under the strict rule the file has no blocks. */
module ConfigFileCases {
  import opened Common
  import Lx = ConfigLexer
  import opened ConfigFiles

  /** The naming that starts "a{". */
  lemma OpenOnlyFirst(rule: Lx.LoopRule)
    ensures Lx.NextToken("a{", Lx.Cursor(0, 1, 1), false, rule) == Some((OpenOnly[0], Lx.Cursor(1, 1, 2)))
  {
    var src: CString := "a{";
    assert Lx.AlnumsEnd(src, Lx.Cursor(1, 1, 2), rule) == Lx.Cursor(1, 1, 2);
    assert src[0..1] == "a";
    assert Lx.Skip(src, Lx.Cursor(0, 1, 1)) == Some(Lx.Cursor(0, 1, 1));
  }

  /** The '{' of "a{" and the end after it. */
  lemma OpenOnlyRest(rule: Lx.LoopRule)
    ensures Lx.NextToken("a{", Lx.Cursor(1, 1, 2), false, rule) == Some((OpenOnly[1], Lx.Cursor(2, 1, 3)))
    ensures Lx.NextToken("a{", Lx.Cursor(2, 1, 3), false, rule) == Some((OpenOnly[2], Lx.Cursor(2, 1, 3)))
  {
    var src: CString := "a{";
    assert Lx.Skip(src, Lx.Cursor(1, 1, 2)) == Some(Lx.Cursor(1, 1, 2));
    assert Lx.Skip(src, Lx.Cursor(2, 1, 3)) == Some(Lx.Cursor(2, 1, 3));
  }

  /** The reader after the naming of "a{". */
  lemma OpenOnlyAfterNaming(rule: Lx.LoopRule)
    ensures Lx.Tokenize("a{", Lx.Cursor(1, 1, 2), false, [OpenOnly[0]], rule) == Lx.Lexed(OpenOnly)
  {
    OpenOnlyRest(rule);
    var a, o, e := OpenOnly[0], OpenOnly[1], OpenOnly[2];
    assert Lx.Tokenize("a{", Lx.Cursor(2, 1, 3), false, [a, o], rule) == Lx.Lexed([a, o, e]);
  }

  /** The tokens of "a{": a naming, '{' and the end. */
  lemma OpenOnlyTokens(rule: Lx.LoopRule)
    ensures Lx.Lex("a{", rule) == Lx.Lexed(OpenOnly)
  {
    OpenOnlyFirst(rule);
    OpenOnlyAfterNaming(rule);
  }

  const OpenOnly := [Lx.Token(Lx.Naming, 1, 2, "a"), Lx.Token(Lx.BlockOpen, 1, 3, "{"), Lx.Token(Lx.EndOfFile, 1, 3, "EOF")]

  /** The block tree of the tokens of "a{": as written the block is kept
      without its '}', under the strict rule it is unclosed. */
  lemma OpenOnlyTree()
    ensures BuildTree(OpenOnly, false) == Parsed([NewBlock("a")], 2)
    ensures BuildTree(OpenOnly, true) == Unclosed
  {
    var b := NewBlock("a");
    assert BodyAt(OpenOnly, 2, b, false) == Parsed(b, 2);
    assert BlockAt(OpenOnly, 0, false) == Parsed(b, 2);
    assert BodyAt(OpenOnly, 2, b, true) == Unclosed;
  }

  /** As written, the block without its '}' is kept and the file has a
      configuration. */
  lemma MissingCloseAccepted()
    ensures Load("a{", Lx.AsWritten, false) == Loaded([("a", NewBlock("a"))])
  {
    OpenOnlyTokens(Lx.AsWritten);
    OpenOnlyTree();
    assert RootMap([NewBlock("a")]) == [("a", NewBlock("a"))];
  }

  /** Under the strict rule the same text leaves no blocks. */
  lemma MissingCloseRejected()
    ensures Load("a{", Lx.AsWritten, true) == Loaded([])
  {
    OpenOnlyTokens(Lx.AsWritten);
    OpenOnlyTree();
  }
}
