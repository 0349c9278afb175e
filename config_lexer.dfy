// The lexer of the engine's configuration format: SourceReader turns the text
// into tokens one at a time, and TokenReader collects them. The format has
// namings, ':' assignments, '{' '}' blocks, '"' strings, decimal numbers,
// '[' ',' ']' lists, '#' comments and 'name:: { ... }' source blocks whose
// braces must balance.
//
// The reader looks at m_source[m_current], which is '\0' at the end of the
// text and undefined past it. Its loops stop one character early (has_next is
// "a character follows the current one"); LoopRule selects that behaviour or
// loops that run to the end of the text.
module ConfigLexer {
  import opened Common

  datatype TokenType =
    | Naming | Assign
    | BlockOpen | BlockClose
    | String | Number
    | ListOpen | ListClose
    | Comma
    | ReadSource | Source
    | EndOfFile
    | Invalid

  /** A token: its type, the line and column the reader stood at after
      reading it, and its text. */
  datatype Token = Token(kind: TokenType, line: nat, column: nat, value: CString)

  /** Where the reader stands: m_current, m_line, m_column. */
  datatype Cursor = Cursor(at: nat, line: nat, column: nat)

  const Start := Cursor(0, 1, 1)

  /** How the token loops stop: a character short of the end, as written, or
      at the end of the text. */
  datatype LoopRule = AsWritten | ToEnd

  const NUL: Char := 0 as char

  /** m_source[i], which is '\0' at the end of the text. */
  function At(src: CString, i: nat): Char
    requires i <= |src|
  {
    if i < |src| then src[i] else NUL
  }

  /** has_next(): another character follows position i. */
  predicate HasNext(src: CString, i: nat)
  {
    i + 1 < |src|
  }

  /** The condition a token loop tests besides its own. */
  predicate More(src: CString, i: nat, rule: LoopRule)
  {
    if rule == AsWritten then HasNext(src, i) else i < |src|
  }

  predicate IsDigit(c: char) { '0' <= c <= '9' }
  predicate IsAlpha(c: char) { 'a' <= c <= 'z' || 'A' <= c <= 'Z' || c == '_' }
  predicate IsAlnum(c: char) { IsDigit(c) || IsAlpha(c) }

  /** What ignore_irrelevant skips. */
  predicate Irrelevant(c: char)
  {
    c == ' ' || c == '\n' || c == '\t' || c == '\r' || c == '#'
  }

  /** advance(). */
  function Forward(c: Cursor): (r: Cursor)
    ensures r.at == c.at + 1 && r.line == c.line && r.column == c.column + 1
  {
    Cursor(c.at + 1, c.line, c.column + 1)
  }

  /** consume(ch): step over ch when it is the current character. */
  function Consumed(src: CString, c: Cursor, ch: Char): (r: Cursor)
    requires c.at <= |src| && ch != NUL
    ensures r.at <= |src|
    ensures r == c || (c.at < |src| && src[c.at] == ch && r == Forward(c))
    ensures At(src, c.at) == ch <==> r != c
  {
    if At(src, c.at) == ch then Forward(c) else c
  }

  /** The rest of a comment: up to the line feed or the last character. */
  function CommentEnd(src: CString, c: Cursor): (r: Cursor)
    requires c.at <= |src|
    decreases |src| - c.at
    ensures c.at <= r.at && r.line == c.line
    ensures r.at < |src| || r.at == c.at
  {
    if HasNext(src, c.at) && At(src, c.at) != '\n' then CommentEnd(src, Forward(c)) else c
  }

  /** One turn of ignore_irrelevant's loop: a space, a line feed, a tab
      (four columns more), a carriage return and a comment, each when next. A
      comment's last step may go one past the end of the text. */
  function SkipOnce(src: CString, c: Cursor): (r: Cursor)
    requires c.at <= |src|
    ensures c.at <= r.at <= |src| + 1
    ensures Irrelevant(At(src, c.at)) ==> c.at < r.at
    ensures r.at == |src| + 1 ==> |src| > 0 && src[|src| - 1] == '#'
  {
    Comment(src, Consumed(src, Tab(src, LineFeed(src, Consumed(src, c, ' '))), '\r'))
  }

  /** A line feed starts the next line at column 1. */
  function LineFeed(src: CString, c: Cursor): (r: Cursor)
    requires c.at <= |src|
    ensures r.at <= |src| && (r == c || (At(src, c.at) == '\n' && r.at == c.at + 1))
  {
    if At(src, c.at) == '\n' then Cursor(c.at + 1, c.line + 1, 1) else c
  }

  /** A tab counts five columns: one for the character and four more. */
  function Tab(src: CString, c: Cursor): (r: Cursor)
    requires c.at <= |src|
    ensures r.at <= |src| && (r == c || (At(src, c.at) == '\t' && r.at == c.at + 1))
  {
    if At(src, c.at) == '\t' then Cursor(c.at + 1, c.line, c.column + 5) else c
  }

  /** A comment: the '#', the rest of the line, and one more step over the
      line feed, which does not start a new line. */
  function Comment(src: CString, c: Cursor): (r: Cursor)
    requires c.at <= |src|
    ensures c.at <= r.at <= |src| + 1
    ensures At(src, c.at) == '#' ==> c.at < r.at
    ensures r.at == |src| + 1 ==> |src| > 0 && src[|src| - 1] == '#'
  {
    if At(src, c.at) == '#' then Forward(CommentEnd(src, Forward(c))) else c
  }

  /** ignore_irrelevant(): None when a comment ends the text, where the reader
      steps past the end and its next read is undefined. */
  function Skip(src: CString, c: Cursor): (r: Option<Cursor>)
    requires c.at <= |src|
    decreases |src| - c.at
    ensures r.Some? ==> c.at <= r.value.at <= |src| && !Irrelevant(At(src, r.value.at))
    ensures r.None? ==> |src| > 0 && src[|src| - 1] == '#'
  {
    if !Irrelevant(At(src, c.at)) then Some(c)
    else
      var n := SkipOnce(src, c);
      if n.at > |src| then None else Skip(src, n)
  }

  /** A run of digits. */
  function DigitsEnd(src: CString, c: Cursor, rule: LoopRule): (r: Cursor)
    requires c.at <= |src|
    decreases |src| - c.at
    ensures c.at <= r.at <= |src| && r.line == c.line && r.column == c.column + (r.at - c.at)
    ensures forall i :: c.at <= i < r.at ==> IsDigit(src[i])
    ensures rule == ToEnd ==> !IsDigit(At(src, r.at))
    ensures IsDigit(At(src, c.at)) && More(src, c.at, rule) ==> c.at < r.at
  {
    if IsDigit(At(src, c.at)) && More(src, c.at, rule) then DigitsEnd(src, Forward(c), rule) else c
  }

  /** A run of letters, digits and underscores. */
  function AlnumsEnd(src: CString, c: Cursor, rule: LoopRule): (r: Cursor)
    requires c.at <= |src|
    decreases |src| - c.at
    ensures c.at <= r.at <= |src| && r.line == c.line
    ensures forall i :: c.at <= i < r.at ==> IsAlnum(src[i])
    ensures rule == ToEnd ==> !IsAlnum(At(src, r.at))
  {
    if IsAlnum(At(src, c.at)) && More(src, c.at, rule) then AlnumsEnd(src, Forward(c), rule) else c
  }

  /** The body of a string: up to the closing quote. */
  function QuoteEnd(src: CString, c: Cursor, rule: LoopRule): (r: Cursor)
    requires c.at <= |src|
    decreases |src| - c.at
    ensures c.at <= r.at <= |src|
    ensures forall i :: c.at <= i < r.at ==> src[i] != '"'
    ensures At(src, r.at) == '"' || !More(src, r.at, rule)
  {
    if At(src, c.at) != '"' && More(src, c.at, rule) then
      var n := if src[c.at] == '\n' then c.(line := c.line + 1, column := 1) else c;
      QuoteEnd(src, Forward(n), rule)
    else c
  }

  /** How deep a brace character leaves the nesting: '}' at depth 0 is not
      counted. */
  function DepthStep(depth: nat, ch: char): nat
  {
    if ch == '{' then depth + 1 else if ch == '}' && depth > 0 then depth - 1 else depth
  }

  /** The nesting depth after reading s from the given depth. */
  function DepthAfter(depth: nat, s: CString): nat
    decreases |s|
  {
    if s == [] then depth else DepthAfter(DepthStep(depth, s[0]), s[1..])
  }

  /** Braces balance in s: every '}' closes an open '{' and none stays open. */
  predicate Balanced(s: CString)
  {
    && DepthAfter(0, s) == 0
    && forall i :: 0 <= i < |s| && s[i] == '}' ==> DepthAfter(0, s[..i]) > 0
  }

  /** The body of a source block: up to the '}' that closes it, counting the
      blocks opened inside. The result's second part is the open count. */
  function BraceEnd(src: CString, c: Cursor, depth: nat, rule: LoopRule): (r: (Cursor, nat))
    requires c.at <= |src|
    decreases |src| - c.at
    ensures c.at <= r.0.at <= |src|
    ensures (At(src, r.0.at) == '}' && r.1 == 0) || !More(src, r.0.at, rule)
  {
    if (At(src, c.at) != '}' || depth > 0) && More(src, c.at, rule) then
      var ch := src[c.at];
      var n := if ch == '\n' then c.(line := c.line + 1, column := 1) else c;
      BraceEnd(src, Forward(n), DepthStep(depth, ch), rule)
    else (c, depth)
  }

  /** The count BraceEnd keeps is the nesting depth of what it passed over. */
  lemma {:induction false} BraceEndCount(src: CString, c: Cursor, depth: nat, rule: LoopRule)
    requires c.at <= |src|
    decreases |src| - c.at
    ensures var r := BraceEnd(src, c, depth, rule); r.1 == DepthAfter(depth, src[c.at..r.0.at])
  {
    if (At(src, c.at) != '}' || depth > 0) && More(src, c.at, rule) {
      var ch := src[c.at];
      var n := if ch == '\n' then c.(line := c.line + 1, column := 1) else c;
      var r := BraceEnd(src, Forward(n), DepthStep(depth, ch), rule);
      BraceEndCount(src, Forward(n), DepthStep(depth, ch), rule);
      assert src[c.at..r.0.at] == [ch] + src[c.at + 1..r.0.at];
    }
  }

  /** Every '}' BraceEnd passes over closes an open '{'. */
  lemma {:induction false} BraceEndCloses(src: CString, c: Cursor, depth: nat, rule: LoopRule)
    requires c.at <= |src|
    decreases |src| - c.at
    ensures var r := BraceEnd(src, c, depth, rule);
      forall i :: c.at <= i < r.0.at && src[i] == '}' ==> DepthAfter(depth, src[c.at..i]) > 0
  {
    if (At(src, c.at) != '}' || depth > 0) && More(src, c.at, rule) {
      var ch := src[c.at];
      var n := if ch == '\n' then c.(line := c.line + 1, column := 1) else c;
      var r := BraceEnd(src, Forward(n), DepthStep(depth, ch), rule);
      BraceEndCloses(src, Forward(n), DepthStep(depth, ch), rule);
      forall i | c.at < i < r.0.at && src[i] == '}'
        ensures DepthAfter(depth, src[c.at..i]) > 0
      {
        assert src[c.at..i] == [ch] + src[c.at + 1..i];
      }
    }
  }

  /** A slice whose every '}' closes an open '{' is balanced when nothing
      stays open. */
  lemma BalancedSlice(src: CString, from: nat, to: nat)
    requires from <= to <= |src|
    requires forall i :: from <= i < to && src[i] == '}' ==> DepthAfter(0, src[from..i]) > 0
    ensures DepthAfter(0, src[from..to]) == 0 ==> Balanced(src[from..to])
  {
    var value := src[from..to];
    forall i | 0 <= i < |value| && value[i] == '}'
      ensures DepthAfter(0, value[..i]) > 0
    {
      assert value[..i] == src[from..from + i];
    }
  }

  /** Digits, optionally a '.' and more digits. */
  predicate Decimal(s: CString)
  {
    exists k :: 0 <= k <= |s| && DecimalAt(s, k)
  }

  /** Digits before position k, and at k either the end or a '.' followed
      by digits. */
  predicate DecimalAt(s: CString, k: int)
  {
    && 0 <= k <= |s|
    && (forall i :: 0 <= i < k ==> IsDigit(s[i]))
    && (k == |s| || (s[k] == '.' && forall i :: k < i < |s| ==> IsDigit(s[i])))
  }

  /** Digits, a '.' and digits between two positions make a decimal. */
  lemma NumberDecimal(src: CString, from: nat, mid: nat, to: nat)
    requires from <= mid <= to <= |src|
    requires forall i :: from <= i < mid ==> IsDigit(src[i])
    requires mid == to || (src[mid] == '.' && forall i :: mid < i < to ==> IsDigit(src[i]))
    ensures Decimal(src[from..to])
  {
    var s := src[from..to];
    var k := mid - from;
    assert forall i :: 0 <= i < k ==> IsDigit(s[i]) by {
      forall i | 0 <= i < k ensures IsDigit(s[i]) { assert s[i] == src[from + i]; }
    }
    if k < |s| {
      forall i | k < i < |s| ensures IsDigit(s[i]) { assert s[i] == src[from + i]; }
      assert s[k] == '.';
    }
    assert DecimalAt(s, k);
  }

  /** Tokens the reader hands on: all but the end, an error and '::'. */
  predicate Ordinary(kind: TokenType)
  {
    kind != EndOfFile && kind != Invalid && kind != ReadSource
  }

  /** What the text of a token of each kind looks like. */
  predicate Shaped(t: Token, rule: LoopRule)
  {
    match t.kind
    case Naming => t.value != [] && IsAlpha(t.value[0]) && forall i :: 0 <= i < |t.value| ==> IsAlnum(t.value[i])
    case Number => t.value != [] && IsDigit(t.value[0]) && Decimal(t.value)
    case String => forall i :: 0 <= i < |t.value| ==> t.value[i] != '"'
    case Source => rule == AsWritten || Balanced(t.value)
    case Assign => t.value == ":"
    case _ => true
  }

  /** The source branch of get_next: after '::', a '{', the body and its
      closing '}'; anything else is an invalid token holding what was read. */
  function ReadBlockSource(src: CString, c: Cursor, rule: LoopRule): (r: (Token, Cursor))
    requires c.at <= |src|
    ensures c.at <= r.1.at <= |src|
    ensures r.0.kind == Source || r.0.kind == Invalid
    ensures r.0.kind == Source ==> c.at + 2 <= r.1.at && At(src, c.at) == '{' && src[r.1.at - 1] == '}'
    ensures r.0.kind == Source ==> r.0.value == src[c.at + 1..r.1.at - 1]
    ensures r.0.kind == Source ==> Balanced(r.0.value) || (rule == AsWritten && r.1.at == |src|)
  {
    if At(src, c.at) != '{' then (Token(Invalid, c.line, c.column, []), c)
    else
      var open := Forward(c);
      var body := BraceEnd(src, open, 0, rule);
      var e := body.0;
      if At(src, e.at) == '}' then
        var close := Forward(e);
        var value := src[open.at..e.at];
        BraceEndCount(src, open, 0, rule);
        BraceEndCloses(src, open, 0, rule);
        BalancedSlice(src, open.at, e.at);
        (Token(Source, close.line, close.column, value), close)
      else (Token(Invalid, e.line, e.column, src[open.at..e.at]), e)
  }

  /** The number branch: digits, then a '.' and digits. */
  function ReadNumber(src: CString, c: Cursor, rule: LoopRule): (r: (Token, Cursor))
    requires c.at < |src| && IsDigit(src[c.at])
    ensures r.0.kind == Number && c.at <= r.1.at <= |src|
    ensures r.0.value == src[c.at..r.1.at]
    ensures r.1.at == c.at ==> rule == AsWritten && c.at == |src| - 1
    ensures r.1.at > c.at ==> Shaped(r.0, rule)
  {
    var d := DigitsEnd(src, c, rule);
    var e := if At(src, d.at) == '.' then DigitsEnd(src, Forward(d), rule) else d;
    NumberDecimal(src, c.at, d.at, e.at);
    (Token(Number, e.line, e.column, src[c.at..e.at]), e)
  }

  /** The naming branch: a letter or underscore, then letters, digits and
      underscores. */
  function ReadNaming(src: CString, c: Cursor, rule: LoopRule): (r: (Token, Cursor))
    requires c.at < |src| && IsAlpha(src[c.at])
    ensures r.0.kind == Naming && c.at < r.1.at <= |src|
    ensures r.0.value == src[c.at..r.1.at] && Shaped(r.0, rule)
    ensures rule == ToEnd ==> !IsAlnum(At(src, r.1.at))
  {
    var e := AlnumsEnd(src, Forward(c), rule);
    (Token(Naming, e.line, e.column, src[c.at..e.at]), e)
  }

  /** The string branch: the text between two quotes; without the closing
      quote, an invalid token holding what was read. */
  function ReadString(src: CString, c: Cursor, rule: LoopRule): (r: (Token, Cursor))
    requires c.at < |src| && src[c.at] == '"'
    ensures c.at < r.1.at <= |src|
    ensures r.0.kind == String || r.0.kind == Invalid
    ensures r.0.kind == String <==> exists j :: c.at < j < |src| && src[j] == '"'
    ensures r.0.kind == String ==> c.at + 2 <= r.1.at && r.0.value == src[c.at + 1..r.1.at - 1] && src[r.1.at - 1] == '"'
    ensures r.0.kind == String ==> Shaped(r.0, rule)
  {
    var open := Forward(c);
    var e := QuoteEnd(src, open, rule);
    if At(src, e.at) == '"' then
      var close := Forward(e);
      (Token(String, close.line, close.column, src[open.at..e.at]), close)
    else
      assert forall j :: c.at < j < |src| ==> src[j] != '"' by {
        assert e.at == |src| || (e.at + 1 == |src| && src[e.at] != '"');
      }
      (Token(Invalid, e.line, e.column, src[open.at..e.at]), e)
  }

  /** One character of punctuation. */
  function Punctuation(c: Cursor, kind: TokenType, spelling: CString): (r: (Token, Cursor))
    ensures r.0.kind == kind && r.0.value == spelling && r.1 == Forward(c)
  {
    var n := Forward(c);
    (Token(kind, n.line, n.column, spelling), n)
  }

  /** The rest of get_next, from the first relevant character. */
  function Read(src: CString, c: Cursor, reading: bool, rule: LoopRule): (r: (Token, Cursor))
    requires c.at <= |src|
    ensures c.at <= r.1.at <= |src|
    ensures reading ==> r.0.kind == Source || r.0.kind == Invalid
    ensures r.0.kind == ReadSource ==> r.1.at == c.at + 2
    ensures r.0.kind == EndOfFile ==> !HasNext(src, c.at)
    ensures Ordinary(r.0.kind) ==> Shaped(r.0, rule) || r.1.at == c.at
    ensures Ordinary(r.0.kind) && r.1.at == c.at ==>
      rule == AsWritten && r.0.kind == Number && r.0.value == [] && c.at == |src| - 1 && IsDigit(src[c.at])
  {
    var ch := At(src, c.at);
    if reading then ReadBlockSource(src, c, rule)
    else if IsDigit(ch) then ReadNumber(src, c, rule)
    else if IsAlpha(ch) then ReadNaming(src, c, rule)
    else if ch == '"' then ReadString(src, c, rule)
    else if ch == ':' then
      if At(src, c.at + 1) == ':' then
        var n := Forward(Forward(c));
        (Token(ReadSource, n.line, n.column, "::"), n)
      else Punctuation(c, Assign, ":")
    else if ch == '[' then Punctuation(c, ListOpen, "[")
    else if ch == ']' then Punctuation(c, ListClose, "]")
    else if ch == ',' then Punctuation(c, Comma, ",")
    else if ch == '{' then Punctuation(c, BlockOpen, "{")
    else if ch == '}' then Punctuation(c, BlockClose, "}")
    else if !HasNext(src, c.at) then (Token(EndOfFile, c.line, c.column, "EOF"), c)
    else (Token(Invalid, c.line, c.column, []), c)
  }

  /** get_next(reading): skip what is irrelevant and read a token; None when
      the skipping runs past the end of the text. */
  function NextToken(src: CString, c: Cursor, reading: bool, rule: LoopRule): (r: Option<(Token, Cursor)>)
    requires c.at <= |src|
    ensures r.None? <==> Skip(src, c).None?
    ensures r.Some? ==> r.value == Read(src, Skip(src, c).value, reading, rule)
  {
    var s := Skip(src, c);
    if s.None? then None else Some(Read(src, s.value, reading, rule))
  }

  /** What the token reader ends with: the tokens, or a reader that never
      finishes, or one that reads past the end of the text. */
  datatype Lexing = Lexed(tokens: seq<Token>) | Hangs | Undefined

  /** A finished token list: ordinary tokens and the end, or one invalid
      token alone. */
  predicate Finished(ts: seq<Token>)
  {
    && ts != []
    && ((|ts| == 1 && ts[0].kind == Invalid)
        || (ts[|ts| - 1].kind == EndOfFile && forall i :: 0 <= i < |ts| - 1 ==> Ordinary(ts[i].kind)))
  }

  /** TokenReader's loop: a '::' token is dropped and makes the next read a
      source read; the end of the text stops it; an invalid token replaces
      every token read before it. An empty number is a read that does not
      move the reader, which then repeats it forever. */
  function Tokenize(src: CString, c: Cursor, reading: bool, acc: seq<Token>, rule: LoopRule): (r: Lexing)
    requires c.at <= |src|
    decreases |src| - c.at
  {
    var next := NextToken(src, c, reading, rule);
    if next.None? then Undefined
    else
      var t := next.value.0;
      var n := next.value.1;
      if t.kind == ReadSource then Tokenize(src, n, true, acc, rule)
      else if t.kind == EndOfFile then Lexed(acc + [t])
      else if t.kind == Invalid then Lexed([t])
      else if t.kind == Number && t.value == [] then Hangs
      else Tokenize(src, n, false, acc + [t], rule)
  }

  /** Whatever the text, the reader finishes with a well-formed token list
      whose tokens have the shapes of their kinds, or it loops forever on a
      digit that ends the text, or it reads past a comment mark that ends
      the text. */
  lemma {:induction false} TokenizeOutcome(src: CString, c: Cursor, reading: bool, acc: seq<Token>, rule: LoopRule)
    requires c.at <= |src|
    requires forall i :: 0 <= i < |acc| ==> Ordinary(acc[i].kind) && Shaped(acc[i], rule)
    decreases |src| - c.at
    ensures var r := Tokenize(src, c, reading, acc, rule);
      && (r.Lexed? ==> Finished(r.tokens) && forall i :: 0 <= i < |r.tokens| ==> Shaped(r.tokens[i], rule))
      && (r.Hangs? ==> rule == AsWritten && |src| > 0 && IsDigit(src[|src| - 1]))
      && (r.Undefined? ==> |src| > 0 && src[|src| - 1] == '#')
  {
    var next := NextToken(src, c, reading, rule);
    if next.Some? {
      var t := next.value.0;
      var n := next.value.1;
      if t.kind == ReadSource {
        TokenizeOutcome(src, n, true, acc, rule);
      } else if t.kind == EndOfFile {
        var ts := acc + [t];
        assert forall i :: 0 <= i < |ts| - 1 ==> ts[i] == acc[i];
      } else if t.kind != Invalid && !(t.kind == Number && t.value == []) {
        TokenizeOutcome(src, n, false, acc + [t], rule);
      }
    }
  }

  /** The same, from the start of the text. */
  lemma LexOutcome(src: CString, rule: LoopRule)
    ensures var r := Lex(src, rule);
      && (r.Lexed? ==> Finished(r.tokens) && forall i :: 0 <= i < |r.tokens| ==> Shaped(r.tokens[i], rule))
      && (r.Hangs? ==> rule == AsWritten && |src| > 0 && IsDigit(src[|src| - 1]))
      && (r.Undefined? ==> |src| > 0 && src[|src| - 1] == '#')
  {
    TokenizeOutcome(src, Start, false, [], rule);
  }

  /** A token list that ends with the end token. */
  predicate Ends(ts: seq<Token>)
  {
    ts != [] && ts[|ts| - 1].kind == EndOfFile
  }

  /** The tokens of a text, as TokenReader(source) collects them. */
  function Lex(src: CString, rule: LoopRule): (r: Lexing)
  {
    Tokenize(src, Start, false, [], rule)
  }

  /** SourceReader: a cursor over the text. */
  class SourceReader {
    /** m_source. */
    const source: CString
    /** m_current. */
    var current: nat
    /** m_line. */
    var line: nat
    /** m_column. */
    var column: nat

    function Position(): Cursor
      reads this
    {
      Cursor(current, line, column)
    }

    /** SourceReader(source): at the first character of line 1. */
    constructor (src: CString)
      ensures source == src && Position() == Start
    {
      source, current, line, column := src, 0, 1, 1;
    }

    /** advance(). */
    method Advance()
      modifies this`current, this`column
      ensures Position() == Forward(old(Position()))
    {
      current, column := current + 1, column + 1;
    }

    /** consume(ch). */
    method Consume(ch: Char) returns (ok: bool)
      requires current <= |source| && ch != NUL
      modifies this`current, this`column
      ensures ok <==> At(source, old(current)) == ch
      ensures Position() == Consumed(source, old(Position()), ch)
    {
      ok := At(source, current) == ch;
      if ok {
        Advance();
      }
    }

    /** The loop that skips the rest of a comment. */
    method SkipComment()
      requires current <= |source|
      modifies this`current, this`column
      ensures Position() == CommentEnd(source, old(Position()))
    {
      while HasNext(source, current) && At(source, current) != '\n'
        invariant current <= |source|
        invariant CommentEnd(source, Position()) == CommentEnd(source, old(Position()))
        decreases |source| - current
      {
        Advance();
      }
    }

    /** ignore_irrelevant(); false when it steps past the end of the text. */
    method IgnoreIrrelevant() returns (defined: bool)
      requires current <= |source|
      modifies this`current, this`line, this`column
      ensures defined <==> Skip(source, old(Position())).Some?
      ensures defined ==> Position() == Skip(source, old(Position())).value
    {
      while Irrelevant(At(source, current))
        invariant current <= |source|
        invariant Skip(source, Position()) == Skip(source, old(Position()))
        decreases |source| - current
      {
        ghost var before := Position();
        IgnoreOnce();
        if current > |source| {
          return false;
        }
      }
      return true;
    }

    /** One turn of ignore_irrelevant's loop. */
    method IgnoreOnce()
      requires current <= |source|
      modifies this`current, this`line, this`column
      ensures Position() == SkipOnce(source, old(Position()))
    {
      var spaced := Consume(' ');
      ghost var c1 := Position();
      var fed := Consume('\n');
      if fed {
        line, column := line + 1, 1;
      }
      assert Position() == LineFeed(source, c1);
      ghost var c2 := Position();
      var tabbed := Consume('\t');
      if tabbed {
        column := column + 4;
      }
      assert Position() == Tab(source, c2);
      var returned := Consume('\r');
      ghost var c4 := Position();
      var commented := Consume('#');
      if commented {
        SkipComment();
        Advance();
      }
      assert Position() == Comment(source, c4);
    }

    /** while (is_digit() && has_next()) advance(). */
    method ReadDigits(rule: LoopRule)
      requires current <= |source|
      modifies this`current, this`column
      ensures Position() == DigitsEnd(source, old(Position()), rule)
    {
      while IsDigit(At(source, current)) && More(source, current, rule)
        invariant current <= |source|
        invariant DigitsEnd(source, Position(), rule) == DigitsEnd(source, old(Position()), rule)
        decreases |source| - current
      {
        Advance();
      }
    }

    /** while (is_alphanum() && has_next()) advance(). */
    method ReadAlnums(rule: LoopRule)
      requires current <= |source|
      modifies this`current, this`column
      ensures Position() == AlnumsEnd(source, old(Position()), rule)
    {
      while IsAlnum(At(source, current)) && More(source, current, rule)
        invariant current <= |source|
        invariant AlnumsEnd(source, Position(), rule) == AlnumsEnd(source, old(Position()), rule)
        decreases |source| - current
      {
        Advance();
      }
    }

    /** The loop over a string's body. */
    method ReadQuoted(rule: LoopRule)
      requires current <= |source|
      modifies this`current, this`line, this`column
      ensures Position() == QuoteEnd(source, old(Position()), rule)
    {
      while At(source, current) != '"' && More(source, current, rule)
        invariant current <= |source|
        invariant QuoteEnd(source, Position(), rule) == QuoteEnd(source, old(Position()), rule)
        decreases |source| - current
      {
        if At(source, current) == '\n' {
          line, column := line + 1, 1;
        }
        Advance();
      }
    }

    /** The loop over a source block's body; returns the open count. */
    method ReadBraced(rule: LoopRule) returns (depth: nat)
      requires current <= |source|
      modifies this`current, this`line, this`column
      ensures (Position(), depth) == BraceEnd(source, old(Position()), 0, rule)
    {
      depth := 0;
      while (At(source, current) != '}' || depth > 0) && More(source, current, rule)
        invariant current <= |source|
        invariant BraceEnd(source, Position(), depth, rule) == BraceEnd(source, old(Position()), 0, rule)
        decreases |source| - current
      {
        if At(source, current) == '{' {
          depth := depth + 1;
        }
        if At(source, current) == '}' && depth > 0 {
          depth := depth - 1;
        }
        if At(source, current) == '\n' {
          line, column := line + 1, 1;
        }
        Advance();
      }
    }

    /** get_next(reading); false when the text is read past its end. */
    method GetNext(reading: bool, rule: LoopRule) returns (t: Token, defined: bool)
      requires current <= |source|
      modifies this`current, this`line, this`column
      ensures defined <==> NextToken(source, old(Position()), reading, rule).Some?
      ensures defined ==> (t, Position()) == NextToken(source, old(Position()), reading, rule).value
      ensures current <= |source| || !defined
    {
      defined := IgnoreIrrelevant();
      if !defined {
        return Token(Invalid, line, column, []), false;
      }
      t := ReadToken(reading, rule);
    }

    /** The branches of get_next after the skipping. */
    method ReadToken(reading: bool, rule: LoopRule) returns (t: Token)
      requires current <= |source|
      modifies this`current, this`line, this`column
      ensures (t, Position()) == Read(source, old(Position()), reading, rule)
    {
      var start := current;
      if reading {
        t := ReadSourceBlock(rule);
        return;
      }
      if IsDigit(At(source, current)) {
        ReadDigits(rule);
        var dot := Consume('.');
        if dot {
          ReadDigits(rule);
        }
        return Token(Number, line, column, source[start..current]);
      }
      if IsAlpha(At(source, current)) {
        Advance();
        ReadAlnums(rule);
        return Token(Naming, line, column, source[start..current]);
      }
      var quote := Consume('"');
      if quote {
        ReadQuoted(rule);
        var closed := Consume('"');
        if closed {
          return Token(String, line, column, source[start + 1..current - 1]);
        }
        return Token(Invalid, line, column, source[start + 1..current]);
      }
      t := ReadPunctuation(rule);
    }

    /** ':' '::' '[' ']' ',' '{' '}', the end, or an invalid token. */
    method ReadPunctuation(rule: LoopRule) returns (t: Token)
      requires current <= |source|
      requires !IsDigit(At(source, current)) && !IsAlpha(At(source, current)) && At(source, current) != '"'
      modifies this`current, this`line, this`column
      ensures (t, Position()) == Read(source, old(Position()), false, rule)
    {
      var colon := Consume(':');
      if colon {
        var twice := Consume(':');
        if twice {
          return Token(ReadSource, line, column, "::");
        }
        return Token(Assign, line, column, ":");
      }
      var ok := Consume('[');
      if ok {
        return Token(ListOpen, line, column, "[");
      }
      ok := Consume(']');
      if ok {
        return Token(ListClose, line, column, "]");
      }
      ok := Consume(',');
      if ok {
        return Token(Comma, line, column, ",");
      }
      ok := Consume('{');
      if ok {
        return Token(BlockOpen, line, column, "{");
      }
      ok := Consume('}');
      if ok {
        return Token(BlockClose, line, column, "}");
      }
      if !HasNext(source, current) {
        return Token(EndOfFile, line, column, "EOF");
      }
      return Token(Invalid, line, column, []);
    }

    /** The source branch of get_next. */
    method ReadSourceBlock(rule: LoopRule) returns (t: Token)
      requires current <= |source|
      modifies this`current, this`line, this`column
      ensures (t, Position()) == ReadBlockSource(source, old(Position()), rule)
    {
      var open := Consume('{');
      if !open {
        return Token(Invalid, line, column, []);
      }
      var start := current;
      var depth := ReadBraced(rule);
      var closed := Consume('}');
      if closed {
        return Token(Source, line, column, source[start..current - 1]);
      }
      return Token(Invalid, line, column, source[start..current]);
    }
  }

  /** TokenReader: the tokens of a text and a position among them. */
  class TokenReader {
    /** m_tokens. */
    var tokens: seq<Token>
    /** m_current. */
    var current: nat
    /** How the constructor's loop ended. */
    var lexing: Lexing

    /** A position on a token of a list that ends with the end token. */
    predicate Valid()
      reads this
    {
      Ends(tokens) && current < |tokens|
    }

    /** get_current(). */
    function GetCurrent(): (t: Token)
      reads this
      requires Valid()
      ensures t == tokens[current]
    {
      tokens[current]
    }

    /** get_past(): the token before the current one, or the current one at
        the start. */
    function GetPast(): (t: Token)
      reads this
      requires Valid()
      ensures t == tokens[if current == 0 then 0 else current - 1]
    {
      if current == 0 then GetCurrent() else tokens[current - 1]
    }

    /** has_next(): a token follows the current one, so the current one is not
        the end. */
    function HasNext(): (r: bool)
      reads this
      requires Valid()
      ensures r <==> current < |tokens| - 1
      ensures !r ==> tokens[current].kind == EndOfFile
    {
      current + 1 < |tokens|
    }

    /** has_past(). */
    function HasPast(): (r: bool)
      reads this
      ensures r <==> current != 0
    {
      current > 0
    }

    /** check(kind). */
    function Check(kind: TokenType): (r: bool)
      reads this
      requires Valid()
      ensures r <==> GetCurrent().kind == kind
    {
      tokens[current].kind == kind
    }

    /** match(kind): the token after the current one has the kind. */
    function Match(kind: TokenType): (r: bool)
      reads this
      requires Valid()
      ensures r ==> HasNext()
      ensures r <==> current + 1 < |tokens| && tokens[current + 1].kind == kind
    {
      HasNext() && tokens[current + 1].kind == kind
    }

    /** advance(), which the parser makes only from a token that is not the
        last. */
    method Advance()
      requires Valid() && current + 1 < |tokens|
      modifies this`current
      ensures Valid() && current == old(current) + 1
    {
      current := current + 1;
    }

    /** consume(kind): step over the current token when it has the kind,
        which is never the end. */
    method Consume(kind: TokenType) returns (ok: bool)
      requires Valid() && kind != EndOfFile
      modifies this`current
      ensures Valid()
      ensures ok <==> old(tokens[current].kind) == kind
      ensures current == if ok then old(current) + 1 else old(current)
    {
      ok := Check(kind);
      if ok {
        Advance();
      }
    }

    /** TokenReader(source): read tokens until the end or an error. */
    constructor (src: CString, rule: LoopRule)
      ensures current == 0 && lexing == Lex(src, rule)
      ensures tokens == if lexing.Lexed? then lexing.tokens else []
    {
      var r := ReadAll(src, rule);
      current, lexing := 0, r;
      tokens := if r.Lexed? then r.tokens else [];
    }
  }

  /** The constructor's loop over get_next. Where the loop would go on
      forever, or the reader has read past the end of the text, it stops
      and says so. */
  method ReadAll(src: CString, rule: LoopRule) returns (r: Lexing)
    ensures r == Lex(src, rule)
  {
    var reader := new SourceReader(src);
    var reading := false;
    var acc: seq<Token> := [];
    while true
      invariant reader.current <= |src| && reader.source == src
      invariant Tokenize(src, reader.Position(), reading, acc, rule) == Lex(src, rule)
      decreases |src| - reader.current
    {
      var t, defined := reader.GetNext(reading, rule);
      reading := false;
      if !defined {
        return Undefined;
      }
      if t.kind == ReadSource {
        reading := true;
        continue;
      }
      if t.kind == EndOfFile {
        return Lexed(acc + [t]);
      }
      if t.kind == Invalid {
        return Lexed([t]);
      }
      if t.kind == Number && t.value == [] {
        return Hangs;
      }
      acc := acc + [t];
    }
  }
}

// Where the one-character-early stop of the token loops shows.
module ConfigLexerCases {
  import opened Common
  import opened ConfigLexer

  /** The naming "a" at the head of "a:1" and "a:1" up to its digit. */
  lemma HeadOfSample(rule: LoopRule)
    ensures Read("a:1", Cursor(0, 1, 1), false, rule) == (Token(Naming, 1, 2, "a"), Cursor(1, 1, 2))
    ensures Read("a:1", Cursor(1, 1, 2), false, rule) == (Token(Assign, 1, 3, ":"), Cursor(2, 1, 3))
    ensures Skip("a:1", Cursor(0, 1, 1)) == Some(Cursor(0, 1, 1))
    ensures Skip("a:1", Cursor(1, 1, 2)) == Some(Cursor(1, 1, 2))
    ensures Skip("a:1", Cursor(2, 1, 3)) == Some(Cursor(2, 1, 3))
  {
    var src: CString := "a:1";
    assert AlnumsEnd(src, Cursor(1, 1, 2), rule) == Cursor(1, 1, 2);
    assert src[0..1] == "a";
  }

  /** A number that ends the text: the digit loop stops on the digit
      without taking it, every later read is the same empty number, and the
      reader never finishes. */
  lemma TrailingDigitHangs()
    ensures Lex("a:1", AsWritten) == Hangs
  {
    var src: CString := "a:1";
    HeadOfSample(AsWritten);
    assert DigitsEnd(src, Cursor(2, 1, 3), AsWritten) == Cursor(2, 1, 3);
    assert Read(src, Cursor(2, 1, 3), false, AsWritten).0.value == [];
  }

  /** Loops that run to the end of the text read the same number whole. */
  lemma TrailingDigitRead()
    ensures Lex("a:1", ToEnd) == Lexed([Token(Naming, 1, 2, "a"), Token(Assign, 1, 3, ":"), Token(Number, 1, 4, "1"), Token(EndOfFile, 1, 4, "EOF")])
  {
    var src: CString := "a:1";
    HeadOfSample(ToEnd);
    TailOfSample();
    var a := Token(Naming, 1, 2, "a");
    var b := Token(Assign, 1, 3, ":");
    var n := Token(Number, 1, 4, "1");
    assert Tokenize(src, Cursor(3, 1, 4), false, [a, b, n], ToEnd) == Lexed([a, b, n, Token(EndOfFile, 1, 4, "EOF")]);
    assert Tokenize(src, Cursor(2, 1, 3), false, [a, b], ToEnd) == Tokenize(src, Cursor(3, 1, 4), false, [a, b, n], ToEnd);
  }

  /** The digit and the end of "a:1" when the loops run to the end. */
  lemma TailOfSample()
    ensures Read("a:1", Cursor(2, 1, 3), false, ToEnd) == (Token(Number, 1, 4, "1"), Cursor(3, 1, 4))
    ensures Skip("a:1", Cursor(3, 1, 4)) == Some(Cursor(3, 1, 4))
    ensures Read("a:1", Cursor(3, 1, 4), false, ToEnd) == (Token(EndOfFile, 1, 4, "EOF"), Cursor(3, 1, 4))
  {
    var src: CString := "a:1";
    assert DigitsEnd(src, Cursor(3, 1, 4), ToEnd) == Cursor(3, 1, 4);
    assert DigitsEnd(src, Cursor(2, 1, 3), ToEnd) == Cursor(3, 1, 4);
    assert src[2..3] == "1";
  }

  /** A naming whose second character ends the text is cut after its first:
      the loop stops on the last character, which the next read takes as a
      naming of its own. */
  lemma TrailingNamingSplits(src: CString, c: Cursor)
    requires c.at + 2 == |src| && IsAlpha(src[c.at]) && IsAlpha(src[c.at + 1])
    ensures var first := Read(src, c, false, AsWritten);
      && first == (Token(Naming, c.line, c.column + 1, [src[c.at]]), Forward(c))
      && Read(src, first.1, false, AsWritten).0 == Token(Naming, c.line, c.column + 2, [src[c.at + 1]])
  {
    assert src[c.at..c.at + 1] == [src[c.at]];
    assert src[c.at + 1..c.at + 2] == [src[c.at + 1]];
  }

  /** Loops that run to the end of the text read the naming whole. */
  lemma TrailingNamingWhole(src: CString, c: Cursor)
    requires c.at + 2 == |src| && IsAlpha(src[c.at]) && IsAlpha(src[c.at + 1])
    ensures Read(src, c, false, ToEnd) == (Token(Naming, c.line, c.column + 2, src[c.at..]), Cursor(|src|, c.line, c.column + 2))
  {
    assert AlnumsEnd(src, Forward(Forward(c)), ToEnd) == Forward(Forward(c));
    assert AlnumsEnd(src, Forward(c), ToEnd) == Forward(Forward(c));
    assert src[c.at..|src|] == src[c.at..];
    assert Read(src, c, false, ToEnd) == ReadNaming(src, c, ToEnd);
  }

  /** A source block "{{}" that ends the text: the loop stops on the last '}'
      with one block still open, and the reader takes that '}' as the end of
      the source, whose content "{" does not balance. */
  lemma TrailingSourceUnbalanced(src: CString, c: Cursor)
    requires c.at + 3 == |src| && src[c.at..] == "{{}"
    ensures var r := Read(src, c, true, AsWritten);
      r.0.kind == Source && r.0.value == "{" && !Balanced(r.0.value)
  {
    assert src[c.at] == '{' && src[c.at + 1] == '{' && src[c.at + 2] == '}';
    var open := Forward(c);
    assert BraceEnd(src, Forward(open), 1, AsWritten) == (Forward(open), 1);
    assert src[c.at + 1..c.at + 2] == "{";
    assert DepthAfter(0, "{") == 1;
  }

  /** Loops that run to the end of the text find the block unclosed. */
  lemma TrailingSourceRejected(src: CString, c: Cursor)
    requires c.at + 3 == |src| && src[c.at..] == "{{}"
    ensures Read(src, c, true, ToEnd).0.kind == Invalid
  {
    assert src[c.at] == '{' && src[c.at + 1] == '{' && src[c.at + 2] == '}';
    var open := Forward(c);
    var end := Forward(Forward(open));
    assert BraceEnd(src, end, 0, ToEnd) == (end, 0);
    assert BraceEnd(src, Forward(open), 1, ToEnd) == (end, 0);
    assert BraceEnd(src, open, 0, ToEnd) == (end, 0);
  }
}
