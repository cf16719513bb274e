/** The recursive descent parser (internal/expression/expr_parser.go). */
module Parsing {
  import opened Text
  import opened Syntax
  import opened Lexing
  import opened Numbers
  import opened Depth

  // ----- the grammar as a function of the token list -----

  /** The node parsed, if any, and the index of the token then current. */
  datatype Parsed = Parsed(node: Option<Expr>, at: nat)

  predicate Ready(ts: seq<Token>, i: nat) {
    Closed(ts) && i < |ts|
  }

  /** From the first token of a node to the last one eaten. */
  function SpanOf(ts: seq<Token>, i: nat, j: nat): Span
    requires i < j <= |ts|
  {
    Span(ts[i].offset, ts[j - 1].EndOffset())
  }

  function CompareOpOf(k: Kind): Option<CompareOp> {
    match k
    case Less => Some(Lt)
    case LessEq => Some(Le)
    case Greater => Some(Gt)
    case GreaterEq => Some(Ge)
    case EqEq => Some(Eq)
    case NotEq => Some(Ne)
    case _ => None
  }

  /** A string token's text without its quotes, every doubled quote made single. */
  function Unescape(s: string): string {
    if s == "" then ""
    else if |s| >= 2 && s[0] == '\'' && s[1] == '\'' then "'" + Unescape(s[2..])
    else [s[0]] + Unescape(s[1..])
  }

  /** The lexer makes string tokens of two quotes at least. */
  function StringValue(value: string): string {
    if |value| < 2 then "" else Unescape(value[1..|value| - 1])
  }

  function WordNode(span: Span, word: string): Expr {
    if word == "null" then NullLit(span)
    else if word == "true" then BoolLit(span, true)
    else if word == "false" then BoolLit(span, false)
    else Variable(span, word)
  }

  function ParseOr(ts: seq<Token>, i: nat): (r: Parsed)
    requires Ready(ts, i)
    ensures i <= r.at < |ts| && (r.node.Some? ==> i < r.at)
    decreases |ts| - i, 6
  {
    var l := ParseAnd(ts, i);
    if l.node.None? || ts[l.at].kind != OrOr then l
    else
      var r := ParseOr(ts, l.at + 1);
      if r.node.None? then r
      else Parsed(Some(Logic(SpanOf(ts, i, r.at), Or, l.node.value, r.node.value)), r.at)
  }

  function ParseAnd(ts: seq<Token>, i: nat): (r: Parsed)
    requires Ready(ts, i)
    ensures i <= r.at < |ts| && (r.node.Some? ==> i < r.at)
    decreases |ts| - i, 5
  {
    var l := ParseCompare(ts, i);
    if l.node.None? || ts[l.at].kind != AndAnd then l
    else
      var r := ParseAnd(ts, l.at + 1);
      if r.node.None? then r
      else Parsed(Some(Logic(SpanOf(ts, i, r.at), And, l.node.value, r.node.value)), r.at)
  }

  function ParseCompare(ts: seq<Token>, i: nat): (r: Parsed)
    requires Ready(ts, i)
    ensures i <= r.at < |ts| && (r.node.Some? ==> i < r.at)
    decreases |ts| - i, 4
  {
    var l := ParsePrefix(ts, i);
    if l.node.None? || CompareOpOf(ts[l.at].kind).None? then l
    else
      var r := ParseCompare(ts, l.at + 1);
      if r.node.None? then r
      else Parsed(Some(Compare(SpanOf(ts, i, r.at), CompareOpOf(ts[l.at].kind).value, l.node.value, r.node.value)), r.at)
  }

  function ParsePrefix(ts: seq<Token>, i: nat): (r: Parsed)
    requires Ready(ts, i)
    ensures i <= r.at < |ts| && (r.node.Some? ==> i < r.at)
    decreases |ts| - i, 3
  {
    if ts[i].kind != Bang then ParsePostfix(ts, i)
    else
      var o := ParsePrefix(ts, i + 1);
      if o.node.None? then o else Parsed(Some(Not(SpanOf(ts, i, o.at), o.node.value)), o.at)
  }

  function ParsePostfix(ts: seq<Token>, i: nat): (r: Parsed)
    requires Ready(ts, i)
    ensures i <= r.at < |ts| && (r.node.Some? ==> i < r.at)
    decreases |ts| - i, 2
  {
    var p := ParsePrimary(ts, i);
    if p.node.None? then p else PostfixLoop(ts, i, p.node.value, p.at)
  }

  /** Applies the dereferences from token j on to a receiver that started at token i. */
  function PostfixLoop(ts: seq<Token>, i: nat, receiver: Expr, j: nat): (r: Parsed)
    requires Ready(ts, j) && i < j
    ensures j <= r.at < |ts|
    decreases |ts| - j, 2
  {
    if ts[j].kind != Dot && ts[j].kind != LeftBracket then Parsed(Some(receiver), j)
    else
      var d := Dereference(ts, i, receiver, j);
      if d.node.None? then d else PostfixLoop(ts, i, d.node.value, d.at)
  }

  function Dereference(ts: seq<Token>, i: nat, receiver: Expr, j: nat): (r: Parsed)
    requires Ready(ts, j) && i < j && (ts[j].kind == Dot || ts[j].kind == LeftBracket)
    ensures j < r.at < |ts|
    decreases |ts| - j, 1
  {
    if ts[j].kind == Dot then Member(ts, i, receiver, j) else Subscript(ts, i, receiver, j)
  }

  function Member(ts: seq<Token>, i: nat, receiver: Expr, j: nat): (r: Parsed)
    requires Ready(ts, j) && i < j && ts[j].kind == Dot
    ensures j < r.at < |ts|
  {
    match ts[j + 1].kind
    case Star => Parsed(Some(Filter(SpanOf(ts, i, j + 2), receiver)), j + 2)
    case Ident => Parsed(Some(Property(SpanOf(ts, i, j + 2), receiver, ts[j + 1].value)), j + 2)
    case _ => Parsed(None, j + 1)
  }

  lemma MemberCases(ts: seq<Token>, i: nat, receiver: Expr, j: nat)
    requires Ready(ts, j) && i < j && ts[j].kind == Dot
    ensures ts[j + 1].kind == Star ==> Member(ts, i, receiver, j) == Parsed(Some(Filter(SpanOf(ts, i, j + 2), receiver)), j + 2)
    ensures ts[j + 1].kind == Ident ==>
      Member(ts, i, receiver, j) == Parsed(Some(Property(SpanOf(ts, i, j + 2), receiver, ts[j + 1].value)), j + 2)
    ensures ts[j + 1].kind != Star && ts[j + 1].kind != Ident ==> Member(ts, i, receiver, j) == Parsed(None, j + 1)
  {
  }

  function Subscript(ts: seq<Token>, i: nat, receiver: Expr, j: nat): (r: Parsed)
    requires Ready(ts, j) && i < j && ts[j].kind == LeftBracket
    ensures j < r.at < |ts|
    decreases |ts| - j, 0
  {
    var x := ParseOr(ts, j + 1);
    if x.node.None? then x
    else if ts[x.at].kind != RightBracket then Parsed(None, x.at)
    else Parsed(Some(Index(SpanOf(ts, i, x.at + 1), receiver, x.node.value)), x.at + 1)
  }

  function ParsePrimary(ts: seq<Token>, i: nat): (r: Parsed)
    requires Ready(ts, i)
    ensures i <= r.at < |ts| && (r.node.Some? ==> i < r.at)
    decreases |ts| - i, 1
  {
    var t := ts[i];
    match t.kind
    case Ident => ParseIdent(ts, i)
    case LeftParen =>
      var n := ParseOr(ts, i + 1);
      if n.node.None? then n
      else if ts[n.at].kind != RightParen then Parsed(None, n.at)
      else Parsed(Some(n.node.value.(span := SpanOf(ts, i, n.at + 1))), n.at + 1)
    case Int =>
      if ParseInt32(t.value).None? then Parsed(None, i)
      else Parsed(Some(IntLit(SpanOf(ts, i, i + 1), t.value)), i + 1)
    case Float =>
      if ParseFloat64(t.value).None? then Parsed(None, i)
      else Parsed(Some(FloatLit(SpanOf(ts, i, i + 1), t.value)), i + 1)
    case String =>
      Parsed(Some(StrLit(SpanOf(ts, i, i + 1), StringValue(t.value))), i + 1)
    case _ => Parsed(None, i)
  }

  function ParseIdent(ts: seq<Token>, i: nat): (r: Parsed)
    requires Ready(ts, i) && ts[i].kind == Ident
    ensures i < r.at < |ts|
    decreases |ts| - i, 0
  {
    if ts[i + 1].kind != LeftParen then Parsed(Some(WordNode(SpanOf(ts, i, i + 1), ts[i].value)), i + 1)
    else if ts[i + 2].kind == RightParen then
      Parsed(Some(Call(SpanOf(ts, i, i + 3), ts[i].value, [])), i + 3)
    else
      var a := ParseArgs(ts, i + 2, []);
      if a.args.None? then Parsed(None, a.at)
      else Parsed(Some(Call(SpanOf(ts, i, a.at), ts[i].value, a.args.value)), a.at)
  }

  datatype ParsedArgs = ParsedArgs(args: Option<seq<Expr>>, at: nat)

  /** Arguments from token i on, after those already parsed, through the closing parenthesis. */
  function ParseArgs(ts: seq<Token>, i: nat, before: seq<Expr>): (r: ParsedArgs)
    requires Ready(ts, i)
    ensures i <= r.at < |ts| && (r.args.Some? ==> i < r.at)
    decreases |ts| - i, 7
  {
    var a := ParseOr(ts, i);
    if a.node.None? then ParsedArgs(None, a.at)
    else
      var args := before + [a.node.value];
      if ts[a.at].kind == Comma then ParseArgs(ts, a.at + 1, args)
      else if ts[a.at].kind == RightParen then ParsedArgs(Some(args), a.at + 1)
      else ParsedArgs(None, a.at)
  }

  /** One argument, and what follows it. */
  lemma ArgsCases(ts: seq<Token>, i: nat, before: seq<Expr>)
    requires Ready(ts, i)
    ensures ParseArgs(ts, i, before) ==
      var a := ParseOr(ts, i);
      if a.node.None? then ParsedArgs(None, a.at)
      else if ts[a.at].kind == Comma then ParseArgs(ts, a.at + 1, before + [a.node.value])
      else if ts[a.at].kind == RightParen then ParsedArgs(Some(before + [a.node.value]), a.at + 1)
      else ParsedArgs(None, a.at)
  {
    hide ParseOr;
  }

  // ----- parsing a whole source -----

  datatype ParseError =
    | LexFailed(error: LexError)
    | SyntaxError(offset: nat, end: nat)
    | TrailingTokens(offset: nat, end: nat)
    | TooDeep(node: Expr)

  /** On success, the tree and the position after the end marker. */
  datatype ParseResult = Tree(node: Expr, offset: nat) | ParseFailure(error: ParseError)

  function ParseSource(src: string): ParseResult {
    var ls := Scan(src, 0, 0);
    var ts := Tokens(ls);
    assert Closed(ts) by { ScanSteps(src, 0, 0); }
    var r := ParseOr(ts, 0);
    var t := ts[r.at];
    if FirstError(ls, r.at + 1).Some? then ParseFailure(LexFailed(FirstError(ls, r.at + 1).value))
    else if r.node.None? then ParseFailure(SyntaxError(t.offset, t.EndOffset()))
    else if t.kind != End then ParseFailure(TrailingTokens(t.offset, t.EndOffset()))
    else
      var deep := Exceeding(r.node.value, 1);
      if deep.Some? then ParseFailure(TooDeep(deep.value))
      else Tree(r.node.value, ls[r.at].pos)
  }

  // ----- the parser object -----

  class Parser {
    var cur: Token
    var last: Token
    var err: Option<ParseError>
    var lexer: Lexer
    /** All tokens of the lexer's source, and how many of them have been eaten. */
    ghost var ts: seq<Token>
    ghost var idx: nat

    constructor (lexer: Lexer)
      ensures this.lexer == lexer && err == None
    {
      cur, last := Token(End, "", 0), Token(End, "", 0);
      err := None;
      this.lexer := lexer;
      ts, idx := [], 0;
    }

    /** The lexer has just produced the current token. */
    ghost predicate Backed()
      reads `ts, `idx, `lexer, lexer
    {
      var ls := Scan(lexer.src, 0, 0);
      && ts == Tokens(ls) && idx < |ls|
      && lexer.Valid() && lexer.start == ls[idx].start && lexer.pos == ls[idx].pos
      && lexer.lexErr == FirstError(ls, idx + 1)
    }

    ghost predicate Valid()
      reads this, lexer
    {
      && Ready(ts, idx)
      && cur == ts[idx]
      && (idx > 0 ==> last == ts[idx - 1])
      && Backed()
    }

    /** The parser may still consume tokens: no error has been reported. */
    ghost predicate Running()
      reads this, lexer
    {
      Valid() && err == None
    }

    /** The state after parsing: the node and the tokens eaten are those of the grammar. */
    ghost predicate Done(r: Parsed, node: Option<Expr>)
      reads this, lexer
    {
      && Valid()
      && node == r.node && idx == r.at
      && err == if node.Some? then None else Some(SyntaxError(cur.offset, cur.EndOffset()))
    }

    method Error(e: ParseError)
      modifies this`err
      ensures err == if old(err).Some? then old(err) else Some(e)
    {
      if err.None? { err := Some(e); }
    }

    method UnexpectedToken()
      requires Running()
      modifies this`err
      ensures err == Some(SyntaxError(cur.offset, cur.EndOffset()))
    {
      Error(SyntaxError(cur.offset, cur.EndOffset()));
    }

    method Next() returns (t: Token)
      requires Running() && cur.kind != End
      modifies this, lexer
      ensures Running() && lexer == old(lexer) && ts == old(ts)
      ensures idx == old(idx) + 1 && t == old(cur) == last
    {
      ScanSteps(lexer.src, 0, 0);
      t := cur;
      last := t;
      cur := lexer.Next();
      idx := idx + 1;
      assert lexer.lexErr == FirstError(Scan(lexer.src, 0, 0), idx + 1);
    }

    /** Gives the node the span from `start` to the token eaten last. */
    method Node(n: Expr, start: Token) returns (r: Option<Expr>)
      ensures r == Some(n.(span := Span(start.offset, last.EndOffset())))
    {
      r := Some(n.(span := Span(start.offset, last.EndOffset())));
    }

    method ParseIdentExpr() returns (node: Option<Expr>)
      requires Running() && cur.kind == Ident
      modifies this, lexer
      ensures lexer == old(lexer) && ts == old(ts) && Done(ParseIdent(ts, old(idx)), node)
      decreases |ts| - idx, 0
    {
      hide Backed, ParseOr, ParseArgs;
      var ident := Next();
      if cur.kind != LeftParen {
        node := Node(WordNode(NO_SPAN, ident.value), ident);
        return;
      }
      var _ := Next();
      var args: seq<Expr> := [];
      if cur.kind == RightParen {
        var _ := Next();
      } else {
        var parsed := ParseArguments();
        if parsed.None? { return None; }
        args := parsed.value;
      }
      node := Node(Call(NO_SPAN, ident.value, args), ident);
    }

    /** The argument loop, through the closing parenthesis. */
    method ParseArguments() returns (args: Option<seq<Expr>>)
      requires Running()
      modifies this, lexer
      ensures lexer == old(lexer) && ts == old(ts) && Valid()
      ensures ParsedArgs(args, idx) == ParseArgs(ts, old(idx), []) && (args.Some? ==> old(idx) < idx)
      ensures err == if args.Some? then None else Some(SyntaxError(cur.offset, cur.EndOffset()))
      decreases |ts| - idx, 8
    {
      hide Backed, ParseOr, ParseArgs, Lex, Scan, Closed, Tokens, FirstError;
      var before: seq<Expr> := [];
      while true
        invariant Running() && lexer == old(lexer) && ts == old(ts) && old(idx) <= idx
        invariant ParseArgs(ts, old(idx), []) == ParseArgs(ts, idx, before)
        decreases |ts| - idx
      {
        ArgsCases(ts, idx, before);
        var arg := ParseLogicalOr();
        if arg.None? { return None; }
        before := before + [arg.value];
        if cur.kind == Comma {
          var _ := Next();
        } else if cur.kind == RightParen {
          var _ := Next();
          return Some(before);
        } else {
          UnexpectedToken();
          return None;
        }
      }
    }

    method ParseNestedExpr() returns (node: Option<Expr>)
      requires Running() && cur.kind == LeftParen
      modifies this, lexer
      ensures lexer == old(lexer) && ts == old(ts) && Done(ParsePrimary(ts, old(idx)), node)
      decreases |ts| - idx, 0
    {
      hide Backed, ParseOr, ParseIdent;
      var start := Next();
      node := ParseLogicalOr();
      if node.None? { return; }
      if cur.kind == RightParen {
        var _ := Next();
      } else {
        UnexpectedToken();
        return None;
      }
      node := Node(node.value, start);
    }

    method ParseInt() returns (node: Option<Expr>)
      requires Running() && cur.kind == Int
      modifies this, lexer
      ensures lexer == old(lexer) && ts == old(ts) && Done(ParsePrimary(ts, old(idx)), node)
    {
      hide Backed, ParseInt32;
      var t := cur;
      if ParseInt32(t.value).None? {
        UnexpectedToken();
        return None;
      }
      var _ := Next();
      node := Node(IntLit(NO_SPAN, t.value), t);
    }

    method ParseFloat() returns (node: Option<Expr>)
      requires Running() && cur.kind == Float
      modifies this, lexer
      ensures lexer == old(lexer) && ts == old(ts) && Done(ParsePrimary(ts, old(idx)), node)
    {
      hide Backed, ParseFloat64;
      var t := cur;
      if ParseFloat64(t.value).None? {
        UnexpectedToken();
        return None;
      }
      var _ := Next();
      node := Node(FloatLit(NO_SPAN, t.value), t);
    }

    method ParseString() returns (node: Option<Expr>)
      requires Running() && cur.kind == String
      modifies this, lexer
      ensures lexer == old(lexer) && ts == old(ts) && Done(ParsePrimary(ts, old(idx)), node)
    {
      hide Backed, StringValue;
      var t := Next();
      node := Node(StrLit(NO_SPAN, StringValue(t.value)), t);
    }

    method ParsePrimaryExpr() returns (node: Option<Expr>)
      requires Running()
      modifies this, lexer
      ensures lexer == old(lexer) && ts == old(ts) && Done(ParsePrimary(ts, old(idx)), node)
      decreases |ts| - idx, 1
    {
      hide Backed, ParseIdent, ParseOr;
      match cur.kind {
        case Ident => node := ParseIdentExpr();
        case LeftParen => node := ParseNestedExpr();
        case Int => node := ParseInt();
        case Float => node := ParseFloat();
        case String => node := ParseString();
        case _ =>
          UnexpectedToken();
          node := None;
      }
    }

    method ParsePostfixOp() returns (node: Option<Expr>)
      requires Running()
      modifies this, lexer
      ensures lexer == old(lexer) && ts == old(ts) && Done(ParsePostfix(ts, old(idx)), node)
      decreases |ts| - idx, 3
    {
      hide Backed, ParsePrimary, Member, Subscript;
      var start := cur;
      node := ParsePrimaryExpr();
      if node.None? { return; }
      while cur.kind == Dot || cur.kind == LeftBracket
        invariant Running() && lexer == old(lexer) && ts == old(ts) && old(idx) < idx && node.Some?
        invariant ParsePostfix(ts, old(idx)) == PostfixLoop(ts, old(idx), node.value, idx)
        decreases |ts| - idx
      {
        if cur.kind == Dot {
          node := ParseMember(node.value, start, old(idx));
        } else {
          node := ParseSubscript(node.value, start, old(idx));
        }
        if node.None? { return; }
      }
    }

    /** One pass of the postfix loop, in its two cases. */
    method ParseMember(ret: Expr, start: Token, ghost i: nat) returns (node: Option<Expr>)
      requires Running() && i < idx && start == ts[i] && cur.kind == Dot
      modifies this, lexer
      ensures lexer == old(lexer) && ts == old(ts) && Done(Member(ts, i, ret, old(idx)), node)
    {
      hide Backed, Lex, Scan, Member, Closed, Tokens, FirstError;
      MemberCases(ts, i, ret, idx);
      var _ := Next();
      if cur.kind == Star {
        var _ := Next();
        node := Node(Filter(NO_SPAN, ret), start);
      } else if cur.kind == Ident {
        var t := Next();
        node := Node(Property(NO_SPAN, ret, t.value), start);
      } else {
        UnexpectedToken();
        node := None;
      }
    }

    method ParseSubscript(ret: Expr, start: Token, ghost i: nat) returns (node: Option<Expr>)
      requires Running() && i < idx && start == ts[i] && cur.kind == LeftBracket
      modifies this, lexer
      ensures lexer == old(lexer) && ts == old(ts) && Done(Subscript(ts, i, ret, old(idx)), node)
      decreases |ts| - idx, 2
    {
      hide Backed, ParseOr;
      var _ := Next();
      var index := ParseLogicalOr();
      if index.None? { return None; }
      if cur.kind != RightBracket {
        UnexpectedToken();
        return None;
      }
      var _ := Next();
      node := Node(Index(NO_SPAN, ret, index.value), start);
    }

    method ParsePrefixOp() returns (node: Option<Expr>)
      requires Running()
      modifies this, lexer
      ensures lexer == old(lexer) && ts == old(ts) && Done(ParsePrefix(ts, old(idx)), node)
      decreases |ts| - idx, 4
    {
      hide Backed, ParsePostfix;
      var t := cur;
      if t.kind != Bang {
        node := ParsePostfixOp();
        return;
      }
      var _ := Next();
      node := ParsePrefixOp();
      if node.None? { return; }
      node := Node(Not(NO_SPAN, node.value), t);
    }

    method ParseCompareBinOp() returns (node: Option<Expr>)
      requires Running()
      modifies this, lexer
      ensures lexer == old(lexer) && ts == old(ts) && Done(ParseCompare(ts, old(idx)), node)
      decreases |ts| - idx, 5
    {
      hide Backed, ParsePrefix, ParsePostfix, ParseAnd;
      var start := cur;
      var l := ParsePrefixOp();
      if l.None? { return None; }
      var k := CompareOpOf(cur.kind);
      if k.None? { return l; }
      var _ := Next();
      var r := ParseCompareBinOp();
      if r.None? { return None; }
      node := Node(Compare(NO_SPAN, k.value, l.value, r.value), start);
    }

    method ParseLogicalAnd() returns (node: Option<Expr>)
      requires Running()
      modifies this, lexer
      ensures lexer == old(lexer) && ts == old(ts) && Done(ParseAnd(ts, old(idx)), node)
      decreases |ts| - idx, 6
    {
      hide Backed, ParseOr, ParseCompare, ParsePrefix;
      var start := cur;
      var l := ParseCompareBinOp();
      if l.None? { return None; }
      if cur.kind != AndAnd { return l; }
      var _ := Next();
      var r := ParseLogicalAnd();
      if r.None? { return None; }
      node := Node(Logic(NO_SPAN, And, l.value, r.value), start);
    }

    method ParseLogicalOr() returns (node: Option<Expr>)
      requires Running()
      modifies this, lexer
      ensures lexer == old(lexer) && ts == old(ts) && Done(ParseOr(ts, old(idx)), node)
      decreases |ts| - idx, 7
    {
      hide Backed, ParseAnd, ParseCompare;
      var start := cur;
      var l := ParseLogicalAnd();
      if l.None? { return None; }
      if cur.kind != OrOr { return l; }
      var _ := Next();
      var r := ParseLogicalOr();
      if r.None? { return None; }
      node := Node(Logic(NO_SPAN, Or, l.value, r.value), start);
    }

    /** Reads the remaining tokens, for the error message only. */
    method Drain()
      requires cur.kind != End && lexer.Valid()
      modifies lexer
    {
      var t := cur;
      while t.kind != End
        invariant lexer.Valid()
        decreases |lexer.src| - lexer.pos, if t.kind != End then 1 else 0
      {
        t := lexer.Next();
      }
    }

    /** Parses the source of a new lexer; a lexer error takes precedence over a parser error. */
    method Parse() returns (r: ParseResult)
      requires lexer.Valid() && lexer.pos == lexer.start == 0 && lexer.lexErr == None
      modifies this, lexer
      ensures lexer == old(lexer) && r == ParseSource(lexer.src)
      ensures r.Tree? ==> lexer.pos == r.offset && err == None && lexer.lexErr == None
    {
      hide ParseOr, Exceeding, FlatDepth;
      ScanSteps(lexer.src, 0, 0);
      err := None;
      ghost var ls := Scan(lexer.src, 0, 0);
      ts, idx := Tokens(ls), 0;
      cur := lexer.Next();
      assert FirstError(ls, 1) == First(FirstError(ls, 0), ls[0].err);
      var root := ParseLogicalOr();
      if lexer.lexErr.Some? {
        return ParseFailure(LexFailed(lexer.lexErr.value));
      }
      if err.Some? {
        return ParseFailure(err.value);
      }
      if cur.kind != End {
        Drain();
        Error(TrailingTokens(cur.offset, cur.EndOffset()));
        return ParseFailure(err.value);
      }
      var deep := ExpressionExceedingDepth(root.value);
      if deep.Some? {
        err := Some(TooDeep(deep.value));
        return ParseFailure(err.value);
      }
      return Tree(root.value, lexer.pos);
    }
  }
}
