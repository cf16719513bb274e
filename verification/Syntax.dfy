/** Tokens and the expression tree (internal/expression/expr_lexer.go, expr_ast.go). */
module Syntax {
  import opened Text

  datatype Kind =
    | End | Ident | String | Int | Float
    | LeftParen | RightParen | LeftBracket | RightBracket
    | Dot | Bang | Less | LessEq | Greater | GreaterEq | EqEq | NotEq
    | AndAnd | OrOr | Star | Comma

  /** A token remembers its source text and where that text starts. */
  datatype Token = Token(kind: Kind, value: string, offset: nat) {
    function EndOffset(): nat { offset + |value| }
  }

  /** A half-open range of the source. */
  datatype Span = Span(start: nat, end: nat)

  const NO_SPAN := Span(0, 0)

  datatype CompareOp = Lt | Le | Gt | Ge | Eq | Ne

  datatype LogicOp = And | Or

  /** Every node carries its span. Names keep their source spelling. */
  datatype Expr =
    | NullLit(span: Span)
    | BoolLit(span: Span, value: bool)
    | IntLit(span: Span, text: string)
    | FloatLit(span: Span, text: string)
    | StrLit(span: Span, str: string)
    | Variable(span: Span, spelling: string)
    | Property(span: Span, receiver: Expr, spelling: string)
    | Filter(span: Span, receiver: Expr)
    | Index(span: Span, operand: Expr, index: Expr)
    | Not(span: Span, operand: Expr)
    | Compare(span: Span, op: CompareOp, left: Expr, right: Expr)
    | Logic(span: Span, kind: LogicOp, left: Expr, right: Expr)
    | Call(span: Span, callee: string, args: seq<Expr>)
  {
    /** Lookup name of a variable or property; names are case insensitive. */
    function Name(): string
      requires Variable? || Property?
    {
      Lower(spelling)
    }
  }

  /** Direct subexpressions, in source order. */
  function Children(e: Expr): (cs: seq<Expr>)
    ensures forall c | c in cs :: c < e
  {
    match e
    case Property(_, r, _) => [r]
    case Filter(_, r) => [r]
    case Index(_, o, i) => [o, i]
    case Not(_, o) => [o]
    case Compare(_, _, l, r) => [l, r]
    case Logic(_, _, l, r) => [l, r]
    case Call(_, _, args) => args
    case _ => []
  }

  /** Direct subexpressions in the order a visitor meets them: an index before the value it selects from. */
  function VisitOrder(e: Expr): (cs: seq<Expr>)
    ensures forall c | c in cs :: c < e
    ensures forall c :: c in cs <==> c in Children(e)
  {
    match e
    case Index(_, o, i) => [i, o]
    case _ => Children(e)
  }

  /** The subexpression reached by a path of child indices. */
  function Sub(e: Expr, path: seq<nat>): Option<Expr>
    decreases |path|
  {
    if path == [] then Some(e)
    else if path[0] < |Children(e)| then Sub(Children(e)[path[0]], path[1..])
    else None
  }

  predicate IsNameChar(c: char) {
    IsAlnum(c) || c == '_' || c == '-'
  }

  /** Every name is spelled as a name is. */
  predicate PlainNames(e: Expr)
    decreases e
  {
    && (e.Variable? || e.Property? ==> forall c | c in e.spelling :: IsNameChar(c))
    && (e.Call? ==> forall c | c in e.callee :: IsNameChar(c))
    && forall c | c in Children(e) :: PlainNames(c)
  }

  /** The tree with every span forgotten. */
  function Strip(e: Expr): Expr {
    match e
    case NullLit(_) => NullLit(NO_SPAN)
    case BoolLit(_, b) => BoolLit(NO_SPAN, b)
    case IntLit(_, t) => IntLit(NO_SPAN, t)
    case FloatLit(_, t) => FloatLit(NO_SPAN, t)
    case StrLit(_, s) => StrLit(NO_SPAN, s)
    case Variable(_, n) => Variable(NO_SPAN, n)
    case Property(_, r, n) => Property(NO_SPAN, Strip(r), n)
    case Filter(_, r) => Filter(NO_SPAN, Strip(r))
    case Index(_, o, i) => Index(NO_SPAN, Strip(o), Strip(i))
    case Not(_, o) => Not(NO_SPAN, Strip(o))
    case Compare(_, op, l, r) => Compare(NO_SPAN, op, Strip(l), Strip(r))
    case Logic(_, k, l, r) => Logic(NO_SPAN, k, Strip(l), Strip(r))
    case Call(_, c, args) => Call(NO_SPAN, c, seq(|args|, i requires 0 <= i < |args| => Strip(args[i])))
  }
}
