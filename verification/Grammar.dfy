/** The documented grammar as concrete syntax trees, and the parser as its exact recogniser. */
module Grammar {
  import opened Text
  import opened Syntax
  import opened Lexing
  import opened Numbers
  import opened Parsing

  /** A derivation: an expression together with all of its parentheses. */
  datatype Cst =
    | WordC(text: string)
    | IntC(text: string)
    | FloatC(text: string)
    | StringC(text: string)
    | ParenC(inner: Cst)
    | CallC(callee: string, args: seq<Cst>)
    | PropertyC(of: Cst, name: string)
    | FilterC(of: Cst)
    | IndexC(of: Cst, index: Cst)
    | NotC(of: Cst)
    | CompareC(op: CompareOp, left: Cst, right: Cst)
    | LogicC(kind: LogicOp, left: Cst, right: Cst)

  /** Binding strength, from || (loosest) to primary expressions. */
  type Level = l: nat | l <= 5

  const OR_LEVEL: Level := 0
  const AND_LEVEL: Level := 1
  const COMPARE_LEVEL: Level := 2
  const PREFIX_LEVEL: Level := 3
  const POSTFIX_LEVEL: Level := 4
  const PRIMARY_LEVEL: Level := 5

  function LevelOf(c: Cst): Level {
    match c
    case LogicC(Or, _, _) => OR_LEVEL
    case LogicC(And, _, _) => AND_LEVEL
    case CompareC(_, _, _) => COMPARE_LEVEL
    case NotC(_) => PREFIX_LEVEL
    case PropertyC(_, _) | FilterC(_) | IndexC(_, _) => POSTFIX_LEVEL
    case _ => PRIMARY_LEVEL
  }

  /** Binary operators associate to the right; literals must be in range. */
  predicate WellFormed(c: Cst, l: Level)
    decreases c
  {
    l <= LevelOf(c) &&
    match c
    case WordC(_) => true
    case StringC(_) => true
    case IntC(t) => ParseInt32(t).Some?
    case FloatC(t) => ParseFloat64(t).Some?
    case ParenC(x) => WellFormed(x, OR_LEVEL)
    case CallC(_, args) => forall a | a in args :: WellFormed(a, OR_LEVEL)
    case PropertyC(x, _) => WellFormed(x, POSTFIX_LEVEL)
    case FilterC(x) => WellFormed(x, POSTFIX_LEVEL)
    case IndexC(x, y) => WellFormed(x, POSTFIX_LEVEL) && WellFormed(y, OR_LEVEL)
    case NotC(x) => WellFormed(x, PREFIX_LEVEL)
    case CompareC(_, x, y) => WellFormed(x, PREFIX_LEVEL) && WellFormed(y, COMPARE_LEVEL)
    case LogicC(And, x, y) => WellFormed(x, COMPARE_LEVEL) && WellFormed(y, AND_LEVEL)
    case LogicC(Or, x, y) => WellFormed(x, AND_LEVEL) && WellFormed(y, OR_LEVEL)
  }

  // ----- the tokens of a derivation -----

  /** Number of tokens. */
  function Width(c: Cst): (n: nat)
    ensures n > 0
    decreases c
  {
    match c
    case ParenC(x) => Width(x) + 2
    case CallC(_, args) => ArgsWidth(args) + 3
    case PropertyC(x, _) => Width(x) + 2
    case FilterC(x) => Width(x) + 2
    case IndexC(x, y) => Width(x) + Width(y) + 2
    case NotC(x) => Width(x) + 1
    case CompareC(_, x, y) => Width(x) + Width(y) + 1
    case LogicC(_, x, y) => Width(x) + Width(y) + 1
    case _ => 1
  }

  /** Arguments and the commas between them. */
  function ArgsWidth(args: seq<Cst>): nat
    decreases args
  {
    if args == [] then 0
    else if |args| == 1 then Width(args[0])
    else Width(args[0]) + 1 + ArgsWidth(args[1..])
  }

  predicate TokenIs(ts: seq<Token>, i: nat, k: Kind) {
    i < |ts| && ts[i].kind == k
  }

  predicate TokenReads(ts: seq<Token>, i: nat, k: Kind, text: string) {
    i < |ts| && ts[i].kind == k && ts[i].value == text
  }

  function CompareKind(op: CompareOp): Kind {
    match op
    case Lt => Less
    case Le => LessEq
    case Gt => Greater
    case Ge => GreaterEq
    case Eq => EqEq
    case Ne => NotEq
  }

  function LogicKind(k: LogicOp): Kind {
    match k
    case And => AndAnd
    case Or => OrOr
  }

  /** The tokens from i on spell the derivation. */
  predicate Spells(c: Cst, ts: seq<Token>, i: nat)
    decreases c
  {
    match c
    case WordC(t) => TokenReads(ts, i, Ident, t)
    case IntC(t) => TokenReads(ts, i, Int, t)
    case FloatC(t) => TokenReads(ts, i, Float, t)
    case StringC(t) => TokenReads(ts, i, String, t)
    case ParenC(x) =>
      TokenIs(ts, i, LeftParen) && Spells(x, ts, i + 1) && TokenIs(ts, i + 1 + Width(x), RightParen)
    case CallC(f, args) =>
      && TokenReads(ts, i, Ident, f) && TokenIs(ts, i + 1, LeftParen)
      && SpellsArgs(args, ts, i + 2) && TokenIs(ts, i + 2 + ArgsWidth(args), RightParen)
    case PropertyC(x, n) =>
      Spells(x, ts, i) && TokenIs(ts, i + Width(x), Dot) && TokenReads(ts, i + Width(x) + 1, Ident, n)
    case FilterC(x) =>
      Spells(x, ts, i) && TokenIs(ts, i + Width(x), Dot) && TokenIs(ts, i + Width(x) + 1, Star)
    case IndexC(x, y) =>
      && Spells(x, ts, i) && TokenIs(ts, i + Width(x), LeftBracket)
      && Spells(y, ts, i + Width(x) + 1) && TokenIs(ts, i + Width(x) + 1 + Width(y), RightBracket)
    case NotC(x) =>
      TokenIs(ts, i, Bang) && Spells(x, ts, i + 1)
    case CompareC(op, x, y) =>
      Spells(x, ts, i) && TokenIs(ts, i + Width(x), CompareKind(op)) && Spells(y, ts, i + Width(x) + 1)
    case LogicC(k, x, y) =>
      Spells(x, ts, i) && TokenIs(ts, i + Width(x), LogicKind(k)) && Spells(y, ts, i + Width(x) + 1)
  }

  predicate SpellsArgs(args: seq<Cst>, ts: seq<Token>, i: nat)
    decreases args
  {
    if args == [] then true
    else if |args| == 1 then Spells(args[0], ts, i)
    else
      && Spells(args[0], ts, i) && TokenIs(ts, i + Width(args[0]), Comma)
      && SpellsArgs(args[1..], ts, i + Width(args[0]) + 1)
  }

  /** A spelled derivation lies within the tokens. */
  lemma {:induction false} SpellsBounds(c: Cst, ts: seq<Token>, i: nat)
    requires Spells(c, ts, i)
    ensures i + Width(c) <= |ts|
    decreases c
  {
    match c
    case NotC(x) => SpellsBounds(x, ts, i + 1);
    case CompareC(_, x, y) => SpellsBounds(y, ts, i + Width(x) + 1);
    case LogicC(_, x, y) => SpellsBounds(y, ts, i + Width(x) + 1);
    case _ =>
  }

  // ----- the tree of a derivation -----

  /** The syntax tree, with the spans of its tokens: parentheses widen the span of what they enclose. */
  function Build(c: Cst, ts: seq<Token>, i: nat): Expr
    requires i + Width(c) <= |ts|
    decreases c
  {
    var s := SpanOf(ts, i, i + Width(c));
    match c
    case WordC(t) => WordNode(s, t)
    case IntC(t) => IntLit(s, t)
    case FloatC(t) => FloatLit(s, t)
    case StringC(t) => StrLit(s, StringValue(t))
    case ParenC(x) => Build(x, ts, i + 1).(span := s)
    case CallC(f, args) => Call(s, f, BuildArgs(args, ts, i + 2))
    case PropertyC(x, n) => Property(s, Build(x, ts, i), n)
    case FilterC(x) => Filter(s, Build(x, ts, i))
    case IndexC(x, y) => Index(s, Build(x, ts, i), Build(y, ts, i + Width(x) + 1))
    case NotC(x) => Not(s, Build(x, ts, i + 1))
    case CompareC(op, x, y) => Compare(s, op, Build(x, ts, i), Build(y, ts, i + Width(x) + 1))
    case LogicC(k, x, y) => Logic(s, k, Build(x, ts, i), Build(y, ts, i + Width(x) + 1))
  }

  function BuildArgs(args: seq<Cst>, ts: seq<Token>, i: nat): (es: seq<Expr>)
    requires i + ArgsWidth(args) <= |ts|
    ensures |es| == |args|
    decreases args
  {
    if args == [] then []
    else if |args| == 1 then [Build(args[0], ts, i)]
    else [Build(args[0], ts, i)] + BuildArgs(args[1..], ts, i + Width(args[0]) + 1)
  }

  // ----- one step of a derivation -----

  /** The form has the one operand, which starts k tokens on. */
  predicate OneOperand(c: Cst, x: Cst, k: nat) {
    || ((c.PropertyC? || c.FilterC?) && c.of == x && k == 0)
    || (c.NotC? && c.of == x && k == 1)
    || (c.ParenC? && c.inner == x && k == 1)
  }

  predicate TwoOperands(c: Cst, x: Cst, y: Cst) {
    ((c.CompareC? || c.LogicC?) && c.left == x && c.right == y) || (c.IndexC? && c.of == x && c.index == y)
  }

  /** The tokens of a form besides those of its operand, which are w. */
  predicate OneMarks(c: Cst, ts: seq<Token>, i: nat, w: nat) {
    && (c.ParenC? ==> TokenIs(ts, i, LeftParen) && TokenIs(ts, i + 1 + w, RightParen))
    && (c.NotC? ==> TokenIs(ts, i, Bang))
    && (c.PropertyC? ==> TokenIs(ts, i + w, Dot) && TokenReads(ts, i + w + 1, Ident, c.name))
    && (c.FilterC? ==> TokenIs(ts, i + w, Dot) && TokenIs(ts, i + w + 1, Star))
  }

  /** The tokens of a form besides its operands: one between them, and one after an index. */
  predicate TwoMarks(c: Cst, ts: seq<Token>, j: nat, k: nat) {
    && (c.IndexC? ==> TokenIs(ts, j, LeftBracket) && TokenIs(ts, k, RightBracket))
    && (c.CompareC? ==> TokenIs(ts, j, CompareKind(c.op)))
    && (c.LogicC? ==> TokenIs(ts, j, LogicKind(c.kind)))
  }

  lemma OneWidth(c: Cst, x: Cst, k: nat)
    requires OneOperand(c, x, k)
    ensures Width(c) == Width(x) + if c.NotC? then 1 else 2
  {
    hide ArgsWidth;
  }

  lemma TwoWidth(c: Cst, x: Cst, y: Cst)
    requires TwoOperands(c, x, y)
    ensures Width(c) == Width(x) + Width(y) + if c.IndexC? then 2 else 1
  {
    hide ArgsWidth;
  }

  lemma SpellsParen(x: Cst, ts: seq<Token>, i: nat)
    ensures Spells(ParenC(x), ts, i) <==>
      TokenIs(ts, i, LeftParen) && Spells(x, ts, i + 1) && TokenIs(ts, i + 1 + Width(x), RightParen)
  {
    hide Width, TokenIs, TokenReads, SpellsArgs, ArgsWidth, CompareKind, LogicKind;
  }

  lemma SpellsNot(x: Cst, ts: seq<Token>, i: nat)
    ensures Spells(NotC(x), ts, i) <==> TokenIs(ts, i, Bang) && Spells(x, ts, i + 1)
  {
    hide Width, TokenIs, TokenReads, SpellsArgs, ArgsWidth, CompareKind, LogicKind;
  }

  lemma SpellsProperty(x: Cst, name: string, ts: seq<Token>, i: nat)
    ensures Spells(PropertyC(x, name), ts, i) <==>
      Spells(x, ts, i) && TokenIs(ts, i + Width(x), Dot) && TokenReads(ts, i + Width(x) + 1, Ident, name)
  {
    hide Width, TokenIs, TokenReads, SpellsArgs, ArgsWidth, CompareKind, LogicKind;
  }

  lemma SpellsFilter(x: Cst, ts: seq<Token>, i: nat)
    ensures Spells(FilterC(x), ts, i) <==>
      Spells(x, ts, i) && TokenIs(ts, i + Width(x), Dot) && TokenIs(ts, i + Width(x) + 1, Star)
  {
    hide Width, TokenIs, TokenReads, SpellsArgs, ArgsWidth, CompareKind, LogicKind;
  }

  lemma SpellsIndex(x: Cst, y: Cst, ts: seq<Token>, i: nat)
    ensures Spells(IndexC(x, y), ts, i) <==>
      && Spells(x, ts, i) && Spells(y, ts, i + Width(x) + 1)
      && TokenIs(ts, i + Width(x), LeftBracket) && TokenIs(ts, i + Width(x) + 1 + Width(y), RightBracket)
  {
    hide Width, TokenIs, TokenReads, SpellsArgs, ArgsWidth, CompareKind, LogicKind;
  }

  lemma SpellsCompare(op: CompareOp, x: Cst, y: Cst, ts: seq<Token>, i: nat)
    ensures Spells(CompareC(op, x, y), ts, i) <==>
      Spells(x, ts, i) && Spells(y, ts, i + Width(x) + 1) && TokenIs(ts, i + Width(x), CompareKind(op))
  {
    hide Width, TokenIs, TokenReads, SpellsArgs, ArgsWidth, CompareKind, LogicKind;
  }

  lemma SpellsLogic(k: LogicOp, x: Cst, y: Cst, ts: seq<Token>, i: nat)
    ensures Spells(LogicC(k, x, y), ts, i) <==>
      Spells(x, ts, i) && Spells(y, ts, i + Width(x) + 1) && TokenIs(ts, i + Width(x), LogicKind(k))
  {
    hide Width, TokenIs, TokenReads, SpellsArgs, ArgsWidth, CompareKind, LogicKind;
  }

  lemma SpellsCall(f: string, args: seq<Cst>, ts: seq<Token>, i: nat)
    ensures Width(CallC(f, args)) == ArgsWidth(args) + 3
    ensures Spells(CallC(f, args), ts, i) <==>
      && TokenReads(ts, i, Ident, f) && TokenIs(ts, i + 1, LeftParen)
      && SpellsArgs(args, ts, i + 2) && TokenIs(ts, i + 2 + ArgsWidth(args), RightParen)
  {
    hide TokenIs, TokenReads, SpellsArgs, ArgsWidth, CompareKind, LogicKind;
  }

  /** What a form of one operand consists of. */
  lemma SpellsOne(c: Cst, x: Cst, k: nat, ts: seq<Token>, i: nat)
    requires OneOperand(c, x, k)
    ensures Width(c) == Width(x) + if c.NotC? then 1 else 2
    ensures Spells(c, ts, i) <==> Spells(x, ts, i + k) && OneMarks(c, ts, i, Width(x))
  {
    hide Spells, Width, TokenIs, TokenReads;
    OneWidth(c, x, k);
    match c
    case ParenC(_) => SpellsParen(x, ts, i);
    case NotC(_) => SpellsNot(x, ts, i);
    case PropertyC(_, name) => SpellsProperty(x, name, ts, i);
    case FilterC(_) => SpellsFilter(x, ts, i);
  }

  /** What a form of two operands consists of. */
  lemma SpellsTwo(c: Cst, x: Cst, y: Cst, ts: seq<Token>, i: nat)
    requires TwoOperands(c, x, y)
    ensures Width(c) == Width(x) + Width(y) + if c.IndexC? then 2 else 1
    ensures Spells(c, ts, i) <==>
      && Spells(x, ts, i) && Spells(y, ts, i + Width(x) + 1)
      && TwoMarks(c, ts, i + Width(x), i + Width(x) + 1 + Width(y))
  {
    hide Spells, Width, TokenIs, TokenReads;
    TwoWidth(c, x, y);
    match c
    case IndexC(_, _) => SpellsIndex(x, y, ts, i);
    case CompareC(op, _, _) => SpellsCompare(op, x, y, ts, i);
    case LogicC(k, _, _) => SpellsLogic(k, x, y, ts, i);
  }

  lemma BuildOne(c: Cst, x: Cst, k: nat, ts: seq<Token>, i: nat)
    requires OneOperand(c, x, k) && i + Width(c) <= |ts|
    ensures k + Width(x) <= Width(c)
    ensures Build(c, ts, i) ==
      var s := SpanOf(ts, i, i + Width(c));
      match c
      case ParenC(_) => Build(x, ts, i + 1).(span := s)
      case NotC(_) => Not(s, Build(x, ts, i + 1))
      case PropertyC(_, name) => Property(s, Build(x, ts, i), name)
      case FilterC(_) => Filter(s, Build(x, ts, i))
  {
    hide Width, SpanOf, WordNode, StringValue, BuildArgs;
    OneWidth(c, x, k);
  }

  // ----- the parser accepts every derivation -----

  function ParseLevel(l: Level, ts: seq<Token>, i: nat): Parsed
    requires Ready(ts, i)
  {
    match l
    case 0 => ParseOr(ts, i)
    case 1 => ParseAnd(ts, i)
    case 2 => ParseCompare(ts, i)
    case 3 => ParsePrefix(ts, i)
    case 4 => ParsePostfix(ts, i)
    case 5 => ParsePrimary(ts, i)
  }

  /** A token that ends an expression of a level. */
  predicate Follow(l: Level, k: Kind) {
    && k != LeftParen
    && (l <= POSTFIX_LEVEL ==> k != Dot && k != LeftBracket)
    && (l <= COMPARE_LEVEL ==> CompareOpOf(k).None?)
    && (l <= AND_LEVEL ==> k != AndAnd)
    && (l <= OR_LEVEL ==> k != OrOr)
  }

  // One step of each parsing function, from the results of the functions it calls.

  lemma OrStep(ts: seq<Token>, i: nat, x: Expr, j: nat, y: Expr, k: nat)
    requires Closed(ts) && i < j && j + 1 < k < |ts|
    requires ParseAnd(ts, i) == Parsed(Some(x), j) && ts[j].kind == OrOr && ParseOr(ts, j + 1) == Parsed(Some(y), k)
    ensures ParseOr(ts, i) == Parsed(Some(Logic(SpanOf(ts, i, k), Or, x, y)), k)
  {
    hide ParseAnd;
  }

  lemma AndStep(ts: seq<Token>, i: nat, x: Expr, j: nat, y: Expr, k: nat)
    requires Closed(ts) && i < j && j + 1 < k < |ts|
    requires ParseCompare(ts, i) == Parsed(Some(x), j) && ts[j].kind == AndAnd && ParseAnd(ts, j + 1) == Parsed(Some(y), k)
    ensures ParseAnd(ts, i) == Parsed(Some(Logic(SpanOf(ts, i, k), And, x, y)), k)
  {
    hide ParseCompare;
  }

  lemma CompareStep(ts: seq<Token>, i: nat, op: CompareOp, x: Expr, j: nat, y: Expr, k: nat)
    requires Closed(ts) && i < j && j + 1 < k < |ts|
    requires ParsePrefix(ts, i) == Parsed(Some(x), j) && ts[j].kind == CompareKind(op)
    requires ParseCompare(ts, j + 1) == Parsed(Some(y), k)
    ensures ParseCompare(ts, i) == Parsed(Some(Compare(SpanOf(ts, i, k), op, x, y)), k)
  {
    hide ParsePrefix;
  }

  lemma PostfixStart(ts: seq<Token>, i: nat)
    requires Ready(ts, i) && ParsePrimary(ts, i).node.Some?
    ensures ParsePostfix(ts, i) == PostfixLoop(ts, i, ParsePrimary(ts, i).node.value, ParsePrimary(ts, i).at)
  {
    hide ParsePrimary, PostfixLoop;
  }

  lemma MemberStep(ts: seq<Token>, i: nat, x: Expr, j: nat)
    requires Closed(ts) && i < j && j + 2 < |ts| && ts[j].kind == Dot
    requires ts[j + 1].kind == Star || ts[j + 1].kind == Ident
    ensures PostfixLoop(ts, i, x, j) ==
      var s := SpanOf(ts, i, j + 2);
      PostfixLoop(ts, i, if ts[j + 1].kind == Star then Filter(s, x) else Property(s, x, ts[j + 1].value), j + 2)
  {
    hide Subscript;
  }

  lemma SubscriptStep(ts: seq<Token>, i: nat, x: Expr, j: nat, y: Expr, k: nat)
    requires Closed(ts) && i < j && j + 1 < k && k + 1 < |ts|
    requires ts[j].kind == LeftBracket && ParseOr(ts, j + 1) == Parsed(Some(y), k) && ts[k].kind == RightBracket
    ensures PostfixLoop(ts, i, x, j) == PostfixLoop(ts, i, Index(SpanOf(ts, i, k + 1), x, y), k + 1)
  {
    hide ParseOr, Member;
    assert Dereference(ts, i, x, j) == Subscript(ts, i, x, j) == Parsed(Some(Index(SpanOf(ts, i, k + 1), x, y)), k + 1);
  }

  lemma {:induction false} Complete(c: Cst, ts: seq<Token>, i: nat, l: Level)
    requires Closed(ts) && WellFormed(c, l) && Spells(c, ts, i)
    requires i + Width(c) < |ts| && Follow(l, ts[i + Width(c)].kind)
    ensures ParseLevel(l, ts, i) == Parsed(Some(Build(c, ts, i)), i + Width(c))
    decreases c, 2 * (6 - l)
  {
    hide Build, WellFormed, Spells, Width, ParseLevel, Follow;
    LevelBounds(c, l);
    FollowIsNoCall(l, ts[i + Width(c)].kind);
    if l == POSTFIX_LEVEL {
      CompletePostfix(c, ts, i);
      LoopStops(ts, i, Build(c, ts, i), i + Width(c));
    } else if l < LevelOf(c) {
      CompleteLooser(c, ts, i, l);
    } else {
      match c
      case LogicC(And, _, _) => CompleteAnd(c, ts, i);
      case LogicC(Or, _, _) => CompleteOr(c, ts, i);
      case CompareC(_, _, _) => CompleteCompare(c, ts, i);
      case NotC(_) => CompleteNot(c, ts, i);
      case ParenC(_) => CompleteParen(c, ts, i);
      case CallC(_, _) => CompleteCall(c, ts, i);
      case _ =>
        LeafWidth(c);
        CompleteLeaf(c, ts, i);
    }
  }

  lemma FollowIsNoCall(l: Level, k: Kind)
    requires Follow(l, k)
    ensures k != LeftParen
  {
  }

  lemma LeafWidth(c: Cst)
    requires c.WordC? || c.IntC? || c.FloatC? || c.StringC?
    ensures Width(c) == 1
  {
  }

  lemma LevelBounds(c: Cst, l: Level)
    requires WellFormed(c, l)
    ensures l <= LevelOf(c)
  {
  }

  /** The postfix loop ends before a token that can follow it. */
  lemma LoopStops(ts: seq<Token>, i: nat, x: Expr, j: nat)
    requires Closed(ts) && i < j < |ts| && Follow(POSTFIX_LEVEL, ts[j].kind)
    requires ParsePostfix(ts, i) == PostfixLoop(ts, i, x, j)
    ensures ts[j].kind != LeftParen
    ensures ParseLevel(POSTFIX_LEVEL, ts, i) == Parsed(Some(x), j)
  {
    hide ParsePostfix;
  }

  lemma {:induction false} CompleteLooser(c: Cst, ts: seq<Token>, i: nat, l: Level)
    requires l < LevelOf(c) && l < POSTFIX_LEVEL
    requires Closed(ts) && WellFormed(c, l) && Spells(c, ts, i)
    requires i + Width(c) < |ts| && Follow(l, ts[i + Width(c)].kind)
    ensures ParseLevel(l, ts, i) == Parsed(Some(Build(c, ts, i)), i + Width(c))
    decreases c, 2 * (6 - l) - 1
  {
    hide Build, Spells;
    Complete(c, ts, i, l + 1);
    if l == PREFIX_LEVEL { StartsPostfix(c, ts, i); }
  }

  lemma CompleteLeaf(c: Cst, ts: seq<Token>, i: nat)
    requires c.WordC? || c.IntC? || c.FloatC? || c.StringC?
    requires Closed(ts) && WellFormed(c, PRIMARY_LEVEL) && Spells(c, ts, i)
    requires i + 1 < |ts| && ts[i + 1].kind != LeftParen
    ensures ParseLevel(PRIMARY_LEVEL, ts, i) == Parsed(Some(Build(c, ts, i)), i + Width(c))
  {
    hide ParseOr, ParseArgs, WordNode, ParseInt32, ParseFloat64, StringValue;
    match c
    case WordC(t) => assert ParsePrimary(ts, i) == ParseIdent(ts, i);
    case IntC(t) => assert ParsePrimary(ts, i).node.Some?;
    case FloatC(t) => assert ParsePrimary(ts, i).node.Some?;
    case StringC(t) => assert ParsePrimary(ts, i).node.Some?;
  }

  lemma WellFormedTwo(c: Cst, x: Cst, y: Cst, l: Level)
    requires TwoOperands(c, x, y) && l == LevelOf(c)
    ensures WellFormed(c, l) <==>
      if c.IndexC? then WellFormed(x, POSTFIX_LEVEL) && WellFormed(y, OR_LEVEL)
      else WellFormed(x, l + 1) && WellFormed(y, l)
  {
    hide ParseInt32, ParseFloat64;
  }

  lemma WellFormedOne(c: Cst, x: Cst, k: nat, l: Level)
    requires OneOperand(c, x, k) && l == LevelOf(c)
    ensures WellFormed(c, l) <==> WellFormed(x, if c.ParenC? then OR_LEVEL else l)
  {
    hide ParseInt32, ParseFloat64;
  }

  /** What a spelled binary operation consists of. */
  lemma BinaryParts(c: Cst, ts: seq<Token>, i: nat)
    requires (c.LogicC? || c.CompareC?) && WellFormed(c, LevelOf(c)) && Spells(c, ts, i)
    ensures var j := i + Width(c.left);
      && Spells(c.left, ts, i) && WellFormed(c.left, LevelOf(c) + 1)
      && TokenIs(ts, j, if c.LogicC? then LogicKind(c.kind) else CompareKind(c.op))
      && Spells(c.right, ts, j + 1) && WellFormed(c.right, LevelOf(c))
      && i + Width(c) == j + 1 + Width(c.right) <= |ts|
  {
    hide Build, Spells, Width, WellFormed, TokenIs, LogicKind, CompareKind;
    SpellsTwo(c, c.left, c.right, ts, i);
    WellFormedTwo(c, c.left, c.right, LevelOf(c));
    SpellsBounds(c, ts, i);
  }

  lemma BuildBinary(c: Cst, ts: seq<Token>, i: nat)
    requires (c.LogicC? || c.CompareC?) && i + Width(c) == i + Width(c.left) + 1 + Width(c.right) <= |ts|
    ensures Build(c, ts, i) ==
      var s, x, y := SpanOf(ts, i, i + Width(c)), Build(c.left, ts, i), Build(c.right, ts, i + Width(c.left) + 1);
      if c.LogicC? then Logic(s, c.kind, x, y) else Compare(s, c.op, x, y)
  {
    hide Width;
  }

  lemma {:induction false} CompleteOr(c: Cst, ts: seq<Token>, i: nat)
    requires c.LogicC? && c.kind == Or && Closed(ts) && WellFormed(c, OR_LEVEL) && Spells(c, ts, i)
    requires i + Width(c) < |ts| && Follow(OR_LEVEL, ts[i + Width(c)].kind)
    ensures ParseLevel(OR_LEVEL, ts, i) == Parsed(Some(Build(c, ts, i)), i + Width(c))
    decreases c, 0
  {
    hide ParseOr, ParseAnd, ParseCompare, ParsePrefix, Build, Spells, WellFormed, Width;
    BinaryParts(c, ts, i);
    BuildBinary(c, ts, i);
    var j := i + Width(c.left);
    Complete(c.left, ts, i, AND_LEVEL);
    Complete(c.right, ts, j + 1, OR_LEVEL);
    OrStep(ts, i, Build(c.left, ts, i), j, Build(c.right, ts, j + 1), i + Width(c));
  }

  lemma {:induction false} CompleteAnd(c: Cst, ts: seq<Token>, i: nat)
    requires c.LogicC? && c.kind == And && Closed(ts) && WellFormed(c, AND_LEVEL) && Spells(c, ts, i)
    requires i + Width(c) < |ts| && Follow(AND_LEVEL, ts[i + Width(c)].kind)
    ensures ParseLevel(AND_LEVEL, ts, i) == Parsed(Some(Build(c, ts, i)), i + Width(c))
    decreases c, 0
  {
    hide ParseOr, ParseAnd, ParseCompare, ParsePrefix, Build, Spells, WellFormed, Width;
    BinaryParts(c, ts, i);
    BuildBinary(c, ts, i);
    var j := i + Width(c.left);
    Complete(c.left, ts, i, COMPARE_LEVEL);
    Complete(c.right, ts, j + 1, AND_LEVEL);
    AndStep(ts, i, Build(c.left, ts, i), j, Build(c.right, ts, j + 1), i + Width(c));
  }

  lemma {:induction false} CompleteCompare(c: Cst, ts: seq<Token>, i: nat)
    requires c.CompareC? && Closed(ts) && WellFormed(c, COMPARE_LEVEL) && Spells(c, ts, i)
    requires i + Width(c) < |ts| && Follow(COMPARE_LEVEL, ts[i + Width(c)].kind)
    ensures ParseLevel(COMPARE_LEVEL, ts, i) == Parsed(Some(Build(c, ts, i)), i + Width(c))
    decreases c, 0
  {
    hide ParseOr, ParseAnd, ParseCompare, ParsePrefix, Build, Spells, WellFormed, Width;
    BinaryParts(c, ts, i);
    BuildBinary(c, ts, i);
    var j := i + Width(c.left);
    Complete(c.left, ts, i, PREFIX_LEVEL);
    Complete(c.right, ts, j + 1, COMPARE_LEVEL);
    CompareStep(ts, i, c.op, Build(c.left, ts, i), j, Build(c.right, ts, j + 1), i + Width(c));
  }

  lemma {:induction false} CompleteNot(c: Cst, ts: seq<Token>, i: nat)
    requires c.NotC? && Closed(ts) && WellFormed(c, PREFIX_LEVEL) && Spells(c, ts, i)
    requires i + Width(c) < |ts| && Follow(PREFIX_LEVEL, ts[i + Width(c)].kind)
    ensures ParseLevel(PREFIX_LEVEL, ts, i) == Parsed(Some(Build(c, ts, i)), i + Width(c))
    decreases c, 0
  {
    hide ParsePrefix, Spells, Width, WellFormed, Build, TokenIs;
    var x := c.of;
    SpellsOne(c, x, 1, ts, i);
    WellFormedOne(c, x, 1, PREFIX_LEVEL);
    BuildOne(c, x, 1, ts, i);
    Complete(x, ts, i + 1, PREFIX_LEVEL);
    NotStep(ts, i, Build(x, ts, i + 1), i + Width(c));
  }

  lemma NotStep(ts: seq<Token>, i: nat, x: Expr, j: nat)
    requires Closed(ts) && i + 1 < j < |ts| && TokenIs(ts, i, Bang) && ParsePrefix(ts, i + 1) == Parsed(Some(x), j)
    ensures ParsePrefix(ts, i) == Parsed(Some(Not(SpanOf(ts, i, j), x)), j)
  {
    hide ParsePostfix, SpanOf;
  }

  lemma ParenStep(ts: seq<Token>, i: nat, x: Expr, j: nat)
    requires Closed(ts) && i + 1 < j && j + 1 < |ts| && TokenIs(ts, i, LeftParen) && TokenIs(ts, j, RightParen)
    requires ParseOr(ts, i + 1) == Parsed(Some(x), j)
    ensures ParsePrimary(ts, i) == Parsed(Some(x.(span := SpanOf(ts, i, j + 1))), j + 1)
  {
    hide ParseOr, ParseIdent, SpanOf, ParseInt32, ParseFloat64, StringValue;
  }

  lemma {:induction false} CompleteParen(c: Cst, ts: seq<Token>, i: nat)
    requires c.ParenC? && Closed(ts) && WellFormed(c, PRIMARY_LEVEL) && Spells(c, ts, i)
    requires i + Width(c) < |ts|
    ensures ParseLevel(PRIMARY_LEVEL, ts, i) == Parsed(Some(Build(c, ts, i)), i + Width(c))
    decreases c, 0
  {
    hide ParseOr, ParsePrimary, Spells, Width, WellFormed, Build, TokenIs;
    var x := c.inner;
    SpellsOne(c, x, 1, ts, i);
    WellFormedOne(c, x, 1, PRIMARY_LEVEL);
    BuildOne(c, x, 1, ts, i);
    MarksEnd(ts, i + 1 + Width(x), RightParen);
    Complete(x, ts, i + 1, OR_LEVEL);
    ParenStep(ts, i, Build(x, ts, i + 1), i + 1 + Width(x));
  }

  lemma MarksEnd(ts: seq<Token>, j: nat, k: Kind)
    requires TokenIs(ts, j, k)
    ensures j < |ts| && ts[j].kind == k
  {
  }

  lemma {:induction false} CompleteCall(c: Cst, ts: seq<Token>, i: nat)
    requires c.CallC? && Closed(ts) && WellFormed(c, PRIMARY_LEVEL) && Spells(c, ts, i)
    requires i + Width(c) < |ts|
    ensures ParseLevel(PRIMARY_LEVEL, ts, i) == Parsed(Some(Build(c, ts, i)), i + Width(c))
    decreases c, 0
  {
    hide ParsePrimary, ParseIdent, ParseOr, ParseArgs, Spells, Width, WellFormed, Build, SpellsArgs, BuildArgs, ArgsWidth, SpanOf,
      TokenReads;
    CallParts(c, ts, i);
    if c.args != [] {
      StartsExpression(c.args[0], ts, i + 2);
      CompleteArgs(c.args, ts, i + 2, []);
      assert [] + BuildArgs(c.args, ts, i + 2) == BuildArgs(c.args, ts, i + 2);
    }
    CallStep(ts, i, c.callee, BuildArgs(c.args, ts, i + 2), i + Width(c));
  }

  lemma CallParts(c: Cst, ts: seq<Token>, i: nat)
    requires c.CallC? && WellFormed(c, PRIMARY_LEVEL) && Spells(c, ts, i) && i + Width(c) < |ts|
    ensures TokenReads(ts, i, Ident, c.callee) && TokenIs(ts, i + 1, LeftParen)
    ensures Width(c) == ArgsWidth(c.args) + 3 && SpellsArgs(c.args, ts, i + 2)
    ensures TokenIs(ts, i + 2 + ArgsWidth(c.args), RightParen)
    ensures c.args != [] ==> Spells(c.args[0], ts, i + 2) && WellFormed(c.args[0], OR_LEVEL)
    ensures forall a | a in c.args :: WellFormed(a, OR_LEVEL)
    ensures Build(c, ts, i) == Call(SpanOf(ts, i, i + Width(c)), c.callee, BuildArgs(c.args, ts, i + 2))
    ensures c.args == [] ==> ArgsWidth(c.args) == 0 && BuildArgs(c.args, ts, i + 2) == []
  {
    hide TokenIs, TokenReads, SpanOf;
    SpellsCall(c.callee, c.args, ts, i);
  }

  lemma CallStep(ts: seq<Token>, i: nat, callee: string, args: seq<Expr>, j: nat)
    requires Closed(ts) && i + 2 < j < |ts| && TokenReads(ts, i, Ident, callee) && TokenIs(ts, i + 1, LeftParen)
    requires if args == [] then j == i + 3 && TokenIs(ts, i + 2, RightParen)
             else ts[i + 2].kind != RightParen && ParseArgs(ts, i + 2, []) == ParsedArgs(Some(args), j)
    ensures ParsePrimary(ts, i) == Parsed(Some(Call(SpanOf(ts, i, j), callee, args)), j)
  {
    hide ParseOr, ParseArgs, ParseInt32, ParseFloat64, StringValue, WordNode, SpanOf;
    assert ParsePrimary(ts, i) == ParseIdent(ts, i);
  }

  /** Nothing that begins below the prefix level begins with an exclamation mark. */
  lemma {:induction false} StartsPostfix(c: Cst, ts: seq<Token>, i: nat)
    requires WellFormed(c, POSTFIX_LEVEL) && Spells(c, ts, i)
    ensures i < |ts| && ts[i].kind != Bang
    decreases c
  {
    match c
    case PropertyC(x, _) => StartsPostfix(x, ts, i);
    case FilterC(x) => StartsPostfix(x, ts, i);
    case IndexC(x, _) => StartsPostfix(x, ts, i);
    case _ =>
  }

  lemma {:induction false} StartsExpression(c: Cst, ts: seq<Token>, i: nat)
    requires Spells(c, ts, i)
    ensures i < |ts| && ts[i].kind != RightParen
    decreases c
  {
    match c
    case PropertyC(x, _) => StartsExpression(x, ts, i);
    case FilterC(x) => StartsExpression(x, ts, i);
    case IndexC(x, _) => StartsExpression(x, ts, i);
    case CompareC(_, x, _) => StartsExpression(x, ts, i);
    case LogicC(_, x, _) => StartsExpression(x, ts, i);
    case _ =>
  }

  lemma PrimaryLevelToo(c: Cst)
    requires WellFormed(c, POSTFIX_LEVEL) && !c.PropertyC? && !c.FilterC? && !c.IndexC?
    ensures WellFormed(c, PRIMARY_LEVEL)
  {
  }

  /** What a spelled dereference consists of. */
  lemma PostfixParts(c: Cst, ts: seq<Token>, i: nat)
    requires (c.PropertyC? || c.FilterC? || c.IndexC?) && WellFormed(c, POSTFIX_LEVEL) && Spells(c, ts, i)
    ensures var j := i + Width(c.of);
      && Spells(c.of, ts, i) && WellFormed(c.of, POSTFIX_LEVEL) && i + Width(c) <= |ts|
      && (c.PropertyC? ==> TokenIs(ts, j, Dot) && TokenReads(ts, j + 1, Ident, c.name) && i + Width(c) == j + 2)
      && (c.FilterC? ==> TokenIs(ts, j, Dot) && TokenIs(ts, j + 1, Star) && i + Width(c) == j + 2)
      && (c.IndexC? ==>
          && TokenIs(ts, j, LeftBracket) && Spells(c.index, ts, j + 1) && WellFormed(c.index, OR_LEVEL)
          && TokenIs(ts, j + 1 + Width(c.index), RightBracket) && i + Width(c) == j + 2 + Width(c.index))
  {
    hide Build, Spells, Width, WellFormed, TokenIs, TokenReads;
    if c.IndexC? {
      SpellsTwo(c, c.of, c.index, ts, i);
      WellFormedTwo(c, c.of, c.index, POSTFIX_LEVEL);
    } else {
      SpellsOne(c, c.of, 0, ts, i);
      WellFormedOne(c, c.of, 0, POSTFIX_LEVEL);
    }
    SpellsBounds(c, ts, i);
  }

  lemma BuildPostfix(c: Cst, ts: seq<Token>, i: nat)
    requires (c.PropertyC? || c.FilterC? || c.IndexC?) && i + Width(c) <= |ts| && Width(c.of) < Width(c)
    requires c.IndexC? ==> Width(c) == Width(c.of) + 2 + Width(c.index)
    ensures Build(c, ts, i) ==
      var j, s, x := i + Width(c.of), SpanOf(ts, i, i + Width(c)), Build(c.of, ts, i);
      if c.PropertyC? then Property(s, x, c.name)
      else if c.FilterC? then Filter(s, x)
      else Index(s, x, Build(c.index, ts, j + 1))
  {
    hide Width;
  }

  /** After the tokens of a postfix expression the parser is in its postfix loop. */
  lemma {:induction false} CompletePostfix(c: Cst, ts: seq<Token>, i: nat)
    requires Closed(ts) && WellFormed(c, POSTFIX_LEVEL) && Spells(c, ts, i)
    requires i + Width(c) < |ts| && ts[i + Width(c)].kind != LeftParen
    ensures ParsePostfix(ts, i) == PostfixLoop(ts, i, Build(c, ts, i), i + Width(c))
    decreases c, 3
  {
    hide ParsePostfix, PostfixLoop, Build, Spells, WellFormed, Width, ParsePrimary, ParseOr, SpanOf;
    if c.PropertyC? || c.FilterC? {
      PostfixParts(c, ts, i);
      BuildPostfix(c, ts, i);
      CompletePostfix(c.of, ts, i);
      MemberStep(ts, i, Build(c.of, ts, i), i + Width(c.of));
    } else if c.IndexC? {
      PostfixParts(c, ts, i);
      BuildPostfix(c, ts, i);
      var j := i + Width(c.of);
      CompletePostfix(c.of, ts, i);
      Complete(c.index, ts, j + 1, OR_LEVEL);
      SubscriptStep(ts, i, Build(c.of, ts, i), j, Build(c.index, ts, j + 1), j + 1 + Width(c.index));
    } else {
      PrimaryLevelToo(c);
      Complete(c, ts, i, PRIMARY_LEVEL);
      PostfixStart(ts, i);
    }
  }

  lemma {:induction false} CompleteArgs(args: seq<Cst>, ts: seq<Token>, i: nat, before: seq<Expr>)
    requires Closed(ts) && args != [] && (forall a | a in args :: WellFormed(a, OR_LEVEL)) && SpellsArgs(args, ts, i)
    requires TokenIs(ts, i + ArgsWidth(args), RightParen)
    ensures i + ArgsWidth(args) < |ts|
    ensures ParseArgs(ts, i, before) ==
      ParsedArgs(Some(before + BuildArgs(args, ts, i)), i + ArgsWidth(args) + 1)
    decreases args
  {
    hide ParseOr, ParseArgs, Build, Spells, WellFormed, Width, SpellsArgs, BuildArgs, ArgsWidth;
    ArgsParts(args, ts, i);
    var first := Build(args[0], ts, i);
    var k := i + Width(args[0]);
    Complete(args[0], ts, i, OR_LEVEL);
    OneArg(ts, i, before, first, k);
    if |args| > 1 {
      assert args[1..] != [];
      CompleteArgs(args[1..], ts, k + 1, before + [first]);
      assert before + [first] + BuildArgs(args[1..], ts, k + 1) == before + ([first] + BuildArgs(args[1..], ts, k + 1));
    }
  }

  /** The first argument, and the rest after a comma. */
  lemma ArgsParts(args: seq<Cst>, ts: seq<Token>, i: nat)
    requires args != [] && SpellsArgs(args, ts, i) && TokenIs(ts, i + ArgsWidth(args), RightParen)
    ensures Spells(args[0], ts, i) && i + ArgsWidth(args) < |ts|
    ensures |args| == 1 ==> ArgsWidth(args) == Width(args[0]) && BuildArgs(args, ts, i) == [Build(args[0], ts, i)]
    ensures |args| > 1 ==>
      var k := i + Width(args[0]);
      && TokenIs(ts, k, Comma) && SpellsArgs(args[1..], ts, k + 1)
      && i + ArgsWidth(args) == k + 1 + ArgsWidth(args[1..])
      && BuildArgs(args, ts, i) == [Build(args[0], ts, i)] + BuildArgs(args[1..], ts, k + 1)
  {
    hide Build, Spells, Width;
  }

  lemma OneArg(ts: seq<Token>, i: nat, before: seq<Expr>, first: Expr, k: nat)
    requires Ready(ts, i) && i < k < |ts| && ParseOr(ts, i) == Parsed(Some(first), k)
    ensures ts[k].kind == RightParen ==> ParseArgs(ts, i, before) == ParsedArgs(Some(before + [first]), k + 1)
    ensures ts[k].kind == Comma ==> Ready(ts, k + 1) && ParseArgs(ts, i, before) == ParseArgs(ts, k + 1, before + [first])
  {
    hide ParseOr;
  }

  // ----- the parser accepts nothing else -----

  /** A derivation accounts for a successful parse from token i. */
  ghost predicate Derives(c: Cst, l: Level, ts: seq<Token>, i: nat, r: Parsed) {
    && r.at <= |ts| && i + Width(c) == r.at
    && WellFormed(c, l) && Spells(c, ts, i)
    && r.node == Some(Build(c, ts, i))
  }

  lemma {:induction false} Looser(c: Cst, l: Level, m: Level)
    requires WellFormed(c, m) && l <= m
    ensures WellFormed(c, l)
  {
  }

  lemma {:induction false} Sound(l: Level, ts: seq<Token>, i: nat) returns (c: Cst)
    requires Ready(ts, i) && ParseLevel(l, ts, i).node.Some?
    ensures Derives(c, l, ts, i, ParseLevel(l, ts, i))
    decreases |ts| - i, 2 * (6 - l)
  {
    hide Derives;
    match l
    case 0 => c := SoundOr(ts, i);
    case 1 => c := SoundAnd(ts, i);
    case 2 => c := SoundCompare(ts, i);
    case 3 => c := SoundPrefix(ts, i);
    case 4 => c := SoundPostfix(ts, i);
    case 5 => c := SoundPrimary(ts, i);
  }

  lemma BinaryIntro(c: Cst, ts: seq<Token>, i: nat, l: Parsed, r: Parsed)
    requires c.LogicC? || c.CompareC?
    requires Derives(c.left, LevelOf(c) + 1, ts, i, l) && Derives(c.right, LevelOf(c), ts, l.at + 1, r)
    requires TokenIs(ts, l.at, if c.LogicC? then LogicKind(c.kind) else CompareKind(c.op))
    ensures i < r.at <= |ts| && l.node.Some? && r.node.Some?
    ensures Derives(c, LevelOf(c), ts, i, Parsed(Some(
      var s := SpanOf(ts, i, r.at);
      if c.LogicC? then Logic(s, c.kind, l.node.value, r.node.value) else Compare(s, c.op, l.node.value, r.node.value)), r.at))
  {
    hide Build;
    BuildBinary(c, ts, i);
  }

  lemma {:induction false} SoundOr(ts: seq<Token>, i: nat) returns (c: Cst)
    requires Ready(ts, i) && ParseOr(ts, i).node.Some?
    ensures Derives(c, OR_LEVEL, ts, i, ParseOr(ts, i))
    decreases |ts| - i, 11
  {
    hide ParseAnd, Build, Spells, Width;
    c := Sound(AND_LEVEL, ts, i);
    var l := ParseAnd(ts, i);
    if ts[l.at].kind == OrOr {
      var r := Sound(OR_LEVEL, ts, l.at + 1);
      BinaryIntro(LogicC(Or, c, r), ts, i, l, ParseOr(ts, l.at + 1));
      c := LogicC(Or, c, r);
    } else {
      Looser(c, OR_LEVEL, AND_LEVEL);
    }
  }

  lemma {:induction false} SoundAnd(ts: seq<Token>, i: nat) returns (c: Cst)
    requires Ready(ts, i) && ParseAnd(ts, i).node.Some?
    ensures Derives(c, AND_LEVEL, ts, i, ParseAnd(ts, i))
    decreases |ts| - i, 9
  {
    hide ParseCompare, Build, Spells, Width;
    c := Sound(COMPARE_LEVEL, ts, i);
    var l := ParseCompare(ts, i);
    if ts[l.at].kind == AndAnd {
      var r := Sound(AND_LEVEL, ts, l.at + 1);
      BinaryIntro(LogicC(And, c, r), ts, i, l, ParseAnd(ts, l.at + 1));
      c := LogicC(And, c, r);
    } else {
      Looser(c, AND_LEVEL, COMPARE_LEVEL);
    }
  }

  lemma {:induction false} SoundCompare(ts: seq<Token>, i: nat) returns (c: Cst)
    requires Ready(ts, i) && ParseCompare(ts, i).node.Some?
    ensures Derives(c, COMPARE_LEVEL, ts, i, ParseCompare(ts, i))
    decreases |ts| - i, 7
  {
    hide ParsePrefix, Build, Spells, Width;
    c := Sound(PREFIX_LEVEL, ts, i);
    var l := ParsePrefix(ts, i);
    var op := CompareOpOf(ts[l.at].kind);
    if op.Some? {
      var r := Sound(COMPARE_LEVEL, ts, l.at + 1);
      BinaryIntro(CompareC(op.value, c, r), ts, i, l, ParseCompare(ts, l.at + 1));
      c := CompareC(op.value, c, r);
    } else {
      Looser(c, COMPARE_LEVEL, PREFIX_LEVEL);
    }
  }

  lemma {:induction false} SoundPrefix(ts: seq<Token>, i: nat) returns (c: Cst)
    requires Ready(ts, i) && ParsePrefix(ts, i).node.Some?
    ensures Derives(c, PREFIX_LEVEL, ts, i, ParsePrefix(ts, i))
    decreases |ts| - i, 5
  {
    hide ParsePostfix, Build, Spells, Width, WellFormed, SpanOf;
    if ts[i].kind == Bang {
      var x := Sound(PREFIX_LEVEL, ts, i + 1);
      c := NotC(x);
      SpellsOne(c, x, 1, ts, i);
      WellFormedOne(c, x, 1, PREFIX_LEVEL);
      BuildOne(c, x, 1, ts, i);
    } else {
      c := Sound(POSTFIX_LEVEL, ts, i);
      Looser(c, PREFIX_LEVEL, POSTFIX_LEVEL);
    }
  }

  lemma {:induction false} SoundPostfix(ts: seq<Token>, i: nat) returns (c: Cst)
    requires Ready(ts, i) && ParsePostfix(ts, i).node.Some?
    ensures Derives(c, POSTFIX_LEVEL, ts, i, ParsePostfix(ts, i))
    decreases |ts| - i, 3
  {
    hide ParsePrimary, Build, Spells, Width, PostfixLoop;
    c := Sound(PRIMARY_LEVEL, ts, i);
    Looser(c, POSTFIX_LEVEL, PRIMARY_LEVEL);
    c := SoundLoop(ts, i, c, ParsePrimary(ts, i).at);
  }

  /** The tokens from i to j derive a receiver on which the postfix loop goes on. */
  ghost predicate Received(ts: seq<Token>, i: nat, x: Cst, j: nat) {
    i < j && j <= |ts| && i + Width(x) == j && WellFormed(x, POSTFIX_LEVEL) && Spells(x, ts, i)
  }

  /** The postfix loop extends a derivation of its receiver. */
  lemma {:induction false} SoundLoop(ts: seq<Token>, i: nat, x: Cst, j: nat) returns (c: Cst)
    requires Ready(ts, j) && Received(ts, i, x, j)
    requires PostfixLoop(ts, i, Build(x, ts, i), j).node.Some?
    ensures Derives(c, POSTFIX_LEVEL, ts, i, PostfixLoop(ts, i, Build(x, ts, i), j))
    decreases |ts| - j, 2
  {
    hide Build, Spells, Width, WellFormed, ParseOr, PostfixLoop, Derives;
    if ts[j].kind == Dot {
      c := SoundMember(ts, i, x, j);
      c := SoundLoop(ts, i, c, j + 2);
    } else if ts[j].kind == LeftBracket {
      SubscriptParts(ts, i, Build(x, ts, i), j);
      var y := Sound(OR_LEVEL, ts, j + 1);
      var k := ParseOr(ts, j + 1).at;
      c := SoundSubscript(ts, i, x, j, y, k);
      c := SoundLoop(ts, i, c, k + 1);
    } else {
      c := x;
      LoopEnds(ts, i, x, j);
    }
  }

  lemma LoopEnds(ts: seq<Token>, i: nat, x: Cst, j: nat)
    requires Ready(ts, j) && Received(ts, i, x, j) && ts[j].kind != Dot && ts[j].kind != LeftBracket
    ensures Derives(x, POSTFIX_LEVEL, ts, i, PostfixLoop(ts, i, Build(x, ts, i), j))
  {
    hide Build, Spells, Width, WellFormed, ParseOr;
  }

  lemma SoundMember(ts: seq<Token>, i: nat, x: Cst, j: nat) returns (c: Cst)
    requires Ready(ts, j) && Received(ts, i, x, j) && ts[j].kind == Dot
    requires PostfixLoop(ts, i, Build(x, ts, i), j).node.Some?
    ensures Ready(ts, j + 2) && Received(ts, i, c, j + 2)
    ensures PostfixLoop(ts, i, Build(x, ts, i), j) == PostfixLoop(ts, i, Build(c, ts, i), j + 2)
  {
    hide Build, Spells, Width, WellFormed, PostfixLoop, SpanOf;
    MemberParts(ts, i, Build(x, ts, i), j);
    MemberStep(ts, i, Build(x, ts, i), j);
    c := if ts[j + 1].kind == Star then FilterC(x) else PropertyC(x, ts[j + 1].value);
    MemberReceived(c, ts, i, x, j);
  }

  lemma MemberParts(ts: seq<Token>, i: nat, x: Expr, j: nat)
    requires Ready(ts, j) && i < j && ts[j].kind == Dot && PostfixLoop(ts, i, x, j).node.Some?
    ensures Ready(ts, j + 2) && (ts[j + 1].kind == Star || ts[j + 1].kind == Ident)
  {
    hide Subscript;
  }

  lemma SoundSubscript(ts: seq<Token>, i: nat, x: Cst, j: nat, y: Cst, k: nat) returns (c: Cst)
    requires Ready(ts, j) && Ready(ts, j + 1) && Received(ts, i, x, j) && ts[j].kind == LeftBracket
    requires Derives(y, OR_LEVEL, ts, j + 1, ParseOr(ts, j + 1)) && k == ParseOr(ts, j + 1).at
    requires k < |ts| && ts[k].kind == RightBracket && j + 1 < k
    ensures Ready(ts, k + 1) && Received(ts, i, c, k + 1)
    ensures PostfixLoop(ts, i, Build(x, ts, i), j) == PostfixLoop(ts, i, Build(c, ts, i), k + 1)
  {
    hide Build, Spells, Width, WellFormed, ParseOr, PostfixLoop;
    c := IndexC(x, y);
    SubscriptIntro(c, ts, i);
    SubscriptStep(ts, i, Build(x, ts, i), j, Build(y, ts, j + 1), k);
  }

  lemma SubscriptParts(ts: seq<Token>, i: nat, x: Expr, j: nat)
    requires Ready(ts, j) && i < j && ts[j].kind == LeftBracket && PostfixLoop(ts, i, x, j).node.Some?
    ensures var y := ParseOr(ts, j + 1); y.node.Some? && ts[y.at].kind == RightBracket
  {
    hide ParseOr, Member;
    assert Dereference(ts, i, x, j) == Subscript(ts, i, x, j);
  }

  lemma MemberReceived(c: Cst, ts: seq<Token>, i: nat, x: Cst, j: nat)
    requires Received(ts, i, x, j) && j + 2 <= |ts| && OneOperand(c, x, 0)
    requires ts[j].kind == Dot
    requires if c.FilterC? then ts[j + 1].kind == Star else ts[j + 1].kind == Ident && ts[j + 1].value == c.name
    ensures Received(ts, i, c, j + 2)
    ensures var s := SpanOf(ts, i, j + 2);
      Build(c, ts, i) == if c.FilterC? then Filter(s, Build(x, ts, i)) else Property(s, Build(x, ts, i), c.name)
  {
    hide Build, Spells, Width, WellFormed, SpanOf;
    SpellsOne(c, x, 0, ts, i);
    WellFormedOne(c, x, 0, POSTFIX_LEVEL);
    BuildOne(c, x, 0, ts, i);
  }

  lemma SubscriptIntro(c: Cst, ts: seq<Token>, i: nat)
    requires c.IndexC? && WellFormed(c.of, POSTFIX_LEVEL) && Spells(c.of, ts, i)
    requires WellFormed(c.index, OR_LEVEL) && Spells(c.index, ts, i + Width(c.of) + 1)
    requires TokenIs(ts, i + Width(c.of), LeftBracket) && TokenIs(ts, i + Width(c.of) + 1 + Width(c.index), RightBracket)
    ensures Width(c) == Width(c.of) + 2 + Width(c.index) && WellFormed(c, POSTFIX_LEVEL) && Spells(c, ts, i)
    ensures Build(c, ts, i) ==
      Index(SpanOf(ts, i, i + Width(c)), Build(c.of, ts, i), Build(c.index, ts, i + Width(c.of) + 1))
  {
    hide Build, Spells, Width, WellFormed, SpanOf;
    SpellsTwo(c, c.of, c.index, ts, i);
    WellFormedTwo(c, c.of, c.index, POSTFIX_LEVEL);
    SpellsBounds(c, ts, i);
    BuildPostfix(c, ts, i);
  }

  lemma {:induction false} SoundPrimary(ts: seq<Token>, i: nat) returns (c: Cst)
    requires Ready(ts, i) && ParsePrimary(ts, i).node.Some?
    ensures Derives(c, PRIMARY_LEVEL, ts, i, ParsePrimary(ts, i))
    decreases |ts| - i, 1
  {
    hide ParseOr, ParsePrimary, ParseIdent, Derives;
    PrimaryKinds(ts, i);
    if ts[i].kind == Ident {
      c := SoundIdent(ts, i);
    } else if ts[i].kind == LeftParen {
      var x := Sound(OR_LEVEL, ts, i + 1);
      c := ParenC(x);
      ParenDerives(ts, i, x);
    } else {
      c := if ts[i].kind == Int then IntC(ts[i].value) else if ts[i].kind == Float then FloatC(ts[i].value) else StringC(ts[i].value);
      LeafDerives(ts, i, c);
    }
  }

  lemma PrimaryKinds(ts: seq<Token>, i: nat)
    requires Ready(ts, i) && ParsePrimary(ts, i).node.Some?
    ensures var k := ts[i].kind; k == Ident || k == LeftParen || k == Int || k == Float || k == String
    ensures ts[i].kind == Ident ==> ParsePrimary(ts, i) == ParseIdent(ts, i)
    ensures ts[i].kind == LeftParen ==> Ready(ts, i + 1) && ParseOr(ts, i + 1).node.Some?
  {
    hide ParseOr, ParseIdent, StringValue, ParseInt32, ParseFloat64;
  }

  lemma LeafDerives(ts: seq<Token>, i: nat, c: Cst)
    requires Ready(ts, i) && ParsePrimary(ts, i).node.Some?
    requires match ts[i].kind case Int => c == IntC(ts[i].value) case Float => c == FloatC(ts[i].value)
      case String => c == StringC(ts[i].value) case _ => false
    ensures Derives(c, PRIMARY_LEVEL, ts, i, ParsePrimary(ts, i))
  {
    hide ParseOr, ParseIdent, StringValue, ParseInt32, ParseFloat64, WordNode;
  }

  lemma ParenDerives(ts: seq<Token>, i: nat, x: Cst)
    requires Ready(ts, i) && ts[i].kind == LeftParen && ParsePrimary(ts, i).node.Some?
    requires Ready(ts, i + 1) && Derives(x, OR_LEVEL, ts, i + 1, ParseOr(ts, i + 1))
    ensures Derives(ParenC(x), PRIMARY_LEVEL, ts, i, ParsePrimary(ts, i))
  {
    hide ParseOr, ParseIdent, Spells, WellFormed, Width, Build, SpanOf, StringValue, ParseInt32, ParseFloat64;
    var c := ParenC(x);
    SpellsOne(c, x, 1, ts, i);
    WellFormedOne(c, x, 1, PRIMARY_LEVEL);
    BuildOne(c, x, 1, ts, i);
  }

  lemma WordIntro(c: Cst, ts: seq<Token>, i: nat)
    requires c.WordC? && TokenReads(ts, i, Ident, c.text)
    ensures WellFormed(c, PRIMARY_LEVEL) && Spells(c, ts, i)
  {
  }

  lemma CallIntro(c: Cst, ts: seq<Token>, i: nat)
    requires c.CallC? && (forall a | a in c.args :: WellFormed(a, OR_LEVEL))
    requires TokenReads(ts, i, Ident, c.callee) && TokenIs(ts, i + 1, LeftParen)
    requires SpellsArgs(c.args, ts, i + 2) && TokenIs(ts, i + 2 + ArgsWidth(c.args), RightParen)
    ensures WellFormed(c, PRIMARY_LEVEL) && Spells(c, ts, i) && Width(c) == ArgsWidth(c.args) + 3
    ensures Build(c, ts, i) == Call(SpanOf(ts, i, i + Width(c)), c.callee, BuildArgs(c.args, ts, i + 2))
  {
    hide BuildArgs, ArgsWidth, SpellsArgs;
  }

  lemma {:induction false} SoundIdent(ts: seq<Token>, i: nat) returns (c: Cst)
    requires Ready(ts, i) && ts[i].kind == Ident && ParseIdent(ts, i).node.Some?
    ensures Derives(c, PRIMARY_LEVEL, ts, i, ParseIdent(ts, i))
    decreases |ts| - i, 0
  {
    hide ParseOr, WordNode, ParseArgs, Spells, WellFormed;
    if ts[i + 1].kind != LeftParen {
      c := WordC(ts[i].value);
      assert WellFormed(c, PRIMARY_LEVEL) && Spells(c, ts, i) by { WordIntro(c, ts, i); }
    } else if ts[i + 2].kind == RightParen {
      c := CallC(ts[i].value, []);
      CallIntro(c, ts, i);
    } else {
      var args := SoundArgs(ts, i + 2, []);
      c := CallC(ts[i].value, args);
      CallIntro(c, ts, i);
      assert [] + BuildArgs(args, ts, i + 2) == BuildArgs(args, ts, i + 2);
    }
  }

  lemma {:induction false} SoundArgs(ts: seq<Token>, i: nat, before: seq<Expr>) returns (args: seq<Cst>)
    requires Ready(ts, i) && ParseArgs(ts, i, before).args.Some?
    ensures args != [] && (forall a | a in args :: WellFormed(a, OR_LEVEL)) && SpellsArgs(args, ts, i)
    ensures TokenIs(ts, i + ArgsWidth(args), RightParen)
    ensures ParseArgs(ts, i, before) == ParsedArgs(Some(before + BuildArgs(args, ts, i)), i + ArgsWidth(args) + 1)
    decreases |ts| - i, 13
  {
    hide ParseOr, Build, Spells, Width, WellFormed, SpellsArgs, ArgsWidth, BuildArgs;
    var c := Sound(OR_LEVEL, ts, i);
    var a := ParseOr(ts, i);
    var first := [a.node.value];
    if ts[a.at].kind == Comma {
      var rest := SoundArgs(ts, a.at + 1, before + first);
      args := [c] + rest;
      MoreArgs(c, rest, ts, i);
      assert (before + first) + BuildArgs(rest, ts, a.at + 1) == before + (first + BuildArgs(rest, ts, a.at + 1));
    } else {
      args := [c];
      LastArg(c, ts, i);
    }
  }

  lemma LastArg(c: Cst, ts: seq<Token>, i: nat)
    requires i + Width(c) <= |ts| && Spells(c, ts, i)
    ensures ArgsWidth([c]) == Width(c) && SpellsArgs([c], ts, i) && BuildArgs([c], ts, i) == [Build(c, ts, i)]
  {
    hide Build, Spells, Width;
  }

  lemma MoreArgs(c: Cst, rest: seq<Cst>, ts: seq<Token>, i: nat)
    requires rest != [] && i + Width(c) + 1 + ArgsWidth(rest) <= |ts|
    requires Spells(c, ts, i) && TokenIs(ts, i + Width(c), Comma) && SpellsArgs(rest, ts, i + Width(c) + 1)
    ensures ArgsWidth([c] + rest) == Width(c) + 1 + ArgsWidth(rest) && SpellsArgs([c] + rest, ts, i)
    ensures BuildArgs([c] + rest, ts, i) == [Build(c, ts, i)] + BuildArgs(rest, ts, i + Width(c) + 1)
  {
    hide Build, Spells, Width;
    assert ([c] + rest)[1..] == rest;
  }
}
