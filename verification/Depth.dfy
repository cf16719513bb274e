/** The limit on the depth of an expression (internal/expression/expr_parser.go, expressionExceedingDepth). */
module Depth {
  import opened Text
  import opened Syntax

  const MAX_DEPTH: nat := 50

  function Max(a: nat, b: nat): nat { if a > b then a else b }

  // ----- what the limit means -----

  /** Levels of the tree in which adjacent nodes of one logical operator count once. */
  function FlatDepth(e: Expr): (d: nat)
    ensures d > 0
    decreases e, |Children(e)| + 1
  {
    match e
    case Logic(_, k, l, r) => 1 + Max(OperandDepth(k, l), OperandDepth(k, r))
    case _ => 1 + DepthBelow(e, |Children(e)|)
  }

  /** Depth of the operands below a node of the operator k, through further nodes of k. */
  function OperandDepth(k: LogicOp, e: Expr): (d: nat)
    ensures d > 0
    decreases e, |Children(e)| + 2
  {
    if e.Logic? && e.kind == k then Max(OperandDepth(k, e.left), OperandDepth(k, e.right)) else FlatDepth(e)
  }

  function DepthBelow(e: Expr, n: nat): nat
    requires n <= |Children(e)|
    decreases e, n
  {
    if n == 0 then 0 else Max(DepthBelow(e, n - 1), FlatDepth(Children(e)[n - 1]))
  }

  // ----- the search -----

  function ChildDepth(parent: Expr, child: Expr, depth: nat): nat {
    if parent.Logic? && child.Logic? && parent.kind == child.kind then depth else depth + 1
  }

  /** The node found below e when e is at the given depth: later children are searched first. */
  function Exceeding(e: Expr, depth: nat): Option<Expr>
    decreases e, |Children(e)| + 1
  {
    if depth > MAX_DEPTH then Some(e) else ExceedingChild(e, |Children(e)|, depth)
  }

  function ExceedingChild(e: Expr, n: nat, depth: nat): Option<Expr>
    requires n <= |Children(e)|
    decreases e, n
  {
    if n == 0 then None
    else
      var c := Children(e)[n - 1];
      var found := Exceeding(c, ChildDepth(e, c, depth));
      if found.Some? then found else ExceedingChild(e, n - 1, depth)
  }

  /** The search finds nothing exactly when the tree is shallow enough. */
  lemma {:induction false} ExceedingIsDepth(e: Expr, depth: nat)
    requires depth > 0
    ensures Exceeding(e, depth).None? <==> depth - 1 + FlatDepth(e) <= 50
    decreases e, |Children(e)| + 1
  {
    if depth <= MAX_DEPTH {
      var n := |Children(e)|;
      ExceedingChildIsDepth(e, n, depth);
      DepthBelowMax(e, n);
      if e.Logic? { assert Children(e)[0] == e.left && Children(e)[1] == e.right; }
    }
  }

  lemma {:induction false} ExceedingChildIsDepth(e: Expr, n: nat, depth: nat)
    requires n <= |Children(e)| && 0 < depth <= MAX_DEPTH
    ensures ExceedingChild(e, n, depth).None? <==>
      forall i | 0 <= i < n :: ChildDepth(e, Children(e)[i], depth) - 1 + FlatDepth(Children(e)[i]) <= MAX_DEPTH
    decreases e, n
  {
    if n > 0 {
      ExceedingChildIsDepth(e, n - 1, depth);
      ExceedingIsDepth(Children(e)[n - 1], ChildDepth(e, Children(e)[n - 1], depth));
    }
  }

  lemma {:induction false} DepthBelowMax(e: Expr, n: nat)
    requires n <= |Children(e)|
    ensures forall i | 0 <= i < n :: FlatDepth(Children(e)[i]) <= DepthBelow(e, n)
    ensures DepthBelow(e, n) > 0 ==> exists i | 0 <= i < n :: FlatDepth(Children(e)[i]) == DepthBelow(e, n)
    decreases n
  {
    if n > 0 { DepthBelowMax(e, n - 1); }
  }

  // ----- the search with an explicit stack -----

  datatype Entry = Entry(node: Expr, depth: nat)

  function Size(e: Expr): (n: nat)
    ensures n > 0
    decreases e, |Children(e)| + 1
  {
    1 + SizeBelow(e, |Children(e)|)
  }

  function SizeBelow(e: Expr, n: nat): nat
    requires n <= |Children(e)|
    decreases e, n
  {
    if n == 0 then 0 else SizeBelow(e, n - 1) + Size(Children(e)[n - 1])
  }

  function StackSize(stack: seq<Entry>): nat {
    if stack == [] then 0 else StackSize(stack[..|stack| - 1]) + Size(stack[|stack| - 1].node)
  }

  /** What popping entries until one is too deep finds. */
  function ExceedingStack(stack: seq<Entry>): Option<Expr> {
    if stack == [] then None
    else
      var top := stack[|stack| - 1];
      var found := Exceeding(top.node, top.depth);
      if found.Some? then found else ExceedingStack(stack[..|stack| - 1])
  }

  method ExpressionExceedingDepth(root: Expr) returns (found: Option<Expr>)
    ensures found == Exceeding(root, 1)
    ensures found.None? <==> FlatDepth(root) <= 50
  {
    ExceedingIsDepth(root, 1);
    var stack := [Entry(root, 1)];
    assert stack[..0] == [];
    while |stack| > 0
      invariant ExceedingStack(stack) == Exceeding(root, 1)
      decreases StackSize(stack)
    {
      var current := stack[|stack| - 1];
      stack := stack[..|stack| - 1];
      ghost var rest := stack;
      if current.depth > MAX_DEPTH {
        return Some(current.node);
      }
      var children := Children(current.node);
      for i := 0 to |children|
        invariant StackSize(stack) == StackSize(rest) + SizeBelow(current.node, i)
        invariant ExceedingStack(stack) ==
          var found := ExceedingChild(current.node, i, current.depth);
          if found.Some? then found else ExceedingStack(rest)
      {
        var child := children[i];
        ghost var before := stack;
        stack := stack + [Entry(child, ChildDepth(current.node, child, current.depth))];
        assert stack[..|stack| - 1] == before;
      }
    }
    return None;
  }

  /** A chain of one operator over operands of depth one passes however long it is. */
  function Chain(k: LogicOp, operands: seq<Expr>): Expr
    requires operands != []
  {
    if |operands| == 1 then operands[0] else Logic(NO_SPAN, k, operands[0], Chain(k, operands[1..]))
  }

  lemma {:induction false} ChainDepth(k: LogicOp, operands: seq<Expr>)
    requires operands != [] && forall e | e in operands :: FlatDepth(e) == 1
    ensures OperandDepth(k, Chain(k, operands)) == 1
    ensures Exceeding(Chain(k, operands), 1) == None
  {
    ExceedingIsDepth(Chain(k, operands), 1);
    assert FlatDepth(operands[0]) == 1;
    if |operands| > 1 { ChainDepth(k, operands[1..]); }
  }
}
