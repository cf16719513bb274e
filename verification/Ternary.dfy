/** Definite truthiness, and ternaries that can only select their fallback (internal/expression/expr_ternary.go). */
module Ternary {
  import opened Text
  import opened Syntax
  import opened Semantics
  import opened ConstantFolding

  function TruthinessOf(v: Option<Value>): Option<bool> {
    if v.None? then None else Some(Truthy(v.value))
  }

  /** The truthiness that several possible values share. */
  function OperandTruthy(rt: Runtime, e: Expr): Option<bool>
    decreases e
  {
    if e.Call? && IsCase(e.callee) then
      if CaseArity(|e.args|) then CaseTruthy(rt, e.args, None) else None
    else match e
    case Not(_, o) =>
      var t := OperandTruthy(rt, o);
      if t.None? then None else Some(!t.value)
    case Logic(_, k, l, r) =>
      var left := OperandTruthy(rt, l);
      var shortCircuit := k == Or;
      if left == Some(shortCircuit) then left
      else
        var right := OperandTruthy(rt, r);
        if left.Some? || right == Some(shortCircuit) then right else None
    case _ =>
      TruthinessOf(ConditionConstantValue(rt, e))
  }

  /** A value must be known, and agree with the values merged before it. */
  function Merge(result: Option<bool>, t: Option<bool>): Option<bool> {
    if t.None? || (result.Some? && result != t) then None else t
  }

  /** The remaining branches of a case call, after branches with the given common truthiness. */
  function CaseTruthy(rt: Runtime, args: seq<Expr>, result: Option<bool>): Option<bool>
    decreases args
  {
    if args == [] then None
    else if |args| == 1 then Merge(result, OperandTruthy(rt, args[0]))
    else
      var p := OperandTruthy(rt, args[0]);
      if p == Some(false) then CaseTruthy(rt, args[2..], result)
      else
        var merged := Merge(result, OperandTruthy(rt, args[1]));
        if merged.None? || p.Some? then merged else CaseTruthy(rt, args[2..], merged)
  }

  method TernaryOperandTruthy(rt: Runtime, e: Expr) returns (t: Option<bool>)
    ensures t == OperandTruthy(rt, e)
    decreases e
  {
    if e.Call? && IsCase(e.callee) {
      t := TernaryCaseTruthy(rt, e.args);
      return;
    }
    match e {
      case Not(_, o) =>
        var inner := TernaryOperandTruthy(rt, o);
        t := if inner.None? then None else Some(!inner.value);
      case Logic(_, k, l, r) =>
        var left := TernaryOperandTruthy(rt, l);
        if left == Some(k == Or) { return left; }
        var right := TernaryOperandTruthy(rt, r);
        t := if left.Some? || right == Some(k == Or) then right else None;
      case _ =>
        t := TruthinessOf(ConditionConstantValue(rt, e));
    }
  }

  /** The loop over predicate and value pairs, which gathers a common result. */
  method TernaryCaseTruthy(rt: Runtime, args: seq<Expr>) returns (t: Option<bool>)
    ensures t == if CaseArity(|args|) then CaseTruthy(rt, args, None) else None
    decreases args
  {
    if |args| < 3 || |args| % 2 == 0 { return None; }
    var result: Option<bool> := None;
    var i := 0;
    while i < |args| - 1
      invariant i % 2 == 0 && i <= |args| - 1
      invariant CaseTruthy(rt, args, None) == CaseTruthy(rt, args[i..], result)
    {
      assert args[i..][0] == args[i] && args[i..][1] == args[i + 1] && args[i..][2..] == args[i + 2..];
      var p := TernaryOperandTruthy(rt, args[i]);
      if p != Some(false) {
        var v := TernaryOperandTruthy(rt, args[i + 1]);
        if v.None? || (result.Some? && result != v) { return None; }
        result := v;
        if p.Some? { return result; }
      }
      i := i + 2;
    }
    var v := TernaryOperandTruthy(rt, args[|args| - 1]);
    if v.None? || (result.Some? && result != v) { return None; }
    t := v;
  }

  // ----- what is known -----

  /** Reading each operand that does not fold as either truth, the expression can have the given one. */
  predicate MayBe(rt: Runtime, e: Expr, truth: bool)
    decreases e
  {
    match e
    case Not(_, o) => MayBe(rt, o, !truth)
    case Logic(_, And, l, r) => if truth then MayBe(rt, l, true) && MayBe(rt, r, true)
      else MayBe(rt, l, false) || (MayBe(rt, l, true) && MayBe(rt, r, false))
    case Logic(_, Or, l, r) => if truth then MayBe(rt, l, true) || (MayBe(rt, l, false) && MayBe(rt, r, true))
      else MayBe(rt, l, false) && MayBe(rt, r, false)
    case Call(_, f, args) =>
      if IsCase(f) then !CaseArity(|args|) || CaseMayBe(rt, args, truth) else TruthinessOf(ConditionConstantValue(rt, e)) != Some(!truth)
    case _ => TruthinessOf(ConditionConstantValue(rt, e)) != Some(!truth)
  }

  /** Some branch that may be selected may have the truth. */
  predicate CaseMayBe(rt: Runtime, args: seq<Expr>, truth: bool)
    decreases args
  {
    if |args| <= 1 then args != [] && MayBe(rt, args[0], truth)
    else (MayBe(rt, args[0], true) && MayBe(rt, args[1], truth)) || (MayBe(rt, args[0], false) && CaseMayBe(rt, args[2..], truth))
  }

  /** The truth of an operand is known exactly when its other truth is excluded. */
  lemma {:induction false} KnownExactly(rt: Runtime, e: Expr)
    ensures OperandTruthy(rt, e) == Some(true) <==> !MayBe(rt, e, false)
    ensures OperandTruthy(rt, e) == Some(false) <==> !MayBe(rt, e, true)
    decreases e
  {
    hide ConditionConstantValue, Truthy;
    match e
    case Not(_, o) => KnownExactly(rt, o);
    case Logic(_, k, l, r) =>
      KnownExactly(rt, l);
      KnownExactly(rt, r);
      ThreeTruths(OperandTruthy(rt, l));
      ThreeTruths(OperandTruthy(rt, r));
    case Call(_, f, args) => if IsCase(f) && CaseArity(|args|) { CaseKnownExactly(rt, args, None); }
    case _ =>
  }

  lemma {:induction false} CaseKnownExactly(rt: Runtime, args: seq<Expr>, result: Option<bool>)
    requires |args| % 2 == 1
    ensures CaseTruthy(rt, args, result) == Some(true) <==> !CaseMayBe(rt, args, false) && result != Some(false)
    ensures CaseTruthy(rt, args, result) == Some(false) <==> !CaseMayBe(rt, args, true) && result != Some(true)
    ensures CaseMayBe(rt, args, true) || CaseMayBe(rt, args, false)
    decreases args
  {
    hide OperandTruthy, MayBe;
    KnownExactly(rt, args[0]);
    ThreeTruths(OperandTruthy(rt, args[0]));
    ThreeTruths(result);
    if |args| > 1 {
      KnownExactly(rt, args[1]);
      ThreeTruths(OperandTruthy(rt, args[1]));
      CaseKnownExactly(rt, args[2..], result);
      CaseKnownExactly(rt, args[2..], Merge(result, OperandTruthy(rt, args[1])));
    }
  }

  // ----- soundness -----

  /** A known truthiness is the truthiness of every value the expression evaluates to. */
  lemma {:induction false} OperandTruthySound(e: Expr, env: Env)
    requires OperandTruthy(env.rt, e).Some? && Eval(e, env).Some?
    ensures Truthy(Eval(e, env).value) == OperandTruthy(env.rt, e).value
    decreases e
  {
    if e.Call? && IsCase(e.callee) {
      CaseTruthySound(e.args, None, env);
      return;
    }
    match e
    case Not(_, o) => OperandTruthySound(o, env);
    case Logic(_, k, l, r) =>
      if OperandTruthy(env.rt, l).Some? { OperandTruthySound(l, env); }
      if OperandTruthy(env.rt, r).Some? && Eval(r, env).Some? { OperandTruthySound(r, env); }
    case _ => FoldSound(e, env);
  }

  lemma {:induction false} CaseTruthySound(args: seq<Expr>, result: Option<bool>, env: Env)
    requires CaseTruthy(env.rt, args, result).Some?
    ensures result.Some? ==> CaseTruthy(env.rt, args, result) == result
    ensures EvalCase(args, env).Some? ==> Truthy(EvalCase(args, env).value) == CaseTruthy(env.rt, args, result).value
    decreases args
  {
    if args != [] {
      if OperandTruthy(env.rt, args[0]).Some? && Eval(args[0], env).Some? { OperandTruthySound(args[0], env); }
      if |args| > 1 {
        if OperandTruthy(env.rt, args[1]).Some? && Eval(args[1], env).Some? { OperandTruthySound(args[1], env); }
        var p := OperandTruthy(env.rt, args[0]);
        var merged := Merge(result, OperandTruthy(env.rt, args[1]));
        if p == Some(false) {
          CaseTruthySound(args[2..], result, env);
        } else if p.None? && merged.Some? {
          CaseTruthySound(args[2..], merged, env);
        }
      }
    }
  }

  /** The truthiness of a foldable expression is known, and is that of its folded value. */
  lemma {:induction false} FoldedIsKnown(rt: Runtime, e: Expr)
    requires ConditionConstantValue(rt, e).Some?
    ensures OperandTruthy(rt, e) == Some(Truthy(ConditionConstantValue(rt, e).value))
    decreases e
  {
    match e
    case Not(_, o) => FoldedIsKnown(rt, o);
    case Logic(_, k, l, r) =>
      FoldedIsKnown(rt, l);
      if Truthy(ConditionConstantValue(rt, l).value) != (k == Or) { FoldedIsKnown(rt, r); }
    case Call(_, f, args) => if IsCase(f) { FoldedCaseIsKnown(rt, args); }
    case _ =>
  }

  lemma {:induction false} FoldedCaseIsKnown(rt: Runtime, args: seq<Expr>)
    requires FoldCase(rt, args).Some?
    ensures CaseTruthy(rt, args, None) == Some(Truthy(FoldCase(rt, args).value))
    decreases args
  {
    FoldedIsKnown(rt, args[0]);
    if |args| > 1 {
      if ConditionConstantValue(rt, args[0]).value.b {
        FoldedIsKnown(rt, args[1]);
      } else {
        FoldedCaseIsKnown(rt, args[2..]);
      }
    }
  }

  // ----- unsound ternaries -----

  /** a && b || c whose middle operand is known to be falsy. */
  predicate Unsound(rt: Runtime, e: Expr) {
    e.Logic? && e.kind == Or && e.left.Logic? && e.left.kind == And && OperandTruthy(rt, e.left.right) == Some(false)
  }

  /** The middle operands reported for an expression, in visiting order. */
  function Findings(rt: Runtime, e: Expr): seq<Expr>
    decreases e, |VisitOrder(e)| + 1
  {
    (if Unsound(rt, e) then [e.left.right] else []) + FindingsBelow(rt, e, |VisitOrder(e)|)
  }

  function FindingsBelow(rt: Runtime, e: Expr, n: nat): seq<Expr>
    requires n <= |VisitOrder(e)|
    decreases e, n
  {
    if n == 0 then [] else FindingsBelow(rt, e, n - 1) + Findings(rt, VisitOrder(e)[n - 1])
  }

  method CheckUnsoundTernaries(rt: Runtime, e: Expr) returns (findings: seq<Expr>)
    ensures findings == Findings(rt, e)
    decreases e
  {
    hide OperandTruthy, Findings, FindingsBelow, Unsound, VisitOrder;
    findings := [];
    if e.Logic? && e.kind == Or && e.left.Logic? && e.left.kind == And {
      var middle := TernaryOperandTruthy(rt, e.left.right);
      if middle == Some(false) { findings := [e.left.right]; }
    }
    UnsoundExactly(rt, e);
    ghost var own := findings;
    FindingsAre(rt, e);
    FindingsNone(rt, e);
    var children := VisitOrder(e);
    for i := 0 to |children|
      invariant findings == own + FindingsBelow(rt, e, i)
    {
      FindingsNext(rt, e, i);
      var below := CheckUnsoundTernaries(rt, children[i]);
      findings := findings + below;
    }
  }

  lemma UnsoundExactly(rt: Runtime, e: Expr)
    ensures Unsound(rt, e) <==>
      e.Logic? && e.kind == Or && e.left.Logic? && e.left.kind == And && OperandTruthy(rt, e.left.right) == Some(false)
  {
    hide OperandTruthy;
  }

  lemma FindingsNone(rt: Runtime, e: Expr)
    ensures FindingsBelow(rt, e, 0) == []
  {
  }

  lemma FindingsNext(rt: Runtime, e: Expr, n: nat)
    requires n < |VisitOrder(e)|
    ensures VisitOrder(e)[n] in VisitOrder(e)
    ensures FindingsBelow(rt, e, n + 1) == FindingsBelow(rt, e, n) + Findings(rt, VisitOrder(e)[n])
  {
    hide Findings, VisitOrder;
  }

  lemma FindingsAre(rt: Runtime, e: Expr)
    ensures Findings(rt, e) == (if Unsound(rt, e) then [e.left.right] else []) + FindingsBelow(rt, e, |VisitOrder(e)|)
  {
  }

  /** The middle of the unsound ternary at the path. */
  predicate MiddleAt(rt: Runtime, e: Expr, path: seq<nat>, middle: Expr) {
    Sub(e, path).Some? && Unsound(rt, Sub(e, path).value) && middle == Sub(e, path).value.left.right
  }

  lemma {:induction false} FoundBelow(rt: Runtime, e: Expr, n: nat, middle: Expr)
    requires n <= |VisitOrder(e)|
    ensures middle in FindingsBelow(rt, e, n) <==> exists i | 0 <= i < n :: middle in Findings(rt, VisitOrder(e)[i])
    decreases n
  {
    hide Findings, VisitOrder;
    if n > 0 {
      FoundBelow(rt, e, n - 1, middle);
      FindingsNext(rt, e, n - 1);
    } else {
      FindingsNone(rt, e);
    }
  }

  lemma {:induction false} MiddleIsFound(rt: Runtime, e: Expr, path: seq<nat>, middle: Expr)
    requires MiddleAt(rt, e, path, middle)
    ensures middle in Findings(rt, e)
    decreases |path|
  {
    hide Findings, FindingsBelow, MiddleAt, Unsound;
    FindingsAre(rt, e);
    if path == [] {
      MiddleHere(rt, e, middle);
    } else {
      MiddleBelow(rt, e, path, middle);
      MiddleIsFound(rt, Children(e)[path[0]], path[1..], middle);
      FoundBelow(rt, e, |VisitOrder(e)|, middle);
      assert Children(e)[path[0]] in VisitOrder(e);
    }
  }

  lemma {:induction false} FoundIsMiddle(rt: Runtime, e: Expr, middle: Expr) returns (path: seq<nat>)
    requires middle in Findings(rt, e)
    ensures MiddleAt(rt, e, path, middle)
    decreases e
  {
    hide Findings, FindingsBelow, MiddleAt, Unsound;
    FindingsAre(rt, e);
    MiddleHere(rt, e, middle);
    path := [];
    if !MiddleAt(rt, e, [], middle) {
      FoundBelow(rt, e, |VisitOrder(e)|, middle);
      var i :| 0 <= i < |VisitOrder(e)| && middle in Findings(rt, VisitOrder(e)[i]);
      assert VisitOrder(e)[i] in Children(e);
      var k :| 0 <= k < |Children(e)| && Children(e)[k] == VisitOrder(e)[i];
      var below := FoundIsMiddle(rt, Children(e)[k], middle);
      path := [k] + below;
      assert path[1..] == below;
      MiddleBelow(rt, e, path, middle);
    }
  }

  /** The findings are the middles of the unsound ternaries anywhere in the expression. */
  lemma FindingsExactly(rt: Runtime, e: Expr, middle: Expr)
    ensures middle in Findings(rt, e) <==> exists path :: MiddleAt(rt, e, path, middle)
  {
    hide Findings, MiddleAt;
    if middle in Findings(rt, e) { var path := FoundIsMiddle(rt, e, middle); }
    forall path | MiddleAt(rt, e, path, middle) ensures middle in Findings(rt, e) { MiddleIsFound(rt, e, path, middle); }
  }

  lemma MiddleHere(rt: Runtime, e: Expr, middle: Expr)
    ensures MiddleAt(rt, e, [], middle) <==> Unsound(rt, e) && middle == e.left.right
  {
  }

  lemma MiddleBelow(rt: Runtime, e: Expr, path: seq<nat>, middle: Expr)
    requires path != []
    ensures MiddleAt(rt, e, path, middle) <==> path[0] < |Children(e)| && MiddleAt(rt, Children(e)[path[0]], path[1..], middle)
  {
    hide Unsound, Children;
  }

  /** A reported ternary has the value of its fallback: always when it has a value, and it has one when a and b do. */
  lemma UnsoundSelectsFallback(e: Expr, env: Env)
    requires Unsound(env.rt, e)
    ensures Eval(e, env).Some? ==> Eval(e, env) == Eval(e.right, env)
    ensures Eval(e.left.left, env).Some? && Eval(e.left.right, env).Some? ==> Eval(e, env) == Eval(e.right, env)
  {
    if Eval(e.left.right, env).Some? { OperandTruthySound(e.left.right, env); }
  }
}
