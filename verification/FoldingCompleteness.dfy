/** Which expressions fold: exactly those whose evaluated parts are literals, operators and foldable calls (condition_constant.go). */
module FoldingCompleteness {
  import opened Text
  import opened Syntax
  import opened Numbers
  import opened Semantics
  import opened ConstantFolding
  import opened FormatScanners

  // ----- values that print alike everywhere -----

  /** Texts, null, booleans and integers below 10^15; no fraction, no larger number and no minus zero. */
  predicate PrintsAlike(v: Value) {
    v.VStr? || v.VNull? || v.VBool? || (v.VNum? && SmallInteger(v.n))
  }

  lemma PredicateTextExactly(v: Value)
    ensures PredicateText(v).Some? <==> PrintsAlike(v)
  {
  }

  // ----- when a call folds -----

  /** Every field selects an argument that prints alike. */
  predicate FieldsPrint(f: string, args: seq<Value>) {
    FieldsParse(f, 0) && forall n | n in Indices(f, 0, true) + Indices(f, 0, false) :: 0 <= n < |args| && PrintsAlike(args[n])
  }

  /** The call does not depend on how numbers print, on the identities of composite values, on the escapes of JSON, or on which
      of two members with one name is kept. */
  predicate CallFolds(rt: Runtime, f: string, args: seq<Value>) {
    if f == "tojson" then
      |args| == 1 && (args[0].VNull? || args[0].VBool? || (args[0].VStr? && PlainJson(args[0].s)))
    else if f == "fromjson" then
      |args| == 1 && args[0].VStr? && !rt.membersCollide(args[0].s) && rt.decodeJson(args[0].s).Some?
    else if f == "join" then
      && (|args| == 1 || |args| == 2) && !args[0].VNum?
      && (args[0].VArr? ==>
            && (forall v | v in args[0].items :: !v.VNum?)
            && (|args| == 2 && |args[0].items| > 1 ==> !args[1].VNum?))
    else if f == "contains" && |args| == 2 && args[0].VArr? then
      !Composite(args[1]) || forall v | v in args[0].items :: !Composite(v)
    else if f == "contains" || f == "startswith" || f == "endswith" then
      |args| == 2 && PrintsAlike(args[0]) && PrintsAlike(args[1])
    else f == "format" && args != [] && args[0].VStr? && FieldsPrint(args[0].s, args[1..])
  }

  lemma {:induction false} JoinTextsExactly(vs: seq<Value>)
    ensures JoinTexts(vs).Some? <==> forall v | v in vs :: !v.VNum?
  {
    if vs != [] {
      JoinTextsExactly(vs[1..]);
      assert vs == [vs[0]] + vs[1..];
    }
  }

  /** A search is decided unless it has to compare two composite values. */
  lemma {:induction false} ContainsExactly(rt: Runtime, items: seq<Value>, v: Value)
    ensures ContainsKnown(rt, items, v).Some? <==> !Composite(v) || forall x | x in items :: !Composite(x)
    ensures Composite(v) ==> ContainsKnown(rt, items, v) != Some(true)
  {
    if items != [] {
      ContainsExactly(rt, items[1..], v);
      assert items == [items[0]] + items[1..];
    }
  }

  lemma ArgumentFolds(field: string, args: seq<Value>)
    ensures FoldArg(field, args).Some? <==>
      ParseIndex(field).Some? && var n := ParseIndex(field).value; 0 <= n < |args| && PrintsAlike(args[n])
  {
    hide ParseIndex, PrintsAlike, PredicateText;
    var n := ParseIndex(field);
    if n.Some? && 0 <= n.value < |args| { PredicateTextExactly(args[n.value]); }
  }

  lemma PartFolds(f: string, i: nat, args: seq<Value>)
    requires i < |f| && !FormatPartAt(f, i).BadFormat?
    ensures var p := FormatPartAt(f, i);
      FoldFormat(f, i, args).Some? <==> (p.Field? ==> FoldArg(p.field, args).Some?) && FoldFormat(f, p.next, args).Some?
  {
    hide FormatPartAt, FoldArg;
  }

  lemma PartIndices(f: string, i: nat, n: int)
    requires i < |f| && FieldsParse(f, i)
    ensures var p := FormatPartAt(f, i);
      n in Indices(f, i, true) + Indices(f, i, false) <==>
        n in Indices(f, p.next, true) + Indices(f, p.next, false) || (p.Field? && n == ParseIndex(p.field).value)
  {
    hide FormatPartAt, ParseIndex;
  }

  lemma {:induction false} FoldFormatExactly(f: string, i: nat, args: seq<Value>)
    requires i <= |f|
    ensures FoldFormat(f, i, args).Some? <==>
      FieldsParse(f, i)
      && forall n | n in Indices(f, i, true) + Indices(f, i, false) :: 0 <= n < |args| && PrintsAlike(args[n])
    decreases |f| - i
  {
    hide FormatPartAt, PrintsAlike, ParseIndex, FoldArg, Indices;
    if i == |f| {
      NoIndices(f);
    } else if FormatPartAt(f, i).BadFormat? {
      FoldFormatStops(f, i, args);
    } else {
      var p := FormatPartAt(f, i);
      FoldFormatExactly(f, p.next, args);
      PartFolds(f, i, args);
      if p.Field? { ArgumentFolds(p.field, args); }
      if FieldsParse(f, i) {
        forall n ensures n in Indices(f, i, true) + Indices(f, i, false) <==>
          n in Indices(f, p.next, true) + Indices(f, p.next, false) || (p.Field? && n == ParseIndex(p.field).value)
        {
          PartIndices(f, i, n);
        }
        if p.Field? { assert ParseIndex(p.field).value in Indices(f, i, true) + Indices(f, i, false); }
      }
    }
  }

  lemma NoIndices(f: string)
    ensures FieldsParse(f, |f|) && Indices(f, |f|, true) + Indices(f, |f|, false) == {}
  {
  }

  /** A call with known arguments folds exactly when it is one of these, and then to the value of the call. */
  lemma FoldApplyExactly(env: Env, f: string, args: seq<Value>)
    ensures FoldApply(env.rt, f, args).Some? <==> CallFolds(env.rt, f, args)
    ensures CallFolds(env.rt, f, args) ==> FoldApply(env.rt, f, args) == Apply(env, f, args)
  {
    hide FoldFormat, ContainsKnown, JoinTexts, FieldsPrint, Apply, PlainJson, PredicateText, PrintsAlike, EncodeJson,
      TextPredicate, FoldKey;
    FoldApplySound(env, f, args);
    if f == "join" && args != [] && args[0].VArr? {
      JoinTextsExactly(args[0].items);
    } else if f == "format" && args != [] && args[0].VStr? {
      FormatFolds(args[0].s, args[1..]);
    } else if |args| == 2 {
      PredicateTextExactly(args[0]);
      PredicateTextExactly(args[1]);
      if args[0].VArr? { ContainsExactly(env.rt, args[0].items, args[1]); }
    }
  }

  lemma FormatFolds(f: string, args: seq<Value>)
    ensures FoldFormat(f, 0, args).Some? <==> FieldsPrint(f, args)
  {
    FoldFormatExactly(f, 0, args);
  }

  // ----- when an expression folds -----

  /** Every part that the run evaluates is a literal, an operator or a foldable call, and no comparison meets two composites. */
  predicate Portable(e: Expr, env: Env)
    decreases e
  {
    match e
    case Not(_, o) => Portable(o, env)
    case Logic(_, k, l, r) =>
      Portable(l, env) && (Eval(l, env).Some? && Truthy(Eval(l, env).value) != (k == Or) ==> Portable(r, env))
    case Compare(_, _, l, r) =>
      && Portable(l, env) && Portable(r, env)
      && !(Eval(l, env).Some? && Eval(r, env).Some? && Composite(Eval(l, env).value) && Composite(Eval(r, env).value))
    case Call(_, f, args) =>
      if IsCase(f) then PortableCase(args, env)
      else
        && (forall a | a in args :: Portable(a, env))
        && (EvalAll(args, env).Some? ==> CallFolds(env.rt, Lower(f), EvalAll(args, env).value))
    case _ => IsLiteral(e)
  }

  predicate IsLiteral(e: Expr) {
    e.NullLit? || e.BoolLit? || e.IntLit? || e.FloatLit? || e.StrLit?
  }

  /** The predicates up to the first true one, and the branch it selects. */
  predicate PortableCase(args: seq<Expr>, env: Env)
    decreases args
  {
    args != [] ==>
    && Portable(args[0], env)
    && (|args| == 1 || match Eval(args[0], env)
        case Some(VBool(b)) => if b then Portable(args[1], env) else PortableCase(args[2..], env)
        case _ => true)
  }

  /** An expression folds exactly when it is portable and evaluates, and then to its value. */
  lemma {:induction false} FoldsExactly(e: Expr, env: Env)
    ensures ConditionConstantValue(env.rt, e).Some? <==> Portable(e, env) && Eval(e, env).Some?
    ensures Portable(e, env) ==> ConditionConstantValue(env.rt, e) == Eval(e, env)
    decreases e, 1
  {
    hide Lower, FoldApply, CallFolds, Apply, Truthy, CompareNumbers, StringOrder, ToNumber;
    FoldSound(e, env);
    match e
    case Not(_, o) => FoldsExactly(o, env);
    case Logic(_, _, l, r) => FoldsExactly(l, env); FoldsExactly(r, env);
    case Compare(_, _, l, r) => FoldsExactly(l, env); FoldsExactly(r, env);
    case Call(_, f, args) =>
      if IsCase(f) {
        CaseFoldsExactly(args, env);
      } else {
        AllFoldExactly(args, env);
        if EvalAll(args, env).Some? { FoldApplyExactly(env, Lower(f), EvalAll(args, env).value); }
      }
    case _ =>
  }

  lemma {:induction false} AllFoldExactly(args: seq<Expr>, env: Env)
    ensures FoldAll(env.rt, args).Some? <==> (forall a | a in args :: Portable(a, env)) && EvalAll(args, env).Some?
    ensures FoldAll(env.rt, args).Some? ==> FoldAll(env.rt, args) == EvalAll(args, env)
    decreases args, 0
  {
    hide Portable, ConditionConstantValue, Eval;
    if args != [] {
      FoldsExactly(args[0], env);
      AllFoldExactly(args[1..], env);
      assert args == [args[0]] + args[1..];
    }
  }

  lemma {:induction false} CaseFoldsExactly(args: seq<Expr>, env: Env)
    ensures FoldCase(env.rt, args).Some? <==> PortableCase(args, env) && EvalCase(args, env).Some?
    ensures PortableCase(args, env) ==> FoldCase(env.rt, args) == EvalCase(args, env)
    decreases args, 0
  {
    hide Portable, ConditionConstantValue, Eval;
    if args != [] {
      FoldsExactly(args[0], env);
      if |args| > 1 {
        FoldsExactly(args[1], env);
        CaseFoldsExactly(args[2..], env);
      }
    }
  }

  // ----- what this gives -----

  /** Literals under !, &&, ||, comparisons and case. */
  predicate OperatorTree(e: Expr)
    decreases e
  {
    match e
    case Not(_, o) => OperatorTree(o)
    case Logic(_, _, l, r) => OperatorTree(l) && OperatorTree(r)
    case Compare(_, _, l, r) => OperatorTree(l) && OperatorTree(r)
    case Call(_, f, args) => IsCase(f) && forall a | a in args :: OperatorTree(a)
    case _ => IsLiteral(e)
  }

  /** Operators on literals fold to what they evaluate to, and to nothing exactly when evaluation fails. */
  lemma OperatorsFold(e: Expr, env: Env)
    requires OperatorTree(e)
    ensures ConditionConstantValue(env.rt, e) == Eval(e, env)
  {
    OperatorsArePortable(e, env);
    FoldsExactly(e, env);
  }

  lemma {:induction false} OperatorsArePortable(e: Expr, env: Env)
    requires OperatorTree(e)
    ensures Portable(e, env)
    ensures Eval(e, env).Some? ==> !Composite(Eval(e, env).value)
    decreases e, 1
  {
    hide Lower, CompareValues, Truthy;
    match e
    case Not(_, o) => OperatorsArePortable(o, env);
    case Logic(_, _, l, r) => OperatorsArePortable(l, env); OperatorsArePortable(r, env);
    case Compare(_, _, l, r) => OperatorsArePortable(l, env); OperatorsArePortable(r, env);
    case Call(_, f, args) => BranchesArePortable(args, env);
    case _ =>
  }

  lemma {:induction false} BranchesArePortable(args: seq<Expr>, env: Env)
    requires forall a | a in args :: OperatorTree(a)
    ensures PortableCase(args, env)
    ensures EvalCase(args, env).Some? ==> !Composite(EvalCase(args, env).value)
    decreases args, 0
  {
    hide OperatorTree, Portable, Eval;
    if args != [] {
      OperatorsArePortable(args[0], env);
      if |args| > 1 {
        OperatorsArePortable(args[1], env);
        BranchesArePortable(args[2..], env);
      }
    }
  }

  /** A portable left operand that decides folds the whole, whatever stands on the right. */
  lemma LeftDecides(e: Expr, env: Env)
    requires e.Logic? && Portable(e.left, env)
    requires Eval(e.left, env).Some? && Truthy(Eval(e.left, env).value) == (e.kind == Or)
    ensures ConditionConstantValue(env.rt, e) == Eval(e.left, env)
  {
    hide Truthy, ConditionConstantValue;
    FoldsExactly(e, env);
  }

  // ----- comparisons of literals -----

  /** The number that a literal other than a text counts as. */
  function Denoted(e: Expr): Option<real> {
    match e
    case NullLit(_) => Some(0.0)
    case BoolLit(_, b) => Some(if b then 1.0 else 0.0)
    case IntLit(_, t) => Some(IntegerOf(t) as real)
    case FloatLit(_, t) =>
      var n := ParseFloat64(t);
      if n.None? then None
      else if n.value == NegZero then Some(0.0)
      else if n.value.Fin? then Some(n.value.value)
      else None
    case _ => None
  }

  predicate InOrder(op: CompareOp, x: real, y: real) {
    match op
    case Eq => x == y
    case Ne => x != y
    case Lt => x < y
    case Le => x <= y
    case Gt => x > y
    case Ge => x >= y
  }

  lemma NumbersInOrder(op: CompareOp, x: Number, y: Number)
    requires (x == NegZero || x.Fin?) && (y == NegZero || y.Fin?)
    ensures CompareNumbers(op, x, y) == InOrder(op, if x.Fin? then x.value else 0.0, if y.Fin? then y.value else 0.0)
  {
  }

  lemma LiteralFolds(rt: Runtime, e: Expr) returns (v: Value)
    requires Denoted(e).Some?
    ensures ConditionConstantValue(rt, e) == Some(v) && !v.VStr? && !Composite(v)
    ensures var n := ToNumber(rt, v); if n == NegZero then Denoted(e) == Some(0.0) else n == Fin(Denoted(e).value)
  {
    hide IntegerOf, ParseFloat64;
    v := ConditionConstantValue(rt, e).value;
  }

  /** Literals other than texts compare as the numbers they count as; minus zero is zero. */
  lemma NumbersCompare(rt: Runtime, op: CompareOp, l: Expr, r: Expr)
    requires Denoted(l).Some? && Denoted(r).Some?
    ensures ConditionConstantValue(rt, Compare(NO_SPAN, op, l, r)) == Some(VBool(InOrder(op, Denoted(l).value, Denoted(r).value)))
  {
    hide Denoted, InOrder, CompareNumbers, ToNumber, Composite, ConditionConstantValue;
    var v := LiteralFolds(rt, l);
    var w := LiteralFolds(rt, r);
    NumbersInOrder(op, ToNumber(rt, v), ToNumber(rt, w));
    ComparisonFolds(rt, op, l, r, v, w);
  }

  lemma ComparisonFolds(rt: Runtime, op: CompareOp, l: Expr, r: Expr, v: Value, w: Value)
    requires ConditionConstantValue(rt, l) == Some(v) && ConditionConstantValue(rt, r) == Some(w)
    requires !v.VStr? && !Composite(v) && !Composite(w)
    ensures ConditionConstantValue(rt, Compare(NO_SPAN, op, l, r)) == Some(VBool(CompareNumbers(op, ToNumber(rt, v), ToNumber(rt, w))))
  {
    hide CompareNumbers, ToNumber, StringOrder;
  }

  /** A folded literal is false in a condition exactly when it is null, false, a zero or the empty text. */
  lemma FalsyLiterals(rt: Runtime, e: Expr)
    requires IsLiteral(e) && (e.FloatLit? ==> Denoted(e).Some?)
    ensures ConditionConstantValue(rt, Not(NO_SPAN, e)) == Some(VBool(if e.StrLit? then e.str == "" else Denoted(e) == Some(0.0)))
  {
    hide IntegerOf, ParseFloat64;
    assert ConditionConstantValue(rt, e).Some?;
  }

  /** Text literals compare by their UTF-16 code units, without case. */
  lemma TextsCompare(rt: Runtime, op: CompareOp, s: string, t: string)
    ensures var a, b := Utf16(FoldKey(rt, s)), Utf16(FoldKey(rt, t));
      ConditionConstantValue(rt, Compare(NO_SPAN, op, StrLit(NO_SPAN, s), StrLit(NO_SPAN, t))) == Some(VBool(
        match op
        case Eq => a == b
        case Ne => a != b
        case Lt => Before(a, b)
        case Le => Before(a, b) || a == b
        case Gt => Before(b, a)
        case Ge => Before(b, a) || a == b))
  {
    hide Utf16, FoldKey, OrderOf, Before;
    OrderIsLexical(Utf16(FoldKey(rt, s)), Utf16(FoldKey(rt, t)));
    assert ConditionConstantValue(rt, StrLit(NO_SPAN, s)) == Some(VStr(s));
    assert ConditionConstantValue(rt, StrLit(NO_SPAN, t)) == Some(VStr(t));
  }
}
