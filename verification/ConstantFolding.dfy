/** Folding of constant conditions (internal/expression/condition_constant.go) and constancy (expr_sema.go). */
module ConstantFolding {
  import opened Text
  import opened Syntax
  import opened Numbers
  import opened Semantics

  // ----- conservative operations on values -----

  /** The text of a value, where every engine serialises it alike. */
  function PredicateText(v: Value): Option<string> {
    match v
    case VStr(s) => Some(s)
    case VNull => Some("")
    case VBool(b) => Some(BoolText(b))
    case VNum(n) => if SmallInteger(n) then Some(IntegerText(n.value.Floor)) else None
    case _ => None
  }

  function JoinText(v: Value): Option<string> {
    match v
    case VStr(s) => Some(s)
    case VNull => Some("")
    case VBool(b) => Some(BoolText(b))
    case VArr(_) => Some("Array")
    case VObj(_) => Some("Object")
    case VNum(_) => None
  }

  /** Comparing two composite values can require their identities. */
  function CompareConditionValues(rt: Runtime, op: CompareOp, l: Value, r: Value): Option<bool> {
    if l.VStr? && r.VStr? then Some(CompareNumbers(op, Fin(StringOrder(rt, l.s, r.s) as real), Fin(0.0)))
    else if Composite(l) && Composite(r) then None
    else Some(CompareNumbers(op, ToNumber(rt, l), ToNumber(rt, r)))
  }

  /** Whether an array contains a value: one known match is enough, absence needs every comparison. */
  function ContainsKnown(rt: Runtime, items: seq<Value>, v: Value): Option<bool> {
    if items == [] then Some(false)
    else
      var c := CompareConditionValues(rt, Eq, items[0], v);
      if c == Some(true) then Some(true)
      else
        var rest := ContainsKnown(rt, items[1..], v);
        if rest == Some(true) then rest
        else if c.None? then None
        else rest
  }

  function JoinTexts(vs: seq<Value>): (ts: Option<seq<string>>)
    ensures ts.Some? ==> |ts.value| == |vs|
  {
    if vs == [] then Some([])
    else
      var t := JoinText(vs[0]);
      var ts := JoinTexts(vs[1..]);
      if t.None? || ts.None? then None else Some([t.value] + ts.value)
  }

  function FoldSeparator(args: seq<Value>, n: nat): Option<string> {
    if |args| == 2 && n > 1 && !Composite(args[1]) then JoinText(args[1]) else Some(",")
  }

  function FoldJoin(args: seq<Value>): Option<string> {
    if |args| != 1 && |args| != 2 then None
    else match args[0]
    case VArr(items) =>
      var separator := FoldSeparator(args, |items|);
      var parts := JoinTexts(items);
      if separator.None? || parts.None? then None else Some(Join(parts.value, separator.value))
    case VObj(_) => Some("")
    case v => JoinText(v)
  }

  /** Formatting with arguments whose text is known. */
  function FoldFormat(f: string, i: nat, args: seq<Value>): Option<string>
    requires i <= |f|
    decreases |f| - i
  {
    if i == |f| then Some("")
    else
      var p := FormatPartAt(f, i);
      if p.BadFormat? then None
      else
        var first := if p.Field? then FoldArg(p.field, args) else Some([f[i]]);
        var rest := FoldFormat(f, p.next, args);
        if first.None? || rest.None? then None else Some(first.value + rest.value)
  }

  function FoldArg(field: string, args: seq<Value>): Option<string> {
    match ParseIndex(field)
    case Some(n) => if 0 <= n < |args| then PredicateText(args[n]) else None
    case None => None
  }

  function Prepend(s: string, t: Option<string>): Option<string> {
    if t.None? then None else Some(s + t.value)
  }

  lemma FoldFormatStep(out: string, f: string, i: nat, args: seq<Value>, text: string)
    requires i < |f| && !FormatPartAt(f, i).BadFormat?
    requires var p := FormatPartAt(f, i); (if p.Field? then FoldArg(p.field, args) else Some([f[i]])) == Some(text)
    ensures Prepend(out, FoldFormat(f, i, args)) == Prepend(out + text, FoldFormat(f, FormatPartAt(f, i).next, args))
  {
    hide FormatPartAt, FoldArg;
    var rest := FoldFormat(f, FormatPartAt(f, i).next, args);
    if rest.Some? { assert out + (text + rest.value) == (out + text) + rest.value; }
  }

  lemma FoldFormatStops(f: string, i: nat, args: seq<Value>)
    requires i < |f|
    requires var p := FormatPartAt(f, i); p.BadFormat? || (p.Field? && FoldArg(p.field, args).None?)
    ensures FoldFormat(f, i, args) == None
  {
    hide FormatPartAt, FoldArg;
  }

  lemma FoldFormatEnds(f: string, args: seq<Value>)
    ensures FoldFormat(f, |f|, args) == Some("")
  {
  }

  /** The loop that fills a builder while it scans the format string. */
  method ConstantConditionFormat(f: string, args: seq<Value>) returns (r: Option<string>)
    ensures r == FoldFormat(f, 0, args)
  {
    hide FoldFormat;
    var out := "";
    var i := 0;
    ghost var whole := FoldFormat(f, 0, args);
    assert whole.Some? ==> "" + whole.value == whole.value;
    while i < |f|
      invariant i <= |f|
      invariant FoldFormat(f, 0, args) == Prepend(out, FoldFormat(f, i, args))
      decreases |f| - i
    {
      var c := f[i];
      var text := [c];
      var next := i + 1;
      if c == '{' || c == '}' {
        if i + 1 < |f| && f[i + 1] == c {
          next := i + 2;
        } else {
          var end := ClosingBrace(f, i);
          if c != '{' || end == |f| || end < i + 2 {
            FoldFormatStops(f, i, args);
            return None;
          }
          var index := ParseIndex(f[i + 1..end]);
          if index.None? || index.value < 0 || index.value >= |args| {
            FoldFormatStops(f, i, args);
            return None;
          }
          var value := PredicateText(args[index.value]);
          if value.None? {
            FoldFormatStops(f, i, args);
            return None;
          }
          text, next := value.value, end + 1;
        }
      }
      FoldFormatStep(out, f, i, args, text);
      out, i := out + text, next;
    }
    FoldFormatEnds(f, args);
    assert out + "" == out;
    r := Some(out);
  }

  // ----- folding -----

  /** The value of an expression that is known without evaluating it. */
  function ConditionConstantValue(rt: Runtime, e: Expr): Option<Value>
    decreases e
  {
    match e
    case NullLit(_) => Some(VNull)
    case BoolLit(_, b) => Some(VBool(b))
    case IntLit(_, t) => Some(VNum(IntegerNumber(t)))
    case FloatLit(_, t) => if ParseFloat64(t).Some? then Some(VNum(ParseFloat64(t).value)) else None
    case StrLit(_, s) => Some(VStr(s))
    case Not(_, o) =>
      var v := ConditionConstantValue(rt, o);
      if v.None? then None else Some(VBool(!Truthy(v.value)))
    case Logic(_, k, l, r) =>
      var v := ConditionConstantValue(rt, l);
      if v.None? then None
      else if Truthy(v.value) == (k == Or) then v
      else ConditionConstantValue(rt, r)
    case Compare(_, op, l, r) =>
      var v := ConditionConstantValue(rt, l);
      var w := ConditionConstantValue(rt, r);
      if v.None? || w.None? then None
      else
        var c := CompareConditionValues(rt, op, v.value, w.value);
        if c.None? then None else Some(VBool(c.value))
    case Call(_, f, args) =>
      if IsCase(f) then
        if CaseArity(|args|) then FoldCase(rt, args) else None
      else
        var vs := FoldAll(rt, args);
        if vs.None? then None else FoldApply(rt, Lower(f), vs.value)
    case _ => None
  }

  function FoldAll(rt: Runtime, args: seq<Expr>): (vs: Option<seq<Value>>)
    ensures vs.Some? ==> |vs.value| == |args|
    decreases args
  {
    if args == [] then Some([])
    else
      var v := ConditionConstantValue(rt, args[0]);
      var vs := FoldAll(rt, args[1..]);
      if v.None? || vs.None? then None else Some([v.value] + vs.value)
  }

  function FoldCase(rt: Runtime, args: seq<Expr>): Option<Value>
    decreases args
  {
    if args == [] then None
    else if |args| == 1 then ConditionConstantValue(rt, args[0])
    else
      var p := ConditionConstantValue(rt, args[0]);
      if p.None? || !p.value.VBool? then None
      else if p.value.b then ConditionConstantValue(rt, args[1])
      else FoldCase(rt, args[2..])
  }

  function FoldApply(rt: Runtime, f: string, args: seq<Value>): Option<Value> {
    if f == "tojson" then
      if |args| == 1 && (args[0].VNull? || args[0].VBool? || (args[0].VStr? && PlainJson(args[0].s)))
      then Some(VStr(EncodeJson(rt, args[0]))) else None
    else if f == "join" then
      var t := FoldJoin(args);
      if t.None? then None else Some(VStr(t.value))
    else if f == "fromjson" then
      if |args| == 1 && args[0].VStr? && !rt.membersCollide(args[0].s) then rt.decodeJson(args[0].s) else None
    else if f == "contains" || f == "startswith" || f == "endswith" then
      if |args| != 2 then None
      else if f == "contains" && args[0].VArr? then
        var c := ContainsKnown(rt, args[0].items, args[1]);
        if c.None? then None else Some(VBool(c.value))
      else
        var l, r := PredicateText(args[0]), PredicateText(args[1]);
        if l.None? || r.None? then None
        else Some(VBool(TextPredicate(f, FoldKey(rt, l.value), FoldKey(rt, r.value))))
    else if f == "format" then
      if |args| > 0 && args[0].VStr? then
        var t := FoldFormat(args[0].s, 0, args[1..]);
        if t.None? then None else Some(VStr(t.value))
      else None
    else None
  }

  // ----- soundness -----

  lemma {:induction false} ContainsSound(rt: Runtime, items: seq<Value>, v: Value)
    ensures ContainsKnown(rt, items, v).Some? ==> ContainsKnown(rt, items, v).value == Contains(rt, items, v)
  {
    if items != [] {
      ContainsSound(rt, items[1..], v);
      assert Contains(rt, items, v) <==> CompareValues(rt, Eq, items[0], v) || Contains(rt, items[1..], v) by {
        assert forall i | 0 < i < |items| :: items[i] == items[1..][i - 1];
      }
    }
  }

  lemma {:induction false} JoinTextsSound(rt: Runtime, vs: seq<Value>)
    ensures JoinTexts(vs).Some? ==> JoinTexts(vs).value == Texts(rt, vs)
  {
    if vs != [] { JoinTextsSound(rt, vs[1..]); }
  }

  lemma {:induction false} FoldFormatSound(rt: Runtime, f: string, i: nat, args: seq<Value>)
    requires i <= |f|
    ensures FoldFormat(f, i, args).Some? ==> FoldFormat(f, i, args) == Format(rt, f, i, args)
    decreases |f| - i
  {
    if i < |f| && !FormatPartAt(f, i).BadFormat? {
      FoldFormatSound(rt, f, FormatPartAt(f, i).next, args);
    }
  }

  lemma FoldApplySound(env: Env, f: string, args: seq<Value>)
    ensures FoldApply(env.rt, f, args).Some? ==> FoldApply(env.rt, f, args) == Apply(env, f, args)
  {
    hide FoldFormat, Format, ContainsKnown, CompareValues, JoinTexts, Texts;
    var rt := env.rt;
    if f == "join" && FoldJoin(args).Some? {
      if args[0].VArr? { JoinTextsSound(rt, args[0].items); }
    } else if f == "format" && |args| > 0 && args[0].VStr? {
      FoldFormatSound(rt, args[0].s, 0, args[1..]);
    } else if f == "contains" && |args| == 2 && args[0].VArr? {
      ContainsSound(rt, args[0].items, args[1]);
    }
  }

  /** A folded value is what every run evaluates the expression to. */
  lemma {:induction false} FoldSound(e: Expr, env: Env)
    ensures ConditionConstantValue(env.rt, e).Some? ==> Eval(e, env) == ConditionConstantValue(env.rt, e)
    decreases e
  {
    match e
    case Not(_, o) => FoldSound(o, env);
    case Logic(_, _, l, r) => FoldSound(l, env); FoldSound(r, env);
    case Compare(_, _, l, r) => FoldSound(l, env); FoldSound(r, env);
    case Call(_, f, args) =>
      if IsCase(f) {
        FoldCaseSound(args, env);
      } else {
        FoldAllSound(args, env);
        var vs := FoldAll(env.rt, args);
        if vs.Some? { FoldApplySound(env, Lower(f), vs.value); }
      }
    case _ =>
  }

  lemma {:induction false} FoldAllSound(args: seq<Expr>, env: Env)
    ensures FoldAll(env.rt, args).Some? ==> EvalAll(args, env) == FoldAll(env.rt, args)
    decreases args
  {
    if args != [] {
      FoldSound(args[0], env);
      FoldAllSound(args[1..], env);
    }
  }

  lemma {:induction false} FoldCaseSound(args: seq<Expr>, env: Env)
    ensures FoldCase(env.rt, args).Some? ==> EvalCase(args, env) == FoldCase(env.rt, args)
    decreases args
  {
    if args != [] {
      FoldSound(args[0], env);
      if |args| > 1 {
        FoldSound(args[1], env);
        FoldCaseSound(args[2..], env);
      }
    }
  }

  // ----- constant expressions -----

  /** No context is read and every function called is one of the constant functions. */
  predicate IsConstant(e: Expr, constFuncs: set<string>)
    decreases e
  {
    match e
    case NullLit(_) | BoolLit(_, _) | IntLit(_, _) | FloatLit(_, _) | StrLit(_, _) => true
    case Not(_, o) => IsConstant(o, constFuncs)
    case Compare(_, _, l, r) => IsConstant(l, constFuncs) && IsConstant(r, constFuncs)
    case Logic(_, _, l, r) => IsConstant(l, constFuncs) && IsConstant(r, constFuncs)
    case Call(_, f, args) => (forall a | a in args :: IsConstant(a, constFuncs)) && Lower(f) in constFuncs
    case _ => false
  }

  /** Two runs of the same runner whose constant functions are the same functions. */
  ghost predicate SameFunctions(env: Env, env': Env, constFuncs: set<string>) {
    env.rt == env'.rt && forall f, vs | f in constFuncs :: env.call(f, vs) == env'.call(f, vs)
  }

  /** A constant expression evaluates alike whatever the contexts hold, and fails alike. */
  lemma {:induction false} ConstantIsIndependent(e: Expr, env: Env, env': Env, constFuncs: set<string>)
    requires IsConstant(e, constFuncs) && SameFunctions(env, env', constFuncs)
    ensures Eval(e, env) == Eval(e, env')
    decreases e
  {
    match e
    case Not(_, o) => ConstantIsIndependent(o, env, env', constFuncs);
    case Compare(_, _, l, r) =>
      ConstantIsIndependent(l, env, env', constFuncs);
      ConstantIsIndependent(r, env, env', constFuncs);
    case Logic(_, _, l, r) =>
      ConstantIsIndependent(l, env, env', constFuncs);
      ConstantIsIndependent(r, env, env', constFuncs);
    case Call(_, f, args) => ConstantArgs(args, env, env', constFuncs);
    case _ =>
  }

  lemma {:induction false} ConstantArgs(args: seq<Expr>, env: Env, env': Env, constFuncs: set<string>)
    requires (forall a | a in args :: IsConstant(a, constFuncs)) && SameFunctions(env, env', constFuncs)
    ensures EvalAll(args, env) == EvalAll(args, env') && EvalCase(args, env) == EvalCase(args, env')
    decreases args
  {
    if args != [] {
      ConstantIsIndependent(args[0], env, env', constFuncs);
      ConstantArgs(args[1..], env, env', constFuncs);
      if |args| > 1 {
        ConstantIsIndependent(args[1], env, env', constFuncs);
        ConstantArgs(args[2..], env, env', constFuncs);
      }
    }
  }
}
