/** Which containers serializing a selection reports (internal/expression/expr_insecure.go, serializedContainers). */
module UntrustedSelections {
  import opened Text
  import opened Syntax
  import opened Semantics
  import opened ConstantFolding
  import opened UntrustedInputs
  import opened UntrustedMatches

  // ----- the part of an expression that a run selects -----

  /** The operand or branch whose value is the value of the expression in the run. */
  function Selection(e: Expr, env: Env): Expr
    decreases e
  {
    match e
    case Logic(_, k, l, r) =>
      var v := Eval(l, env);
      if v.Some? && Truthy(v.value) == (k == Or) then Selection(l, env) else Selection(r, env)
    case Call(_, f, args) => if IsCase(f) && CaseArity(|args|) then CaseSelection(args, env, e) else e
    case _ => e
  }

  function CaseSelection(args: seq<Expr>, env: Env, none: Expr): Expr
    decreases args
  {
    if args == [] then none
    else if |args| == 1 then Selection(args[0], env)
    else if Eval(args[0], env) == Some(VBool(true)) then Selection(args[1], env)
    else CaseSelection(args[2..], env, none)
  }

  /** Some operands or branches along the way could be chosen for their value. */
  predicate MaySelect(e: Expr, a: Expr)
    decreases e
  {
    match e
    case Logic(_, k, l, r) => MaySelect(r, a) || (k == Or && MaySelect(l, a))
    case Call(_, f, args) =>
      IsCase(f) && CaseArity(|args|)
      && exists i | 0 <= i < |args| :: (i % 2 == 1 || i == |args| - 1) && MaySelect(args[i], a)
    case _ => e == a
  }

  /** The path is one that the access leads along, to a container. */
  predicate Container(roots: Roots, a: Expr, path: seq<string>) {
    Finds(roots, a, true, path) && !Finds(roots, a, false, path)
  }

  // ----- one access -----

  lemma ContainersOf(roots: Roots, a: Expr, path: seq<string>)
    requires Followed(roots, a).Some?
    ensures path in Inputs(Followed(roots, a).value, false, true) <==> Container(roots, a, path)
  {
    hide Followed, Segments, Matches;
    FollowedReaches(roots, a);
    InputsExactly(roots, a, false, path);
    InputsExactly(roots, a, true, path);
    var t := Followed(roots, a).value;
    forall c, d | c in t.cur && d in t.cur && c.path == d.path ensures c == d {}
  }

  lemma AccessContainers(rt: Runtime, roots: Roots, a: Expr, r: Report)
    requires !a.Logic? && !a.Call?
    ensures r in Containers(rt, roots, a) <==>
      r.start == a && r.inputs != {} && forall path :: path in r.inputs <==> Container(roots, a, path)
  {
    hide Followed, Finds, Inputs;
    FollowedExactly(roots, a);
    if Followed(roots, a).Some? {
      FollowedStart(roots, a);
      var inputs := Inputs(Followed(roots, a).value, false, true);
      forall path ensures path in inputs <==> Container(roots, a, path) { ContainersOf(roots, a, path); }
      if Followed(roots, a).value.start.None? { NothingInside(Followed(roots, a).value); }
      assert (forall path :: path in r.inputs <==> Container(roots, a, path)) <==> r.inputs == inputs;
    } else {
      forall path ensures !Finds(roots, a, true, path) { NoRoot(roots, a, true, path); }
      if r.inputs != {} { var path :| path in r.inputs; }
    }
  }

  lemma NothingInside(t: Track)
    requires t.cur == {}
    ensures Inputs(t, false, true) == {}
  {
  }

  // ----- only selectable accesses are reported -----

  /** Whatever is reported for a serialized selection is an access that may be selected, with exactly the containers it leads to. */
  lemma {:induction false} ReportedMayBeSelected(rt: Runtime, roots: Roots, e: Expr, r: Report)
    requires r in Containers(rt, roots, e)
    ensures MaySelect(e, r.start)
    ensures forall path :: path in r.inputs <==> Container(roots, r.start, path)
    decreases e, 1, 0
  {
    hide Followed, Container, Truthy;
    match e
    case Logic(_, k, l, right) =>
      if r in Containers(rt, roots, right) { ReportedMayBeSelected(rt, roots, right, r); }
      if k == Or && r in Containers(rt, roots, l) { ReportedMayBeSelected(rt, roots, l, r); }
    case Call(_, _, args) =>
      var i := ReportedBranch(rt, roots, e, 0, r);
    case _ => AccessContainers(rt, roots, e, r);
  }

  lemma {:induction false} ReportedBranch(rt: Runtime, roots: Roots, e: Expr, i: nat, r: Report) returns (k: nat)
    requires e.Call? && CaseArity(|e.args|) && i < |e.args| && i % 2 == 0 && r in CaseContainers(rt, roots, e, i)
    ensures k < |e.args| && (k % 2 == 1 || k == |e.args| - 1) && MaySelect(e.args[k], r.start)
    ensures forall path :: path in r.inputs <==> Container(roots, r.start, path)
    decreases e, 0, |e.args| - i
  {
    hide Container, Truthy, MaySelect;
    if i == |e.args| - 1 {
      k := i;
      ReportedMayBeSelected(rt, roots, e.args[i], r);
    } else if r in Containers(rt, roots, e.args[i + 1]) {
      k := i + 1;
      ReportedMayBeSelected(rt, roots, e.args[k], r);
    } else {
      k := ReportedBranch(rt, roots, e, i + 2, r);
    }
  }

  // ----- what a run selects is reported -----

  /** What folds is no access, whatever branch is selected. */
  lemma {:induction false} FoldedSelection(e: Expr, env: Env)
    requires ConditionConstantValue(env.rt, e).Some?
    ensures !IsAccess(Selection(e, env))
    decreases e
  {
    hide Truthy, Lower, CompareConditionValues, FoldApply;
    match e
    case Logic(_, _, l, r) =>
      FoldSound(l, env);
      FoldedSelection(l, env);
      if ConditionConstantValue(env.rt, r).Some? { FoldedSelection(r, env); }
    case Call(_, _, args) => if IsCase(e.callee) { FoldedBranch(args, env, e); }
    case _ =>
  }

  lemma {:induction false} FoldedBranch(args: seq<Expr>, env: Env, none: Expr)
    requires FoldCase(env.rt, args).Some?
    ensures !IsAccess(CaseSelection(args, env, none))
    decreases args
  {
    if |args| == 1 {
      FoldedSelection(args[0], env);
    } else {
      FoldSound(args[0], env);
      if FoldCase(env.rt, args[2..]).Some? { FoldedBranch(args[2..], env, none); }
      if ConditionConstantValue(env.rt, args[1]).Some? { FoldedSelection(args[1], env); }
    }
  }

  /** The containers that the access a run selects leads to are reported, at that access, when its value is one. */
  lemma {:induction false} SelectionReported(roots: Roots, e: Expr, env: Env, path: seq<string>) returns (r: Report)
    requires Eval(e, env).Some? && Truthy(Eval(e, env).value)
    requires IsAccess(Selection(e, env)) && Container(roots, Selection(e, env), path)
    ensures r in Containers(env.rt, roots, e) && r.start == Selection(e, env) && path in r.inputs
    decreases e, 1, 0
  {
    hide Followed, Container, Lower, Truthy;
    match e
    case Logic(_, k, l, right) =>
      FoldSound(l, env);
      if Truthy(Eval(l, env).value) == (k == Or) {
        if ConditionConstantValue(env.rt, l).Some? { FoldedSelection(l, env); }
        r := SelectionReported(roots, l, env, path);
      } else {
        r := SelectionReported(roots, right, env, path);
      }
    case Call(_, _, args) =>
      assert args[0..] == args;
      r := BranchReported(roots, e, env, 0, path);
    case _ => r := AccessReportsContainer(env.rt, roots, e, path);
  }

  lemma {:induction false} BranchReported(roots: Roots, e: Expr, env: Env, i: nat, path: seq<string>) returns (r: Report)
    requires e.Call? && IsCase(e.callee) && CaseArity(|e.args|) && i < |e.args| && i % 2 == 0
    requires EvalCase(e.args[i..], env).Some? && Truthy(EvalCase(e.args[i..], env).value)
    requires var a := CaseSelection(e.args[i..], env, e); IsAccess(a) && Container(roots, a, path)
    ensures r in CaseContainers(env.rt, roots, e, i) && r.start == CaseSelection(e.args[i..], env, e) && path in r.inputs
    decreases e, 0, |e.args| - i
  {
    hide Container, Lower;
    var args := e.args[i..];
    if |args| == 1 {
      r := SelectionReported(roots, args[0], env, path);
    } else {
      FoldSound(args[0], env);
      if Eval(args[0], env).value.b {
        r := SelectionReported(roots, args[1], env, path);
      } else {
        assert args[2..] == e.args[i + 2..];
        r := BranchReported(roots, e, env, i + 2, path);
      }
    }
  }

  lemma AccessReportsContainer(rt: Runtime, roots: Roots, a: Expr, path: seq<string>) returns (r: Report)
    requires IsAccess(a) && Container(roots, a, path)
    ensures r in Containers(rt, roots, a) && r.start == a && path in r.inputs
  {
    hide Followed, Container, Inputs;
    FollowedExactly(roots, a);
    if Followed(roots, a).None? { NoContainer(roots, a, path); }
    r := Report(a, Inputs(Followed(roots, a).value, false, true));
    forall p ensures p in r.inputs <==> Container(roots, a, p) { ContainersOf(roots, a, p); }
    AccessContainers(rt, roots, a, r);
  }

  lemma NoContainer(roots: Roots, a: Expr, path: seq<string>)
    requires Root(a).None?
    ensures !Container(roots, a, path)
  {
  }
}
