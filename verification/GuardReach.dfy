/** Under which events each node is checked, and that every node a run reaches is (internal/expression/expr_sema.go). */
module GuardReach {
  import opened Text
  import opened Syntax
  import opened Semantics
  import opened EventTypes
  import opened EventGuards
  import opened UntrustedInputs
  import opened UntrustedWalks
  import opened UntrustedTargets
  import opened GuardCheck

  // ----- the guards that a node stands behind -----

  datatype Guard = Guard(condition: Expr, truth: bool)

  /** The guards before an argument of a case call: the conditions before its own, and its own. */
  function BranchGuards(args: seq<Expr>, k: nat): seq<Guard>
    decreases args
  {
    if k == 0 || |args| < 2 then []
    else if k == 1 then [Guard(args[0], true)]
    else [Guard(args[0], false)] + BranchGuards(args[2..], k - 2)
  }

  /** The guards that a node puts before its child. */
  function StepGuards(e: Expr, k: nat): seq<Guard> {
    match e
    case Logic(_, kind, l, _) => if k == 1 then [Guard(l, kind == And)] else []
    case Call(_, f, args) => if IsCase(f) && CaseArity(|args|) then BranchGuards(args, k) else []
    case _ => []
  }

  /** The guards along the path, outermost first. */
  function GuardsAlong(e: Expr, path: seq<nat>): seq<Guard>
    decreases |path|
  {
    if path == [] || path[0] >= |Children(e)| then []
    else StepGuards(e, path[0]) + GuardsAlong(Children(e)[path[0]], path[1..])
  }

  /** No guard is decided against the variant. */
  predicate PassesAll(rt: Runtime, gs: seq<Guard>, v: EventVariant) {
    forall g | g in gs :: EventGuardValue(rt, g.condition, v) != Some(!g.truth)
  }

  /** The variants that pass all the guards, in order. */
  function Passing(rt: Runtime, gs: seq<Guard>, vs: seq<EventVariant>): seq<EventVariant> {
    if vs == [] then [] else (if PassesAll(rt, gs, vs[0]) then [vs[0]] else []) + Passing(rt, gs, vs[1..])
  }

  /** The checker knows every function along the path. */
  predicate Known(c: Config, e: Expr, path: seq<nat>)
    decreases |path|
  {
    path == [] ||
    (path[0] < |Children(e)| && (e.Call? ==> Lower(e.callee) in c.functions) && Known(c, Children(e)[path[0]], path[1..]))
  }

  lemma {:induction false} PassingTwice(rt: Runtime, a: seq<Guard>, b: seq<Guard>, vs: seq<EventVariant>)
    ensures Passing(rt, a + b, vs) == Passing(rt, b, Passing(rt, a, vs))
  {
    hide EventGuardValue;
    if vs != [] {
      PassingTwice(rt, a, b, vs[1..]);
      assert PassesAll(rt, a + b, vs[0]) <==> PassesAll(rt, a, vs[0]) && PassesAll(rt, b, vs[0]) by {
        assert forall g :: g in a + b <==> g in a || g in b;
      }
      var rest := Passing(rt, a, vs[1..]);
      assert [] + rest == rest && ([vs[0]] + rest)[1..] == rest;
    }
  }

  lemma {:induction false} PassingNone(rt: Runtime, vs: seq<EventVariant>)
    ensures Passing(rt, [], vs) == vs
  {
    if vs != [] { PassingNone(rt, vs[1..]); }
  }

  lemma {:induction false} PassingIs(rt: Runtime, gs: seq<Guard>, vs: seq<EventVariant>, v: EventVariant)
    ensures v in Passing(rt, gs, vs) <==> v in vs && PassesAll(rt, gs, v)
  {
    hide PassesAll;
    if vs != [] { PassingIs(rt, gs, vs[1..], v); }
  }

  lemma {:induction false} SelectedPass(rt: Runtime, guard: Expr, truth: bool, vs: seq<EventVariant>)
    ensures SelectVariants(rt, guard, truth, vs) == Passing(rt, [Guard(guard, truth)], vs)
  {
    hide EventGuardValue;
    if vs != [] {
      SelectedPass(rt, guard, truth, vs[1..]);
      ThreeTruths(EventGuardValue(rt, guard, vs[0]));
    }
  }

  /** Entering a guard keeps the variants that pass it, unless that is none of them. */
  lemma GuardedPass(rt: Runtime, guard: Expr, truth: bool, vs: seq<EventVariant>)
    ensures Guarded(rt, guard, truth, vs) ==
      var kept := Passing(rt, [Guard(guard, truth)], vs); if vs != [] && kept == [] then None else Some(kept)
  {
    hide SelectVariants;
    SelectedPass(rt, guard, truth, vs);
  }

  // ----- nodes that some event allows are checked -----

  lemma SeenEither(a: seq<Plan>, b: seq<Plan>, t: Target)
    ensures Seen(a + b, t) <==> Seen(a, t) || Seen(b, t)
  {
    hide SeenAt;
    if Seen(a + b, t) {
      var x :| x in a + b && SeenAt(x, t);
      assert x in a || x in b;
    }
    if Seen(a, t) {
      var x :| x in a && SeenAt(x, t);
      assert x in a + b;
    }
    if Seen(b, t) {
      var x :| x in b && SeenAt(x, t);
      assert x in a + b;
    }
  }

  predicate SteppedThrough(e: Expr) {
    e.Not? || e.Logic?
  }

  /** The event of the target is possible; without an event, nothing is known of the possible ones. */
  predicate Among(t: Target, vs: seq<EventVariant>) {
    if t.event.Some? then t.event.value in vs else vs == []
  }

  predicate Passes(rt: Runtime, gs: seq<Guard>, t: Target) {
    t.event.Some? ==> PassesAll(rt, gs, t.event.value)
  }

  /** The target is a node that the event leaves possible, and not an operator that the walk steps through. */
  predicate Possible(c: Config, e: Expr, t: Target) {
    && Passes(c.rt, GuardsAlong(e, t.path), t) && Known(c, e, t.path)
    && Sub(e, t.path) == Some(t.node) && !SteppedThrough(t.node) && (t.maximal ==> MaximalAt(e, t.path, t.node))
  }

  /** The target as seen from the child that its path leads into. */
  function Next(t: Target): Target
    requires t.path != []
  {
    t.(path := t.path[1..])
  }

  /** The target as seen from above. */
  function Under(base: seq<nat>, t: Target): Target {
    t.(path := base + t.path)
  }

  lemma ChildPossible(c: Config, e: Expr, t: Target)
    requires Possible(c, e, t) && t.path != []
    ensures t.path[0] < |Children(e)| && Possible(c, Children(e)[t.path[0]], Next(t))
    ensures Passes(c.rt, StepGuards(e, t.path[0]), t)
    ensures e.Call? ==> Lower(e.callee) in c.functions
  {
    hide IsSafeCall, EventGuardValue, StepGuards;
  }

  lemma NextUnder(base: seq<nat>, t: Target)
    requires t.path != []
    ensures Under(base, t) == Under(base + [t.path[0]], Next(t))
  {
    assert base + t.path == (base + [t.path[0]]) + t.path[1..];
  }

  /** A node on the way to the target is not what keeps it from being seen. */
  lemma OnTheWay(e: Expr, base: seq<nat>, t: Target)
    requires t.maximal ==> MaximalAt(e, t.path, t.node)
    ensures base <= Under(base, t).path
    ensures t.maximal ==> !IsSafeCall(e) && !(IsAccess(e) && Under(base, t).path == base + [0])
  {
    hide IsSafeCall;
    assert (base + t.path)[|base|..] == t.path && (base + [0])[|base|..] == [0];
  }

  lemma SeenBelow(c: Config, e: Expr, vs: seq<EventVariant>, t: Target, base: seq<nat>, place: nat)
    requires Possible(c, e, t) && Among(t, vs)
    requires t.path != [] ==> Seen(Below(c, e, vs, base), Under(base, t))
    ensures Seen(Check(c, e, vs, base, place), Under(base, t))
  {
    hide Below, IsSafeCall, MaximalAt, GuardsAlong, Known, PassesAll;
    OnTheWay(e, base, t);
    var p := Plan(e, place, base, vs, Below(c, e, vs, base));
    if t.path == [] { assert base + t.path == base; }
    assert SeenAt(p, Under(base, t));
    assert p in Check(c, e, vs, base, place);
  }

  /** An operand that is always checked with its node. */
  lemma OperandSeen(c: Config, e: Expr, vs: seq<EventVariant>, t: Target, base: seq<nat>, k: nat, place: nat)
    requires !e.Logic? && !e.Call? && k < |Children(e)|
    requires Seen(Check(c, Children(e)[k], vs, base + [k], k), t)
    ensures Seen(Below(c, e, vs, base), t)
  {
    hide Check, Seen;
    match e
    case Index(_, o, i) => SeenEither(Check(c, i, vs, base + [1], 1), Check(c, o, vs, base + [0], 0), t);
    case Compare(_, _, l, r) => SeenEither(Check(c, l, vs, base + [0], 0), Check(c, r, vs, base + [1], 1), t);
    case _ =>
  }

  lemma GuardKeeps(rt: Runtime, guard: Expr, truth: bool, vs: seq<EventVariant>, t: Target)
    requires Among(t, vs) && Passes(rt, [Guard(guard, truth)], t)
    ensures Guarded(rt, guard, truth, vs).Some? && Among(t, Guarded(rt, guard, truth, vs).value)
  {
    hide Guarded, PassesAll;
    GuardedPass(rt, guard, truth, vs);
    if t.event.Some? { PassingIs(rt, [Guard(guard, truth)], vs, t.event.value); }
  }

  /** Every node that an event leaves possible is checked with that event among the possible ones. */
  lemma {:induction false} PossibleIsChecked(c: Config, e: Expr, vs: seq<EventVariant>, t: Target, base: seq<nat>, place: nat)
    requires Possible(c, e, t) && Among(t, vs)
    ensures Seen(Check(c, e, vs, base, place), Under(base, t))
    decreases e, 2
  {
    hide Check, Seen, Possible, StepGuards, PassesAll;
    if t.path != [] {
      ChildPossible(c, e, t);
      var k := t.path[0];
      if e.Logic? {
        LogicalPossible(c, e, vs, t, base, 0);
      } else if e.Call? {
        CallPossible(c, e, vs, t, base);
      } else {
        NextUnder(base, t);
        PossibleIsChecked(c, Children(e)[k], vs, Next(t), base + [k], k);
        OperandSeen(c, e, vs, Under(base, t), base, k, place);
      }
    }
    SeenBelow(c, e, vs, t, base, place);
  }

  lemma {:induction false} RightPossible(c: Config, e: Expr, vs: seq<EventVariant>, t: Target, base: seq<nat>)
    requires e.Logic? && Possible(c, e, t) && Among(t, vs) && t.path != [] && t.path[0] == 1
    ensures Seen(CheckRight(c, e, vs, base), Under(base, t))
    decreases e, 0
  {
    hide Check, Seen, Guarded, Possible, PassesAll;
    ChildPossible(c, e, t);
    assert Children(e)[1] == e.right;
    GuardKeeps(c.rt, e.left, e.kind == And, vs, t);
    NextUnder(base, t);
    PossibleIsChecked(c, e.right, Guarded(c.rt, e.left, e.kind == And, vs).value, Next(t), base + [1], 1);
  }

  lemma {:induction false} LogicalPossible(c: Config, e: Expr, vs: seq<EventVariant>, t: Target, base: seq<nat>, place: nat)
    requires e.Logic? && Possible(c, e, t) && Among(t, vs) && t.path != []
    ensures Seen(CheckLogical(c, e, vs, base, place), Under(base, t))
    decreases e, 1
  {
    hide Seen, CheckNarrowing, CheckRight, Possible, StepGuards, PassesAll;
    ChildPossible(c, e, t);
    if t.path[0] == 0 {
      NextUnder(base, t);
      NarrowingPossible(c, e.left, e.kind == Or, vs, Next(t), base + [0], place);
    } else {
      RightPossible(c, e, vs, t, base);
    }
    SeenEither(CheckNarrowing(c, e.left, e.kind == Or, vs, base + [0], place), CheckRight(c, e, vs, base), Under(base, t));
  }

  lemma Stepped(c: Config, e: Expr, t: Target)
    requires Possible(c, e, t) && SteppedThrough(e)
    ensures t.path != []
  {
    hide GuardsAlong, Known, MaximalAt, PassesAll;
  }

  lemma {:induction false} NarrowingPossible(c: Config, e: Expr, truthy: bool, vs: seq<EventVariant>, t: Target, base: seq<nat>, place: nat)
    requires Possible(c, e, t) && Among(t, vs)
    ensures Seen(CheckNarrowing(c, e, truthy, vs, base, place), Under(base, t))
    decreases e, 3
  {
    hide Check, Seen, CheckLogical, CheckRight, Possible, StepGuards, PassesAll;
    if SteppedThrough(e) {
      Stepped(c, e, t);
      ChildPossible(c, e, t);
      NextUnder(base, t);
      if e.Not? {
        NarrowingPossible(c, e.operand, !truthy, vs, Next(t), base + [0], 1);
      } else if truthy != (e.kind == And) {
        LogicalPossible(c, e, vs, t, base, 1);
      } else {
        if t.path[0] == 0 {
          PossibleIsChecked(c, e.left, vs, Next(t), base + [0], 1);
        } else {
          RightPossible(c, e, vs, t, base);
        }
        SeenEither(Check(c, e.left, vs, base + [0], 1), CheckRight(c, e, vs, base), Under(base, t));
      }
    } else {
      PossibleIsChecked(c, e, vs, t, base, place);
    }
  }

  lemma {:induction false} CallPossible(c: Config, e: Expr, vs: seq<EventVariant>, t: Target, base: seq<nat>)
    requires e.Call? && Possible(c, e, t) && Among(t, vs) && t.path != []
    ensures Seen(Below(c, e, vs, base), Under(base, t))
    decreases e, 0
  {
    hide Seen, CheckCase, CheckAll, IsSafeCall, Possible, PassesAll, BranchGuards;
    ChildPossible(c, e, t);
    assert Children(e) == e.args;
    NextUnder(base, t);
    if IsCase(e.callee) && CaseArity(|e.args|) {
      CasePossible(c, e.args, vs, Next(t), base, 0, t.path[0]);
    } else {
      ArgPossible(c, e.args, vs, Next(t), base, 0, t.path[0]);
    }
  }

  lemma {:induction false} ArgPossible(c: Config, args: seq<Expr>, vs: seq<EventVariant>, t: Target, base: seq<nat>, k: nat, i: nat)
    requires i < |args| && Possible(c, args[i], t) && Among(t, vs)
    ensures Seen(CheckAll(c, args, vs, base, k), Under(base + [k + i], t))
    decreases args
  {
    hide Seen, Check, Possible;
    if i == 0 {
      PossibleIsChecked(c, args[0], vs, t, base + [k], k);
    } else {
      ArgPossible(c, args[1..], vs, t, base, k + 1, i - 1);
    }
    SeenEither(Check(c, args[0], vs, base + [k], k), CheckAll(c, args[1..], vs, base, k + 1), Under(base + [k + i], t));
  }

  lemma {:induction false} CasePossible(c: Config, args: seq<Expr>, vs: seq<EventVariant>, t: Target, base: seq<nat>, k: nat, i: nat)
    requires i < |args| && |args| % 2 == 1 && Possible(c, args[i], t) && Among(t, vs) && Passes(c.rt, BranchGuards(args, i), t)
    ensures Seen(CheckCase(c, args, vs, base, k), Under(base + [k + i], t))
    decreases args, 1
  {
    hide Seen, Check, Possible, CheckChosen, CheckOthers, PassesAll, BranchGuards;
    if |args| == 1 {
      PossibleIsChecked(c, args[0], vs, t, base + [k], k);
      return;
    }
    if i == 0 {
      PossibleIsChecked(c, args[0], vs, t, base + [k], k);
    } else {
      LaterPossible(c, args, vs, t, base, k, i);
    }
    var u := Under(base + [k + i], t);
    SeenEither(CheckChosen(c, args, vs, base, k), CheckOthers(c, args, vs, base, k), u);
    SeenEither(Check(c, args[0], vs, base + [k], k), CheckChosen(c, args, vs, base, k) + CheckOthers(c, args, vs, base, k), u);
  }

  lemma FirstPasses(rt: Runtime, g: Guard, gs: seq<Guard>, t: Target)
    requires Passes(rt, [g] + gs, t)
    ensures Passes(rt, [g], t) && Passes(rt, gs, t)
  {
    hide EventGuardValue;
    assert forall h | h in gs || h == g :: h in [g] + gs;
  }

  lemma {:induction false} LaterPossible(c: Config, args: seq<Expr>, vs: seq<EventVariant>, t: Target, base: seq<nat>, k: nat, i: nat)
    requires |args| > 1 && |args| % 2 == 1 && 0 < i < |args|
    requires Possible(c, args[i], t) && Among(t, vs) && Passes(c.rt, BranchGuards(args, i), t)
    ensures var u := Under(base + [k + i], t);
      Seen(CheckChosen(c, args, vs, base, k), u) || Seen(CheckOthers(c, args, vs, base, k), u)
    decreases args, 0
  {
    hide Seen, Check, Guarded, Possible, CheckCase, PassesAll;
    if i == 1 {
      GuardKeeps(c.rt, args[0], true, vs, t);
      PossibleIsChecked(c, args[1], Guarded(c.rt, args[0], true, vs).value, t, base + [k + 1], k + 1);
    } else {
      FirstPasses(c.rt, Guard(args[0], false), BranchGuards(args[2..], i - 2), t);
      GuardKeeps(c.rt, args[0], false, vs, t);
      assert args[2..][i - 2] == args[i];
      CasePossible(c, args[2..], Guarded(c.rt, args[0], false, vs).value, t, base, k + 2, i - 2);
    }
  }

  // ----- which nodes evaluation reaches -----

  /** Evaluation of e in this run evaluates, or tries to evaluate, the node at the path. */
  predicate Reaches(c: Config, e: Expr, env: Env, path: seq<nat>)
    decreases |path|
  {
    path == [] ||
    (path[0] < |Children(e)| && Reaches(c, Children(e)[path[0]], env, path[1..]) &&
     match e
     case Logic(_, k, l, _) =>
       path[0] == 1 ==> Eval(l, env).Some? && Truthy(Eval(l, env).value) == (k == And)
     case Call(_, f, args) =>
       Lower(f) in c.functions && (IsCase(f) && CaseArity(|args|) ==> BranchReached(args, env, path[0]))
     case _ => true)
  }

  /** The k-th argument of a case call is evaluated. */
  predicate BranchReached(args: seq<Expr>, env: Env, k: nat)
    decreases args
  {
    k < |args| &&
    (k == 0 ||
     (k == 1 && Eval(args[0], env) == Some(VBool(true))) ||
     (k > 1 && Eval(args[0], env) == Some(VBool(false)) && BranchReached(args[2..], env, k - 2)))
  }

  /** Every guard that the walk can enter, the left operand of an operator or a predicate of a case call, stays decided for the
      event without the comparisons that misread, if it is decided. */
  predicate GuardsRead(rt: Runtime, e: Expr, v: EventVariant)
    decreases e
  {
    && (forall c | c in Children(e) :: GuardsRead(rt, c, v))
    && (e.Logic? ==> ReadsEvents(rt, e.left, v))
    && (e.Call? && IsCase(e.callee) ==> CaseGuardsRead(rt, e.args, v))
  }

  predicate CaseGuardsRead(rt: Runtime, args: seq<Expr>, v: EventVariant) {
    |args| > 1 ==> ReadsEvents(rt, args[0], v) && CaseGuardsRead(rt, args[2..], v)
  }

  /** The situation of the theorem: a run that the event of the target triggers, and that reaches its node, at a path from e. */
  ghost predicate Situation(c: Config, e: Expr, env: Env, vs: seq<EventVariant>, t: Target) {
    && t.event.Some? && t.event.value in vs && Consistent(env, t.event.value)
    && c.rt == env.rt && PlainNames(e) && GuardsRead(c.rt, e, t.event.value)
    && Reaches(c, e, env, t.path) && Sub(e, t.path) == Some(t.node) && !SteppedThrough(t.node)
    && (t.maximal ==> MaximalAt(e, t.path, t.node))
  }

  lemma GuardTold(rt: Runtime, guard: Expr, truth: bool, v: EventVariant, env: Env)
    requires rt == env.rt && Consistent(env, v) && PlainNames(guard) && ReadsEvents(rt, guard, v)
    requires Eval(guard, env).Some? && Truthy(Eval(guard, env).value) == truth
    ensures EventGuardValue(rt, guard, v) != Some(!truth)
  {
    hide Consistent, PlainNames, EventGuardValue, TrustedGuardValue;
    if EventGuardValue(rt, guard, v).Some? { GuardValueSound(guard, v, env); }
  }

  lemma {:induction false} BranchPasses(rt: Runtime, args: seq<Expr>, env: Env, v: EventVariant, k: nat)
    requires rt == env.rt && Consistent(env, v) && (forall a | a in args :: PlainNames(a)) && CaseGuardsRead(rt, args, v)
    requires BranchReached(args, env, k)
    ensures PassesAll(rt, BranchGuards(args, k), v)
    decreases args
  {
    hide Consistent, PlainNames, EventGuardValue, ReadsEvents;
    if k > 0 && |args| > 1 {
      GuardTold(rt, args[0], k == 1, v, env);
      if k > 1 { BranchPasses(rt, args[2..], env, v, k - 2); }
    }
  }

  lemma StepPasses(c: Config, e: Expr, env: Env, v: EventVariant, path: seq<nat>)
    requires c.rt == env.rt && Consistent(env, v) && PlainNames(e) && GuardsRead(c.rt, e, v)
    requires Reaches(c, e, env, path) && path != []
    ensures PassesAll(c.rt, StepGuards(e, path[0]), v)
  {
    hide Consistent, EventGuardValue, ReadsEvents, BranchReached, CaseGuardsRead, BranchGuards;
    if e.Logic? && path[0] == 1 {
      assert e.left in Children(e);
      GuardTold(c.rt, e.left, e.kind == And, v, env);
    } else if e.Call? && IsCase(e.callee) && CaseArity(|e.args|) {
      BranchPasses(c.rt, e.args, env, v, path[0]);
    }
  }

  lemma {:induction false} ReachedPasses(c: Config, e: Expr, env: Env, v: EventVariant, path: seq<nat>)
    requires c.rt == env.rt && Consistent(env, v) && PlainNames(e) && GuardsRead(c.rt, e, v) && Reaches(c, e, env, path)
    ensures PassesAll(c.rt, GuardsAlong(e, path), v) && Known(c, e, path)
    decreases |path|
  {
    hide Consistent, EventGuardValue, StepGuards, BranchReached;
    if path != [] {
      StepPasses(c, e, env, v, path);
      assert Children(e)[path[0]] in Children(e);
      ReachedPasses(c, Children(e)[path[0]], env, v, path[1..]);
    }
  }

  /** Every node that a run reaches is checked with the event of the run still among the possible ones. */
  lemma ReachedIsChecked(c: Config, e: Expr, env: Env, vs: seq<EventVariant>, t: Target, base: seq<nat>, place: nat)
    requires Situation(c, e, env, vs, t)
    ensures Seen(Check(c, e, vs, base, place), Under(base, t))
  {
    hide Seen, Check, PassesAll, GuardsAlong, Known, Consistent, PlainNames, GuardsRead, Reaches, MaximalAt;
    ReachedPasses(c, e, env, t.event.value, t.path);
    PossibleIsChecked(c, e, vs, t, base, place);
  }
}
