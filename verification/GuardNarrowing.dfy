/** Each node is checked for exactly the events that pass the guards before it (internal/expression/expr_sema.go). */
module GuardNarrowing {
  import opened Text
  import opened Syntax
  import opened Semantics
  import opened EventTypes
  import opened UntrustedWalks
  import opened GuardCheck
  import opened GuardReach

  /** The plan is one of these, or inside one. */
  predicate Within(ps: seq<Plan>, q: Plan)
    decreases ps
  {
    exists p | p in ps :: p == q || Within(p.inner, q)
  }

  /** The plan is for a node of e, under the events that pass the guards along its path; there are some unless nothing is known. */
  predicate Narrowed(c: Config, e: Expr, vs: seq<EventVariant>, base: seq<nat>, q: Plan) {
    && base <= q.path && Sub(e, q.path[|base|..]) == Some(q.node)
    && q.variants == Passing(c.rt, GuardsAlong(e, q.path[|base|..]), vs)
    && (vs != [] ==> q.variants != [])
  }

  lemma WithinEither(a: seq<Plan>, b: seq<Plan>, q: Plan)
    ensures Within(a + b, q) <==> Within(a, q) || Within(b, q)
  {
    if Within(a + b, q) {
      var p :| p in a + b && (p == q || Within(p.inner, q));
      assert p in a || p in b;
    }
    assert forall p | p in a || p in b :: p in a + b;
  }

  lemma WithinOne(p: Plan, q: Plan)
    requires Within([p], q) && p != q
    ensures Within(p.inner, q)
  {
  }

  /** What is narrowed in a child, under the events that pass the guards before it, is narrowed in the node. */
  lemma ChildNarrowed(c: Config, e: Expr, vs: seq<EventVariant>, kept: seq<EventVariant>, base: seq<nat>, k: nat, q: Plan)
    requires k < |Children(e)| && kept == Passing(c.rt, StepGuards(e, k), vs) && (vs != [] ==> kept != [])
    requires Narrowed(c, Children(e)[k], kept, base + [k], q)
    ensures Narrowed(c, e, vs, base, q)
  {
    hide StepGuards, PassesAll;
    var path, below := q.path[|base|..], q.path[|base| + 1..];
    assert q.path[..|base| + 1] == base + [k];
    assert q.path[..|base|] == base && path[0] == k && path[1..] == below;
    PassingTwice(c.rt, StepGuards(e, k), GuardsAlong(Children(e)[k], below), vs);
  }

  /** A child behind no guard. */
  lemma PlainChild(c: Config, e: Expr, vs: seq<EventVariant>, base: seq<nat>, k: nat, q: Plan)
    requires k < |Children(e)| && StepGuards(e, k) == []
    requires Narrowed(c, Children(e)[k], vs, base + [k], q)
    ensures Narrowed(c, e, vs, base, q)
  {
    hide StepGuards, Narrowed;
    PassingNone(c.rt, vs);
    ChildNarrowed(c, e, vs, vs, base, k, q);
  }

  lemma SelfNarrowed(c: Config, e: Expr, vs: seq<EventVariant>, base: seq<nat>, q: Plan)
    requires q.path == base && q.node == e && q.variants == vs
    ensures Narrowed(c, e, vs, base, q)
  {
    PassingNone(c.rt, vs);
  }

  /** Every check of a node inside e is made for exactly the events that pass the guards along its path. */
  lemma {:induction false} CheckedIsNarrowed(c: Config, e: Expr, vs: seq<EventVariant>, base: seq<nat>, place: nat, q: Plan)
    requires Within(Check(c, e, vs, base, place), q)
    ensures Narrowed(c, e, vs, base, q)
    decreases e, 4
  {
    hide Below, Within, Narrowed;
    var p := Plan(e, place, base, vs, Below(c, e, vs, base));
    if p == q {
      SelfNarrowed(c, e, vs, base, q);
    } else {
      WithinOne(p, q);
      BelowNarrowed(c, e, vs, base, q);
    }
  }

  /** A check of the k-th child, where it is behind no guard. */
  lemma {:induction false} ChildChecked(c: Config, e: Expr, vs: seq<EventVariant>, base: seq<nat>, k: nat, place: nat, q: Plan)
    requires k < |Children(e)| && StepGuards(e, k) == [] && Within(Check(c, Children(e)[k], vs, base + [k], place), q)
    ensures Narrowed(c, e, vs, base, q)
    decreases e, 0
  {
    hide Check, Within, Narrowed, StepGuards;
    CheckedIsNarrowed(c, Children(e)[k], vs, base + [k], place, q);
    PlainChild(c, e, vs, base, k, q);
  }

  lemma {:induction false} BelowNarrowed(c: Config, e: Expr, vs: seq<EventVariant>, base: seq<nat>, q: Plan)
    requires Within(Below(c, e, vs, base), q)
    ensures Narrowed(c, e, vs, base, q)
    decreases e, 3
  {
    hide Check, Narrowed, CheckLogical, CheckCase, CheckAll, Lower;
    match e
    case Property(_, _, _) => ChildChecked(c, e, vs, base, 0, 0, q);
    case Filter(_, _) => ChildChecked(c, e, vs, base, 0, 0, q);
    case Not(_, _) => ChildChecked(c, e, vs, base, 0, 0, q);
    case Index(_, o, i) =>
      WithinEither(Check(c, i, vs, base + [1], 1), Check(c, o, vs, base + [0], 0), q);
      if Within(Check(c, i, vs, base + [1], 1), q) {
        ChildChecked(c, e, vs, base, 1, 1, q);
      } else {
        ChildChecked(c, e, vs, base, 0, 0, q);
      }
    case Compare(_, _, l, r) =>
      WithinEither(Check(c, l, vs, base + [0], 0), Check(c, r, vs, base + [1], 1), q);
      if Within(Check(c, r, vs, base + [1], 1), q) {
        ChildChecked(c, e, vs, base, 1, 1, q);
      } else {
        ChildChecked(c, e, vs, base, 0, 0, q);
      }
    case Logic(_, _, _, _) => LogicalNarrowed(c, e, vs, base, 0, q);
    case Call(_, f, args) =>
      if IsCase(f) && CaseArity(|args|) {
        var i := CaseNarrowed(c, args, vs, base, 0, q);
        ChildNarrowed(c, e, vs, Passing(c.rt, StepGuards(e, i), vs), base, i, q);
      } else {
        var i := AllNarrowed(c, args, vs, base, 0, q);
        PlainChild(c, e, vs, base, i, q);
      }
    case _ =>
  }

  lemma {:induction false} RightNarrowed(c: Config, e: Expr, vs: seq<EventVariant>, base: seq<nat>, q: Plan)
    requires e.Logic? && Within(CheckRight(c, e, vs, base), q)
    ensures Narrowed(c, e, vs, base, q)
    decreases e, 0
  {
    hide Check, Narrowed, Guarded;
    GuardedPass(c.rt, e.left, e.kind == And, vs);
    var kept := Guarded(c.rt, e.left, e.kind == And, vs).value;
    CheckedIsNarrowed(c, e.right, kept, base + [1], 1, q);
    ChildNarrowed(c, e, vs, kept, base, 1, q);
  }

  lemma {:induction false} LogicalNarrowed(c: Config, e: Expr, vs: seq<EventVariant>, base: seq<nat>, place: nat, q: Plan)
    requires e.Logic? && Within(CheckLogical(c, e, vs, base, place), q)
    ensures Narrowed(c, e, vs, base, q)
    decreases e, 1
  {
    hide Within, CheckNarrowing, CheckRight, Narrowed;
    WithinEither(CheckNarrowing(c, e.left, e.kind == Or, vs, base + [0], place), CheckRight(c, e, vs, base), q);
    if Within(CheckRight(c, e, vs, base), q) {
      RightNarrowed(c, e, vs, base, q);
    } else {
      NarrowingNarrowed(c, e.left, e.kind == Or, vs, base + [0], place, q);
      PlainChild(c, e, vs, base, 0, q);
    }
  }

  lemma {:induction false} NarrowingNarrowed(c: Config, e: Expr, truthy: bool, vs: seq<EventVariant>, base: seq<nat>, place: nat, q: Plan)
    requires Within(CheckNarrowing(c, e, truthy, vs, base, place), q)
    ensures Narrowed(c, e, vs, base, q)
    decreases e, 5
  {
    hide Check, CheckLogical, CheckRight, Narrowed, Within;
    match e
    case Logic(_, k, l, _) =>
      if truthy == (k == And) {
        WithinEither(Check(c, l, vs, base + [0], 1), CheckRight(c, e, vs, base), q);
        if Within(CheckRight(c, e, vs, base), q) {
          RightNarrowed(c, e, vs, base, q);
        } else {
          ChildChecked(c, e, vs, base, 0, 1, q);
        }
      } else {
        LogicalNarrowed(c, e, vs, base, 1, q);
      }
    case Not(_, o) =>
      NarrowingNarrowed(c, o, !truthy, vs, base + [0], 1, q);
      PlainChild(c, e, vs, base, 0, q);
    case _ => CheckedIsNarrowed(c, e, vs, base, place, q);
  }

  lemma {:induction false} AllNarrowed(c: Config, args: seq<Expr>, vs: seq<EventVariant>, base: seq<nat>, k: nat, q: Plan)
    returns (i: nat)
    requires Within(CheckAll(c, args, vs, base, k), q)
    ensures i < |args| && Narrowed(c, args[i], vs, base + [k + i], q)
    decreases args, 0
  {
    hide Check, Narrowed;
    WithinEither(Check(c, args[0], vs, base + [k], k), CheckAll(c, args[1..], vs, base, k + 1), q);
    if Within(Check(c, args[0], vs, base + [k], k), q) {
      CheckedIsNarrowed(c, args[0], vs, base + [k], k, q);
      i := 0;
    } else {
      i := AllNarrowed(c, args[1..], vs, base, k + 1, q);
      i := i + 1;
    }
  }

  lemma {:induction false} CaseNarrowed(c: Config, args: seq<Expr>, vs: seq<EventVariant>, base: seq<nat>, k: nat, q: Plan)
    returns (i: nat)
    requires Within(CheckCase(c, args, vs, base, k), q) && |args| % 2 == 1
    ensures i < |args|
    ensures var kept := Passing(c.rt, BranchGuards(args, i), vs);
      Narrowed(c, args[i], kept, base + [k + i], q) && (vs != [] ==> kept != [])
    decreases args, 1
  {
    hide Check, Narrowed, CheckChosen, CheckOthers, Within, Passing;
    PassingNone(c.rt, vs);
    if |args| > 1 {
      var chosen, others := CheckChosen(c, args, vs, base, k), CheckOthers(c, args, vs, base, k);
      WithinEither(Check(c, args[0], vs, base + [k], k), chosen + others, q);
      WithinEither(chosen, others, q);
    }
    if Within(Check(c, args[0], vs, base + [k], k), q) {
      CheckedIsNarrowed(c, args[0], vs, base + [k], k, q);
      i := 0;
    } else {
      i := LaterNarrowed(c, args, vs, base, k, q);
    }
  }

  lemma {:induction false} LaterNarrowed(c: Config, args: seq<Expr>, vs: seq<EventVariant>, base: seq<nat>, k: nat, q: Plan)
    returns (i: nat)
    requires |args| > 1 && |args| % 2 == 1
    requires Within(CheckChosen(c, args, vs, base, k), q) || Within(CheckOthers(c, args, vs, base, k), q)
    ensures i < |args|
    ensures var kept := Passing(c.rt, BranchGuards(args, i), vs);
      Narrowed(c, args[i], kept, base + [k + i], q) && (vs != [] ==> kept != [])
    decreases args, 0
  {
    hide Check, CheckCase, Narrowed, Guarded, Passing;
    GuardedPass(c.rt, args[0], true, vs);
    GuardedPass(c.rt, args[0], false, vs);
    if Within(CheckChosen(c, args, vs, base, k), q) {
      i := 1;
      CheckedIsNarrowed(c, args[1], Guarded(c.rt, args[0], true, vs).value, base + [k + 1], k + 1, q);
    } else {
      var kept := Guarded(c.rt, args[0], false, vs).value;
      i := CaseNarrowed(c, args[2..], kept, base, k + 2, q);
      PassingTwice(c.rt, [Guard(args[0], false)], BranchGuards(args[2..], i), vs);
      i := i + 2;
    }
  }
}
