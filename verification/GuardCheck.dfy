/** The checker's walk over an expression under narrowed events (internal/expression/expr_sema.go). */
module GuardCheck {
  import opened Text
  import opened Syntax
  import opened Semantics
  import opened EventTypes
  import opened EventGuards
  import opened UntrustedInputs
  import opened UntrustedChecker
  import opened UntrustedWalks
  import opened UntrustedTargets

  // ----- which nodes are checked, under which events -----

  /** What the checker needs to know of its function table. */
  datatype Config = Config(rt: Runtime, functions: set<string>)

  function SelectVariants(rt: Runtime, guard: Expr, truth: bool, variants: seq<EventVariant>): seq<EventVariant> {
    if variants == [] then []
    else
      var value := EventGuardValue(rt, guard, variants[0]);
      (if value.None? || value.value == truth then [variants[0]] else []) + SelectVariants(rt, guard, truth, variants[1..])
  }

  lemma SelectedFrom(rt: Runtime, guard: Expr, truth: bool, variants: seq<EventVariant>, i: nat)
    requires i < |variants|
    ensures var value := EventGuardValue(rt, guard, variants[i]);
      SelectVariants(rt, guard, truth, variants[i..]) ==
        (if value.None? || value.value == truth then [variants[i]] else []) + SelectVariants(rt, guard, truth, variants[i + 1..])
  {
    hide EventGuardValue;
    assert variants[i..][1..] == variants[i + 1..];
  }

  lemma SelectedNone(rt: Runtime, guard: Expr, truth: bool, variants: seq<EventVariant>)
    ensures SelectVariants(rt, guard, truth, variants[|variants|..]) == []
  {
  }

  /** The variants under which a guarded branch is checked; None when no event reaches it. */
  function Guarded(rt: Runtime, guard: Expr, truth: bool, variants: seq<EventVariant>): Option<seq<EventVariant>> {
    if variants == [] then Some([])
    else
      var selected := SelectVariants(rt, guard, truth, variants);
      if selected == [] then None else Some(selected)
  }

  /** A check of the node at a path, while the event may be any of the variants, with the checks made inside it. */
  function Check(c: Config, e: Expr, vs: seq<EventVariant>, path: seq<nat>, place: nat): seq<Plan>
    decreases e, 3
  {
    [Plan(e, place, path, vs, Below(c, e, vs, path))]
  }

  /** What the checker does with a node between entering and leaving it. */
  function Below(c: Config, e: Expr, vs: seq<EventVariant>, path: seq<nat>): seq<Plan>
    decreases e, 2
  {
    match e
    case Property(_, r, _) => Check(c, r, vs, path + [0], 0)
    case Filter(_, r) => Check(c, r, vs, path + [0], 0)
    case Index(_, o, i) => Check(c, i, vs, path + [1], 1) + Check(c, o, vs, path + [0], 0)
    case Not(_, o) => Check(c, o, vs, path + [0], 0)
    case Compare(_, _, l, r) => Check(c, l, vs, path + [0], 0) + Check(c, r, vs, path + [1], 1)
    case Logic(_, _, _, _) => CheckLogical(c, e, vs, path, 0)
    case Call(_, f, args) =>
      if Lower(f) !in c.functions then []
      else if IsCase(f) && CaseArity(|args|) then CheckCase(c, args, vs, path, 0)
      else CheckAll(c, args, vs, path, 0)
    case _ => []
  }

  /** The right operand is checked for the events under which the left one lets it be evaluated. */
  function CheckRight(c: Config, e: Expr, vs: seq<EventVariant>, path: seq<nat>): seq<Plan>
    requires e.Logic?
    decreases e, 0
  {
    var g := Guarded(c.rt, e.left, e.kind == And, vs);
    if g.None? then [] else Check(c, e.right, g.value, path + [1], 1)
  }

  /** The place is that of the left operand in the node being visited: 0, or 1 when the operator is stepped through. */
  function CheckLogical(c: Config, e: Expr, vs: seq<EventVariant>, path: seq<nat>, place: nat): seq<Plan>
    requires e.Logic?
    decreases e, 1
  {
    CheckNarrowing(c, e.left, e.kind == Or, vs, path + [0], place) + CheckRight(c, e, vs, path)
  }

  /** Checks an operand assuming its truthiness; negations and logical operators are stepped through. */
  function CheckNarrowing(c: Config, e: Expr, truthy: bool, vs: seq<EventVariant>, path: seq<nat>, place: nat): seq<Plan>
    decreases e, 4
  {
    match e
    case Logic(_, k, l, r) =>
      if truthy == (k == And) then Check(c, l, vs, path + [0], 1) + CheckRight(c, e, vs, path)
      else CheckLogical(c, e, vs, path, 1)
    case Not(_, o) => CheckNarrowing(c, o, !truthy, vs, path + [0], 1)
    case _ => Check(c, e, vs, path, place)
  }

  function CheckAll(c: Config, args: seq<Expr>, vs: seq<EventVariant>, path: seq<nat>, k: nat): seq<Plan>
    decreases args
  {
    if args == [] then []
    else Check(c, args[0], vs, path + [k], k) + CheckAll(c, args[1..], vs, path, k + 1)
  }

  /** Later branches of a case call are checked under the exclusions of all earlier predicates. */
  function CheckCase(c: Config, args: seq<Expr>, vs: seq<EventVariant>, path: seq<nat>, k: nat): seq<Plan>
    decreases args, 1
  {
    if args == [] then []
    else if |args| == 1 then Check(c, args[0], vs, path + [k], k)
    else Check(c, args[0], vs, path + [k], k) + (CheckChosen(c, args, vs, path, k) + CheckOthers(c, args, vs, path, k))
  }

  function CheckChosen(c: Config, args: seq<Expr>, vs: seq<EventVariant>, path: seq<nat>, k: nat): seq<Plan>
    requires |args| > 1
    decreases args, 0
  {
    var chosen := Guarded(c.rt, args[0], true, vs);
    if chosen.None? then [] else Check(c, args[1], chosen.value, path + [k + 1], k + 1)
  }

  function CheckOthers(c: Config, args: seq<Expr>, vs: seq<EventVariant>, path: seq<nat>, k: nat): seq<Plan>
    requires |args| > 1
    decreases args, 0
  {
    var others := Guarded(c.rt, args[0], false, vs);
    if others.None? then [] else CheckCase(c, args[2..], others.value, path, k + 2)
  }

  // ----- the checker object -----

  /** The checker's view of github.event, the checker of untrusted inputs that it drives, and the checks it has made. */
  class Checker {
    const config: Config
    const untrusted: UntrustedInputChecker
    var variants: seq<EventVariant>
    ghost var visits: seq<Plan>

    constructor (config: Config, untrusted: UntrustedInputChecker, variants: seq<EventVariant>)
      ensures this.config == config && this.untrusted == untrusted && this.variants == variants && visits == []
    {
      this.config := config;
      this.untrusted := untrusted;
      this.variants := variants;
      visits := [];
    }

    /** The checks have been made, the variants are what they were, and the callbacks have been called in that order. */
    ghost predicate Checked(variants: seq<EventVariant>, visits: seq<Plan>, stood: Standing, checks: seq<Plan>)
      reads this, untrusted
    {
      && this.variants == variants
      && this.visits == visits + checks
      && untrusted.Valid()
      && Driven(untrusted.rt, untrusted.roots, stood, Stands(untrusted), checks)
    }

    /** Narrows the variants for a branch; the caller restores what they were. */
    method EnterGuard(guard: Expr, truth: bool) returns (taken: bool)
      modifies this`variants
      ensures var g := Guarded(config.rt, guard, truth, old(variants));
        taken == g.Some? && variants == if taken then g.value else old(variants)
    {
      hide EventGuardValue, SelectVariants;
      if variants == [] { return true; }
      var selected: seq<EventVariant> := [];
      for i := 0 to |variants|
        modifies {}
        invariant selected + SelectVariants(config.rt, guard, truth, variants[i..]) == SelectVariants(config.rt, guard, truth, variants)
      {
        SelectedFrom(config.rt, guard, truth, variants, i);
        var value := EventGuardValue(config.rt, guard, variants[i]);
        if value.None? || value.value == truth { selected := selected + [variants[i]]; }
      }
      SelectedNone(config.rt, guard, truth, variants);
      if selected == [] { return false; }
      taken := true;
      variants := selected;
    }

    method CheckNode(e: Expr, path: seq<nat>, place: nat)
      requires untrusted.Valid()
      modifies this, untrusted
      ensures Checked(old(variants), old(visits), old(Stands(untrusted)), Check(config, e, variants, path, place))
      decreases e, 3
    {
      hide Below, Driven, UntrustedInputChecker.Valid, Enter, Leave, TruthOnly, LeaveStep, IsSafeCall;
      ghost var was, before := Stands(untrusted), visits;
      ghost var p := Plan(e, place, path, variants, Below(config, e, variants, path));
      untrusted.OnVisitNodeEnter(e, place);
      EnterStands(was, Stands(untrusted), e, place);
      visits := [];
      CheckBelow(e, path);
      ghost var now := Stands(untrusted);
      visits := before + [p];
      NodeDriven(untrusted.rt, untrusted.roots, was, now, p);
      untrusted.OnVisitNodeLeave(e);
      LeaveStands(untrusted.rt, untrusted.roots, now, Stands(untrusted), e);
    }

    method CheckBelow(e: Expr, path: seq<nat>)
      requires untrusted.Valid()
      modifies this, untrusted
      ensures Checked(old(variants), old(visits), old(Stands(untrusted)), Below(config, e, variants, path))
      decreases e, 2
    {
      hide Check, CheckLogical, CheckCase, CheckAll, Driven, UntrustedInputChecker.Valid, Lower, Stands;
      match e {
        case Property(_, r, _) => CheckNode(r, path + [0], 0);
        case Filter(_, r) => CheckNode(r, path + [0], 0);
        case Index(_, o, i) =>
          ghost var was := Stands(untrusted);
          CheckNode(i, path + [1], 1);
          ghost var mid := Stands(untrusted);
          CheckNode(o, path + [0], 0);
          DrivenThen(untrusted.rt, untrusted.roots, was, mid, Stands(untrusted),
                     Check(config, i, variants, path + [1], 1), Check(config, o, variants, path + [0], 0));
        case Not(_, o) => CheckNode(o, path + [0], 0);
        case Compare(_, _, l, r) =>
          ghost var was := Stands(untrusted);
          CheckNode(l, path + [0], 0);
          ghost var mid := Stands(untrusted);
          CheckNode(r, path + [1], 1);
          DrivenThen(untrusted.rt, untrusted.roots, was, mid, Stands(untrusted),
                     Check(config, l, variants, path + [0], 0), Check(config, r, variants, path + [1], 1));
        case Logic(_, _, _, _) => CheckLogicalOp(e, path, 0);
        case Call(_, f, args) =>
          if Lower(f) !in config.functions {
            DrivenNone(untrusted.rt, untrusted.roots, Stands(untrusted));
          } else if IsCase(f) && CaseArity(|args|) {
            CheckCaseBranches(args, path, 0);
          } else {
            CheckArgs(args, path);
          }
        case _ => DrivenNone(untrusted.rt, untrusted.roots, Stands(untrusted));
      }
    }

    method CheckRightOperand(e: Expr, path: seq<nat>)
      requires e.Logic?
      requires untrusted.Valid()
      modifies this, untrusted
      ensures Checked(old(variants), old(visits), old(Stands(untrusted)), CheckRight(config, e, variants, path))
      decreases e, 0
    {
      hide Check, Guarded, Driven, UntrustedInputChecker.Valid;
      DrivenNone(untrusted.rt, untrusted.roots, Stands(untrusted));
      var previous := variants;
      var taken := EnterGuard(e.left, e.kind == And);
      if taken { CheckNode(e.right, path + [1], 1); }
      variants := previous;
    }

    method CheckLogicalOp(e: Expr, path: seq<nat>, place: nat)
      requires e.Logic?
      requires untrusted.Valid()
      modifies this, untrusted
      ensures Checked(old(variants), old(visits), old(Stands(untrusted)), CheckLogical(config, e, variants, path, place))
      decreases e, 1
    {
      hide CheckNarrowing, CheckRight, Driven, UntrustedInputChecker.Valid;
      ghost var was := Stands(untrusted);
      CheckWithNarrowing(e.left, e.kind == Or, path + [0], place);
      ghost var mid := Stands(untrusted);
      CheckRightOperand(e, path);
      DrivenThen(untrusted.rt, untrusted.roots, was, mid, Stands(untrusted),
                 CheckNarrowing(config, e.left, e.kind == Or, variants, path + [0], place), CheckRight(config, e, variants, path));
    }

    method CheckWithNarrowing(e: Expr, truthy: bool, path: seq<nat>, place: nat)
      requires untrusted.Valid()
      modifies this, untrusted
      ensures Checked(old(variants), old(visits), old(Stands(untrusted)), CheckNarrowing(config, e, truthy, variants, path, place))
      decreases e, 4
    {
      hide Check, CheckLogical, CheckRight, Driven, UntrustedInputChecker.Valid;
      match e {
        case Logic(_, k, l, _) =>
          if truthy == (k == And) {
            ghost var was := Stands(untrusted);
            CheckNode(l, path + [0], 1);
            ghost var mid := Stands(untrusted);
            CheckRightOperand(e, path);
            DrivenThen(untrusted.rt, untrusted.roots, was, mid, Stands(untrusted),
                       Check(config, l, variants, path + [0], 1), CheckRight(config, e, variants, path));
          } else {
            CheckLogicalOp(e, path, 1);
          }
        case Not(_, o) => CheckWithNarrowing(o, !truthy, path + [0], 1);
        case _ => CheckNode(e, path, place);
      }
    }

    method CheckArgs(args: seq<Expr>, path: seq<nat>)
      requires untrusted.Valid()
      modifies this, untrusted
      ensures Checked(old(variants), old(visits), old(Stands(untrusted)), CheckAll(config, args, variants, path, 0))
      decreases args
    {
      hide Check, Driven, UntrustedInputChecker.Valid;
      ghost var done: seq<Plan> := [];
      DrivenNone(untrusted.rt, untrusted.roots, Stands(untrusted));
      for i := 0 to |args|
        invariant Checked(old(variants), old(visits), old(Stands(untrusted)), done)
        invariant done + CheckAll(config, args[i..], variants, path, i) == CheckAll(config, args, variants, path, 0)
      {
        assert args[i..][1..] == args[i + 1..];
        ghost var mid := Stands(untrusted);
        CheckNode(args[i], path + [i], i);
        DrivenThen(untrusted.rt, untrusted.roots, old(Stands(untrusted)), mid, Stands(untrusted), done,
                   Check(config, args[i], variants, path + [i], i));
        done := done + Check(config, args[i], variants, path + [i], i);
      }
      assert args[|args|..] == [];
      assert done == CheckAll(config, args, variants, path, 0);
    }

    method CheckCaseBranches(args: seq<Expr>, path: seq<nat>, k: nat)
      requires |args| % 2 == 1
      requires untrusted.Valid()
      modifies this, untrusted
      ensures Checked(old(variants), old(visits), old(Stands(untrusted)), CheckCase(config, args, variants, path, k))
      decreases args, 1
    {
      hide Check, CheckChosen, CheckOthers, Driven, UntrustedInputChecker.Valid;
      ghost var was := Stands(untrusted);
      CheckNode(args[0], path + [k], k);
      if |args| == 1 { return; }
      ghost var first := Stands(untrusted);
      CheckChosenBranch(args, path, k);
      ghost var second := Stands(untrusted);
      CheckOtherBranches(args, path, k);
      DrivenThen(untrusted.rt, untrusted.roots, first, second, Stands(untrusted),
                 CheckChosen(config, args, variants, path, k), CheckOthers(config, args, variants, path, k));
      DrivenThen(untrusted.rt, untrusted.roots, was, first, Stands(untrusted), Check(config, args[0], variants, path + [k], k),
                 CheckChosen(config, args, variants, path, k) + CheckOthers(config, args, variants, path, k));
    }

    method CheckChosenBranch(args: seq<Expr>, path: seq<nat>, k: nat)
      requires |args| > 1
      requires untrusted.Valid()
      modifies this, untrusted
      ensures Checked(old(variants), old(visits), old(Stands(untrusted)), CheckChosen(config, args, variants, path, k))
      decreases args, 0
    {
      hide Check, Guarded, Driven, UntrustedInputChecker.Valid;
      DrivenNone(untrusted.rt, untrusted.roots, Stands(untrusted));
      var previous := variants;
      var taken := EnterGuard(args[0], true);
      if taken { CheckNode(args[1], path + [k + 1], k + 1); }
      variants := previous;
    }

    method CheckOtherBranches(args: seq<Expr>, path: seq<nat>, k: nat)
      requires |args| > 1 && |args| % 2 == 1
      requires untrusted.Valid()
      modifies this, untrusted
      ensures Checked(old(variants), old(visits), old(Stands(untrusted)), CheckOthers(config, args, variants, path, k))
      decreases args, 0
    {
      hide CheckCase, Guarded, Driven, UntrustedInputChecker.Valid;
      DrivenNone(untrusted.rt, untrusted.roots, Stands(untrusted));
      var previous := variants;
      var taken := EnterGuard(args[0], false);
      if taken { CheckCaseBranches(args[2..], path, k + 2); }
      variants := previous;
    }
  }
}
