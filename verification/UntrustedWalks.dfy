/** What the untrusted-input checker reports when it is driven over an expression (internal/expression/expr_insecure.go). */
module UntrustedWalks {
  import opened Text
  import opened Syntax
  import opened Semantics
  import opened EventTypes
  import opened UntrustedInputs
  import opened UntrustedChecker

  /** Entering a node, the nodes visited inside it, and leaving it. */
  datatype Plan = Plan(node: Expr, place: nat, path: seq<nat>, variants: seq<EventVariant>, inner: seq<Plan>)

  /** Accesses and serializations are visited with all they consist of. */
  predicate Shaped(p: Plan)
    decreases p
  {
    && (forall q | q in p.inner :: Shaped(q) && p.path < q.path)
    && (p.node.Variable? ==> p.inner == [])
    && (p.node.Property? || p.node.Filter? || p.node.Index? ==> Selects(p))
    && (IsToJson(p.node) ==> |p.inner| == 1 && p.inner[0].node == p.node.args[0])
  }

  /** The receiver is visited last, after the index if there is one. */
  predicate Selects(p: Plan)
    requires p.node.Property? || p.node.Filter? || p.node.Index?
  {
    && |p.inner| == (if p.node.Index? then 2 else 1)
    && p.inner[|p.inner| - 1].node == Receiver(p.node)
    && p.inner[|p.inner| - 1].path == p.path + [0]
    && (p.node.Index? ==> p.inner[0].path == p.path + [1])
  }

  /** Whether only the truth of a node is used, as far as the node it was entered from tells. */
  predicate Asked(parent: Option<Expr>, p: Plan) {
    p.node.Compare? || p.node.Not? || (parent.Some? && OnlyTruth(parent.value, p.place, p.node))
  }

  // ----- what there is to look up -----

  /** The maximal accesses outside safe calls, in the order of the visit; boolean says that only the truth is used. */
  function Lookups(p: Plan, boolean: bool): seq<Lookup>
    decreases p, 2
  {
    if IsSafeCall(p.node) then []
    else if IsAccess(p.node) then Along(p, boolean) + [Read(p.node)]
    else if IsToJson(p.node) && !boolean && p.inner != [] then
      var arg := p.inner[0];
      if IsAccess(arg.node) then Along(arg, Asked(Some(p.node), arg)) + [Serialized(arg.node)]
      else AllLookups(p.inner, Some(p.node), boolean) + [Selected(arg.node)]
    else AllLookups(p.inner, Some(p.node), boolean)
  }

  /** What lies along an access: its indices, outermost first, and a receiver that is not itself an access. */
  function Along(p: Plan, boolean: bool): seq<Lookup>
    decreases p, 1
  {
    if p.inner == [] then []
    else
      var n := |p.inner| - 1;
      AllLookups(p.inner[..n], Some(p.node), boolean) + ReceiverLookups(p.inner[n], boolean || Asked(Some(p.node), p.inner[n]))
  }

  function ReceiverLookups(r: Plan, boolean: bool): seq<Lookup>
    decreases r, 3
  {
    if IsAccess(r.node) then Along(r, boolean) else Lookups(r, boolean)
  }

  function AllLookups(ps: seq<Plan>, parent: Option<Expr>, boolean: bool): seq<Lookup>
    decreases ps, 0
  {
    if ps == [] then []
    else
      var q := ps[|ps| - 1];
      AllLookups(ps[..|ps| - 1], parent, boolean) + Lookups(q, boolean || Asked(parent, q))
  }

  lemma AccessIsUnsafe(e: Expr)
    requires IsAccess(e)
    ensures !IsSafeCall(e) && !IsToJson(e)
  {
  }

  lemma SafeIsNoAccess(e: Expr)
    requires IsSafeCall(e)
    ensures !IsAccess(e)
  {
  }

  lemma SafeLooksUpNothing(p: Plan, boolean: bool)
    requires IsSafeCall(p.node)
    ensures ReceiverLookups(p, boolean) == [] && Lookups(p, boolean) == []
  {
    if IsAccess(p.node) { AccessIsUnsafe(p.node); }
  }

  lemma AccessLooksUp(p: Plan, boolean: bool)
    requires IsAccess(p.node)
    ensures Lookups(p, boolean) == Along(p, boolean) + [Read(p.node)]
  {
    AccessIsUnsafe(p.node);
  }

  lemma OtherLooksUp(p: Plan, boolean: bool)
    requires !IsSafeCall(p.node) && !IsAccess(p.node) && (boolean || !IsToJson(p.node))
    ensures Lookups(p, boolean) == AllLookups(p.inner, Some(p.node), boolean)
  {
    hide IsSafeCall, IsToJson;
  }

  lemma ToJsonShape(p: Plan)
    requires IsToJson(p.node) && Shaped(p)
    ensures |p.inner| == 1 && p.node.Call? && |p.node.args| == 1 && p.inner[0].node == p.node.args[0] && Shaped(p.inner[0])
    ensures !IsAccess(p.node)
  {
  }

  lemma ToJsonLookups(p: Plan)
    requires IsToJson(p.node) && !IsSafeCall(p.node) && |p.inner| == 1
    ensures var arg := p.inner[0]; var b := Asked(Some(p.node), arg);
      Lookups(p, false) ==
        if IsAccess(arg.node) then Along(arg, b) + [Serialized(arg.node)] else Lookups(arg, b) + [Selected(arg.node)]
  {
    hide Along, IsSafeCall, Asked;
    assert p.inner[..0] == [];
    assert AllLookups(p.inner, Some(p.node), false) == Lookups(p.inner[0], Asked(Some(p.node), p.inner[0]));
  }

  // ----- what the checker does -----

  /** What visiting a node does to the log: inside safe calls nothing, elsewhere what leaving each node does. */
  function Walk(rt: Runtime, roots: Roots, log: Log, p: Plan, boolean: bool): Log
    decreases p, 1
  {
    if IsSafeCall(p.node) then log
    else LeaveStep(rt, roots, WalkAll(rt, roots, log, p.inner, Some(p.node), boolean), p.node, boolean)
  }

  function WalkAll(rt: Runtime, roots: Roots, log: Log, ps: seq<Plan>, parent: Option<Expr>, boolean: bool): Log
    decreases ps, 0
  {
    if ps == [] then log
    else
      var q := ps[|ps| - 1];
      Walk(rt, roots, WalkAll(rt, roots, log, ps[..|ps| - 1], parent, boolean), q, boolean || Asked(parent, q))
  }

  /** All that a fresh checker reports. */
  function Findings(rt: Runtime, roots: Roots, ps: seq<Plan>): seq<Report> {
    Flush(WalkAll(rt, roots, Log(EMPTY, []), ps, None, false))
  }

  // ----- the machine in the hands of its driver -----

  /** All that the checker object remembers between callbacks. */
  datatype Standing = Standing(log: Log, safeCalls: nat, booleanContexts: nat, visits: seq<Visit>)

  function Stands(u: UntrustedInputChecker): Standing
    reads u
  {
    Standing(u.State(), u.safeCalls, u.booleanContexts, u.visits)
  }

  function Entered(visits: seq<Visit>): Option<Expr> {
    if visits == [] then None else Some(visits[|visits| - 1].node)
  }

  /** The visits were made one after the other: both counts and the stack are as before, and the log is what they make of it. */
  predicate Driven(rt: Runtime, roots: Roots, was: Standing, now: Standing, ps: seq<Plan>) {
    now == was.(log :=
      if was.safeCalls > 0 then was.log
      else WalkAll(rt, roots, was.log, ps, Entered(was.visits), was.booleanContexts > 0))
  }

  lemma DrivenNone(rt: Runtime, roots: Roots, was: Standing)
    ensures Driven(rt, roots, was, was, [])
  {
  }

  lemma {:induction false} WalkConcat(rt: Runtime, roots: Roots, log: Log, a: seq<Plan>, b: seq<Plan>, parent: Option<Expr>, boolean: bool)
    ensures WalkAll(rt, roots, log, a + b, parent, boolean)
      == WalkAll(rt, roots, WalkAll(rt, roots, log, a, parent, boolean), b, parent, boolean)
  {
    hide Walk, Asked;
    if b == [] {
      assert a + b == a;
    } else {
      assert (a + b)[..|a + b| - 1] == a + b[..|b| - 1];
      WalkConcat(rt, roots, log, a, b[..|b| - 1], parent, boolean);
    }
  }

  lemma DrivenThen(rt: Runtime, roots: Roots, was: Standing, mid: Standing, now: Standing, a: seq<Plan>, b: seq<Plan>)
    requires Driven(rt, roots, was, mid, a) && Driven(rt, roots, mid, now, b)
    ensures Driven(rt, roots, was, now, a + b)
  {
    hide WalkAll;
    WalkConcat(rt, roots, was.log, a, b, Entered(was.visits), was.booleanContexts > 0);
  }

  /** How the checker stands after entering a node. */
  function Enter(was: Standing, e: Expr, place: nat): Standing {
    var boolean := TruthOnly(was.visits, e, place);
    Standing(was.log, was.safeCalls + (if IsSafeCall(e) then 1 else 0), was.booleanContexts + (if boolean then 1 else 0),
             was.visits + [Visit(e, boolean)])
  }

  /** How it stands after leaving a node that was entered. */
  function Leave(rt: Runtime, roots: Roots, was: Standing, e: Expr): Standing
    requires was.visits != [] && (was.visits[|was.visits| - 1].boolean ==> was.booleanContexts > 0)
  {
    var n := |was.visits| - 1;
    var contexts := was.booleanContexts - if was.visits[n].boolean then 1 else 0;
    if was.safeCalls > 0 then
      Standing(was.log, was.safeCalls - (if IsSafeCall(e) then 1 else 0), contexts, was.visits[..n])
    else
      Standing(LeaveStep(rt, roots, was.log, e, was.booleanContexts > 0), 0, contexts, was.visits[..n])
  }

  /** Entering is what the callback does before the children of a node, and leaving what it does after them. */
  lemma EnterStands(was: Standing, now: Standing, e: Expr, place: nat)
    requires now.log == was.log && now.visits == was.visits + [Visit(e, TruthOnly(was.visits, e, place))]
    requires now.booleanContexts == was.booleanContexts + if TruthOnly(was.visits, e, place) then 1 else 0
    requires now.safeCalls == was.safeCalls + if IsSafeCall(e) then 1 else 0
    ensures now == Enter(was, e, place)
  {
  }

  lemma LeaveStands(rt: Runtime, roots: Roots, was: Standing, now: Standing, e: Expr)
    requires was.visits != [] && (was.visits[|was.visits| - 1].boolean ==> was.booleanContexts > 0)
    requires now.visits == was.visits[..|was.visits| - 1]
    requires now.booleanContexts == was.booleanContexts - if was.visits[|was.visits| - 1].boolean then 1 else 0
    requires if was.safeCalls > 0 then now.log == was.log && now.safeCalls == was.safeCalls - if IsSafeCall(e) then 1 else 0
             else now.log == LeaveStep(rt, roots, was.log, e, was.booleanContexts > 0) && now.safeCalls == 0
    ensures now == Leave(rt, roots, was, e)
  {
  }

  lemma NodeDriven(rt: Runtime, roots: Roots, was: Standing, now: Standing, p: Plan)
    requires Driven(rt, roots, Enter(was, p.node, p.place), now, p.inner)
    ensures now.visits != [] && (now.visits[|now.visits| - 1].boolean ==> now.booleanContexts > 0)
    ensures Driven(rt, roots, was, Leave(rt, roots, now, p.node), [p])
  {
    hide LeaveStep, OnlyTruth, IsSafeCall;
    assert [p][..0] == [];
    var parent := Entered(was.visits);
    assert TruthOnly(was.visits, p.node, p.place) == Asked(parent, p);
    assert WalkAll(rt, roots, was.log, [p], parent, was.booleanContexts > 0)
      == Walk(rt, roots, was.log, p, was.booleanContexts > 0 || Asked(parent, p));
  }
}
