/** Visiting a whole expression with the untrusted-input checker (internal/expression/expr_ast.go, expr_insecure.go). */
module UntrustedVisits {
  import opened Text
  import opened Syntax
  import opened Semantics
  import opened UntrustedInputs
  import opened UntrustedChecker
  import opened UntrustedWalks
  import opened UntrustedStories
  import opened UntrustedTargets

  /** A visit enters every node; an index comes before the value it selects from. */
  function VisitPlan(e: Expr, place: nat, path: seq<nat>): Plan
    decreases e, 1
  {
    Plan(e, place, path, [], if e.Index? then IndexFirst(e, path) else VisitFirst(e, path, |Children(e)|))
  }

  function IndexFirst(e: Expr, path: seq<nat>): seq<Plan>
    requires e.Index?
    decreases e, 0
  {
    [VisitPlan(e.index, 1, path + [1]), VisitPlan(e.operand, 0, path + [0])]
  }

  /** The first n children, in order. */
  function VisitFirst(e: Expr, path: seq<nat>, n: nat): (ps: seq<Plan>)
    requires n <= |Children(e)|
    ensures |ps| == n
    ensures forall k | 0 <= k < n :: ps[k] == VisitPlan(Children(e)[k], k, path + [k])
    decreases e, 0, n
  {
    if n == 0 then [] else VisitFirst(e, path, n - 1) + [VisitPlan(Children(e)[n - 1], n - 1, path + [n - 1])]
  }

  lemma {:induction false} VisitShaped(e: Expr, place: nat, path: seq<nat>)
    ensures Shaped(VisitPlan(e, place, path))
    decreases e
  {
    hide IsToJson, Shaped, VisitFirst, IndexFirst;
    PathOf(e, place, path);
    var p := VisitPlan(e, place, path);
    forall q | q in p.inner ensures Shaped(q) && p.path < q.path {
      var k := InnerIsChild(e, place, path, q);
      PathOf(Children(e)[k], k, path + [k]);
      VisitShaped(Children(e)[k], k, path + [k]);
    }
    ShapedFrom(e, place, path);
  }

  lemma InnerIsChild(e: Expr, place: nat, path: seq<nat>, q: Plan) returns (k: nat)
    requires q in VisitPlan(e, place, path).inner
    ensures k < |Children(e)| && q == VisitPlan(Children(e)[k], k, path + [k])
  {
    hide VisitPlan;
    if e.Index? {
      InnerOf(e, place, path);
      k := if q == VisitPlan(e.index, 1, path + [1]) then 1 else 0;
    } else {
      InnerOf(e, place, path);
      k :| 0 <= k < |Children(e)| && VisitFirst(e, path, |Children(e)|)[k] == q;
    }
  }

  lemma InnerOf(e: Expr, place: nat, path: seq<nat>)
    ensures VisitPlan(e, place, path).inner == if e.Index? then IndexFirst(e, path) else VisitFirst(e, path, |Children(e)|)
  {
  }

  lemma ShapedFrom(e: Expr, place: nat, path: seq<nat>)
    requires var p := VisitPlan(e, place, path); forall q | q in p.inner :: Shaped(q) && p.path < q.path
    ensures Shaped(VisitPlan(e, place, path))
  {
    hide IsToJson, VisitPlan;
    PathOf(e, place, path);
    if IsToJson(e) { ToJsonChild(e); }
    if e.Index? {
      InnerOf(e, place, path);
      PathOf(e.index, 1, path + [1]);
      PathOf(e.operand, 0, path + [0]);
    } else if |Children(e)| <= 1 {
      FewChildren(e, place, path);
      if |Children(e)| == 1 { PathOf(Children(e)[0], 0, path + [0]); }
    }
  }

  lemma FewChildren(e: Expr, place: nat, path: seq<nat>)
    requires !e.Index? && |Children(e)| <= 1
    ensures VisitPlan(e, place, path).inner == if Children(e) == [] then [] else [VisitPlan(Children(e)[0], 0, path + [0])]
  {
    hide VisitPlan;
    InnerOf(e, place, path);
  }

  lemma ToJsonChild(e: Expr)
    requires IsToJson(e)
    ensures e.Call? && Children(e) == e.args && |e.args| == 1
  {
  }

  // ----- the visit -----

  method VisitNode(u: UntrustedInputChecker, e: Expr, place: nat, ghost path: seq<nat>)
    requires u.Valid()
    modifies u
    ensures u.Valid() && Driven(u.rt, u.roots, old(Stands(u)), Stands(u), [VisitPlan(e, place, path)])
    decreases e
  {
    hide Driven, UntrustedInputChecker.Valid, Enter, Leave, TruthOnly, LeaveStep, IsSafeCall;
    ghost var was := Stands(u);
    u.OnVisitNodeEnter(e, place);
    EnterStands(was, Stands(u), e, place);
    ghost var entered := Stands(u);
    if e.Index? {
      VisitNode(u, e.index, 1, path + [1]);
      ghost var mid := Stands(u);
      VisitNode(u, e.operand, 0, path + [0]);
      DrivenThen(u.rt, u.roots, entered, mid, Stands(u), [VisitPlan(e.index, 1, path + [1])], [VisitPlan(e.operand, 0, path + [0])]);
      assert [VisitPlan(e.index, 1, path + [1])] + [VisitPlan(e.operand, 0, path + [0])] == VisitPlan(e, place, path).inner;
    } else {
      DrivenNone(u.rt, u.roots, entered);
      for k := 0 to |Children(e)|
        invariant u.Valid() && Driven(u.rt, u.roots, entered, Stands(u), VisitFirst(e, path, k))
      {
        ghost var mid := Stands(u);
        VisitNode(u, Children(e)[k], k, path + [k]);
        DrivenThen(u.rt, u.roots, entered, mid, Stands(u), VisitFirst(e, path, k), [VisitPlan(Children(e)[k], k, path + [k])]);
      }
    }
    ghost var now := Stands(u);
    NodeDriven(u.rt, u.roots, was, now, VisitPlan(e, place, path));
    u.OnVisitNodeLeave(e);
    LeaveStands(u.rt, u.roots, now, Stands(u), e);
  }

  /** Visiting an expression with a fresh checker reports what there is to look up, unless safe calls are selected from. */
  method VisitExpression(rt: Runtime, roots: Roots, e: Expr) returns (errs: seq<Report>)
    ensures errs == Findings(rt, roots, [VisitPlan(e, 0, [])])
    ensures errs == Reports(rt, roots, AllLookups([VisitPlan(e, 0, [])], None, false))
      <==> Clean(roots, WholeStory(rt, roots, [VisitPlan(e, 0, [])]))
  {
    hide WalkAll, Shaped, Clean, WholeStory, Reports, AllLookups;
    var u := new UntrustedInputChecker(rt, roots);
    ghost var was := Stands(u);
    VisitNode(u, e, 0, []);
    u.OnVisitEnd();
    VisitShaped(e, 0, []);
    FindingsExactly(rt, roots, [VisitPlan(e, 0, [])]);
    return u.errs;
  }

  // ----- what a visit looks up -----

  /** A visit sees every maximal access, and sees an access as maximal only where it is. */
  lemma {:induction false} SeenIsMaximal(e: Expr, place: nat, base: seq<nat>, path: seq<nat>, access: Expr)
    requires IsAccess(access)
    ensures SeenAt(VisitPlan(e, place, base), Target(base + path, access, None, true)) <==> MaximalAt(e, path, access)
    decreases e
  {
    hide IsSafeCall, VisitPlan, SeenAt, Seen;
    var t := Target(base + path, access, None, true);
    forall k | 0 <= k < |Children(e)|
      ensures SeenAt(VisitPlan(Children(e)[k], k, base + [k]), t)
        <==> path != [] && path[0] == k && MaximalAt(Children(e)[k], path[1..], access)
    {
      if path != [] && path[0] == k {
        assert base + path == (base + [k]) + path[1..];
        SeenIsMaximal(Children(e)[k], k, base + [k], path[1..], access);
      } else {
        PathOf(Children(e)[k], k, base + [k]);
        Elsewhere(VisitPlan(Children(e)[k], k, base + [k]), t, base, k, path);
      }
    }
    SeenChild(e, place, base, t);
    SeenVisit(e, place, base, path, access);
  }

  lemma PathOf(e: Expr, place: nat, path: seq<nat>)
    ensures var p := VisitPlan(e, place, path); p.path == path && p.node == e && p.place == place
  {
  }

  lemma SeenVisit(e: Expr, place: nat, base: seq<nat>, path: seq<nat>, access: Expr)
    ensures var p, t := VisitPlan(e, place, base), Target(base + path, access, None, true);
      SeenAt(p, t) <==> !IsSafeCall(e) && !(IsAccess(e) && path == [0]) && ((path == [] && e == access) || Seen(p.inner, t))
  {
    hide IsSafeCall, VisitFirst, IndexFirst, Seen;
    Appended(base, path, [0]);
    Appended(base, path, []);
    assert base + [] == base;
  }

  lemma Elsewhere(p: Plan, t: Target, base: seq<nat>, k: nat, path: seq<nat>)
    requires p.path == base + [k] && t.path == base + path && (path == [] || path[0] != k)
    ensures !SeenAt(p, t)
  {
    assert p.path[|base|] == k;
    if path != [] { assert t.path[|base|] == path[0]; }
  }

  lemma Appended(base: seq<nat>, a: seq<nat>, b: seq<nat>)
    ensures base + a == base + b <==> a == b
  {
    assert (base + a)[|base|..] == a && (base + b)[|base|..] == b;
  }

  /** What is seen in a node is the node or seen in one of its children. */
  lemma SeenChild(e: Expr, place: nat, base: seq<nat>, t: Target)
    ensures Seen(VisitPlan(e, place, base).inner, t) <==>
      exists k | 0 <= k < |Children(e)| :: SeenAt(VisitPlan(Children(e)[k], k, base + [k]), t)
  {
    hide SeenAt, VisitPlan, Seen;
    var ps := VisitPlan(e, place, base).inner;
    if Seen(ps, t) {
      var j := SeenIn(ps, t);
      var k := InnerIsChild(e, place, base, ps[j]);
    }
    forall k | 0 <= k < |Children(e)| && SeenAt(VisitPlan(Children(e)[k], k, base + [k]), t) ensures Seen(ps, t) {
      ChildIsInner(e, place, base, k);
      SeenOne(ps, VisitPlan(Children(e)[k], k, base + [k]), t);
    }
  }

  lemma SeenOne(ps: seq<Plan>, p: Plan, t: Target)
    requires p in ps && SeenAt(p, t)
    ensures Seen(ps, t)
  {
    hide SeenAt;
  }

  lemma ChildIsInner(e: Expr, place: nat, path: seq<nat>, k: nat)
    requires k < |Children(e)|
    ensures VisitPlan(Children(e)[k], k, path + [k]) in VisitPlan(e, place, path).inner
  {
    hide VisitPlan;
    InnerOf(e, place, path);
    var ps := VisitPlan(e, place, path).inner;
    if e.Index? {
      assert ps[1 - k] in ps;
    } else {
      assert ps[k] in ps;
    }
  }

  /** The accesses that a visit looks up are exactly the maximal ones. */
  lemma VisitFindsMaximal(e: Expr, boolean: bool, access: Expr)
    ensures Found(Lookups(VisitPlan(e, 0, []), boolean), access) <==> exists path :: MaximalAt(e, path, access)
  {
    hide SeenAt, Found, Lookups, Shaped;
    var p := VisitPlan(e, 0, []);
    VisitShaped(e, 0, []);
    if Found(Lookups(p, boolean), access) {
      var t := FoundIsMaximal(p, boolean, access);
      assert [] + t.path == t.path;
      SeenIsMaximal(e, 0, [], t.path, access);
    }
    forall path | MaximalAt(e, path, access) ensures Found(Lookups(p, boolean), access) {
      MaximalIsAccess(e, path, access);
      SeenIsMaximal(e, 0, [], path, access);
      MaximalIsFound(p, boolean, Target([] + path, access, None, true));
    }
  }

  lemma {:induction false} MaximalIsAccess(e: Expr, path: seq<nat>, access: Expr)
    requires MaximalAt(e, path, access)
    ensures IsAccess(access)
    decreases |path|
  {
    if path != [] { MaximalIsAccess(Children(e)[path[0]], path[1..], access); }
  }
}
