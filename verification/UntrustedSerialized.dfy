/** Which arguments of toJSON are looked up as containers (internal/expression/expr_insecure.go). */
module UntrustedSerialized {
  import opened Text
  import opened Syntax
  import opened Semantics
  import opened UntrustedInputs
  import opened UntrustedWalks
  import opened UntrustedVisits

  // ----- in any visit -----

  /** Visiting q inside p, no safe call is entered, and of no node on the way only the truth is used. */
  predicate EmittedIn(p: Plan, boolean: bool, q: Plan)
    decreases p
  {
    && !IsSafeCall(p.node) && !boolean
    && (p == q || exists r | r in p.inner :: EmittedIn(r, Asked(Some(p.node), r), q))
  }

  /** What is looked up for the argument of a serialization. */
  function Whole(arg: Expr): Lookup {
    if IsAccess(arg) then Serialized(arg) else Selected(arg)
  }

  predicate Serializes(e: Expr, arg: Expr) {
    IsToJson(e) && e.args[0] == arg
  }

  lemma {:induction false} InAll(ps: seq<Plan>, parent: Option<Expr>, boolean: bool, k: nat, l: Lookup)
    requires k < |ps| && l in Lookups(ps[k], boolean || Asked(parent, ps[k]))
    ensures l in AllLookups(ps, parent, boolean)
  {
    hide Lookups, Asked;
    if k < |ps| - 1 { InAll(ps[..|ps| - 1], parent, boolean, k, l); }
  }

  lemma {:induction false} OneOfAll(ps: seq<Plan>, parent: Option<Expr>, boolean: bool, l: Lookup) returns (k: nat)
    requires l in AllLookups(ps, parent, boolean)
    ensures k < |ps| && l in Lookups(ps[k], boolean || Asked(parent, ps[k]))
  {
    hide Lookups, Asked;
    k := |ps| - 1;
    if l !in Lookups(ps[k], boolean || Asked(parent, ps[k])) { k := OneOfAll(ps[..|ps| - 1], parent, boolean, l); }
  }

  /** Along an access everything inside it is looked up but its receiver as an access. */
  lemma AlongInner(p: Plan, boolean: bool, l: Lookup)
    requires Shaped(p) && IsAccess(p.node) && !l.Read?
    ensures l in Along(p, boolean) <==>
      exists k | 0 <= k < |p.inner| :: l in Lookups(p.inner[k], boolean || Asked(Some(p.node), p.inner[k]))
  {
    hide Lookups, Asked, IsSafeCall, IsToJson;
    if p.inner != [] {
      var n := |p.inner| - 1;
      var r := p.inner[n];
      var b := boolean || Asked(Some(p.node), r);
      if IsAccess(r.node) { AccessLooksUp(r, b); }
      assert l in ReceiverLookups(r, b) <==> l in Lookups(r, b);
      if l in AllLookups(p.inner[..n], Some(p.node), boolean) {
        var k := OneOfAll(p.inner[..n], Some(p.node), boolean, l);
        assert p.inner[..n][k] == p.inner[k];
      }
      forall k | 0 <= k < n && l in Lookups(p.inner[k], boolean || Asked(Some(p.node), p.inner[k]))
        ensures l in AllLookups(p.inner[..n], Some(p.node), boolean)
      {
        assert p.inner[..n][k] == p.inner[k];
        InAll(p.inner[..n], Some(p.node), boolean, k, l);
      }
    }
  }

  /** Outside safe calls, what is looked up at a node is what is looked up inside it, and the argument it serializes. */
  lemma InnerLookups(p: Plan, boolean: bool, l: Lookup)
    requires Shaped(p) && !l.Read? && !IsSafeCall(p.node)
    ensures l in Lookups(p, boolean) <==>
      || (!boolean && IsToJson(p.node) && l == Whole(p.node.args[0]))
      || exists k | 0 <= k < |p.inner| :: l in Lookups(p.inner[k], boolean || Asked(Some(p.node), p.inner[k]))
  {
    hide Asked, IsSafeCall, IsToJson, Lookups;
    if IsAccess(p.node) {
      AccessLooksUp(p, boolean);
      AccessIsUnsafe(p.node);
      AlongInner(p, boolean, l);
    } else if IsToJson(p.node) && !boolean {
      ToJsonShape(p);
      ToJsonLookups(p);
      var arg := p.inner[0];
      if IsAccess(arg.node) { AccessLooksUp(arg, Asked(Some(p.node), arg)); }
    } else {
      OtherLooksUp(p, boolean);
      if l in AllLookups(p.inner, Some(p.node), boolean) { var k := OneOfAll(p.inner, Some(p.node), boolean, l); }
      forall k | 0 <= k < |p.inner| && l in Lookups(p.inner[k], boolean || Asked(Some(p.node), p.inner[k]))
        ensures l in AllLookups(p.inner, Some(p.node), boolean)
      {
        InAll(p.inner, Some(p.node), boolean, k, l);
      }
    }
  }

  ghost predicate Emits(p: Plan, boolean: bool, arg: Expr) {
    exists q :: EmittedIn(p, boolean, q) && Serializes(q.node, arg)
  }

  lemma EmitsStep(p: Plan, boolean: bool, arg: Expr)
    requires Shaped(p)
    ensures Emits(p, boolean, arg) <==>
      && !IsSafeCall(p.node) && !boolean
      && (Serializes(p.node, arg) || exists r | r in p.inner :: Emits(r, Asked(Some(p.node), r), arg))
  {
    hide IsSafeCall, Asked, Serializes, Shaped;
    if !IsSafeCall(p.node) && !boolean {
      if Serializes(p.node, arg) { assert EmittedIn(p, boolean, p); }
      forall r, q | r in p.inner && EmittedIn(r, Asked(Some(p.node), r), q) ensures EmittedIn(p, boolean, q) {}
    }
  }

  lemma {:induction false} NothingAsked(p: Plan, boolean: bool, arg: Expr)
    requires Shaped(p) && boolean
    ensures Whole(arg) !in Lookups(p, boolean)
    decreases p
  {
    hide IsSafeCall, IsToJson, Asked, Lookups;
    if IsSafeCall(p.node) {
      SafeLooksUpNothing(p, boolean);
    } else {
      InnerLookups(p, boolean, Whole(arg));
      forall k | 0 <= k < |p.inner| ensures Whole(arg) !in Lookups(p.inner[k], true) { NothingAsked(p.inner[k], true, arg); }
    }
  }

  /** An argument is looked up whole exactly when a serialization of it is visited whose value is used. */
  lemma {:induction false} SerializedIsEmitted(p: Plan, boolean: bool, arg: Expr)
    requires Shaped(p)
    ensures Whole(arg) in Lookups(p, boolean) <==> Emits(p, boolean, arg)
    decreases p
  {
    hide IsSafeCall, IsToJson, Asked, Lookups, Emits, Whole;
    EmitsStep(p, boolean, arg);
    if boolean {
      NothingAsked(p, boolean, arg);
    } else if IsSafeCall(p.node) {
      SafeLooksUpNothing(p, boolean);
    } else {
      WholeIsNoRead(arg);
      InnerLookups(p, boolean, Whole(arg));
      if IsToJson(p.node) {
        ToJsonShape(p);
        SameWhole(arg, p.node.args[0]);
      }
      forall k | 0 <= k < |p.inner|
        ensures Whole(arg) in Lookups(p.inner[k], Asked(Some(p.node), p.inner[k]))
          <==> Emits(p.inner[k], Asked(Some(p.node), p.inner[k]), arg)
      {
        SerializedIsEmitted(p.inner[k], Asked(Some(p.node), p.inner[k]), arg);
      }
      forall r | r in p.inner ensures exists k | 0 <= k < |p.inner| :: p.inner[k] == r {}
    }
  }

  lemma WholeIsNoRead(arg: Expr)
    ensures !Whole(arg).Read?
  {
  }

  lemma SameWhole(a: Expr, b: Expr)
    ensures Whole(a) == Whole(b) <==> a == b
  {
  }

  // ----- in a visit of an expression -----

  /** The node has a value that is used, and it is no safe call. */
  predicate Used(e: Expr) {
    && !e.Compare? && !e.Not?
    && !(e.Call? && (Lower(e.callee) == "contains" || Lower(e.callee) == "startswith" || Lower(e.callee) == "endswith"))
  }

  /** The node uses the value of its k-th child: not of the left of && and of the conditions of a case call. */
  predicate Uses(e: Expr, k: nat) {
    !(e.Logic? && e.kind == And && k == 0) && !(e.Call? && IsCase(e.callee) && k % 2 == 0 && k < |e.args| - 1)
  }

  /** The value of every node on the way along the path is used. */
  predicate Emitted(e: Expr, path: seq<nat>)
    decreases |path|
  {
    Used(e) && (path != [] ==> path[0] < |Children(e)| && Uses(e, path[0]) && Emitted(Children(e)[path[0]], path[1..]))
  }

  predicate SerializedAt(e: Expr, path: seq<nat>, arg: Expr) {
    && Emitted(e, path) && Sub(e, path).Some?
    && var call := Sub(e, path).value; call.Call? && EqualFold(call.callee, "toJSON") && call.args == [arg]
  }

  ghost predicate SerializedSomewhere(e: Expr, arg: Expr) {
    exists path :: SerializedAt(e, path, arg)
  }

  lemma SerializedHere(e: Expr, arg: Expr)
    ensures SerializedAt(e, [], arg) <==> Used(e) && Serializes(e, arg)
  {
    hide Used, Lower, FoldChar;
    if Serializes(e, arg) { assert e.args == [e.args[0]]; }
  }

  lemma SerializedBelow(e: Expr, path: seq<nat>, arg: Expr)
    requires path != []
    ensures SerializedAt(e, path, arg) <==>
      Used(e) && path[0] < |Children(e)| && Uses(e, path[0]) && SerializedAt(Children(e)[path[0]], path[1..], arg)
  {
    hide Used, Uses, EqualFold;
  }

  lemma SomewhereBelow(e: Expr, k: nat, arg: Expr)
    requires Used(e) && k < |Children(e)| && Uses(e, k) && SerializedSomewhere(Children(e)[k], arg)
    ensures SerializedSomewhere(e, arg)
  {
    hide Used, Uses, SerializedAt;
    var path :| SerializedAt(Children(e)[k], path, arg);
    assert ([k] + path)[1..] == path && ([k] + path)[0] == k;
    SerializedBelow(e, [k] + path, arg);
  }

  lemma SomewhereOpens(e: Expr, arg: Expr)
    requires SerializedSomewhere(e, arg)
    ensures Used(e)
    ensures Serializes(e, arg) || exists k | 0 <= k < |Children(e)| :: Uses(e, k) && SerializedSomewhere(Children(e)[k], arg)
  {
    hide Used, Uses, SerializedAt, Serializes;
    var path :| SerializedAt(e, path, arg);
    if path == [] { SerializedHere(e, arg); } else { SerializedBelow(e, path, arg); }
  }

  lemma SomewhereStep(e: Expr, arg: Expr)
    ensures SerializedSomewhere(e, arg) <==>
      Used(e) && (Serializes(e, arg) || exists k | 0 <= k < |Children(e)| :: Uses(e, k) && SerializedSomewhere(Children(e)[k], arg))
  {
    hide Used, Uses, Serializes, SerializedAt;
    if SerializedSomewhere(e, arg) {
      SomewhereOpens(e, arg);
    } else if Used(e) {
      SerializedHere(e, arg);
      forall k | 0 <= k < |Children(e)| && Uses(e, k) ensures !SerializedSomewhere(Children(e)[k], arg) {
        if SerializedSomewhere(Children(e)[k], arg) { SomewhereBelow(e, k, arg); }
      }
    }
  }

  lemma {:induction false} EmittedSomewhere(e: Expr, place: nat, base: seq<nat>, arg: Expr)
    ensures Emits(VisitPlan(e, place, base), e.Compare? || e.Not?, arg) <==> SerializedSomewhere(e, arg)
    decreases e
  {
    hide Asked, VisitPlan, IsSafeCall, Emits, SerializedSomewhere, Serializes, Uses;
    var p := VisitPlan(e, place, base);
    PathOf(e, place, base);
    VisitShaped(e, place, base);
    EmitsStep(p, e.Compare? || e.Not?, arg);
    SomewhereStep(e, arg);
    UsedExactly(e);
    if Used(e) {
      forall k | 0 <= k < |Children(e)|
        ensures var child := VisitPlan(Children(e)[k], k, base + [k]);
          child in p.inner && (Emits(child, Asked(Some(e), child), arg) <==> Uses(e, k) && SerializedSomewhere(Children(e)[k], arg))
      {
        assert Children(e)[k] in Children(e);
        ChildIsInner(e, place, base, k);
        EmittedSomewhere(Children(e)[k], k, base + [k], arg);
        ChildAsked(e, k, base, arg);
      }
      forall r | r in p.inner ensures exists k | 0 <= k < |Children(e)| :: r == VisitPlan(Children(e)[k], k, base + [k]) {
        var k := InnerIsChild(e, place, base, r);
      }
    }
  }

  lemma UsedExactly(e: Expr)
    ensures Used(e) <==> !e.Compare? && !e.Not? && !IsSafeCall(e)
  {
  }

  lemma ChildAsked(e: Expr, k: nat, base: seq<nat>, arg: Expr)
    requires k < |Children(e)|
    ensures var child := VisitPlan(Children(e)[k], k, base + [k]);
      Emits(child, Asked(Some(e), child), arg) <==> Uses(e, k) && Emits(child, Children(e)[k].Compare? || Children(e)[k].Not?, arg)
  {
    hide VisitPlan, Emits, Lower;
    var child := VisitPlan(Children(e)[k], k, base + [k]);
    PathOf(Children(e)[k], k, base + [k]);
    VisitShaped(Children(e)[k], k, base + [k]);
    EmitsStep(child, true, arg);
  }

  /** A visit looks an argument up whole exactly when it is serialized somewhere where the value is used. */
  lemma VisitSerializes(e: Expr, arg: Expr)
    ensures Whole(arg) in AllLookups([VisitPlan(e, 0, [])], None, false) <==> exists path :: SerializedAt(e, path, arg)
  {
    hide VisitPlan, Lookups, Emits, Shaped, SerializedAt, IsSafeCall;
    var p := VisitPlan(e, 0, []);
    PathOf(e, 0, []);
    VisitShaped(e, 0, []);
    SerializedIsEmitted(p, e.Compare? || e.Not?, arg);
    EmittedSomewhere(e, 0, [], arg);
    assert [p][..0] == [];
    assert AllLookups([p], None, false) == Lookups(p, e.Compare? || e.Not?);
  }
}
