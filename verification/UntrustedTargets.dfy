/** Which accesses of an expression are looked up (internal/expression/expr_insecure.go). */
module UntrustedTargets {
  import opened Text
  import opened Syntax
  import opened EventTypes
  import opened UntrustedInputs
  import opened UntrustedWalks

  // ----- which accesses are looked up -----

  /** A node to be visited: the node at a path, perhaps while an event is possible, and perhaps as a maximal access. */
  datatype Target = Target(path: seq<nat>, node: Expr, event: Option<EventVariant>, maximal: bool)

  predicate SeenAt(p: Plan, t: Target)
    decreases p, 1
  {
    && p.path <= t.path
    && (t.maximal ==> !IsSafeCall(p.node) && !(IsAccess(p.node) && t.path == p.path + [0]))
    && ((p.path == t.path && p.node == t.node && (t.event.Some? ==> t.event.value in p.variants)) || Seen(p.inner, t))
  }

  predicate Seen(ps: seq<Plan>, t: Target)
    decreases ps, 0
  {
    exists p | p in ps :: SeenAt(p, t)
  }

  predicate Found(ls: seq<Lookup>, access: Expr) {
    Read(access) in ls || Serialized(access) in ls
  }

  lemma {:induction false} AllFound(ps: seq<Plan>, parent: Option<Expr>, boolean: bool, k: nat, access: Expr)
    requires k < |ps| && Found(Lookups(ps[k], boolean || Asked(parent, ps[k])), access)
    ensures Found(AllLookups(ps, parent, boolean), access)
  {
    hide Lookups, Asked;
    if k < |ps| - 1 { AllFound(ps[..|ps| - 1], parent, boolean, k, access); }
  }

  /** Every maximal access visited outside safe calls is looked up. */
  lemma {:induction false} MaximalIsFound(p: Plan, boolean: bool, t: Target)
    requires Shaped(p) && t.maximal && IsAccess(t.node) && SeenAt(p, t)
    ensures Found(Lookups(p, boolean), t.node)
    ensures IsAccess(p.node) && t.path != p.path ==> Found(Along(p, boolean), t.node)
    decreases p
  {
    hide IsSafeCall, IsToJson, Asked, SeenAt;
    SeenOpens(p, t);
    if !Seen(p.inner, t) {
      AccessLooksUp(p, boolean);
    } else {
      var k := SeenIn(p.inner, t);
      var q := p.inner[k];
      forall b ensures Found(Lookups(q, b), t.node) && (IsAccess(q.node) && t.path != q.path ==> Found(Along(q, b), t.node)) {
        MaximalIsFound(q, b, t);
      }
      AllFound(p.inner, Some(p.node), boolean, k, t.node);
      if IsAccess(p.node) {
        AccessLooksUp(p, boolean);
        FoundAlongInner(p, boolean, k, t.node, t.path);
      } else if IsToJson(p.node) && !boolean {
        ToJsonFound(p, t.node);
      } else {
        OtherLooksUp(p, boolean);
      }
    }
  }

  lemma SeenOpens(p: Plan, t: Target)
    requires SeenAt(p, t)
    ensures t.maximal ==> !IsSafeCall(p.node) && !(IsAccess(p.node) && t.path == p.path + [0])
    ensures Seen(p.inner, t) || (p.path == t.path && p.node == t.node)
  {
  }

  lemma SeenIn(ps: seq<Plan>, t: Target) returns (k: nat)
    requires Seen(ps, t)
    ensures k < |ps| && SeenAt(ps[k], t)
  {
    hide SeenAt;
    var p :| p in ps && SeenAt(p, t);
    k :| k < |ps| && ps[k] == p;
  }

  lemma FoundAlongInner(p: Plan, boolean: bool, k: nat, access: Expr, path: seq<nat>)
    requires IsAccess(p.node) && Shaped(p) && k < |p.inner| && path != p.path + [0]
    requires var q := p.inner[k];
      forall b :: Found(Lookups(q, b), access) && (IsAccess(q.node) && path != q.path ==> Found(Along(q, b), access))
    ensures Found(Along(p, boolean), access)
  {
    hide Lookups, IsSafeCall, IsToJson, Asked;
    var n := |p.inner| - 1;
    var q := p.inner[k];
    var b := boolean || Asked(Some(p.node), q);
    assert Found(Lookups(q, b), access);
    if k < n {
      assert p.inner[..n][k] == q;
      AllFound(p.inner[..n], Some(p.node), boolean, k, access);
    } else {
      assert Found(ReceiverLookups(q, b), access);
    }
  }

  lemma ToJsonFound(p: Plan, access: Expr)
    requires IsToJson(p.node) && !IsSafeCall(p.node) && Shaped(p) && Found(AllLookups(p.inner, Some(p.node), false), access)
    ensures Found(Lookups(p, false), access)
  {
    hide IsSafeCall, Lookups, Asked;
    ToJsonShape(p);
    ToJsonLookups(p);
    assert p.inner[..0] == [];
    var arg := p.inner[0];
    if IsAccess(arg.node) { AccessLooksUp(arg, Asked(Some(p.node), arg)); }
  }

  lemma {:induction false} FoundOne(ps: seq<Plan>, parent: Option<Expr>, boolean: bool, access: Expr) returns (k: nat)
    requires Found(AllLookups(ps, parent, boolean), access)
    ensures k < |ps| && Found(Lookups(ps[k], boolean || Asked(parent, ps[k])), access)
  {
    hide Lookups, Asked;
    k := |ps| - 1;
    if !Found(Lookups(ps[k], boolean || Asked(parent, ps[k])), access) {
      k := FoundOne(ps[..|ps| - 1], parent, boolean, access);
    }
  }

  /** Nothing else is looked up. */
  lemma {:induction false} FoundIsMaximal(p: Plan, boolean: bool, access: Expr) returns (t: Target)
    requires Shaped(p) && Found(Lookups(p, boolean), access)
    ensures t == Target(t.path, access, None, true) && SeenAt(p, t) && IsAccess(access)
    decreases p, 1
  {
    hide IsSafeCall, IsToJson, Asked, SeenAt;
    if IsSafeCall(p.node) {
      SafeLooksUpNothing(p, boolean);
      assert false;
    } else if IsAccess(p.node) {
      AccessLooksUp(p, boolean);
      if Found(Along(p, boolean), access) {
        t := FoundAlong(p, boolean, access);
      } else {
        t := Target(p.path, access, None, true);
        SeenHere(p, t);
      }
    } else if IsToJson(p.node) && !boolean {
      ToJsonShape(p);
      ToJsonLookups(p);
      var arg := p.inner[0];
      if IsAccess(arg.node) { AccessLooksUp(arg, Asked(Some(p.node), arg)); }
      t := FoundIsMaximal(arg, Asked(Some(p.node), arg), access);
      SeenInside(p, 0, t);
    } else {
      OtherLooksUp(p, boolean);
      var k := FoundOne(p.inner, Some(p.node), boolean, access);
      t := FoundIsMaximal(p.inner[k], boolean || Asked(Some(p.node), p.inner[k]), access);
      SeenInside(p, k, t);
    }
  }

  lemma SeenHere(p: Plan, t: Target)
    requires !IsSafeCall(p.node) && p.path == t.path && p.node == t.node && t.event == None
    ensures SeenAt(p, t)
  {
  }

  lemma SeenInside(p: Plan, k: nat, t: Target)
    requires Shaped(p) && k < |p.inner| && SeenAt(p.inner[k], t)
    requires !IsSafeCall(p.node) && !(IsAccess(p.node) && t.path == p.path + [0])
    ensures SeenAt(p, t)
  {
    hide IsSafeCall, IsToJson;
    assert p.inner[k] in p.inner && p.path < p.inner[k].path <= t.path;
  }

  lemma {:induction false} FoundAlong(p: Plan, boolean: bool, access: Expr) returns (t: Target)
    requires Shaped(p) && IsAccess(p.node) && Found(Along(p, boolean), access)
    ensures t == Target(t.path, access, None, true) && SeenAt(p, t) && IsAccess(access) && t.path != p.path
    decreases p, 0
  {
    hide IsSafeCall, IsToJson, Asked, SeenAt, Lookups;
    AccessIsUnsafe(p.node);
    var n := |p.inner| - 1;
    var r := p.inner[n];
    var b := boolean || Asked(Some(p.node), r);
    if Found(ReceiverLookups(r, b), access) {
      if IsAccess(r.node) {
        t := FoundAlong(r, b, access);
      } else {
        t := FoundIsMaximal(r, b, access);
        NotHere(r, t);
      }
      assert SeenAt(r, t) && r.path <= t.path by { SeenLonger(r, t); }
      SeenInside(p, n, t);
    } else {
      var k := FoundOne(p.inner[..n], Some(p.node), boolean, access);
      t := FoundIsMaximal(p.inner[k], boolean || Asked(Some(p.node), p.inner[k]), access);
      SeenLonger(p.inner[k], t);
      assert t.path[|p.path|] == 1;
      SeenInside(p, k, t);
    }
    SeenLonger(p, t);
  }

  lemma SeenLonger(p: Plan, t: Target)
    requires SeenAt(p, t)
    ensures p.path <= t.path
  {
  }

  lemma {:induction false} NotHere(p: Plan, t: Target)
    requires Shaped(p) && SeenAt(p, t) && IsAccess(t.node) && !IsAccess(p.node)
    ensures t.path != p.path
  {
    hide IsSafeCall, IsToJson;
    if Seen(p.inner, t) {
      var k := SeenIn(p.inner, t);
      assert p.path < p.inner[k].path;
      SeenLonger(p.inner[k], t);
    }
  }

  /** The place in the tree holds the access, outside safe calls, and nothing selects from the access there. */
  predicate MaximalAt(e: Expr, path: seq<nat>, access: Expr)
    decreases |path|
  {
    && !IsSafeCall(e)
    && if path == [] then e == access && IsAccess(e)
       else
         && path[0] < |Children(e)|
         && !(path == [0] && IsAccess(e))
         && MaximalAt(Children(e)[path[0]], path[1..], access)
  }
}
