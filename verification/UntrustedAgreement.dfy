/** Where the expression checker looks up what a plain visit would (internal/expression/expr_sema.go, expr_ast.go). */
module UntrustedAgreement {
  import opened Text
  import opened Syntax
  import opened Semantics
  import opened References
  import opened UntrustedInputs
  import opened UntrustedWalks
  import opened UntrustedVisits
  import opened GuardCheck
  import opened UntrustedReach

  // ----- which serializations the checker looks up and a visit does not -----

  /** Every called function is known. */
  predicate KnownCalls(c: Config, e: Expr)
    decreases e
  {
    (e.Call? ==> Lower(e.callee) in c.functions) && forall x | x in Children(e) :: KnownCalls(c, x)
  }

  /** A call of toJSON of which a visit takes only the truth to be used, and the checker, having stepped through what asks for it,
      does not. */
  predicate Forgets(e: Expr, visiting: bool, checking: bool)
    decreases e, 1
  {
    if IsSafeCall(e) then false
    else if e.Logic? then
      || ForgetsStepping(e.left, e.kind == Or, visiting || OnlyTruth(e, 0, e.left), checking, e, 0)
      || Forgets(e.right, visiting || OnlyTruth(e, 1, e.right), checking || OnlyTruth(e, 1, e.right))
    else
      (IsToJson(e) && visiting && !checking) || ForgetsSome(e, visiting, checking)
  }

  predicate ForgetsSome(e: Expr, visiting: bool, checking: bool)
    decreases e, 0, 1
  {
    exists k | 0 <= k < |Children(e)| :: ForgetsChild(e, k, visiting, checking)
  }

  predicate ForgetsChild(e: Expr, k: nat, visiting: bool, checking: bool)
    requires k < |Children(e)|
    decreases e, 0, 0
  {
    var x := Children(e)[k];
    Forgets(x, visiting || OnlyTruth(e, k, x), checking || OnlyTruth(e, k, x))
  }

  /** The same in the left operand of the operator that the checker is in, at the place where that node was entered from. */
  predicate ForgetsStepping(e: Expr, truthy: bool, visiting: bool, checking: bool, operator: Expr, place: nat)
    requires operator.Logic?
    decreases e, 2
  {
    match e
    case Not(_, o) => ForgetsStepping(o, !truthy, visiting || OnlyTruth(e, 0, o), checking, operator, 1)
    case Logic(_, k, l, r) =>
      || (var visitingLeft := visiting || OnlyTruth(e, 0, l);
          if truthy == (k == And) then Forgets(l, visitingLeft, checking || OnlyTruth(operator, 1, l))
          else ForgetsStepping(l, k == Or, visitingLeft, checking, operator, 1))
      || Forgets(r, visiting || OnlyTruth(e, 1, r), checking || OnlyTruth(operator, 1, r))
    case _ => Forgets(e, visiting, checking || OnlyTruth(operator, place, e))
  }

  // ----- counting serializations -----

  function Serializations(ls: seq<Lookup>): nat {
    if ls == [] then 0 else Serializations(ls[..|ls| - 1]) + if ls[|ls| - 1].Read? then 0 else 1
  }

  lemma {:induction false} SerializationsConcat(a: seq<Lookup>, b: seq<Lookup>)
    ensures Serializations(a + b) == Serializations(a) + Serializations(b)
  {
    if b == [] {
      assert a + b == a;
    } else {
      assert (a + b)[..|a + b| - 1] == a + b[..|b| - 1];
      SerializationsConcat(a, b[..|b| - 1]);
    }
  }

  /** The first looks up all that the second does, and perhaps more serializations; same says that it is no more. */
  predicate Agree(a: seq<Lookup>, b: seq<Lookup>, same: bool) {
    && Serializations(a) >= Serializations(b)
    && (a == b <==> same)
    && (Serializations(a) == Serializations(b) ==> a == b)
  }

  lemma AgreeThen(a: seq<Lookup>, b: seq<Lookup>, same: bool, x: seq<Lookup>, y: seq<Lookup>, alike: bool)
    requires Agree(a, b, same) && Agree(x, y, alike)
    ensures Agree(a + x, b + y, same && alike)
  {
    SerializationsConcat(a, x);
    SerializationsConcat(b, y);
  }

  lemma AgreeSelf(a: seq<Lookup>)
    ensures Agree(a, a, true)
  {
  }

  predicate Every(bs: seq<bool>) {
    forall k | 0 <= k < |bs| :: bs[k]
  }

  /** Nodes visited one after the other agree when they agree one by one. */
  lemma {:induction false} AllAgree(ps: seq<Plan>, qs: seq<Plan>, parent: Option<Expr>, checking: bool, visiting: bool, same: seq<bool>)
    requires |ps| == |qs| == |same|
    requires forall k | 0 <= k < |ps| ::
      Agree(Lookups(ps[k], checking || Asked(parent, ps[k])), Lookups(qs[k], visiting || Asked(parent, qs[k])), same[k])
    ensures Agree(AllLookups(ps, parent, checking), AllLookups(qs, parent, visiting), Every(same))
  {
    hide Lookups, Asked, Agree;
    if ps == [] {
      AgreeSelf([]);
    } else {
      var n := |ps| - 1;
      var s := same[..n];
      AllAgree(ps[..n], qs[..n], parent, checking, visiting, s);
      AgreeThen(AllLookups(ps[..n], parent, checking), AllLookups(qs[..n], parent, visiting), Every(s),
                Lookups(ps[n], checking || Asked(parent, ps[n])), Lookups(qs[n], visiting || Asked(parent, qs[n])), same[n]);
      assert Every(same) <==> Every(s) && same[n];
    }
  }

  // ----- the checker without events -----

  /** The check of a node when no events are known. */
  function Checked(c: Config, e: Expr, path: seq<nat>, place: nat): Plan {
    Plan(e, place, path, [], Below(c, e, [], path))
  }

  lemma CheckOf(c: Config, e: Expr, path: seq<nat>, place: nat)
    ensures Check(c, e, [], path, place) == [Checked(c, e, path, place)]
  {
    hide Below;
  }

  lemma {:induction false} AllChecked(c: Config, args: seq<Expr>, path: seq<nat>, k: nat)
    ensures var ps := CheckAll(c, args, [], path, k);
      |ps| == |args| && forall i | 0 <= i < |args| :: ps[i] == Checked(c, args[i], path + [k + i], k + i)
    decreases args
  {
    hide Checked, Check;
    if args != [] {
      CheckOf(c, args[0], path + [k], k);
      AllChecked(c, args[1..], path, k + 1);
    }
  }

  lemma {:induction false} CaseChecked(c: Config, args: seq<Expr>, path: seq<nat>, k: nat)
    ensures var ps := CheckCase(c, args, [], path, k);
      |ps| == |args| && forall i | 0 <= i < |args| :: ps[i] == Checked(c, args[i], path + [k + i], k + i)
    decreases args
  {
    hide Checked, Check;
    if args != [] {
      CheckOf(c, args[0], path + [k], k);
      if |args| > 1 {
        CheckOf(c, args[1], path + [k + 1], k + 1);
        CaseChecked(c, args[2..], path, k + 2);
      }
    }
  }

  /** Which child a node visits in its turn. */
  function Turn(e: Expr, k: nat): nat {
    if e.Index? && k <= 1 then 1 - k else k
  }

  /** But for logical operators, the checker goes to the children of a node in turn. */
  lemma CheckTurns(c: Config, e: Expr, path: seq<nat>, k: nat)
    requires KnownCalls(c, e) && !e.Logic?
    ensures |Below(c, e, [], path)| == |Children(e)|
    ensures var i := Turn(e, k); k < |Children(e)| ==>
      i < |Children(e)| && Below(c, e, [], path)[k] == Checked(c, Children(e)[i], path + [i], i)
  {
    hide Checked, CheckAll, CheckCase, Check, Lower, CheckLogical;
    match e
    case Property(_, r, _) => CheckOf(c, r, path + [0], 0);
    case Filter(_, r) => CheckOf(c, r, path + [0], 0);
    case Index(_, o, i) => CheckOf(c, i, path + [1], 1); CheckOf(c, o, path + [0], 0);
    case Not(_, o) => CheckOf(c, o, path + [0], 0);
    case Compare(_, _, l, r) => CheckOf(c, l, path + [0], 0); CheckOf(c, r, path + [1], 1);
    case Call(_, f, args) => AllChecked(c, args, path, 0); CaseChecked(c, args, path, 0);
    case _ =>
  }

  /** A visit goes to the children of any node in turn. */
  lemma VisitTurns(e: Expr, place: nat, path: seq<nat>, k: nat)
    ensures |VisitPlan(e, place, path).inner| == |Children(e)|
    ensures var i := Turn(e, k); k < |Children(e)| ==>
      i < |Children(e)| && VisitPlan(e, place, path).inner[k] == VisitPlan(Children(e)[i], i, path + [i])
  {
    hide VisitPlan;
    InnerOf(e, place, path);
  }

  // ----- agreement -----

  /** The place of a node matters only to the node it is entered from. */
  lemma PlaceIsOutside(e: Expr, place: nat, path: seq<nat>, boolean: bool)
    ensures Lookups(VisitPlan(e, place, path), boolean) == Lookups(VisitPlan(e, 0, path), boolean)
    ensures ReceiverLookups(VisitPlan(e, place, path), boolean) == ReceiverLookups(VisitPlan(e, 0, path), boolean)
  {
    hide VisitPlan, Lookups, ReceiverLookups;
    PathOf(e, place, path);
    PathOf(e, 0, path);
    InnerOf(e, place, path);
    InnerOf(e, 0, path);
    SameLookups(VisitPlan(e, place, path), VisitPlan(e, 0, path), boolean);
  }

  lemma SameLookups(p: Plan, q: Plan, boolean: bool)
    requires p.node == q.node && p.inner == q.inner
    ensures Lookups(p, boolean) == Lookups(q, boolean) && ReceiverLookups(p, boolean) == ReceiverLookups(q, boolean)
  {
    hide IsSafeCall, IsToJson, Asked, AllLookups;
  }

  /** The situation of the theorem: the visit takes only the truth to be used wherever the checker does. */
  predicate Comparable(c: Config, e: Expr, checking: bool, visiting: bool) {
    KnownCalls(c, e) && (checking ==> visiting)
  }

  lemma ChildComparable(c: Config, e: Expr, k: nat, checking: bool, visiting: bool)
    requires Comparable(c, e, checking, visiting) && k < |Children(e)|
    ensures var x := Children(e)[k]; Comparable(c, x, checking || OnlyTruth(e, k, x), visiting || OnlyTruth(e, k, x))
  {
    assert Children(e)[k] in Children(e);
  }

  /** The checker looks up what a visit does, and the serializations that a visit takes to be asked only for their truth. */
  lemma {:induction false} CheckAgrees(c: Config, e: Expr, path: seq<nat>, place: nat, checking: bool, visiting: bool)
    requires Comparable(c, e, checking, visiting)
    ensures Agree(Lookups(Checked(c, e, path, place), checking), Lookups(VisitPlan(e, 0, path), visiting),
                  !Forgets(e, visiting, checking))
    ensures Agree(ReceiverLookups(Checked(c, e, path, place), checking), ReceiverLookups(VisitPlan(e, 0, path), visiting),
                  !Forgets(e, visiting, checking))
    decreases e, 1
  {
    hide Checked, Agree, Forgets, IsSafeCall, IsToJson, VisitPlan, Lookups, ReceiverLookups, KnownCalls;
    var p, q := Checked(c, e, path, place), VisitPlan(e, 0, path);
    CheckedIs(c, e, path, place);
    PathOf(e, 0, path);
    if IsSafeCall(e) {
      SafeIsNoAccess(e);
      SafeAgrees(p, q, checking, visiting);
    } else if IsAccess(e) {
      AccessAgrees(c, e, path, place, checking, visiting);
    } else if e.Logic? {
      LogicAgrees(c, e, path, place, checking, visiting);
    } else {
      OtherAgrees(c, e, path, place, checking, visiting);
    }
    if !IsAccess(e) { NotAnAccess(p, checking); NotAnAccess(q, visiting); }
  }

  lemma CheckedIs(c: Config, e: Expr, path: seq<nat>, place: nat)
    ensures var p := Checked(c, e, path, place); p.node == e && p.place == place && p.inner == Below(c, e, [], path)
  {
  }

  lemma NotAnAccess(p: Plan, boolean: bool)
    requires !IsAccess(p.node)
    ensures ReceiverLookups(p, boolean) == Lookups(p, boolean)
  {
  }

  lemma SafeAgrees(p: Plan, q: Plan, checking: bool, visiting: bool)
    requires p.node == q.node && IsSafeCall(p.node)
    ensures Agree(Lookups(p, checking), Lookups(q, visiting), !Forgets(p.node, visiting, checking))
  {
    hide IsSafeCall, Lookups;
    SafeLooksUpNothing(p, checking);
    SafeLooksUpNothing(q, visiting);
  }

  lemma AskedAt(e: Expr, k: nat, p: Plan)
    requires k < |Children(e)| && p.node == Children(e)[k] && p.place == k
    ensures Asked(Some(e), p) == OnlyTruth(e, k, p.node)
  {
  }

  /** A child agrees, as itself and as what is selected from. */
  lemma {:induction false} ChildAgrees(c: Config, e: Expr, path: seq<nat>, place: nat, k: nat, checking: bool, visiting: bool)
    requires Comparable(c, e, checking, visiting) && !e.Logic? && k < |Children(e)|
    ensures |Below(c, e, [], path)| == |VisitPlan(e, 0, path).inner| == |Children(e)|
    ensures var x, y, parent := Below(c, e, [], path)[k], VisitPlan(e, 0, path).inner[k], Some(e);
      var same := Turn(e, k) < |Children(e)| && !ForgetsChild(e, Turn(e, k), visiting, checking);
      && x.node == y.node == Children(e)[Turn(e, k)]
      && Agree(Lookups(x, checking || Asked(parent, x)), Lookups(y, visiting || Asked(parent, y)), same)
      && Agree(ReceiverLookups(x, checking || Asked(parent, x)), ReceiverLookups(y, visiting || Asked(parent, y)), same)
    decreases e, 0, 0
  {
    hide Checked, Agree, VisitPlan, Lookups, ReceiverLookups, KnownCalls, Below, Asked, OnlyTruth, Forgets;
    CheckTurns(c, e, path, k);
    VisitTurns(e, 0, path, k);
    var i := Turn(e, k);
    var z := Children(e)[i];
    var x, y := Below(c, e, [], path)[k], VisitPlan(e, 0, path).inner[k];
    CheckedIs(c, z, path + [i], i);
    PathOf(z, i, path + [i]);
    AskedAt(e, i, x);
    AskedAt(e, i, y);
    ChildComparable(c, e, i, checking, visiting);
    CheckAgrees(c, z, path + [i], i, checking || OnlyTruth(e, i, z), visiting || OnlyTruth(e, i, z));
    PlaceIsOutside(z, i, path + [i], visiting || OnlyTruth(e, i, z));
  }

  /** The children of a node agree exactly when none of them is forgotten. */
  lemma {:induction false} InnerAgree(c: Config, e: Expr, path: seq<nat>, place: nat, checking: bool, visiting: bool)
    requires Comparable(c, e, checking, visiting) && !e.Logic?
    ensures Agree(AllLookups(Below(c, e, [], path), Some(e), checking), AllLookups(VisitPlan(e, 0, path).inner, Some(e), visiting),
                  !ForgetsSome(e, visiting, checking))
    decreases e, 0, 1
  {
    hide Checked, Agree, VisitPlan, Lookups, AllLookups, KnownCalls, Below, Asked, ForgetsChild;
    var ps, qs, n := Below(c, e, [], path), VisitPlan(e, 0, path).inner, |Children(e)|;
    CheckTurns(c, e, path, 0);
    VisitTurns(e, 0, path, 0);
    forall k | 0 <= k < n ensures Turn(e, k) < n { VisitTurns(e, 0, path, k); }
    var same := seq(n, k requires 0 <= k < n => !ForgetsChild(e, Turn(e, k), visiting, checking));
    forall k | 0 <= k < n
      ensures Agree(Lookups(ps[k], checking || Asked(Some(e), ps[k])), Lookups(qs[k], visiting || Asked(Some(e), qs[k])), same[k])
    {
      ChildAgrees(c, e, path, place, k, checking, visiting);
    }
    AllAgree(ps, qs, Some(e), checking, visiting, same);
    forall i | 0 <= i < n ensures Turn(e, i) < n && Turn(e, Turn(e, i)) == i { VisitTurns(e, 0, path, i); }
    if Every(same) {
      forall i | 0 <= i < n ensures !ForgetsChild(e, i, visiting, checking) { assert same[Turn(e, i)]; }
    }
  }

  /** An access agrees when its index and its receiver do. */
  lemma {:induction false} AccessAgrees(c: Config, e: Expr, path: seq<nat>, place: nat, checking: bool, visiting: bool)
    requires Comparable(c, e, checking, visiting) && IsAccess(e)
    ensures Agree(Lookups(Checked(c, e, path, place), checking), Lookups(VisitPlan(e, 0, path), visiting),
                  !Forgets(e, visiting, checking))
    ensures Agree(ReceiverLookups(Checked(c, e, path, place), checking), ReceiverLookups(VisitPlan(e, 0, path), visiting),
                  !Forgets(e, visiting, checking))
    decreases e, 0, 2
  {
    hide Checked, Agree, VisitPlan, Lookups, AllLookups, KnownCalls, Below, Asked, ForgetsChild, Forgets, IsSafeCall, IsToJson;
    AccessForgets(e, visiting, checking);
    var p, q, parent := Checked(c, e, path, place), VisitPlan(e, 0, path), Some(e);
    CheckedIs(c, e, path, place);
    PathOf(e, 0, path);
    AccessIsUnsafe(e);
    AccessLooksUp(p, checking);
    AccessLooksUp(q, visiting);
    CheckTurns(c, e, path, 0);
    VisitTurns(e, 0, path, 0);
    AgreeSelf([Read(e)]);
    if e.Variable? {
      AgreeSelf([]);
      AgreeThen([], [], true, [Read(e)], [Read(e)], true);
    } else {
      var n := |Children(e)| - 1;
      ChildAgrees(c, e, path, place, n, checking, visiting);
      var indices := n == 0 || !ForgetsChild(e, 1, visiting, checking);
      if n == 1 {
        ChildAgrees(c, e, path, place, 0, checking, visiting);
        OneLookedUp(p.inner, parent, checking);
        OneLookedUp(q.inner, parent, visiting);
      } else {
        AgreeSelf([]);
        assert p.inner[..0] == [] && q.inner[..0] == [];
        NoLookups(parent, checking);
        NoLookups(parent, visiting);
      }
      var r, t := p.inner[n], q.inner[n];
      AgreeThen(AllLookups(p.inner[..n], parent, checking), AllLookups(q.inner[..n], parent, visiting), indices,
                ReceiverLookups(r, checking || Asked(parent, r)), ReceiverLookups(t, visiting || Asked(parent, t)),
                !ForgetsChild(e, 0, visiting, checking));
      AgreeThen(Along(p, checking), Along(q, visiting), !Forgets(e, visiting, checking), [Read(e)], [Read(e)], true);
    }
  }

  lemma AccessForgets(e: Expr, visiting: bool, checking: bool)
    requires IsAccess(e)
    ensures Forgets(e, visiting, checking) <==> ForgetsSome(e, visiting, checking)
    ensures |Children(e)| <= 2 && (|Children(e)| == 2 ==> e.Index?)
    ensures e.Variable? <==> Children(e) == []
  {
    hide IsSafeCall, IsToJson, ForgetsSome;
    AccessIsUnsafe(e);
  }

  lemma NoLookups(parent: Option<Expr>, boolean: bool)
    ensures AllLookups([], parent, boolean) == []
  {
  }

  lemma OneLookedUp(ps: seq<Plan>, parent: Option<Expr>, boolean: bool)
    requires ps != []
    ensures AllLookups(ps[..1], parent, boolean) == Lookups(ps[0], boolean || Asked(parent, ps[0]))
  {
    hide Lookups, Asked;
    assert ps[..1][..0] == [];
  }

  lemma AgreeBefore(a: seq<Lookup>, b: seq<Lookup>, x: Lookup, same: bool)
    requires Agree(a + [x], b + [x], same)
    ensures Agree(a, b, same)
  {
    SerializationsConcat(a, [x]);
    SerializationsConcat(b, [x]);
    if a + [x] == b + [x] { assert a == (a + [x])[..|a|] == (b + [x])[..|a|]; }
  }

  lemma MoreSerialized(a: seq<Lookup>, b: seq<Lookup>, x: Lookup, same: bool)
    requires Agree(a, b, same) && !x.Read?
    ensures Agree(a + [x], b, false)
  {
    SerializationsConcat(a, [x]);
    assert [x][..0] == [];
    assert Serializations([x]) == 1;
  }

  /** A call of toJSON agrees, unless only a visit takes its truth to be all that is used. */
  lemma {:induction false} ToJsonAgrees(c: Config, e: Expr, path: seq<nat>, place: nat, checking: bool, visiting: bool, same: bool)
    requires Comparable(c, e, checking, visiting) && IsToJson(e) && !IsSafeCall(e) && !checking
    requires Agree(AllLookups(Below(c, e, [], path), Some(e), checking), AllLookups(VisitPlan(e, 0, path).inner, Some(e), visiting), same)
    ensures Agree(Lookups(Checked(c, e, path, place), checking), Lookups(VisitPlan(e, 0, path), visiting), same && !visiting)
  {
    hide Checked, Agree, VisitPlan, Lookups, AllLookups, KnownCalls, Below, Asked, IsSafeCall, IsToJson, Along;
    ToJsonChild(e);
    CheckTurns(c, e, path, 0);
    VisitTurns(e, 0, path, 0);
    CheckedIs(c, e, path, place);
    PathOf(e, 0, path);
    var p, q, arg := Checked(c, e, path, place), VisitPlan(e, 0, path), e.args[0];
    CheckedIs(c, arg, path + [0], 0);
    PathOf(arg, 0, path + [0]);
    assert p.inner[..1] == p.inner && q.inner[..1] == q.inner;
    OneLookedUp(p.inner, Some(e), false);
    OneLookedUp(q.inner, Some(e), visiting);
    ToJsonLookups(p);
    var x, y := p.inner[0], q.inner[0];
    var b, d := Asked(Some(e), x), visiting || Asked(Some(e), y);
    if IsAccess(arg) {
      AccessLooksUp(x, b);
      AccessLooksUp(y, d);
      AgreeBefore(Along(x, b), Along(y, d), Read(arg), same);
    }
    if visiting {
      OtherLooksUp(q, visiting);
      if IsAccess(arg) {
        SerializedMore(Along(x, b), Along(y, d), Read(arg), Serialized(arg), same);
      } else {
        MoreSerialized(Lookups(x, b), Lookups(y, d), Selected(arg), same);
      }
    } else {
      ToJsonLookups(q);
      var last := if IsAccess(arg) then Serialized(arg) else Selected(arg);
      AgreeSelf([last]);
      if IsAccess(arg) {
        AgreeThen(Along(x, b), Along(y, d), same, [last], [last], true);
      } else {
        AgreeThen(Lookups(x, b), Lookups(y, d), same, [last], [last], true);
      }
    }
  }

  lemma SerializedMore(a: seq<Lookup>, b: seq<Lookup>, read: Lookup, x: Lookup, same: bool)
    requires Agree(a, b, same) && !x.Read? && read.Read?
    ensures Agree(a + [x], b + [read], false)
  {
    SerializationsConcat(a, [x]);
    SerializationsConcat(b, [read]);
    assert [x][..0] == [] && [read][..0] == [];
    assert Serializations([x]) == 1 && Serializations([read]) == 0;
  }

  lemma {:induction false} OtherAgrees(c: Config, e: Expr, path: seq<nat>, place: nat, checking: bool, visiting: bool)
    requires Comparable(c, e, checking, visiting) && !IsSafeCall(e) && !IsAccess(e) && !e.Logic?
    ensures Agree(Lookups(Checked(c, e, path, place), checking), Lookups(VisitPlan(e, 0, path), visiting),
                  !Forgets(e, visiting, checking))
    decreases e, 0, 2
  {
    hide Checked, Agree, VisitPlan, Lookups, AllLookups, KnownCalls, Below, ForgetsSome, IsSafeCall, IsToJson;
    var p, q := Checked(c, e, path, place), VisitPlan(e, 0, path);
    CheckedIs(c, e, path, place);
    PathOf(e, 0, path);
    InnerAgree(c, e, path, place, checking, visiting);
    var same := !ForgetsSome(e, visiting, checking);
    if IsToJson(e) && !checking {
      ToJsonAgrees(c, e, path, place, checking, visiting, same);
    } else {
      OtherLooksUp(p, checking);
      OtherLooksUp(q, visiting);
    }
  }

  // ----- stepping through operators -----

  lemma TwoLookedUp(p: Plan, q: Plan, parent: Option<Expr>, boolean: bool)
    ensures AllLookups([p, q], parent, boolean) == Lookups(p, boolean || Asked(parent, p)) + Lookups(q, boolean || Asked(parent, q))
    ensures AllLookups([p], parent, boolean) == Lookups(p, boolean || Asked(parent, p))
  {
    hide Lookups, Asked;
    assert [p, q][..1] == [p] && [p][..0] == [];
    assert AllLookups([p], parent, boolean) == Lookups(p, boolean || Asked(parent, p));
  }

  lemma {:induction false} LookupsConcat(a: seq<Plan>, b: seq<Plan>, parent: Option<Expr>, boolean: bool)
    ensures AllLookups(a + b, parent, boolean) == AllLookups(a, parent, boolean) + AllLookups(b, parent, boolean)
  {
    hide Lookups, Asked;
    if b == [] {
      assert a + b == a;
    } else {
      assert (a + b)[..|a + b| - 1] == a + b[..|b| - 1];
      LookupsConcat(a, b[..|b| - 1], parent, boolean);
    }
  }

  lemma VisitLogic(e: Expr, path: seq<nat>, visiting: bool)
    requires e.Logic?
    ensures Lookups(VisitPlan(e, 0, path), visiting) ==
      Lookups(VisitPlan(e.left, 0, path + [0]), visiting || OnlyTruth(e, 0, e.left))
      + Lookups(VisitPlan(e.right, 0, path + [1]), visiting || OnlyTruth(e, 1, e.right))
  {
    hide Asked, OnlyTruth, VisitPlan, Lookups;
    VisitTurns(e, 0, path, 0);
    VisitTurns(e, 0, path, 1);
    PathOf(e, 0, path);
    PathOf(e.left, 0, path + [0]);
    PathOf(e.right, 1, path + [1]);
    var q := VisitPlan(e, 0, path);
    assert q.inner == [VisitPlan(e.left, 0, path + [0]), VisitPlan(e.right, 1, path + [1])];
    OtherLooksUp(q, visiting);
    TwoLookedUp(q.inner[0], q.inner[1], Some(e), visiting);
    AskedAt(e, 0, q.inner[0]);
    AskedAt(e, 1, q.inner[1]);
    PlaceIsOutside(e.right, 1, path + [1], visiting || OnlyTruth(e, 1, e.right));
  }

  lemma VisitNot(e: Expr, path: seq<nat>, visiting: bool)
    requires e.Not?
    ensures Lookups(VisitPlan(e, 0, path), visiting) ==
      Lookups(VisitPlan(e.operand, 0, path + [0]), visiting || OnlyTruth(e, 0, e.operand))
  {
    hide Asked, OnlyTruth, VisitPlan, Lookups;
    VisitTurns(e, 0, path, 0);
    PathOf(e, 0, path);
    PathOf(e.operand, 0, path + [0]);
    var q := VisitPlan(e, 0, path);
    assert q.inner == [VisitPlan(e.operand, 0, path + [0])];
    OtherLooksUp(q, visiting);
    TwoLookedUp(q.inner[0], q.inner[0], Some(e), visiting);
    AskedAt(e, 0, q.inner[0]);
  }

  /** A node that is entered from the operator, at whatever place. */
  lemma {:induction false} EnteredAgrees(c: Config, e: Expr, path: seq<nat>, place: nat, operator: Expr, checking: bool, visiting: bool)
    requires operator.Logic? && Comparable(c, e, checking || OnlyTruth(operator, place, e), visiting)
    ensures Agree(AllLookups(Check(c, e, [], path, place), Some(operator), checking), Lookups(VisitPlan(e, 0, path), visiting),
                  !Forgets(e, visiting, checking || OnlyTruth(operator, place, e)))
    decreases e, 2
  {
    hide Checked, Agree, VisitPlan, Lookups, AllLookups, KnownCalls, Forgets, Check, OnlyTruth;
    CheckOf(c, e, path, place);
    var p := Checked(c, e, path, place);
    CheckedIs(c, e, path, place);
    TwoLookedUp(p, p, Some(operator), checking);
    assert Asked(Some(operator), p) == OnlyTruth(operator, place, e) by { AskedFrom(operator, p); }
    CheckAgrees(c, e, path, place, checking || OnlyTruth(operator, place, e), visiting);
  }

  lemma AskedFrom(operator: Expr, p: Plan)
    ensures Asked(Some(operator), p) == OnlyTruth(operator, p.place, p.node)
  {
  }

  lemma RightChecked(c: Config, e: Expr, path: seq<nat>)
    requires e.Logic?
    ensures CheckRight(c, e, [], path) == Check(c, e.right, [], path + [1], 1)
  {
    hide Check;
  }

  lemma {:induction false} LogicAgrees(c: Config, e: Expr, path: seq<nat>, place: nat, checking: bool, visiting: bool)
    requires e.Logic? && Comparable(c, e, checking, visiting)
    ensures Agree(Lookups(Checked(c, e, path, place), checking), Lookups(VisitPlan(e, 0, path), visiting),
                  !Forgets(e, visiting, checking))
    decreases e, 0
  {
    hide Agree, VisitPlan, Lookups, AllLookups, KnownCalls, Check, CheckNarrowing, CheckRight, OnlyTruth, ForgetsStepping;
    var p := Checked(c, e, path, place);
    ChildComparable(c, e, 0, checking, visiting);
    ChildComparable(c, e, 1, checking, visiting);
    LogicIsPlain(e);
    OtherLooksUp(p, checking);
    RightChecked(c, e, path);
    var left, right := CheckNarrowing(c, e.left, e.kind == Or, [], path + [0], 0), CheckRight(c, e, [], path);
    CheckedIs(c, e, path, place);
    assert CheckLogical(c, e, [], path, 0) == left + right;
    assert p.inner == left + right;
    LookupsConcat(left, right, Some(e), checking);
    VisitLogic(e, path, visiting);
    AsksNot(e, 0, e.left);
    SteppingAgrees(c, e.left, e.kind == Or, path + [0], 0, e, checking, visiting || OnlyTruth(e, 0, e.left));
    EnteredAgrees(c, e.right, path + [1], 1, e, checking, visiting || OnlyTruth(e, 1, e.right));
    AgreeThen(AllLookups(left, Some(e), checking), Lookups(VisitPlan(e.left, 0, path + [0]), visiting || OnlyTruth(e, 0, e.left)),
              !ForgetsStepping(e.left, e.kind == Or, visiting || OnlyTruth(e, 0, e.left), checking, e, 0),
              AllLookups(right, Some(e), checking), Lookups(VisitPlan(e.right, 0, path + [1]), visiting || OnlyTruth(e, 1, e.right)),
              !Forgets(e.right, visiting || OnlyTruth(e, 1, e.right), checking || OnlyTruth(e, 1, e.right)));
  }

  lemma LogicIsPlain(e: Expr)
    requires e.Logic?
    ensures !IsSafeCall(e) && !IsAccess(e) && !IsToJson(e)
  {
  }

  /** What an operator asks for of a node that it does not hold is asked for wherever the node is. */
  lemma AsksNot(e: Expr, place: nat, x: Expr)
    ensures x.Compare? || x.Not? ==> OnlyTruth(e, place, x)
    ensures e.Logic? && place == 1 ==> (OnlyTruth(e, place, x) <==> x.Compare? || x.Not?)
  {
  }

  lemma {:induction false} SteppingAgrees(c: Config, e: Expr, truthy: bool, path: seq<nat>, place: nat, operator: Expr,
                                          checking: bool, visiting: bool)
    requires operator.Logic? && Comparable(c, e, checking || OnlyTruth(operator, place, e), visiting)
    ensures Agree(AllLookups(CheckNarrowing(c, e, truthy, [], path, place), Some(operator), checking),
                  Lookups(VisitPlan(e, 0, path), visiting), !ForgetsStepping(e, truthy, visiting, checking, operator, place))
    decreases e, 3
  {
    hide Agree, VisitPlan, Lookups, AllLookups, KnownCalls, Check, CheckRight, OnlyTruth, Forgets;
    match e
    case Not(_, o) =>
      NotAgrees(c, e, truthy, path, place, operator, checking, visiting);
    case Logic(_, _, _, _) =>
      InnerLogicAgrees(c, e, truthy, path, place, operator, checking, visiting);
    case _ => EnteredAgrees(c, e, path, place, operator, checking, visiting);
  }

  lemma {:induction false} NotAgrees(c: Config, e: Expr, truthy: bool, path: seq<nat>, place: nat, operator: Expr,
                                     checking: bool, visiting: bool)
    requires e.Not? && operator.Logic? && Comparable(c, e, checking || OnlyTruth(operator, place, e), visiting)
    ensures Agree(AllLookups(CheckNarrowing(c, e, truthy, [], path, place), Some(operator), checking),
                  Lookups(VisitPlan(e, 0, path), visiting), !ForgetsStepping(e, truthy, visiting, checking, operator, place))
    decreases e, 0
  {
    hide Agree, VisitPlan, Lookups, AllLookups, Check, CheckLogical, CheckRight, OnlyTruth, Forgets;
    var o := e.operand;
    assert o in Children(e);
    AsksNot(e, 0, o);
    AsksNot(operator, 1, o);
    VisitNot(e, path, visiting);
    SteppingAgrees(c, o, !truthy, path + [0], 1, operator, checking, visiting || OnlyTruth(e, 0, o));
  }

  lemma {:induction false} InnerLogicAgrees(c: Config, e: Expr, truthy: bool, path: seq<nat>, place: nat, operator: Expr,
                                            checking: bool, visiting: bool)
    requires e.Logic? && operator.Logic? && Comparable(c, e, checking || OnlyTruth(operator, place, e), visiting)
    ensures Agree(AllLookups(CheckNarrowing(c, e, truthy, [], path, place), Some(operator), checking),
                  Lookups(VisitPlan(e, 0, path), visiting), !ForgetsStepping(e, truthy, visiting, checking, operator, place))
    decreases e, 0
  {
    hide Agree, VisitPlan, Lookups, AllLookups, Check, CheckRight, OnlyTruth, Forgets;
    var l, r := e.left, e.right;
    assert l in Children(e) && r in Children(e);
    AsksNot(e, 0, l);
    AsksNot(e, 1, r);
    AsksNot(operator, 1, l);
    AsksNot(operator, 1, r);
    VisitLogic(e, path, visiting);
    RightChecked(c, e, path);
    var visitingLeft := visiting || OnlyTruth(e, 0, l);
    var left := if truthy == (e.kind == And) then Check(c, l, [], path + [0], 1) else CheckNarrowing(c, l, e.kind == Or, [], path + [0], 1);
    var same := if truthy == (e.kind == And) then !Forgets(l, visitingLeft, checking || OnlyTruth(operator, 1, l))
                else !ForgetsStepping(l, e.kind == Or, visitingLeft, checking, operator, 1);
    if truthy == (e.kind == And) {
      EnteredAgrees(c, l, path + [0], 1, operator, checking, visitingLeft);
    } else {
      SteppingAgrees(c, l, e.kind == Or, path + [0], 1, operator, checking, visitingLeft);
    }
    EnteredAgrees(c, r, path + [1], 1, operator, checking, visiting || OnlyTruth(e, 1, r));
    LookupsConcat(left, CheckRight(c, e, [], path), Some(operator), checking);
    assert CheckNarrowing(c, e, truthy, [], path, place) == left + CheckRight(c, e, [], path);
    AgreeThen(AllLookups(left, Some(operator), checking), Lookups(VisitPlan(l, 0, path + [0]), visitingLeft), same,
              AllLookups(CheckRight(c, e, [], path), Some(operator), checking),
              Lookups(VisitPlan(r, 0, path + [1]), visiting || OnlyTruth(e, 1, r)),
              !Forgets(r, visiting || OnlyTruth(e, 1, r), checking || OnlyTruth(operator, 1, r)));
  }

  /** Without known events, the checker looks up exactly what a visit does, unless it forgets that only the truth of a
      serialization is asked for. */
  lemma AgreesExactly(c: Config, e: Expr)
    requires KnownCalls(c, e)
    ensures AllLookups(Check(c, e, [], [], 0), None, false) == AllLookups([VisitPlan(e, 0, [])], None, false)
      <==> !Forgets(e, e.Compare? || e.Not?, e.Compare? || e.Not?)
  {
    hide VisitPlan, Lookups, Check, Forgets, KnownCalls, Checked;
    var boolean := e.Compare? || e.Not?;
    CheckOf(c, e, [], 0);
    CheckedIs(c, e, [], 0);
    PathOf(e, 0, []);
    var p, q := Checked(c, e, [], 0), VisitPlan(e, 0, []);
    TwoLookedUp(p, p, None, false);
    TwoLookedUp(q, q, None, false);
    CheckAgrees(c, e, [], 0, boolean, boolean);
  }

  /** Nothing is serialized. */
  predicate NoToJson(e: Expr)
    decreases e
  {
    !IsToJson(e) && forall x | x in Children(e) :: NoToJson(x)
  }

  lemma {:induction false} NothingForgotten(e: Expr, visiting: bool, checking: bool)
    requires NoToJson(e)
    ensures !Forgets(e, visiting, checking)
    decreases e, 1
  {
    hide IsSafeCall, IsToJson, OnlyTruth;
    if e.Logic? {
      assert e.left in Children(e) && e.right in Children(e);
      NothingStepped(e.left, e.kind == Or, visiting || OnlyTruth(e, 0, e.left), checking, e, 0);
      NothingForgotten(e.right, visiting || OnlyTruth(e, 1, e.right), checking || OnlyTruth(e, 1, e.right));
    } else {
      forall k | 0 <= k < |Children(e)| ensures !ForgetsChild(e, k, visiting, checking) {
        var x := Children(e)[k];
        assert x in Children(e);
        NothingForgotten(x, visiting || OnlyTruth(e, k, x), checking || OnlyTruth(e, k, x));
      }
      assert !ForgetsSome(e, visiting, checking);
    }
  }

  lemma {:induction false} NothingStepped(e: Expr, truthy: bool, visiting: bool, checking: bool, operator: Expr, place: nat)
    requires operator.Logic? && NoToJson(e)
    ensures !ForgetsStepping(e, truthy, visiting, checking, operator, place)
    decreases e, 2
  {
    hide IsToJson, OnlyTruth, Forgets;
    match e
    case Not(_, o) =>
      assert o in Children(e);
      NothingStepped(o, !truthy, visiting || OnlyTruth(e, 0, o), checking, operator, 1);
    case Logic(_, k, l, r) =>
      assert l in Children(e) && r in Children(e);
      var visitingLeft := visiting || OnlyTruth(e, 0, l);
      NothingForgotten(l, visitingLeft, checking || OnlyTruth(operator, 1, l));
      NothingStepped(l, k == Or, visitingLeft, checking, operator, 1);
      NothingForgotten(r, visiting || OnlyTruth(e, 1, r), checking || OnlyTruth(operator, 1, r));
    case _ => NothingForgotten(e, visiting, checking || OnlyTruth(operator, place, e));
  }

  // ----- an expression in which they differ -----

  const PAYLOAD := Property(NO_SPAN, GITHUB_CONTEXT, "event")
  const JSON := Call(NO_SPAN, "toJSON", [PAYLOAD])
  const NEGATED := Logic(NO_SPAN, Or, Not(NO_SPAN, JSON), StrLit(NO_SPAN, "x"))

  lemma JsonNames()
    ensures IsToJson(JSON) && !IsSafeCall(JSON) && Lower(JSON.callee) == "tojson" && !IsCase(JSON.callee)
  {
    hide Lower;
    FoldedName("toJSON");
    assert "tojson"[0] == 't' && "contains"[0] == 'c' && "startswith"[0] == 's' && "endswith"[0] == 'e' && "case"[0] == 'c';
  }

  lemma VisitOfLeaf(e: Expr, path: seq<nat>, boolean: bool)
    requires Children(e) == [] && !IsAccess(e) && !e.Call?
    ensures Lookups(VisitPlan(e, 0, path), boolean) == []
  {
    hide VisitPlan;
    InnerOf(e, 0, path);
    PathOf(e, 0, path);
  }

  lemma JsonLookups(p: Plan, q: Plan, boolean: bool)
    requires p.node == JSON && p.inner == [q] && q.node == PAYLOAD && Along(q, Asked(Some(JSON), q)) == []
    requires Along(q, boolean || Asked(Some(JSON), q)) == []
    ensures Lookups(p, boolean) == [if boolean then Read(PAYLOAD) else Serialized(PAYLOAD)]
  {
    hide IsSafeCall, IsToJson, Asked, Along, Lookups, AllLookups;
    JsonNames();
    if boolean {
      OtherLooksUp(p, true);
      TwoLookedUp(q, q, Some(JSON), true);
      AccessLooksUp(q, true);
    } else {
      ToJsonLookups(p);
    }
  }

  lemma NothingAlong(p: Plan, q: Plan, boolean: bool)
    requires p.node == PAYLOAD && p.inner == [q] && q.node == PAYLOAD.receiver && q.inner == []
    ensures Along(p, boolean) == []
  {
    hide Asked;
    assert [q][..0] == [];
    assert Along(q, boolean || Asked(Some(p.node), q)) == [];
    assert AllLookups([], Some(p.node), boolean) == [];
  }

  lemma NegatedVisit()
    ensures AllLookups([VisitPlan(NEGATED, 0, [])], None, false) == [Read(PAYLOAD)]
  {
    hide VisitPlan, Lookups, IsSafeCall, IsToJson, Along, VisitFirst;
    var p, not := VisitPlan(NEGATED, 0, []), NEGATED.left;
    TwoLookedUp(p, p, None, false);
    PathOf(NEGATED, 0, []);
    VisitLogic(NEGATED, [], false);
    VisitOfLeaf(NEGATED.right, [1], false);
    AsksNot(NEGATED, 0, not);
    VisitNot(not, [0], true);
    var json, payload, github := VisitPlan(JSON, 0, [0, 0]), VisitPlan(PAYLOAD, 0, [0, 0, 0]), VisitPlan(PAYLOAD.receiver, 0, [0, 0, 0, 0]);
    assert [] + [0] == [0] && [0] + [0] == [0, 0] && [0, 0] + [0] == [0, 0, 0] && [0, 0, 0] + [0] == [0, 0, 0, 0] && [] + [1] == [1];
    FewChildren(JSON, 0, [0, 0]);
    FewChildren(PAYLOAD, 0, [0, 0, 0]);
    FewChildren(PAYLOAD.receiver, 0, [0, 0, 0, 0]);
    PathOf(JSON, 0, [0, 0]);
    PathOf(PAYLOAD, 0, [0, 0, 0]);
    PathOf(PAYLOAD.receiver, 0, [0, 0, 0, 0]);
    NothingAlong(payload, github, true);
    NothingAlong(payload, github, Asked(Some(JSON), payload));
    JsonLookups(json, payload, true);
  }

  /** The serialization as the checker goes to it from the operator. */
  lemma JsonChecked(c: Config)
    requires "tojson" in c.functions
    ensures Lookups(Checked(c, JSON, [0, 0], 1), false) == [Serialized(PAYLOAD)]
  {
    hide Lookups, IsSafeCall, IsToJson, Along, Check, AllLookups, Checked, Asked, CheckLogical, CheckCase;
    JsonNames();
    assert [0, 0] + [0] == [0, 0, 0] && [0, 0, 0] + [0] == [0, 0, 0, 0];
    var json := Checked(c, JSON, [0, 0], 1);
    var payload, github := Checked(c, PAYLOAD, [0, 0, 0], 0), Checked(c, PAYLOAD.receiver, [0, 0, 0, 0], 0);
    CheckOf(c, PAYLOAD, [0, 0, 0], 0);
    CheckOf(c, PAYLOAD.receiver, [0, 0, 0, 0], 0);
    CheckedIs(c, JSON, [0, 0], 1);
    CheckedIs(c, PAYLOAD, [0, 0, 0], 0);
    CheckedIs(c, PAYLOAD.receiver, [0, 0, 0, 0], 0);
    OneChecked(c, PAYLOAD, [0, 0]);
    NothingAlong(payload, github, Asked(Some(JSON), payload));
    JsonLookups(json, payload, false);
  }

  /** The negation is stepped through. */
  lemma NegatedInner(c: Config)
    ensures Below(c, NEGATED, [], []) == [Checked(c, JSON, [0, 0], 1), Checked(c, NEGATED.right, [1], 1)]
  {
    hide Check, Checked;
    assert [] + [0] == [0] && [0] + [0] == [0, 0] && [] + [1] == [1];
    RightChecked(c, NEGATED, []);
    CheckOf(c, JSON, [0, 0], 1);
    CheckOf(c, NEGATED.right, [1], 1);
    assert CheckNarrowing(c, NEGATED.left, true, [], [0], 0) == [Checked(c, JSON, [0, 0], 1)];
  }

  lemma NegatedCheck(c: Config)
    requires "tojson" in c.functions
    ensures AllLookups(Check(c, NEGATED, [], [], 0), None, false) == [Serialized(PAYLOAD)]
  {
    hide Lookups, IsSafeCall, IsToJson, Along, Check, AllLookups, Checked, Asked, Below;
    CheckOf(c, NEGATED, [], 0);
    CheckedIs(c, NEGATED, [], 0);
    var p, json, x := Checked(c, NEGATED, [], 0), Checked(c, JSON, [0, 0], 1), Checked(c, NEGATED.right, [1], 1);
    TwoLookedUp(p, p, None, false);
    LogicIsPlain(NEGATED);
    OtherLooksUp(p, false);
    NegatedInner(c);
    TwoLookedUp(json, x, Some(NEGATED), false);
    CheckedIs(c, JSON, [0, 0], 1);
    CheckedIs(c, NEGATED.right, [1], 1);
    JsonChecked(c);
    JsonIsUsed(json, p);
    NothingBelow(c);
    LeafLooksUp(x, Asked(Some(NEGATED), x));
  }

  lemma NothingBelow(c: Config)
    ensures Below(c, NEGATED.right, [], [1]) == []
  {
  }

  lemma OneChecked(c: Config, x: Expr, path: seq<nat>)
    ensures CheckAll(c, [x], [], path, 0) == Check(c, x, [], path + [0], 0)
  {
    hide Check;
    assert [x][1..] == [];
  }

  lemma JsonIsUsed(json: Plan, p: Plan)
    requires json.node == JSON && json.place == 1 && p.node == NEGATED
    ensures !Asked(Some(NEGATED), json) && !Asked(None, p)
  {
  }

  lemma LeafLooksUp(p: Plan, boolean: bool)
    requires p.node.StrLit? && p.inner == []
    ensures Lookups(p, boolean) == []
  {
  }

  /** For !toJSON(github.event) || 'x' the checker looks up the serialized event, and a visit only the event itself. */
  lemma SteppedNegationDiffers(c: Config)
    requires "tojson" in c.functions
    ensures AllLookups(Check(c, NEGATED, [], [], 0), None, false) == [Serialized(PAYLOAD)]
    ensures AllLookups([VisitPlan(NEGATED, 0, [])], None, false) == [Read(PAYLOAD)]
    ensures Forgets(NEGATED, false, false)
  {
    hide Check, VisitPlan, AllLookups, Forgets, KnownCalls;
    NegatedCheck(c);
    NegatedVisit();
    NegatedCalls(c);
    AgreesExactly(c, NEGATED);
  }

  lemma NegatedCalls(c: Config)
    requires "tojson" in c.functions
    ensures KnownCalls(c, NEGATED)
  {
    hide Lower;
    JsonNames();
    assert forall x | x in Children(PAYLOAD) :: KnownCalls(c, x);
    assert KnownCalls(c, PAYLOAD);
    assert KnownCalls(c, JSON);
    assert KnownCalls(c, NEGATED.left);
  }
}
