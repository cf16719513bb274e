/** When the reports are the due ones whatever the untrusted inputs are (internal/expression/expr_insecure.go). */
module UntrustedDisturbance {
  import opened Text
  import opened Syntax
  import opened Semantics
  import opened UntrustedInputs
  import opened UntrustedChecker
  import opened UntrustedWalks
  import opened UntrustedStories

  // ----- whatever the search tree -----

  /** The access starts at a variable. */
  predicate FromVariable(e: Expr)
    decreases e
  {
    e.Variable? || (IsAccess(e) && FromVariable(Receiver(e)))
  }

  /** The access that is being followed after the visit of a node, if one was or was not before. */
  function After(p: Plan, pending: Option<Expr>): Option<Expr> {
    if IsSafeCall(p.node) then pending
    else if FromVariable(p.node) then Some(p.node)
    else None
  }

  function AfterAll(ps: seq<Plan>, pending: Option<Expr>): Option<Expr> {
    if ps == [] then pending else After(ps[|ps| - 1], AfterAll(ps[..|ps| - 1], pending))
  }

  /** The first access that is being followed when something is selected from a safe call. */
  function Disturbed(p: Plan, pending: Option<Expr>): Option<Expr>
    decreases p, 1
  {
    if IsSafeCall(p.node) then None
    else
      var d := AllDisturbed(p.inner, pending);
      if d.Some? then d
      else if (p.node.Property? || p.node.Filter? || p.node.Index?) && IsSafeCall(Receiver(p.node)) then AfterAll(p.inner, pending)
      else None
  }

  function AllDisturbed(ps: seq<Plan>, pending: Option<Expr>): Option<Expr>
    decreases ps, 0
  {
    if ps == [] then None
    else
      var before := ps[..|ps| - 1];
      var d := AllDisturbed(before, pending);
      if d.Some? then d else Disturbed(ps[|ps| - 1], AfterAll(before, pending))
  }

  /** The checker follows the access, or has nowhere to go. */
  predicate Holds(roots: Roots, t: Track, pending: Option<Expr>) {
    Rooted(t) && if pending.Some? then Followed(roots, pending.value) == Some(t) else t.cur == {}
  }

  lemma HoldsIsClean(roots: Roots, t: Track, pending: Option<Expr>, serialized: bool)
    requires Holds(roots, t, pending)
    ensures Clean(roots, AsMade(Pending(t, serialized)))
    ensures pending.None? ==> Pending(t, serialized) == []
  {
    hide Followed, AsMade;
    var rs := Pending(t, serialized);
    if pending.Some? { FollowedStart(roots, pending.value); }
    MadeIsClean(roots, rs);
  }

  lemma {:induction false} MadeIsClean(roots: Roots, rs: seq<Report>)
    requires forall r | r in rs :: Genuine(roots, r)
    ensures Clean(roots, AsMade(rs))
  {
    hide Genuine;
    if rs != [] { MadeIsClean(roots, rs[..|rs| - 1]); }
  }

  lemma CleanConcat(roots: Roots, a: seq<Entry>, b: seq<Entry>)
    requires Clean(roots, a) && Clean(roots, b)
    ensures Clean(roots, a + b)
  {
  }

  lemma {:induction false} AllUndisturbed(rt: Runtime, roots: Roots, log: Log, ps: seq<Plan>, parent: Option<Expr>, boolean: bool,
                                         pending: Option<Expr>)
    requires (forall q | q in ps :: Shaped(q)) && Holds(roots, log.track, pending) && AllDisturbed(ps, pending).None?
    ensures Holds(roots, WalkAll(rt, roots, log, ps, parent, boolean).track, AfterAll(ps, pending))
    ensures Clean(roots, StoryAll(rt, roots, log, ps, parent, boolean))
    decreases ps, 0
  {
    hide Walk, Story, Asked, Shaped, Holds, Clean, After, Disturbed;
    if ps == [] {
      assert Clean(roots, []) by { MadeIsClean(roots, []); }
    } else {
      var before, q := ps[..|ps| - 1], ps[|ps| - 1];
      AllUndisturbed(rt, roots, log, before, parent, boolean, pending);
      var mid := WalkAll(rt, roots, log, before, parent, boolean);
      Undisturbed(rt, roots, mid, q, boolean || Asked(parent, q), AfterAll(before, pending));
      CleanConcat(roots, StoryAll(rt, roots, log, before, parent, boolean), Story(rt, roots, mid, q, boolean || Asked(parent, q)));
    }
  }

  /** While nothing is selected from a safe call during an access, the checker follows accesses and its story is clean. */
  lemma {:induction false} Undisturbed(rt: Runtime, roots: Roots, log: Log, p: Plan, boolean: bool, pending: Option<Expr>)
    requires Shaped(p) && Holds(roots, log.track, pending) && Disturbed(p, pending).None?
    ensures Holds(roots, Walk(rt, roots, log, p, boolean).track, After(p, pending))
    ensures Clean(roots, Story(rt, roots, log, p, boolean))
    decreases p, 1
  {
    hide LeaveStep, LeaveStory, Holds, Clean, IsSafeCall, AfterAll, FromVariable, Receiver;
    if IsSafeCall(p.node) {
      assert Clean(roots, []) by { MadeIsClean(roots, []); }
    } else {
      AllUndisturbed(rt, roots, log, p.inner, Some(p.node), boolean, pending);
      var now := WalkAll(rt, roots, log, p.inner, Some(p.node), boolean);
      if IsAccess(p.node) && !p.node.Variable? {
        ReceiverPending(p, pending);
        SelectUndisturbed(rt, roots, now, p, boolean, pending);
      } else {
        EndUndisturbed(rt, roots, now, p, boolean, AfterAll(p.inner, pending));
      }
      CleanConcat(roots, StoryAll(rt, roots, log, p.inner, Some(p.node), boolean), LeaveStory(rt, roots, now, p.node, boolean));
    }
  }

  lemma ReceiverPending(p: Plan, pending: Option<Expr>)
    requires (p.node.Property? || p.node.Filter? || p.node.Index?) && Shaped(p)
    ensures var r := Receiver(p.node);
      AfterAll(p.inner, pending) == if IsSafeCall(r) then AfterAll(p.inner, pending) else if FromVariable(r) then Some(r) else None
  {
    hide IsSafeCall, FromVariable;
  }

  lemma SelectUndisturbed(rt: Runtime, roots: Roots, now: Log, p: Plan, boolean: bool, pending: Option<Expr>)
    requires (p.node.Property? || p.node.Filter? || p.node.Index?) && Disturbed(p, pending).None?
    requires Holds(roots, now.track, AfterAll(p.inner, pending))
    requires var r := Receiver(p.node); !IsSafeCall(r) ==> AfterAll(p.inner, pending) == if FromVariable(r) then Some(r) else None
    ensures Holds(roots, LeaveStep(rt, roots, now, p.node, boolean).track, After(p, pending))
    ensures Clean(roots, LeaveStory(rt, roots, now, p.node, boolean))
  {
    hide IsSafeCall, AfterAll, Clean, Pending, LeaveStep;
    AccessIsUnsafe(p.node);
    LeaveStepAccess(rt, roots, now, p.node, boolean);
    HoldsIsClean(roots, now.track, AfterAll(p.inner, pending), false);
    StepsKeepStart(now.track, p.node);
    assert Clean(roots, AsDropped([])) && Clean(roots, []) by { MadeIsClean(roots, []); }
    if IsSafeCall(Receiver(p.node)) { SafeIsNoStart(Receiver(p.node)); }
  }

  lemma SafeIsNoStart(e: Expr)
    requires IsSafeCall(e)
    ensures !FromVariable(e)
  {
  }

  lemma EndUndisturbed(rt: Runtime, roots: Roots, now: Log, p: Plan, boolean: bool, pending: Option<Expr>)
    requires !IsSafeCall(p.node) && (p.node.Variable? || !IsAccess(p.node)) && Holds(roots, now.track, pending)
    ensures Holds(roots, LeaveStep(rt, roots, now, p.node, boolean).track, After(p, None))
    ensures Clean(roots, LeaveStory(rt, roots, now, p.node, boolean))
  {
    hide IsSafeCall, Clean, Pending, Containers, AsMade, EqualFold;
    HoldsIsClean(roots, now.track, pending, false);
    HoldsIsClean(roots, now.track, pending, true);
    if !boolean && IsToJson(p.node) {
      var selected := Containers(rt, roots, p.node.args[0]);
      ContainersAreOwn(rt, roots, p.node.args[0]);
      MadeIsClean(roots, selected);
      MadeConcat(selected, Pending(now.track, false));
      CleanConcat(roots, AsMade(selected), AsMade(Pending(now.track, false)));
    }
  }

  lemma {:induction false} AllDisturbing(rt: Runtime, roots: Roots, log: Log, ps: seq<Plan>, parent: Option<Expr>, boolean: bool,
                                         pending: Option<Expr>)
    requires (forall q | q in ps :: Shaped(q)) && Holds(roots, log.track, pending) && AllDisturbed(ps, pending).Some?
    requires var f := Followed(roots, AllDisturbed(ps, pending).value); f.Some? ==> Pending(f.value, false) != []
    ensures !Clean(roots, StoryAll(rt, roots, log, ps, parent, boolean))
    decreases ps, 0
  {
    hide Walk, Story, Asked, Shaped, Holds, Clean, After, Disturbed, Followed, Pending;
    var before, q := ps[..|ps| - 1], ps[|ps| - 1];
    var mid := WalkAll(rt, roots, log, before, parent, boolean);
    if AllDisturbed(before, pending).Some? {
      AllDisturbing(rt, roots, log, before, parent, boolean, pending);
    } else {
      AllUndisturbed(rt, roots, log, before, parent, boolean, pending);
      Disturbing(rt, roots, mid, q, boolean || Asked(parent, q), AfterAll(before, pending));
    }
    UncleanConcat(roots, StoryAll(rt, roots, log, before, parent, boolean), Story(rt, roots, mid, q, boolean || Asked(parent, q)));
  }

  lemma UncleanConcat(roots: Roots, a: seq<Entry>, b: seq<Entry>)
    ensures Clean(roots, a + b) <==> Clean(roots, a) && Clean(roots, b)
  {
    hide Genuine;
    if Clean(roots, a + b) {
      assert forall x | x in a :: x in a + b;
      assert forall x | x in b :: x in a + b;
    }
  }

  /** The first access disturbed by a selection from a safe call loses what it has found. */
  lemma {:induction false} Disturbing(rt: Runtime, roots: Roots, log: Log, p: Plan, boolean: bool, pending: Option<Expr>)
    requires Shaped(p) && Holds(roots, log.track, pending) && Disturbed(p, pending).Some?
    requires var f := Followed(roots, Disturbed(p, pending).value); f.Some? ==> Pending(f.value, false) != []
    ensures !Clean(roots, Story(rt, roots, log, p, boolean))
    decreases p, 1
  {
    hide Holds, Clean, IsSafeCall, AfterAll, FromVariable, Receiver, LeaveStory, Followed, Pending;
    var now := WalkAll(rt, roots, log, p.inner, Some(p.node), boolean);
    if AllDisturbed(p.inner, pending).Some? {
      AllDisturbing(rt, roots, log, p.inner, Some(p.node), boolean, pending);
    } else {
      AllUndisturbed(rt, roots, log, p.inner, Some(p.node), boolean, pending);
      DroppedIsUnclean(rt, roots, now, p.node, boolean, AfterAll(p.inner, pending).value);
    }
    UncleanConcat(roots, StoryAll(rt, roots, log, p.inner, Some(p.node), boolean), LeaveStory(rt, roots, now, p.node, boolean));
  }

  lemma DroppedIsUnclean(rt: Runtime, roots: Roots, now: Log, e: Expr, boolean: bool, a: Expr)
    requires (e.Property? || e.Filter? || e.Index?) && IsSafeCall(Receiver(e)) && Holds(roots, now.track, Some(a))
    requires var f := Followed(roots, a); f.Some? ==> Pending(f.value, false) != []
    ensures !Clean(roots, LeaveStory(rt, roots, now, e, boolean))
  {
    hide IsSafeCall, Followed, Inputs;
    FollowedStart(roots, a);
    var r := Pending(now.track, false)[0];
    assert Pending(now.track, false) == [r] && AsDropped([r]) == [Dropped(r)] by { assert [r][..0] == []; }
    assert Genuine(roots, r);
    assert Dropped(r) in LeaveStory(rt, roots, now, e, boolean);
  }

  // ----- a search tree in which an access finds something -----

  function Deep(n: nat): InputMap {
    InputMap("**", if n == 0 then map[] else map["**" := Deep(n - 1)])
  }

  /** The access has just gone through an object filter. */
  predicate Filtering(e: Expr)
    decreases e
  {
    match e
    case Property(_, r, _) => Filtering(r)
    case Filter(_, _) => true
    case Index(_, o, i) => i.StrLit? && Filtering(o)
    case _ => false
  }

  /** How far the access goes down the search tree. */
  function Steps(e: Expr): nat
    decreases e
  {
    match e
    case Property(_, r, _) => Steps(r) + 1
    case Filter(_, r) => Steps(r) + 1
    case Index(_, o, i) => if !i.StrLit? && Filtering(o) then Steps(o) else Steps(o) + 1
    case _ => 0
  }

  function Origin(e: Expr): Expr
    requires FromVariable(e)
    ensures Origin(e).Variable?
    decreases e
  {
    if e.Variable? then e else Origin(Receiver(e))
  }

  function DeepRoots(e: Expr, n: nat): Roots
    requires FromVariable(e)
  {
    map[Origin(e).Name() := Deep(n)]
  }

  lemma DeepStep(c: Cursor, n: nat, name: string)
    requires n > 0 && c.node == Deep(n)
    ensures var d := Cursor(c.path + ["**"], Deep(n - 1));
      c.ObjectProp(name) == Some(d) && c.Element() == Some(d) && c.Filtered() == {d}
  {
    assert c.node.children == map["**" := Deep(n - 1)];
    assert "*" != "**" by { assert |"*"| != |"**"|; }
    var d := Cursor(c.path + ["**"], Deep(n - 1));
    assert c.Child("**") == Some(d);
    assert "**" in c.node.children;
    forall k | k in c.Filtered() ensures k == d { }
  }

  lemma {:induction false} DeepFollowed(e: Expr, n: nat) returns (c: Cursor)
    requires FromVariable(e) && Steps(e) <= n
    ensures Followed(DeepRoots(e, n), e) == Some(Track({c}, Filtering(e), Some(e)))
    ensures c.node == Deep(n - Steps(e))
    decreases e
  {
    hide Deep, Lower;
    if e.Variable? {
      c := Cursor([e.Name()], Deep(n));
    } else {
      var d := DeepFollowed(Receiver(e), n);
      var t := Track({d}, Filtering(Receiver(e)), Some(Receiver(e)));
      assert Followed(DeepRoots(e, n), e) == Some(AccessStep(t, e));
      if e.Index? && !e.index.StrLit? && Filtering(e.operand) {
        c := d;
      } else {
        c := Cursor(d.path + ["**"], Deep(n - Steps(e)));
        DeepAccess(e, t, d, n - Steps(Receiver(e)));
      }
    }
  }

  lemma DeepAccess(e: Expr, t: Track, d: Cursor, n: nat)
    requires (e.Property? || e.Filter? || e.Index?) && t.cur == {d} && t.start.Some? && n > 0 && d.node == Deep(n)
    requires e.Index? && !e.index.StrLit? ==> !t.filtering
    ensures AccessStep(t, e).cur == {Cursor(d.path + ["**"], Deep(n - 1))}
  {
    hide Deep, Lower;
    var name := if e.Property? then e.Name() else if e.Index? && e.index.StrLit? then Lower(e.index.str) else "";
    DeepStep(d, n, name);
  }

  /** For every access from a variable there is a search tree in which it finds something. */
  lemma SomethingFound(e: Expr) returns (roots: Roots)
    requires FromVariable(e)
    ensures Followed(roots, e).Some? && Pending(Followed(roots, e).value, false) != []
  {
    hide Followed, FromVariable, Origin, Steps;
    roots := DeepRoots(e, Steps(e));
    var c := DeepFollowed(e, Steps(e));
    var t := Track({c}, Filtering(e), Some(e));
    assert c.path in Inputs(t, true, false);
  }

  /** Whatever the search tree, the reports are those there is to look up, exactly when nothing is selected from a safe call
      while an access from a variable is being followed. */
  lemma AlwaysDueExactly(rt: Runtime, ps: seq<Plan>)
    requires forall p | p in ps :: Shaped(p)
    ensures AllDisturbed(ps, None).None? <==>
      forall roots :: Findings(rt, roots, ps) == Reports(rt, roots, AllLookups(ps, None, false))
  {
    hide Findings, Reports, AllLookups, Shaped, Followed, Pending, AllDisturbed;
    if AllDisturbed(ps, None).None? {
      forall roots ensures Findings(rt, roots, ps) == Reports(rt, roots, AllLookups(ps, None, false)) {
        NeverDisturbed(rt, roots, ps);
      }
    } else {
      var a := AllDisturbed(ps, None).value;
      AllDisturbedFrom(ps, None);
      var roots := SomethingFound(a);
      FindingsExactly(rt, roots, ps);
      FreshHolds(roots);
      AllDisturbing(rt, roots, Log(EMPTY, []), ps, None, false, None);
      UncleanConcat(roots, StoryAll(rt, roots, Log(EMPTY, []), ps, None, false),
                    AsMade(Pending(WalkAll(rt, roots, Log(EMPTY, []), ps, None, false).track, false)));
    }
  }

  lemma FreshHolds(roots: Roots)
    ensures Holds(roots, EMPTY, None)
  {
  }

  lemma NeverDisturbed(rt: Runtime, roots: Roots, ps: seq<Plan>)
    requires (forall p | p in ps :: Shaped(p)) && AllDisturbed(ps, None).None?
    ensures Findings(rt, roots, ps) == Reports(rt, roots, AllLookups(ps, None, false))
  {
    hide Findings, Reports, AllLookups, Shaped, Followed, Pending, AllDisturbed, WalkAll, StoryAll, Holds, AsMade;
    var log := Log(EMPTY, []);
    FindingsExactly(rt, roots, ps);
    FreshHolds(roots);
    AllUndisturbed(rt, roots, log, ps, None, false, None);
    var now := WalkAll(rt, roots, log, ps, None, false);
    HoldsIsClean(roots, now.track, AfterAll(ps, None), false);
    CleanConcat(roots, StoryAll(rt, roots, log, ps, None, false), AsMade(Pending(now.track, false)));
  }

  predicate PendingFromVariable(pending: Option<Expr>) {
    pending.Some? ==> FromVariable(pending.value)
  }

  lemma {:induction false} AfterFromVariable(ps: seq<Plan>, pending: Option<Expr>)
    requires PendingFromVariable(pending)
    ensures PendingFromVariable(AfterAll(ps, pending))
  {
    hide IsSafeCall;
    if ps != [] { AfterFromVariable(ps[..|ps| - 1], pending); }
  }

  lemma {:induction false} AllDisturbedFrom(ps: seq<Plan>, pending: Option<Expr>)
    requires PendingFromVariable(pending)
    ensures PendingFromVariable(AllDisturbed(ps, pending))
    decreases ps, 0
  {
    hide Disturbed, PendingFromVariable;
    if ps == [] {
      assert PendingFromVariable(None) by { NoneFromVariable(); }
    } else {
      AllDisturbedFrom(ps[..|ps| - 1], pending);
      AfterFromVariable(ps[..|ps| - 1], pending);
      DisturbedFrom(ps[|ps| - 1], AfterAll(ps[..|ps| - 1], pending));
    }
  }

  lemma NoneFromVariable()
    ensures PendingFromVariable(None)
  {
  }

  lemma {:induction false} DisturbedFrom(p: Plan, pending: Option<Expr>)
    requires PendingFromVariable(pending)
    ensures PendingFromVariable(Disturbed(p, pending))
    decreases p, 1
  {
    hide IsSafeCall, PendingFromVariable;
    NoneFromVariable();
    AllDisturbedFrom(p.inner, pending);
    AfterFromVariable(p.inner, pending);
  }
}
