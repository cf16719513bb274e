/** Every report that is due, made or not (internal/expression/expr_insecure.go). */
module UntrustedStories {
  import opened Text
  import opened Syntax
  import opened Semantics
  import opened UntrustedInputs
  import opened UntrustedChecker
  import opened UntrustedWalks

  // ----- what becomes of the reports that are due -----

  /** A report that was made, or one that was due and was not made. */
  datatype Entry = Made(report: Report) | Dropped(report: Report)

  function AsMade(rs: seq<Report>): seq<Entry> {
    if rs == [] then [] else AsMade(rs[..|rs| - 1]) + [Made(rs[|rs| - 1])]
  }

  function AsDropped(rs: seq<Report>): seq<Entry> {
    if rs == [] then [] else AsDropped(rs[..|rs| - 1]) + [Dropped(rs[|rs| - 1])]
  }

  /** Leaving a node ends the access being followed, or goes on with it; a selection from a safe call takes it over. */
  function LeaveStory(rt: Runtime, roots: Roots, log: Log, e: Expr, boolean: bool): seq<Entry> {
    if e.Variable? then AsMade(Pending(log.track, false))
    else if IsAccess(e) then (if IsSafeCall(Receiver(e)) then AsDropped(Pending(log.track, false)) else [])
    else if !boolean && IsToJson(e) then
      if IsAccess(e.args[0]) then AsMade(Pending(log.track, true))
      else AsMade(Containers(rt, roots, e.args[0]) + Pending(log.track, false))
    else AsMade(Pending(log.track, false))
  }

  function Story(rt: Runtime, roots: Roots, log: Log, p: Plan, boolean: bool): seq<Entry>
    decreases p, 1
  {
    if IsSafeCall(p.node) then []
    else
      StoryAll(rt, roots, log, p.inner, Some(p.node), boolean)
      + LeaveStory(rt, roots, WalkAll(rt, roots, log, p.inner, Some(p.node), boolean), p.node, boolean)
  }

  function StoryAll(rt: Runtime, roots: Roots, log: Log, ps: seq<Plan>, parent: Option<Expr>, boolean: bool): seq<Entry>
    decreases ps, 0
  {
    if ps == [] then []
    else
      var before, q := ps[..|ps| - 1], ps[|ps| - 1];
      StoryAll(rt, roots, log, before, parent, boolean)
      + Story(rt, roots, WalkAll(rt, roots, log, before, parent, boolean), q, boolean || Asked(parent, q))
  }

  /** The story of a whole visit by a fresh checker. */
  function WholeStory(rt: Runtime, roots: Roots, ps: seq<Plan>): seq<Entry> {
    StoryAll(rt, roots, Log(EMPTY, []), ps, None, false)
    + AsMade(Pending(WalkAll(rt, roots, Log(EMPTY, []), ps, None, false).track, false))
  }

  /** The reports that were made. */
  function Reported(s: seq<Entry>): seq<Report> {
    if s == [] then []
    else Reported(s[..|s| - 1]) + if s[|s| - 1].Made? then [s[|s| - 1].report] else []
  }

  /** The report is of an access that starts at a variable. */
  predicate Genuine(roots: Roots, r: Report) {
    Followed(roots, r.start).Some?
  }

  /** The genuine reports of a story, made or not. */
  function Due(roots: Roots, s: seq<Entry>): seq<Report> {
    if s == [] then []
    else Due(roots, s[..|s| - 1]) + if Genuine(roots, s[|s| - 1].report) then [s[|s| - 1].report] else []
  }

  lemma {:induction false} StoryConcat(roots: Roots, a: seq<Entry>, b: seq<Entry>)
    ensures Reported(a + b) == Reported(a) + Reported(b)
    ensures Due(roots, a + b) == Due(roots, a) + Due(roots, b)
  {
    hide Genuine;
    if b == [] {
      assert a + b == a;
    } else {
      assert (a + b)[..|a + b| - 1] == a + b[..|b| - 1];
      StoryConcat(roots, a, b[..|b| - 1]);
    }
  }

  lemma {:induction false} MadeConcat(a: seq<Report>, b: seq<Report>)
    ensures AsMade(a + b) == AsMade(a) + AsMade(b)
  {
    if b == [] {
      assert a + b == a;
    } else {
      assert (a + b)[..|a + b| - 1] == a + b[..|b| - 1];
      MadeConcat(a, b[..|b| - 1]);
    }
  }

  lemma {:induction false} MadeReports(rs: seq<Report>)
    ensures Reported(AsMade(rs)) == rs
  {
    if rs != [] {
      var s, last := AsMade(rs[..|rs| - 1]), Made(rs[|rs| - 1]);
      MadeReports(rs[..|rs| - 1]);
      assert (s + [last])[..|s|] == s;
    }
  }

  lemma {:induction false} DroppedReports(rs: seq<Report>)
    ensures Reported(AsDropped(rs)) == []
  {
    if rs != [] {
      var s, last := AsDropped(rs[..|rs| - 1]), Dropped(rs[|rs| - 1]);
      DroppedReports(rs[..|rs| - 1]);
      assert (s + [last])[..|s|] == s;
    }
  }

  /** What the story says was made is what the log has gained. */
  lemma {:induction false} StoryIsMade(rt: Runtime, roots: Roots, log: Log, p: Plan, boolean: bool)
    ensures Walk(rt, roots, log, p, boolean).errs == log.errs + Reported(Story(rt, roots, log, p, boolean))
    decreases p, 1
  {
    hide IsSafeCall, LeaveStep, LeaveStory;
    if !IsSafeCall(p.node) {
      StoryAllIsMade(rt, roots, log, p.inner, Some(p.node), boolean);
      var now := WalkAll(rt, roots, log, p.inner, Some(p.node), boolean);
      LeaveIsMade(rt, roots, now, p.node, boolean);
      StoryConcat(roots, StoryAll(rt, roots, log, p.inner, Some(p.node), boolean), LeaveStory(rt, roots, now, p.node, boolean));
    }
  }

  lemma {:induction false} StoryAllIsMade(rt: Runtime, roots: Roots, log: Log, ps: seq<Plan>, parent: Option<Expr>, boolean: bool)
    ensures WalkAll(rt, roots, log, ps, parent, boolean).errs == log.errs + Reported(StoryAll(rt, roots, log, ps, parent, boolean))
    decreases ps, 0
  {
    hide Walk, Story, Asked;
    if ps != [] {
      var before, q := ps[..|ps| - 1], ps[|ps| - 1];
      StoryAllIsMade(rt, roots, log, before, parent, boolean);
      var mid := WalkAll(rt, roots, log, before, parent, boolean);
      StoryIsMade(rt, roots, mid, q, boolean || Asked(parent, q));
      StoryConcat(roots, StoryAll(rt, roots, log, before, parent, boolean), Story(rt, roots, mid, q, boolean || Asked(parent, q)));
    }
  }

  lemma LeaveIsMade(rt: Runtime, roots: Roots, log: Log, e: Expr, boolean: bool)
    ensures LeaveStep(rt, roots, log, e, boolean).errs == log.errs + Reported(LeaveStory(rt, roots, log, e, boolean))
  {
    hide Pending, Containers, AsMade, AsDropped, IsSafeCall, AccessStep, EqualFold;
    MadeReports(Pending(log.track, false));
    MadeReports(Pending(log.track, true));
    DroppedReports(Pending(log.track, false));
    if IsToJson(e) { MadeReports(Containers(rt, roots, e.args[0]) + Pending(log.track, false)); }
  }

  /** The reports that a fresh checker makes are those that the story says were made. */
  lemma FindingsAreMade(rt: Runtime, roots: Roots, ps: seq<Plan>)
    ensures Findings(rt, roots, ps) == Reported(WholeStory(rt, roots, ps))
  {
    hide WalkAll, StoryAll, Pending;
    var log := Log(EMPTY, []);
    StoryAllIsMade(rt, roots, log, ps, None, false);
    var rs := Pending(WalkAll(rt, roots, log, ps, None, false).track, false);
    MadeReports(rs);
    StoryConcat(roots, StoryAll(rt, roots, log, ps, None, false), AsMade(rs));
  }

  // ----- every due report is told of, in order -----

  /** The reports of accesses that start at a variable. */
  function Own(roots: Roots, rs: seq<Report>): seq<Report> {
    if rs == [] then []
    else Own(roots, rs[..|rs| - 1]) + if Genuine(roots, rs[|rs| - 1]) then [rs[|rs| - 1]] else []
  }

  /** What the checker follows after an access: the access, or else nothing that starts at a variable. */
  predicate Tracks(roots: Roots, t: Track, e: Expr) {
    var f := Followed(roots, e);
    if f.Some? then t == f.value else Rooted(t) && (t.start.Some? ==> Followed(roots, t.start.value).None?)
  }

  /** What visiting a node does to the story; boolean says that only its truth is used. */
  ghost predicate Accounts(rt: Runtime, roots: Roots, was: Track, s: seq<Entry>, now: Track, p: Plan, boolean: bool) {
    if IsSafeCall(p.node) then now == was && s == []
    else if IsAccess(p.node) then
      Due(roots, s) == Own(roots, Pending(was, false)) + Reports(rt, roots, Along(p, boolean)) && Tracks(roots, now, p.node)
    else
      Due(roots, s) == Own(roots, Pending(was, false)) + Reports(rt, roots, Lookups(p, boolean)) && now == EMPTY
  }

  /** The same for a list of nodes, once the access being followed ends. */
  ghost predicate AccountsAll(rt: Runtime, roots: Roots, was: Track, s: seq<Entry>, now: Track, ls: seq<Lookup>) {
    Due(roots, s) + Own(roots, Pending(now, false)) == Own(roots, Pending(was, false)) + Reports(rt, roots, ls)
  }

  lemma NothingPending(t: Track, serialized: bool)
    requires t.cur == {} && t.start.None?
    ensures Pending(t, serialized) == []
  {
  }

  lemma ReportsOne(rt: Runtime, roots: Roots, l: Lookup)
    ensures Reports(rt, roots, [l]) == LookupReports(rt, roots, l)
  {
    hide LookupReports;
    assert [l][..0] == [];
  }

  lemma OwnOne(roots: Roots, rs: seq<Report>)
    requires |rs| <= 1
    ensures Own(roots, rs) == if rs == [] || !Genuine(roots, rs[0]) then [] else rs
  {
    hide Genuine;
    if rs != [] { assert rs[..0] == []; }
  }

  lemma {:induction false} OwnAll(roots: Roots, rs: seq<Report>)
    requires forall r | r in rs :: Genuine(roots, r)
    ensures Own(roots, rs) == rs
  {
    hide Genuine;
    if rs != [] { OwnAll(roots, rs[..|rs| - 1]); }
  }

  /** Whether a report was made or dropped, it is told of. */
  lemma {:induction false} DueIsOwn(roots: Roots, rs: seq<Report>)
    ensures Due(roots, AsMade(rs)) == Own(roots, rs) && Due(roots, AsDropped(rs)) == Own(roots, rs)
  {
    hide Genuine;
    if rs != [] { DueIsOwn(roots, rs[..|rs| - 1]); }
  }

  /** What an access has found when it ends. */
  lemma PendingIsRead(rt: Runtime, roots: Roots, t: Track, e: Expr)
    requires Tracks(roots, t, e)
    ensures Own(roots, Pending(t, false)) == LookupReports(rt, roots, Read(e))
    ensures Own(roots, Pending(t, true)) == LookupReports(rt, roots, Serialized(e))
  {
    hide Own, Followed, Inputs;
    OwnOne(roots, Pending(t, false));
    OwnOne(roots, Pending(t, true));
    if Followed(roots, e).Some? { FollowedStart(roots, e); }
  }

  lemma {:induction false} ContainersAreOwn(rt: Runtime, roots: Roots, e: Expr)
    ensures forall r | r in Containers(rt, roots, e) :: Genuine(roots, r)
    decreases e, 2, 0
  {
    hide Inputs, Truthy, ConstantFolding.ConditionConstantValue;
    match e
    case Logic(_, k, l, r) =>
      ContainersAreOwn(rt, roots, l);
      ContainersAreOwn(rt, roots, r);
    case Call(_, callee, args) =>
      if IsCase(callee) && CaseArity(|args|) { CaseContainersAreOwn(rt, roots, e, 0); }
    case _ =>
      if Followed(roots, e).Some? { FollowedStart(roots, e); }
  }

  lemma {:induction false} CaseContainersAreOwn(rt: Runtime, roots: Roots, e: Expr, i: nat)
    requires e.Call? && CaseArity(|e.args|) && i < |e.args| && i % 2 == 0
    ensures forall r | r in CaseContainers(rt, roots, e, i) :: Genuine(roots, r)
    decreases e, 1, |e.args| - i
  {
    hide Containers, Genuine, Truthy, ConstantFolding.ConditionConstantValue;
    ContainersAreOwn(rt, roots, e.args[i]);
    if i < |e.args| - 1 {
      ContainersAreOwn(rt, roots, e.args[i + 1]);
      CaseContainersAreOwn(rt, roots, e, i + 2);
    }
  }

  /** Once the access being followed ends, the story has told of exactly what there is to look up. */
  lemma FlushAfter(rt: Runtime, roots: Roots, was: Track, s: seq<Entry>, now: Track, p: Plan, boolean: bool)
    requires Accounts(rt, roots, was, s, now, p, boolean)
    ensures AccountsAll(rt, roots, was, s, now, Lookups(p, boolean))
  {
    hide Pending, Along, Lookups, LookupReports, Tracks, Own, Due, IsSafeCall, Reports;
    if IsSafeCall(p.node) {
      SafeLooksUpNothing(p, boolean);
      DueNone(roots);
      ReportsNone(rt, roots);
    } else if IsAccess(p.node) {
      AccessLooksUp(p, boolean);
      PendingIsRead(rt, roots, now, p.node);
      ReportsConcat(rt, roots, Along(p, boolean), [Read(p.node)]);
      ReportsOne(rt, roots, Read(p.node));
    } else {
      NothingPending(EMPTY, false);
      OwnOne(roots, []);
    }
  }

  lemma InTurn(s0: seq<Report>, s1: seq<Report>, p0: seq<Report>, p1: seq<Report>, p2: seq<Report>, r0: seq<Report>, r1: seq<Report>)
    requires s0 + p1 == p0 + r0 && s1 + p2 == p1 + r1
    ensures (s0 + s1) + p2 == p0 + (r0 + r1)
  {
    assert (s0 + s1) + p2 == s0 + (s1 + p2) == (s0 + p1) + r1 == (p0 + r0) + r1;
  }

  lemma DueNone(roots: Roots)
    ensures Due(roots, []) == []
  {
  }

  lemma {:induction false} AllAccounted(rt: Runtime, roots: Roots, log: Log, ps: seq<Plan>, parent: Option<Expr>, boolean: bool)
    requires Rooted(log.track) && forall q | q in ps :: Shaped(q)
    ensures Rooted(WalkAll(rt, roots, log, ps, parent, boolean).track)
    ensures AccountsAll(rt, roots, log.track, StoryAll(rt, roots, log, ps, parent, boolean),
                        WalkAll(rt, roots, log, ps, parent, boolean).track, AllLookups(ps, parent, boolean))
    decreases ps, 0
  {
    hide Walk, Story, Lookups, Asked, Own, Due, Pending, Reports, Shaped, Rooted;
    if ps == [] {
      DueNone(roots);
      assert Reports(rt, roots, []) == [] by { ReportsNone(rt, roots); }
    } else {
      var before, q := ps[..|ps| - 1], ps[|ps| - 1];
      var b := boolean || Asked(parent, q);
      AllAccounted(rt, roots, log, before, parent, boolean);
      var mid := WalkAll(rt, roots, log, before, parent, boolean);
      Accounted(rt, roots, mid, q, b);
      var s := Story(rt, roots, mid, q, b);
      FlushAfter(rt, roots, mid.track, s, Walk(rt, roots, mid, q, b).track, q, b);
      StoryConcat(roots, StoryAll(rt, roots, log, before, parent, boolean), s);
      ReportsConcat(rt, roots, AllLookups(before, parent, boolean), Lookups(q, b));
      InTurn(Due(roots, StoryAll(rt, roots, log, before, parent, boolean)), Due(roots, s),
             Own(roots, Pending(log.track, false)), Own(roots, Pending(mid.track, false)),
             Own(roots, Pending(Walk(rt, roots, mid, q, b).track, false)),
             Reports(rt, roots, AllLookups(before, parent, boolean)), Reports(rt, roots, Lookups(q, b)));
    }
  }

  lemma ReportsNone(rt: Runtime, roots: Roots)
    ensures Reports(rt, roots, []) == []
  {
  }

  /** Visiting a node tells of what is due: what was being followed, unless that goes on, and what the node looks up. */
  lemma {:induction false} Accounted(rt: Runtime, roots: Roots, log: Log, p: Plan, boolean: bool)
    requires Rooted(log.track) && Shaped(p)
    ensures Rooted(Walk(rt, roots, log, p, boolean).track)
    ensures Accounts(rt, roots, log.track, Story(rt, roots, log, p, boolean),
                     Walk(rt, roots, log, p, boolean).track, p, boolean)
    decreases p, 1
  {
    hide IsSafeCall, LeaveStep, LeaveStory, Accounts, Rooted, Tracks;
    var now := WalkAll(rt, roots, log, p.inner, Some(p.node), boolean);
    if IsSafeCall(p.node) {
      SafeAccounted(rt, roots, log, p, boolean);
    } else if p.node.Variable? {
      LeaveVariable(rt, roots, log, p, boolean);
    } else if IsAccess(p.node) {
      LeaveAccess(rt, roots, log, p, boolean);
    } else {
      AllAccounted(rt, roots, log, p.inner, Some(p.node), boolean);
      if IsToJson(p.node) && !boolean { LeaveToJson(rt, roots, log, p); } else { LeaveOther(rt, roots, log, p, boolean); }
    }
  }

  lemma SafeAccounted(rt: Runtime, roots: Roots, log: Log, p: Plan, boolean: bool)
    requires IsSafeCall(p.node)
    ensures Walk(rt, roots, log, p, boolean) == log && Story(rt, roots, log, p, boolean) == []
    ensures Accounts(rt, roots, log.track, [], log.track, p, boolean)
  {
  }

  lemma LeaveVariable(rt: Runtime, roots: Roots, log: Log, p: Plan, boolean: bool)
    requires p.node.Variable? && Shaped(p)
    ensures Rooted(Walk(rt, roots, log, p, boolean).track)
    ensures Accounts(rt, roots, log.track, Story(rt, roots, log, p, boolean),
                     Walk(rt, roots, log, p, boolean).track, p, boolean)
  {
    hide Pending, Own, Due, Flush, Containers, Reports;
    AccessIsUnsafe(p.node);
    assert Along(p, boolean) == [];
    ReportsNone(rt, roots);
    DueIsOwn(roots, Pending(log.track, false));
    assert Story(rt, roots, log, p, boolean) == AsMade(Pending(log.track, false));
  }

  lemma StepTracks(roots: Roots, t: Track, e: Expr)
    requires (e.Property? || e.Filter? || e.Index?) && Rooted(t)
    requires IsAccess(Receiver(e)) ==> Tracks(roots, t, Receiver(e))
    ensures Tracks(roots, AccessStep(t, e), e) && Rooted(AccessStep(t, e))
  {
    StepsKeepStart(t, e);
  }

  /** A selection from a safe call tells of what was being followed, as the end of that access would have. */
  lemma ReceiverDue(rt: Runtime, roots: Roots, mid: Track, s: seq<Entry>, now: Log, e: Expr, r: Plan, b: bool, boolean: bool)
    requires (e.Property? || e.Filter? || e.Index?) && Receiver(e) == r.node
    requires Accounts(rt, roots, mid, s, now.track, r, b)
    ensures Due(roots, s + LeaveStory(rt, roots, now, e, boolean))
      == Own(roots, Pending(mid, false)) + Reports(rt, roots, ReceiverLookups(r, b))
    ensures IsAccess(Receiver(e)) ==> Tracks(roots, now.track, Receiver(e))
  {
    hide Pending, Own, Due, Reports, Lookups, Along, Tracks, IsSafeCall, AsDropped;
    if IsSafeCall(r.node) {
      SafeLooksUpNothing(r, b);
      ReportsNone(rt, roots);
      DueIsOwn(roots, Pending(mid, false));
      assert s + LeaveStory(rt, roots, now, e, boolean) == AsDropped(Pending(mid, false));
    } else {
      assert s + LeaveStory(rt, roots, now, e, boolean) == s;
    }
    if IsAccess(r.node) { AccessIsUnsafe(r.node); }
  }

  /** Leaving an access whose index and receiver have been visited. */
  lemma {:induction false} LeaveAccess(rt: Runtime, roots: Roots, log: Log, p: Plan, boolean: bool)
    requires (p.node.Property? || p.node.Filter? || p.node.Index?) && Shaped(p) && Rooted(log.track)
    ensures Rooted(Walk(rt, roots, log, p, boolean).track)
    ensures Accounts(rt, roots, log.track, Story(rt, roots, log, p, boolean),
                     Walk(rt, roots, log, p, boolean).track, p, boolean)
    decreases p, 0
  {
    hide Pending, Own, Due, Reports, LeaveStory, LeaveStep, Lookups, AllLookups, Along, ReceiverLookups, Tracks, IsSafeCall, IsToJson,
      Rooted, AccessStep, Asked, Accounts, Walk, Story, WalkAll, StoryAll;
    var e, parent := p.node, Some(p.node);
    var n := |p.inner| - 1;
    var indices, r := p.inner[..n], p.inner[n];
    var b := boolean || Asked(parent, r);
    AllAccounted(rt, roots, log, indices, parent, boolean);
    var mid := WalkAll(rt, roots, log, indices, parent, boolean);
    Accounted(rt, roots, mid, r, b);
    var s, now := Story(rt, roots, mid, r, b), Walk(rt, roots, mid, r, b);
    ReceiverDue(rt, roots, mid.track, s, now, e, r, b, boolean);
    StepTracks(roots, now.track, e);
    AccessUnfolds(rt, roots, log, p, boolean);
    var first, last := StoryAll(rt, roots, log, indices, parent, boolean), s + LeaveStory(rt, roots, now, e, boolean);
    StoryConcat(roots, first, last);
    ReportsConcat(rt, roots, AllLookups(indices, parent, boolean), ReceiverLookups(r, b));
    InTurn(Due(roots, first), Due(roots, last), Own(roots, Pending(log.track, false)), Own(roots, Pending(mid.track, false)), [],
           Reports(rt, roots, AllLookups(indices, parent, boolean)), Reports(rt, roots, ReceiverLookups(r, b)));
    AccessAccounts(rt, roots, log.track, first + last, AccessStep(now.track, e), p, boolean);
  }

  /** The receiver of an access comes after its index. */
  lemma AccessUnfolds(rt: Runtime, roots: Roots, log: Log, p: Plan, boolean: bool)
    requires (p.node.Property? || p.node.Filter? || p.node.Index?) && p.inner != []
    ensures var e, parent := p.node, Some(p.node); var n := |p.inner| - 1;
      var indices, r := p.inner[..n], p.inner[n];
      var b := boolean || Asked(parent, r);
      var mid := WalkAll(rt, roots, log, indices, parent, boolean);
      var s, now := Story(rt, roots, mid, r, b), Walk(rt, roots, mid, r, b);
      && Walk(rt, roots, log, p, boolean) == Log(AccessStep(now.track, e), now.errs)
      && Story(rt, roots, log, p, boolean)
         == StoryAll(rt, roots, log, indices, parent, boolean) + (s + LeaveStory(rt, roots, now, e, boolean))
      && Along(p, boolean) == AllLookups(indices, parent, boolean) + ReceiverLookups(r, b)
  {
    hide LeaveStory, LeaveStep, Lookups, ReceiverLookups, IsSafeCall, IsToJson, AccessStep, Asked;
    AccessIsUnsafe(p.node);
    var n := |p.inner| - 1;
    var mid := WalkAll(rt, roots, log, p.inner[..n], Some(p.node), boolean);
    LeaveStepAccess(rt, roots, Walk(rt, roots, mid, p.inner[n], boolean || Asked(Some(p.node), p.inner[n])), p.node, boolean);
  }

  lemma AccessAccounts(rt: Runtime, roots: Roots, was: Track, s: seq<Entry>, now: Track, p: Plan, boolean: bool)
    requires IsAccess(p.node) && Tracks(roots, now, p.node)
    requires Due(roots, s) == Own(roots, Pending(was, false)) + Reports(rt, roots, Along(p, boolean))
    ensures Accounts(rt, roots, was, s, now, p, boolean)
  {
    AccessIsUnsafe(p.node);
  }

  lemma LeaveStepAccess(rt: Runtime, roots: Roots, now: Log, e: Expr, boolean: bool)
    requires e.Property? || e.Filter? || e.Index?
    ensures LeaveStep(rt, roots, now, e, boolean) == Log(AccessStep(now.track, e), now.errs)
  {
    hide AccessStep, IsToJson, Flush, Containers, Pending;
  }

  /** Leaving any other node ends the access being followed. */
  lemma LeaveOther(rt: Runtime, roots: Roots, log: Log, p: Plan, boolean: bool)
    requires !IsSafeCall(p.node) && !IsAccess(p.node) && (boolean || !IsToJson(p.node))
    requires AccountsAll(rt, roots, log.track, StoryAll(rt, roots, log, p.inner, Some(p.node), boolean),
                         WalkAll(rt, roots, log, p.inner, Some(p.node), boolean).track, AllLookups(p.inner, Some(p.node), boolean))
    ensures Rooted(Walk(rt, roots, log, p, boolean).track)
    ensures Accounts(rt, roots, log.track, Story(rt, roots, log, p, boolean),
                     Walk(rt, roots, log, p, boolean).track, p, boolean)
  {
    hide Pending, Own, Due, Reports, IsSafeCall, IsToJson, Containers, AsMade, StoryAll, WalkAll, AllLookups, Rooted;
    EmptyIsRooted();
    var now := WalkAll(rt, roots, log, p.inner, Some(p.node), boolean);
    var s := StoryAll(rt, roots, log, p.inner, Some(p.node), boolean);
    DueIsOwn(roots, Pending(now.track, false));
    StoryConcat(roots, s, AsMade(Pending(now.track, false)));
  }

  lemma EmptyIsRooted()
    ensures Rooted(EMPTY)
  {
  }

  lemma OneInner(rt: Runtime, roots: Roots, log: Log, p: Plan, boolean: bool)
    requires |p.inner| == 1
    ensures var q, parent := p.inner[0], Some(p.node); var b := boolean || Asked(parent, q);
      && WalkAll(rt, roots, log, p.inner, parent, boolean) == Walk(rt, roots, log, q, b)
      && StoryAll(rt, roots, log, p.inner, parent, boolean) == Story(rt, roots, log, q, b)
      && AllLookups(p.inner, parent, boolean) == Lookups(q, b)
  {
    hide Walk, Story, Lookups, Asked;
    assert p.inner[..0] == [];
  }

  lemma ToJsonStep(rt: Runtime, roots: Roots, now: Log, e: Expr)
    requires IsToJson(e)
    ensures LeaveStep(rt, roots, now, e, false) == Log(EMPTY, LeaveStep(rt, roots, now, e, false).errs)
    ensures LeaveStory(rt, roots, now, e, false) ==
      if IsAccess(e.args[0]) then AsMade(Pending(now.track, true))
      else AsMade(Containers(rt, roots, e.args[0]) + Pending(now.track, false))
  {
    hide Pending, Containers, AsMade;
  }

  /** Leaving a call of toJSON whose result is used. */
  lemma {:induction false} LeaveToJson(rt: Runtime, roots: Roots, log: Log, p: Plan)
    requires IsToJson(p.node) && !IsSafeCall(p.node) && Shaped(p) && Rooted(log.track)
    ensures Rooted(Walk(rt, roots, log, p, false).track)
    ensures Accounts(rt, roots, log.track, Story(rt, roots, log, p, false), Walk(rt, roots, log, p, false).track, p, false)
    decreases p, 0
  {
    hide Pending, Own, Due, Reports, IsSafeCall, IsToJson, Shaped, Containers, AsMade, StoryAll, WalkAll, AllLookups, Lookups, Along,
      LeaveStep, LeaveStory, Rooted, Tracks, Asked, Accounts, LookupReports;
    ToJsonShape(p);
    OneInner(rt, roots, log, p, false);
    var arg := p.inner[0];
    var b := Asked(Some(p.node), arg);
    Accounted(rt, roots, log, arg, b);
    var s, now := Story(rt, roots, log, arg, b), Walk(rt, roots, log, arg, b);
    ToJsonStep(rt, roots, now, p.node);
    ToJsonLookups(p);
    EmptyIsRooted();
    if IsAccess(arg.node) {
      SerializedDue(rt, roots, log.track, s, now.track, arg, b);
    } else {
      SelectedDue(rt, roots, log.track, s, now.track, arg, b);
    }
    OtherAccounts(rt, roots, log.track, s + LeaveStory(rt, roots, now, p.node, false), EMPTY, p, false);
  }

  lemma OtherAccounts(rt: Runtime, roots: Roots, was: Track, s: seq<Entry>, now: Track, p: Plan, boolean: bool)
    requires !IsAccess(p.node) && !IsSafeCall(p.node) && now == EMPTY
    requires Due(roots, s) == Own(roots, Pending(was, false)) + Reports(rt, roots, Lookups(p, boolean))
    ensures Accounts(rt, roots, was, s, now, p, boolean)
  {
  }

  lemma SerializedDue(rt: Runtime, roots: Roots, was: Track, s: seq<Entry>, now: Track, arg: Plan, b: bool)
    requires IsAccess(arg.node) && Accounts(rt, roots, was, s, now, arg, b)
    ensures Due(roots, s + AsMade(Pending(now, true)))
      == Own(roots, Pending(was, false)) + Reports(rt, roots, Along(arg, b) + [Serialized(arg.node)])
  {
    hide Pending, Own, Due, Reports, Along, AsMade, LookupReports, Tracks, IsSafeCall;
    AccessIsUnsafe(arg.node);
    PendingIsRead(rt, roots, now, arg.node);
    DueIsOwn(roots, Pending(now, true));
    StoryConcat(roots, s, AsMade(Pending(now, true)));
    ReportsConcat(rt, roots, Along(arg, b), [Serialized(arg.node)]);
    ReportsOne(rt, roots, Serialized(arg.node));
  }

  /** After anything but an access, either nothing is pending or nothing was selected. */
  lemma SelectedDue(rt: Runtime, roots: Roots, was: Track, s: seq<Entry>, now: Track, arg: Plan, b: bool)
    requires !IsAccess(arg.node) && Accounts(rt, roots, was, s, now, arg, b)
    ensures Due(roots, s + AsMade(Containers(rt, roots, arg.node) + Pending(now, false)))
      == Own(roots, Pending(was, false)) + Reports(rt, roots, Lookups(arg, b) + [Selected(arg.node)])
  {
    hide Pending, Own, Due, Reports, Along, AsMade, LookupReports, IsSafeCall, Containers, Lookups, Genuine;
    var selected := Containers(rt, roots, arg.node);
    var all := selected + Pending(now, false);
    DueIsOwn(roots, all);
    StoryConcat(roots, s, AsMade(all));
    ContainersAreOwn(rt, roots, arg.node);
    OwnAll(roots, selected);
    ReportsConcat(rt, roots, Lookups(arg, b), [Selected(arg.node)]);
    ReportsOne(rt, roots, Selected(arg.node));
    SelectedReports(rt, roots, arg.node);
    if IsSafeCall(arg.node) {
      SafeSelectsNothing(rt, roots, arg.node);
      SafeLooksUpNothing(arg, b);
      ReportsNone(rt, roots);
      DueNone(roots);
      assert all == Pending(now, false);
    } else {
      NothingPending(EMPTY, false);
      assert all == selected;
    }
  }

  lemma SelectedReports(rt: Runtime, roots: Roots, arg: Expr)
    ensures LookupReports(rt, roots, Selected(arg)) == Containers(rt, roots, arg)
  {
  }

  lemma SafeSelectsNothing(rt: Runtime, roots: Roots, e: Expr)
    requires IsSafeCall(e)
    ensures Containers(rt, roots, e) == []
  {
  }

  // ----- when the reports are the due ones -----

  /** No due report was dropped, and no other was made. */
  predicate Clean(roots: Roots, s: seq<Entry>) {
    forall x | x in s :: x.Made? <==> Genuine(roots, x.report)
  }

  /** A clean story reports what is due. */
  lemma {:induction false} CleanReports(roots: Roots, s: seq<Entry>)
    requires Clean(roots, s)
    ensures Reported(s) == Due(roots, s)
  {
    hide Genuine;
    if s != [] {
      assert s[|s| - 1] in s;
      CleanReports(roots, s[..|s| - 1]);
    }
  }

  lemma {:induction false} DueIsGenuine(roots: Roots, s: seq<Entry>)
    ensures forall r | r in Due(roots, s) :: Genuine(roots, r)
  {
    hide Genuine;
    if s != [] { DueIsGenuine(roots, s[..|s| - 1]); }
  }

  lemma {:induction false} MadeIsReported(s: seq<Entry>, x: Entry)
    requires x in s && x.Made?
    ensures x.report in Reported(s)
  {
    if x != s[|s| - 1] { MadeIsReported(s[..|s| - 1], x); }
  }

  /** When only due reports are made, as many are missing as were dropped. */
  lemma {:induction false} FewerReported(roots: Roots, s: seq<Entry>)
    requires forall x | x in s && x.Made? :: Genuine(roots, x.report)
    ensures |Reported(s)| <= |Due(roots, s)|
    ensures (exists x :: x in s && x.Dropped? && Genuine(roots, x.report)) ==> |Reported(s)| < |Due(roots, s)|
  {
    hide Genuine;
    if s != [] {
      var before, last := s[..|s| - 1], s[|s| - 1];
      assert last in s && forall x | x in before :: x in s;
      FewerReported(roots, before);
      forall x | x in s && x.Dropped? && Genuine(roots, x.report) ensures |Reported(s)| < |Due(roots, s)| {
        if x != last { assert x in before; }
      }
    }
  }

  lemma CleanExactly(roots: Roots, s: seq<Entry>)
    ensures Reported(s) == Due(roots, s) <==> Clean(roots, s)
  {
    hide Genuine, Reported, Due;
    if Clean(roots, s) {
      CleanReports(roots, s);
    } else if Reported(s) == Due(roots, s) {
      DueIsGenuine(roots, s);
      forall x | x in s && x.Made? ensures Genuine(roots, x.report) { MadeIsReported(s, x); }
      FewerReported(roots, s);
      assert false;
    }
  }

  /** Every due report of a visit is told of, in order. */
  lemma StoryIsDue(rt: Runtime, roots: Roots, ps: seq<Plan>)
    requires forall p | p in ps :: Shaped(p)
    ensures Due(roots, WholeStory(rt, roots, ps)) == Reports(rt, roots, AllLookups(ps, None, false))
  {
    hide WalkAll, StoryAll, Pending, Own, Due, Reports, AllLookups, Shaped;
    var log := Log(EMPTY, []);
    EmptyIsRooted();
    AllAccounted(rt, roots, log, ps, None, false);
    var rs := Pending(WalkAll(rt, roots, log, ps, None, false).track, false);
    DueIsOwn(roots, rs);
    StoryConcat(roots, StoryAll(rt, roots, log, ps, None, false), AsMade(rs));
    NothingPending(EMPTY, false);
    OwnOne(roots, []);
  }

  /** The checker reports what there is to look up exactly when it drops no due report and makes no other. */
  lemma FindingsExactly(rt: Runtime, roots: Roots, ps: seq<Plan>)
    requires forall p | p in ps :: Shaped(p)
    ensures Findings(rt, roots, ps) == Reports(rt, roots, AllLookups(ps, None, false)) <==> Clean(roots, WholeStory(rt, roots, ps))
  {
    hide Findings, WholeStory, Reported, Due, Reports, AllLookups, Clean, Shaped;
    FindingsAreMade(rt, roots, ps);
    StoryIsDue(rt, roots, ps);
    CleanExactly(roots, WholeStory(rt, roots, ps));
  }
}
