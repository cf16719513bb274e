/** What the expression checker reports when it drives the untrusted-input checker (internal/expression/expr_sema.go). */
module UntrustedReach {
  import opened Text
  import opened Syntax
  import opened Semantics
  import opened References
  import opened EventTypes
  import opened EventGuards
  import opened UntrustedInputs
  import opened UntrustedMatches
  import opened UntrustedChecker
  import opened UntrustedWalks
  import opened UntrustedStories
  import opened UntrustedDisturbance
  import opened UntrustedTargets
  import opened UntrustedVisits
  import opened GuardCheck
  import opened GuardReach
  import Parsing
  import AcceptedTexts

  // ----- the checks visit accesses and serializations whole -----

  /** The checks are at the path or below it. */
  predicate Fits(ps: seq<Plan>, path: seq<nat>) {
    forall p | p in ps :: Shaped(p) && path <= p.path
  }

  predicate FitsBelow(ps: seq<Plan>, path: seq<nat>) {
    forall p | p in ps :: Shaped(p) && path < p.path
  }

  /** The names are spelled as the lexer spells them, and toJSON is a known function, as it is for every checker. */
  predicate Proper(c: Config, e: Expr) {
    PlainNames(e) && "tojson" in c.functions
  }

  /** What is required of an expression holds of every one that was parsed. */
  lemma ParsedIsProper(c: Config, src: string)
    requires Parsing.ParseSource(src).Tree? && "tojson" in c.functions
    ensures Proper(c, Parsing.ParseSource(src).node)
  {
    hide Parsing.ParseSource, PlainNames;
    AcceptedTexts.ParsedNames(src);
  }

  lemma ProperChildren(c: Config, e: Expr)
    requires Proper(c, e)
    ensures forall x | x in Children(e) :: Proper(c, x)
  {
  }

  lemma ToJsonIsKnown(c: Config, e: Expr)
    requires Proper(c, e) && IsToJson(e)
    ensures Lower(e.callee) in c.functions && !IsCase(e.callee)
  {
    hide Lower;
    assert forall i | 0 <= i < |e.callee| :: e.callee[i] in e.callee;
    FoldedName(e.callee);
  }

  lemma FoldedName(f: string)
    requires EqualFold(f, "toJSON") && forall i | 0 <= i < |f| :: IsNameChar(f[i])
    ensures Lower(f) == "tojson"
  {
    hide Lower, LowerChar, FoldChar, IsNameChar;
    var a, b := "toJSON", "tojson";
    assert |a| == |b| == |f| == 6;
    forall i | 0 <= i < 6 ensures Lower(f)[i] == b[i] {
      assert FoldChar(f[i]) == FoldChar(a[i]);
      FoldIsLower(f[i]);
      assert FoldChar(a[i]) == b[i] by { FoldedLetters(i); }
    }
  }

  lemma FoldIsLower(c: char)
    requires IsNameChar(c)
    ensures FoldChar(c) == LowerChar(c)
  {
  }

  lemma FoldedLetters(i: nat)
    requires i < 6
    ensures FoldChar("toJSON"[i]) == "tojson"[i]
  {
  }

  lemma {:induction false} CheckFits(c: Config, e: Expr, vs: seq<EventVariant>, path: seq<nat>, place: nat)
    requires Proper(c, e)
    ensures Fits(Check(c, e, vs, path, place), path)
    decreases e, 3
  {
    hide Shaped, Proper, Below;
    BelowFits(c, e, vs, path);
    var p := Plan(e, place, path, vs, Below(c, e, vs, path));
    CheckShaped(c, e, vs, path, place);
  }

  lemma CheckShaped(c: Config, e: Expr, vs: seq<EventVariant>, path: seq<nat>, place: nat)
    requires Proper(c, e) && FitsBelow(Below(c, e, vs, path), path)
    ensures Shaped(Plan(e, place, path, vs, Below(c, e, vs, path)))
  {
    hide Proper, CheckCase, CheckLogical, IsToJson;
    if IsToJson(e) {
      ToJsonIsKnown(c, e);
      ToJsonChild(e);
      assert e.args[1..] == [];
      assert CheckAll(c, e.args, vs, path, 0) == Check(c, e.args[0], vs, path + [0], 0);
    }
  }

  lemma {:induction false} BelowFits(c: Config, e: Expr, vs: seq<EventVariant>, path: seq<nat>)
    requires Proper(c, e)
    ensures FitsBelow(Below(c, e, vs, path), path)
    decreases e, 2
  {
    hide Shaped, Proper, Check, CheckLogical, CheckCase, CheckAll, Lower;
    ProperChildren(c, e);
    match e
    case Property(_, r, _) => assert r in Children(e); CheckFits(c, r, vs, path + [0], 0);
    case Filter(_, r) => assert r in Children(e); CheckFits(c, r, vs, path + [0], 0);
    case Index(_, o, i) =>
      assert o in Children(e) && i in Children(e);
      CheckFits(c, i, vs, path + [1], 1);
      CheckFits(c, o, vs, path + [0], 0);
    case Not(_, o) => assert o in Children(e); CheckFits(c, o, vs, path + [0], 0);
    case Compare(_, _, l, r) =>
      assert l in Children(e) && r in Children(e);
      CheckFits(c, l, vs, path + [0], 0);
      CheckFits(c, r, vs, path + [1], 1);
    case Logic(_, _, _, _) => LogicalFits(c, e, vs, path, 0);
    case Call(_, f, args) =>
      CaseFits(c, args, vs, path, 0);
      AllFits(c, args, vs, path, 0);
    case _ =>
  }

  lemma {:induction false} RightFits(c: Config, e: Expr, vs: seq<EventVariant>, path: seq<nat>)
    requires e.Logic? && Proper(c, e)
    ensures FitsBelow(CheckRight(c, e, vs, path), path)
    decreases e, 0
  {
    hide Shaped, Proper, Check, Guarded;
    ProperChildren(c, e);
    assert e.right in Children(e);
    var g := Guarded(c.rt, e.left, e.kind == And, vs);
    if g.Some? { CheckFits(c, e.right, g.value, path + [1], 1); }
  }

  lemma {:induction false} LogicalFits(c: Config, e: Expr, vs: seq<EventVariant>, path: seq<nat>, place: nat)
    requires e.Logic? && Proper(c, e)
    ensures FitsBelow(CheckLogical(c, e, vs, path, place), path)
    decreases e, 1
  {
    hide Shaped, Proper, CheckNarrowing, CheckRight;
    ProperChildren(c, e);
    assert e.left in Children(e);
    NarrowingFits(c, e.left, e.kind == Or, vs, path + [0], place);
    RightFits(c, e, vs, path);
  }

  lemma {:induction false} NarrowingFits(c: Config, e: Expr, truthy: bool, vs: seq<EventVariant>, path: seq<nat>, place: nat)
    requires Proper(c, e)
    ensures Fits(CheckNarrowing(c, e, truthy, vs, path, place), path)
    decreases e, 4
  {
    hide Shaped, Proper, Check, CheckLogical, CheckRight;
    ProperChildren(c, e);
    match e
    case Logic(_, _, l, _) =>
      assert l in Children(e);
      CheckFits(c, l, vs, path + [0], 1);
      RightFits(c, e, vs, path);
      LogicalFits(c, e, vs, path, 1);
    case Not(_, o) => assert o in Children(e); NarrowingFits(c, o, !truthy, vs, path + [0], 1);
    case _ => CheckFits(c, e, vs, path, place);
  }

  lemma {:induction false} AllFits(c: Config, args: seq<Expr>, vs: seq<EventVariant>, path: seq<nat>, k: nat)
    requires forall a | a in args :: Proper(c, a)
    ensures FitsBelow(CheckAll(c, args, vs, path, k), path)
    decreases args
  {
    hide Shaped, Proper, Check;
    if args != [] {
      CheckFits(c, args[0], vs, path + [k], k);
      AllFits(c, args[1..], vs, path, k + 1);
    }
  }

  lemma {:induction false} CaseFits(c: Config, args: seq<Expr>, vs: seq<EventVariant>, path: seq<nat>, k: nat)
    requires forall a | a in args :: Proper(c, a)
    ensures FitsBelow(CheckCase(c, args, vs, path, k), path)
    decreases args, 1
  {
    hide Shaped, Proper, Check, Guarded;
    if args != [] {
      CheckFits(c, args[0], vs, path + [k], k);
      if |args| > 1 {
        var chosen, others := Guarded(c.rt, args[0], true, vs), Guarded(c.rt, args[0], false, vs);
        if chosen.Some? { CheckFits(c, args[1], chosen.value, path + [k + 1], k + 1); }
        if others.Some? { CaseFits(c, args[2..], others.value, path, k + 2); }
      }
    }
  }

  // ----- what is reported -----

  /** Checking an expression reports what its checks look up, unless safe calls are selected from. */
  method CheckExpression(c: Config, roots: Roots, vs: seq<EventVariant>, e: Expr) returns (errs: seq<Report>)
    ensures errs == Findings(c.rt, roots, Check(c, e, vs, [], 0))
    ensures Proper(c, e) ==>
      (errs == Reports(c.rt, roots, AllLookups(Check(c, e, vs, [], 0), None, false))
       <==> Clean(roots, WholeStory(c.rt, roots, Check(c, e, vs, [], 0))))
  {
    hide WalkAll, Shaped, Clean, WholeStory, Reports, AllLookups, Check, Proper;
    var u := new UntrustedInputChecker(c.rt, roots);
    var checker := new Checker(c, u, vs);
    checker.CheckNode(e, [], 0);
    u.OnVisitEnd();
    if Proper(c, e) {
      CheckFits(c, e, vs, [], 0);
      FindingsExactly(c.rt, roots, Check(c, e, vs, [], 0));
    }
    return u.errs;
  }

  /** A maximal access that some run of a possible event evaluates is looked up. */
  lemma ReachedIsLookedUp(c: Config, e: Expr, env: Env, vs: seq<EventVariant>, t: Target)
    requires Proper(c, e) && Situation(c, e, env, vs, t) && t.maximal && IsAccess(t.node)
    ensures Found(AllLookups(Check(c, e, vs, [], 0), None, false), t.node)
  {
    hide SeenAt, Shaped, Lookups, Proper, Situation, Below, Asked;
    ReachedIsChecked(c, e, env, vs, t, [], 0);
    CheckFits(c, e, vs, [], 0);
    assert [] + t.path == t.path;
    var ps := Check(c, e, vs, [], 0);
    var k := SeenIn(ps, t);
    MaximalIsFound(ps[k], Asked(None, ps[k]), t);
    AllFound(ps, None, false, k, t.node);
  }

  lemma {:induction false} ReportsHave(rt: Runtime, roots: Roots, ls: seq<Lookup>, l: Lookup)
    requires l in ls
    ensures forall r | r in LookupReports(rt, roots, l) :: r in Reports(rt, roots, ls)
  {
    hide LookupReports;
    if l != ls[|ls| - 1] { ReportsHave(rt, roots, ls[..|ls| - 1], l); }
  }

  /** An untrusted input that a maximal access reads in some run of a possible event is reported at that access. */
  lemma ReachedIsReported(c: Config, roots: Roots, e: Expr, env: Env, vs: seq<EventVariant>, t: Target, input: seq<string>)
    returns (r: Report)
    requires Proper(c, e) && Situation(c, e, env, vs, t) && t.maximal && IsAccess(t.node)
    requires Finds(roots, t.node, false, input)
    requires AllDisturbed(Check(c, e, vs, [], 0), None).None?
    ensures r in Findings(c.rt, roots, Check(c, e, vs, [], 0)) && r.start == t.node && input in r.inputs
  {
    hide Shaped, Proper, Situation, Check, Findings, AllLookups, AllDisturbed, Followed, Reports, Finds, LookupReports;
    var ls := AllLookups(Check(c, e, vs, [], 0), None, false);
    ReachedIsLookedUp(c, e, env, vs, t);
    CheckFits(c, e, vs, [], 0);
    NeverDisturbed(c.rt, roots, Check(c, e, vs, [], 0));
    var serialized := Read(t.node) !in ls;
    FindsMore(roots, t.node, serialized, input);
    r := ReportOf(c.rt, roots, t.node, serialized, input);
    ReportsHave(c.rt, roots, ls, if serialized then Serialized(t.node) else Read(t.node));
  }

  // ----- where selecting from a safe call misleads -----

  /** A variable, and properties of it. */
  predicate Chain(e: Expr)
    decreases e
  {
    e.Variable? || (e.Property? && Chain(e.receiver))
  }

  lemma VariableBelow(c: Config, e: Expr, vs: seq<EventVariant>, path: seq<nat>)
    requires e.Variable?
    ensures Below(c, e, vs, path) == []
  {
  }

  lemma PropertyBelow(c: Config, e: Expr, vs: seq<EventVariant>, path: seq<nat>)
    requires e.Property?
    ensures Below(c, e, vs, path) == [Plan(e.receiver, 0, path + [0], vs, Below(c, e.receiver, vs, path + [0]))]
  {
  }

  lemma {:induction false} ChainWalk(c: Config, roots: Roots, log: Log, e: Expr, vs: seq<EventVariant>, path: seq<nat>, place: nat, b: bool)
    requires Chain(e)
    ensures Followed(roots, e).Some?
    ensures Walk(c.rt, roots, log, Plan(e, place, path, vs, Below(c, e, vs, path)), b) == Log(Followed(roots, e).value, Flush(log))
    ensures Lookups(Plan(e, place, path, vs, Below(c, e, vs, path)), b) == [Read(e)]
    decreases e
  {
    hide Below, AccessStep, Flush, VarTrack, Asked, IsSafeCall, IsToJson, Containers, Pending;
    var p := Plan(e, place, path, vs, Below(c, e, vs, path));
    AccessIsUnsafe(e);
    AccessLooksUp(p, b);
    if e.Variable? {
      VariableBelow(c, e, vs, path);
      assert Along(p, b) == [] && WalkAll(c.rt, roots, log, [], Some(e), b) == log;
    } else {
      PropertyBelow(c, e, vs, path);
      var r := Plan(e.receiver, 0, path + [0], vs, Below(c, e.receiver, vs, path + [0]));
      assert p.inner == [r] && p.inner[..0] == [];
      ChainWalk(c, roots, log, e.receiver, vs, path + [0], 0, b || Asked(Some(e), r));
      AccessUnfolds(c.rt, roots, log, p, b);
      AccessLooksUp(r, b || Asked(Some(e), r));
      assert Along(r, b || Asked(Some(e), r)) == [];
    }
  }

  const ISSUE := Property(NO_SPAN, Property(NO_SPAN, GITHUB_CONTEXT, "event"), "issue")
  const CONTAINS := Call(NO_SPAN, "contains", [StrLit(NO_SPAN, "a"), StrLit(NO_SPAN, "b")])
  const TITLE := Property(NO_SPAN, CONTAINS, "title")
  const FORMAT := Call(NO_SPAN, "format", [StrLit(NO_SPAN, "{0}{1}"), ISSUE, TITLE])

  lemma Names()
    ensures Lower("github") == "github" && Lower("event") == "event" && Lower("issue") == "issue" && Lower("title") == "title"
    ensures Lower("contains") == "contains" && Lower("format") == "format"
  {
    hide Lower;
    AlreadyLower("github");
    AlreadyLower("event");
    AlreadyLower("issue");
    AlreadyLower("title");
    AlreadyLower("contains");
    AlreadyLower("format");
  }

  lemma CallNames()
    ensures IsSafeCall(CONTAINS) && !IsSafeCall(FORMAT) && !IsToJson(FORMAT) && !IsCase(FORMAT.callee)
  {
    hide Lower;
    Names();
    assert "format"[0] != "contains"[0] && "format"[0] != "startswith"[0] && "format"[0] != "endswith"[0] && "format"[0] != "case"[0];
    assert FoldChar("format"[0]) != FoldChar("toJSON"[0]);
  }

  /** The search tree has the title of an issue as an untrusted input. */
  predicate HasTitle(roots: Roots) {
    && "github" in roots && "event" in roots["github"].children
    && var event := roots["github"].children["event"];
    && "issue" in event.children && "title" in event.children["issue"].children
    && event.children["issue"].children["title"].children == map[]
  }

  function IssueCursor(roots: Roots): Cursor
    requires HasTitle(roots)
  {
    Cursor(["github", "event", "issue"], roots["github"].children["event"].children["issue"])
  }

  lemma PropOne(t: Track, e: Expr, c: Cursor, d: Cursor)
    requires e.Property? && t.cur == {c} && t.start.Some? && c.ObjectProp(e.Name()) == Some(d)
    ensures AccessStep(t, e) == Track({d}, t.filtering, Some(e))
  {
    hide Lower;
  }

  lemma IssueFollowed(roots: Roots)
    requires HasTitle(roots)
    ensures Followed(roots, ISSUE) == Some(Track({IssueCursor(roots)}, false, Some(ISSUE)))
  {
    hide Lower;
    Names();
    var github, event := ISSUE.receiver.receiver, ISSUE.receiver;
    var c1 := Cursor(["github"], roots["github"]);
    var c2 := Cursor(["github", "event"], roots["github"].children["event"]);
    assert ["github"] + ["event"] == ["github", "event"];
    assert ["github", "event"] + ["issue"] == ["github", "event", "issue"];
    assert VarTrack(roots, github) == Track({c1}, false, Some(github));
    PropOne(VarTrack(roots, github), event, c1, c2);
    PropOne(Track({c2}, false, Some(event)), ISSUE, c2, IssueCursor(roots));
  }

  /** The title selected from the safe call is taken to be that of the issue. */
  lemma TitleStep(roots: Roots)
    requires HasTitle(roots)
    ensures var t := AccessStep(Track({IssueCursor(roots)}, false, Some(ISSUE)), TITLE);
      && Pending(t, false) == [Report(TITLE, {["github", "event", "issue", "title"]})]
      && Pending(Track({IssueCursor(roots)}, false, Some(ISSUE)), false) == []
  {
    hide Lower;
    Names();
    var c, path := IssueCursor(roots), ["github", "event", "issue", "title"];
    var d := Cursor(path, c.node.children["title"]);
    assert ["github", "event", "issue"] + ["title"] == path;
    PropOne(Track({c}, false, Some(ISSUE)), TITLE, c, d);
    assert Inputs(Track({d}, false, Some(TITLE)), true, false) == {path};
    assert Inputs(Track({c}, false, Some(ISSUE)), true, false) == {};
  }

  lemma {:induction false} ChainQuiet(c: Config, e: Expr, vs: seq<EventVariant>, path: seq<nat>, place: nat, pending: Option<Expr>)
    requires Chain(e)
    ensures var p := Plan(e, place, path, vs, Below(c, e, vs, path)); Disturbed(p, pending) == None && After(p, pending) == Some(e)
    decreases e
  {
    hide IsSafeCall, Below;
    AccessIsUnsafe(e);
    var p := Plan(e, place, path, vs, Below(c, e, vs, path));
    assert AllDisturbed([], pending) == None && AfterAll([], pending) == pending;
    if e.Variable? {
      VariableBelow(c, e, vs, path);
    } else {
      PropertyBelow(c, e, vs, path);
      ChainQuiet(c, e.receiver, vs, path + [0], 0, pending);
      var r := Plan(e.receiver, 0, path + [0], vs, Below(c, e.receiver, vs, path + [0]));
      AccessIsUnsafe(e.receiver);
      assert p.inner == [r] && [r][..0] == [];
      assert AllDisturbed([r], pending) == None;
    }
  }

  lemma SafeSelected(rt: Runtime, roots: Roots, log: Log, e: Expr, p: Plan, r: Plan, b: bool, pending: Option<Expr>)
    requires e.Property? && p.node == e && p.inner == [r] && r.node == e.receiver && IsSafeCall(r.node)
    ensures Walk(rt, roots, log, p, b) == Log(AccessStep(log.track, e), log.errs)
    ensures Lookups(p, b) == [Read(e)]
    ensures Disturbed(p, pending) == pending
  {
    hide AccessStep, Asked, IsSafeCall, IsToJson, LeaveStep;
    AccessIsUnsafe(e);
    assert [r][..0] == [];
    AccessUnfolds(rt, roots, log, p, b);
    AccessLooksUp(p, b);
    SafeLooksUpNothing(r, b || Asked(Some(e), r));
    assert AfterAll([], pending) == pending && AllDisturbed([], pending) == None;
    assert AfterAll([r], pending) == pending && AllDisturbed([r], pending) == None;
  }

  lemma LiteralWalk(rt: Runtime, roots: Roots, p: Plan, b: bool, pending: Option<Expr>)
    requires p.node.StrLit? && p.inner == []
    ensures Walk(rt, roots, Log(EMPTY, []), p, b) == Log(EMPTY, [])
    ensures Lookups(p, b) == [] && Disturbed(p, pending) == None && After(p, pending) == None
  {
    NothingPending(EMPTY, false);
  }

  lemma InOrder(rt: Runtime, roots: Roots, log: Log, p: Plan, q: Plan, r: Plan, parent: Option<Expr>, b: bool)
    ensures WalkAll(rt, roots, log, [p, q, r], parent, b) ==
      Walk(rt, roots, Walk(rt, roots, Walk(rt, roots, log, p, b || Asked(parent, p)), q, b || Asked(parent, q)), r, b || Asked(parent, r))
    ensures AllLookups([p, q, r], parent, b) ==
      Lookups(p, b || Asked(parent, p)) + Lookups(q, b || Asked(parent, q)) + Lookups(r, b || Asked(parent, r))
    ensures AllDisturbed([p, q, r], None) ==
      var a, d := Disturbed(p, None), Disturbed(q, After(p, None));
      if a.Some? then a else if d.Some? then d else Disturbed(r, After(q, After(p, None)))
  {
    hide Walk, Lookups, Disturbed, After, Asked;
    assert [p, q, r][..2] == [p, q] && [p, q][..1] == [p] && [p][..0] == [];
    assert WalkAll(rt, roots, log, [p], parent, b) == Walk(rt, roots, log, p, b || Asked(parent, p));
    assert WalkAll(rt, roots, log, [p, q], parent, b)
      == Walk(rt, roots, WalkAll(rt, roots, log, [p], parent, b), q, b || Asked(parent, q));
    assert AllLookups([p], parent, b) == Lookups(p, b || Asked(parent, p));
    assert AllLookups([p, q], parent, b) == AllLookups([p], parent, b) + Lookups(q, b || Asked(parent, q));
    assert AfterAll([], None) == None && AllDisturbed([], None) == None;
    assert AllDisturbed([p], None) == Disturbed(p, None) && AfterAll([p], None) == After(p, None);
    assert AfterAll([p, q], None) == After(q, After(p, None));
    assert AllDisturbed([p, q], None) == if Disturbed(p, None).Some? then Disturbed(p, None) else Disturbed(q, After(p, None));
  }

  lemma NothingRead(rt: Runtime, roots: Roots)
    requires HasTitle(roots)
    ensures Reports(rt, roots, [Read(ISSUE), Read(TITLE)]) == []
  {
    hide Lower, Pending, IsSafeCall;
    IssueFollowed(roots);
    TitleStep(roots);
    assert LookupReports(rt, roots, Read(ISSUE)) == [];
    assert LookupReports(rt, roots, Read(TITLE)) == [] by { assert Followed(roots, CONTAINS) == None; }
    ReportsOne(rt, roots, Read(ISSUE));
    ReportsOne(rt, roots, Read(TITLE));
    ReportsConcat(rt, roots, [Read(ISSUE)], [Read(TITLE)]);
  }

  lemma FormatChecks(c: Config, vs: seq<EventVariant>)
    requires "format" in c.functions
    ensures Below(c, FORMAT, vs, []) ==
      [Plan(FORMAT.args[0], 0, [0], vs, []), Plan(ISSUE, 1, [1], vs, Below(c, ISSUE, vs, [1])),
       Plan(TITLE, 2, [2], vs, Below(c, TITLE, vs, [2]))]
  {
    hide Lower, IsSafeCall, IsToJson, IsCase;
    Names();
    CallNames();
    var args := FORMAT.args;
    assert args[1..] == [ISSUE, TITLE] && args[1..][1..] == [TITLE] && [TITLE][1..] == [];
    assert [] + [0] == [0] && [] + [1] == [1] && [] + [2] == [2];
    assert CheckAll(c, [TITLE], vs, [], 2) == Check(c, TITLE, vs, [2], 2) + [];
    assert CheckAll(c, [ISSUE, TITLE], vs, [], 1) == Check(c, ISSUE, vs, [1], 1) + CheckAll(c, [TITLE], vs, [], 2);
    assert Below(c, args[0], vs, [0]) == [];
    assert CheckAll(c, args, vs, [], 0) == Check(c, args[0], vs, [0], 0) + CheckAll(c, [ISSUE, TITLE], vs, [], 1);
    assert Below(c, FORMAT, vs, []) == CheckAll(c, args, vs, [], 0);
  }

  /** For format('{0}{1}', github.event.issue, contains('a', 'b').title) the title of the issue is reported, and nothing reads it. */
  lemma SafeReceiverMisleads(c: Config, roots: Roots, vs: seq<EventVariant>)
    requires "format" in c.functions && HasTitle(roots)
    ensures Findings(c.rt, roots, Check(c, FORMAT, vs, [], 0)) == [Report(TITLE, {["github", "event", "issue", "title"]})]
    ensures Reports(c.rt, roots, AllLookups(Check(c, FORMAT, vs, [], 0), None, false)) == []
    ensures AllDisturbed(Check(c, FORMAT, vs, [], 0), None) == Some(ISSUE)
  {
    hide Below, Lookups, Asked, Walk, WalkAll, Disturbed, AllDisturbed, IsSafeCall, IsToJson, AccessStep, Followed, Pending, LeaveStep,
      AllLookups, IsCase, Reports, Flush, Findings;
    var p := Plan(FORMAT, 0, [], vs, Below(c, FORMAT, vs, []));
    FormatChecks(c, vs);
    CallNames();
    var p0, p1, p2 := p.inner[0], p.inner[1], p.inner[2];
    var parent, start, b := Some(FORMAT), Log(EMPTY, []), Asked(None, p);
    InOrder(c.rt, roots, start, p0, p1, p2, parent, b);
    LiteralWalk(c.rt, roots, p0, b || Asked(parent, p0), None);
    ChainWalk(c, roots, start, ISSUE, vs, [1], 1, b || Asked(parent, p1));
    ChainQuiet(c, ISSUE, vs, [1], 1, None);
    NothingPending(EMPTY, false);
    IssueFollowed(roots);
    var log := Log(Track({IssueCursor(roots)}, false, Some(ISSUE)), []);
    FlushOf(start);
    TitleBelow(c, vs);
    SafeSelected(c.rt, roots, log, TITLE, p2, p2.inner[0], b || Asked(parent, p2), Some(ISSUE));
    TitleStep(roots);
    NothingRead(c.rt, roots);
    AtTop(c.rt, roots, p);
    var moved := Log(AccessStep(log.track, TITLE), []);
    assert WalkAll(c.rt, roots, start, p.inner, parent, b) == moved;
    FormatLeaves(c.rt, roots, moved, b);
    FlushOf(moved);
    FlushOf(Log(EMPTY, Flush(moved)));
    assert AllLookups(p.inner, parent, b) == [Read(ISSUE), Read(TITLE)];
  }

  lemma FlushOf(log: Log)
    ensures Flush(log) == log.errs + Pending(log.track, false)
  {
  }

  lemma TitleBelow(c: Config, vs: seq<EventVariant>)
    ensures Below(c, TITLE, vs, [2]) == [Plan(CONTAINS, 0, [2, 0], vs, Below(c, CONTAINS, vs, [2, 0]))]
  {
    hide Lower;
    assert [2] + [0] == [2, 0];
  }

  lemma FormatLeaves(rt: Runtime, roots: Roots, log: Log, b: bool)
    ensures LeaveStep(rt, roots, log, FORMAT, b) == Log(EMPTY, Flush(log))
  {
    hide Flush, IsToJson, IsSafeCall, IsCase, AccessStep, Pending, Containers;
    CallNames();
  }

  /** The reports and lookups of an expression whose outermost node is neither an access nor a serialization. */
  lemma AtTop(rt: Runtime, roots: Roots, p: Plan)
    requires !IsSafeCall(p.node) && !IsAccess(p.node) && !IsToJson(p.node)
    ensures var b := Asked(None, p);
      && Findings(rt, roots, [p]) == Flush(LeaveStep(rt, roots, WalkAll(rt, roots, Log(EMPTY, []), p.inner, Some(p.node), b), p.node, b))
      && AllLookups([p], None, false) == AllLookups(p.inner, Some(p.node), b)
      && AllDisturbed([p], None) == AllDisturbed(p.inner, None)
  {
    hide IsSafeCall, IsToJson, Flush, LeaveStep, Asked;
    assert [p][..0] == [];
    assert WalkAll(rt, roots, Log(EMPTY, []), [p], None, false) == Walk(rt, roots, Log(EMPTY, []), p, Asked(None, p));
    OtherLooksUp(p, Asked(None, p));
  }
}
