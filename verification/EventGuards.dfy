/** Narrowing of the possible events along guards (internal/expression/event_variants.go, expr_sema.go). */
module EventGuards {
  import opened Text
  import opened Syntax
  import opened Semantics
  import opened ConstantFolding
  import opened References
  import opened EventTypes

  // ----- what a guard says about an event -----

  /** The activity type of an event: unknown, absent, or a name. */
  function EventAction(v: EventVariant): Option<Value> {
    if v.action != "" then Some(VStr(v.action))
    else if v.event == "" || !v.payload.ObjectT? || v.payload.mapped.Some? || "action" in v.payload.props then None
    else Some(VNull)
  }

  /** What a reference to the event holds, as far as the variant tells. */
  function VariantValue(reference: Expr, v: EventVariant): Option<Value> {
    var path := Lower(EventReference(reference));
    if path == "github.event_name" then (if v.event == "" then None else Some(VStr(v.event)))
    else if path == "github.event.action" then EventAction(v)
    else None
  }

  /** The truth of a guard in every run for the event, if it is known. */
  function EventGuardValue(rt: Runtime, e: Expr, v: EventVariant): Option<bool>
    decreases e
  {
    match e
    case Not(_, o) =>
      var b := EventGuardValue(rt, o, v);
      if b.None? then None else Some(!b.value)
    case Logic(_, k, l, r) =>
      var left := EventGuardValue(rt, l, v);
      var right := EventGuardValue(rt, r, v);
      if left == Some(k == Or) || right == Some(k == Or) then Some(k == Or)
      else if left.Some? && right.Some? then Some(k == And)
      else None
    case Compare(_, op, l, r) =>
      if op != Eq && op != Ne then None
      else
        var constantRight := ConditionConstantValue(rt, r);
        var constant := if constantRight.Some? then constantRight else ConditionConstantValue(rt, l);
        var reference := if constantRight.Some? then l else r;
        if constant.None? || !constant.value.VStr? then None
        else
          var value := VariantValue(reference, v);
          if value.None? then None else CompareConditionValues(rt, op, value.value, constant.value)
    case _ => None
  }

  // ----- runs for an event -----

  ghost predicate Holds(env: Env, path: seq<string>, v: Value) {
    forall e | AccessPath(e) == Some(path) && Eval(e, env).Some? :: Eval(e, env).value == v
  }

  /** The run is one that the event triggers. */
  ghost predicate Consistent(env: Env, v: EventVariant) {
    && (v.event != "" ==> Holds(env, ["github", "event_name"], VStr(v.event)))
    && (EventAction(v).Some? ==> Holds(env, ["github", "event", "action"], EventAction(v).value))
  }

  // ----- guards tell the truth -----

  /** Equality comparisons do not depend on the order of their operands. */
  lemma EqualitySymmetric(rt: Runtime, op: CompareOp, l: Value, r: Value)
    requires (op == Eq || op == Ne) && (!Composite(l) || !Composite(r))
    ensures CompareValues(rt, op, l, r) == CompareValues(rt, op, r, l)
  {
    if l.VStr? && r.VStr? {
      OrderIsLexical(Utf16(FoldKey(rt, l.s)), Utf16(FoldKey(rt, r.s)));
      OrderIsLexical(Utf16(FoldKey(rt, r.s)), Utf16(FoldKey(rt, l.s)));
    }
  }

  /** A key of the github context that reads like two components. */
  predicate IsDottedAction(e: Expr) {
    e.Index? && IsVariable(e.operand, "github") && e.index.StrLit? && Lower(e.index.str) == "event.action"
  }

  /** A key of the event that reads like its action, and is not equated with it when it is looked up. */
  predicate IsFoldedAction(e: Expr) {
    && e.Index? && AccessPath(e.operand) == Some(["github", "event"]) && e.index.StrLit?
    && Lower(e.index.str) == "action" && AsciiLower(e.index.str) != "action"
  }

  /** The accesses that read like the action of the event without being it. */
  predicate IsMisreadAction(e: Expr) {
    IsDottedAction(e) || IsFoldedAction(e)
  }

  /** Where the dots of the text are, and what stands between them. */
  lemma ActionText(k: nat)
    requires var text := "github.event.action"; k < |text| && text[k] == '.'
    ensures var text := "github.event.action";
      || (k == 6 && text[..k] == "github" && text[k + 1..] == "event.action")
      || (k == 12 && text[..k] == "github" + "." + "event" && text[k + 1..] == "action")
    ensures PlainComponent("github") && PlainComponent("event") && !NoDot("event.action")
    ensures forall i | 0 <= i < |"event"| :: "event"[i] != 'i' && "event"[i] != 'k'
  {
    var text := "github.event.action";
    assert k == 6 || k == 12;
    assert "event.action"[5] == '.';
    if k == 6 {
      assert text == "github" + "." + "event.action";
    } else {
      assert text == ("github" + "." + "event") + "." + "action";
    }
  }

  /** Before its last component, a reference to the action of the event reads as the event, unless it is the dotted key. */
  lemma ActionPrefix(e: Expr, base: Expr, name: string)
    requires PlainNames(base) && EventReference(e) == EventReference(base) + "." + name
    requires Lower(EventReference(e)) == "github.event.action"
    requires NoDot(name) || !(IsVariable(base, "github") && Lower(name) == "event.action")
    ensures AccessPath(base) == Some(["github", "event"]) && Lower(name) == "action"
  {
    hide Lower, PlainNames, PlainComponent, AccessPath, EventReference;
    var text, k := "github.event.action", |EventReference(base)|;
    SplitReference(e, base, name, text);
    ActionText(k);
    if k == 6 {
      WordIsVariable(base, "github");
      LowerKeepsDots(name);
    } else {
      DottedIsNoName(base, "github", "event");
      PairIsOrdinal(base, "github", "event");
    }
  }

  /** A reference that reads as the action of the event is an access to it exactly when it is not a misread access. */
  lemma ActionReference(e: Expr)
    requires PlainNames(e) && Lower(EventReference(e)) == "github.event.action"
    ensures AccessPath(e) == Some(["github", "event", "action"]) <==> !IsMisreadAction(e)
  {
    hide Lower, AsciiLower, PlainNames;
    PlainParts(e);
    assert !NoDot("github.event.action") by { assert "github.event.action"[6] == '.'; }
    match e
    case Variable(_, n) =>
      LowerKeepsDots(n);
    case Property(_, r, n) =>
      ActionPrefix(e, r, n);
      LastKey(Lower(n));
    case Filter(_, r) =>
      ActionPrefix(e, r, "*");
      LowerStar();
    case Index(_, o, i) =>
      if IsDottedAction(e) {
        assert AccessPath(o) == Some(["github"]);
        assert |["github"] + [AsciiLower(i.str)]| == 2;
      } else if i.StrLit? {
        ActionPrefix(e, o, i.str);
        LastKey(AsciiLower(i.str));
      } else {
        ComputedEnds(e);
      }
    case _ =>
  }

  lemma LastKey(key: string)
    ensures ["github", "event"] + [key] == ["github", "event", "action"] <==> key == "action"
  {
    assert (["github", "event"] + [key])[2] == key;
  }

  lemma EventNameReference(e: Expr)
    requires PlainNames(e) && Lower(EventReference(e)) == "github.event_name"
    ensures AccessPath(e) == Some(["github", "event_name"])
  {
    hide EventReference, Lower, AccessPath, PlainNames, PlainComponent;
    assert "github.event_name" == "github" + "." + "event_name";
    NameComponents();
    DottedIsNoName(e, "github", "event_name");
    PairIsOrdinal(e, "github", "event_name");
  }

  lemma NameComponents()
    ensures PlainComponent("github") && PlainComponent("event_name")
    ensures forall i | 0 <= i < |"event_name"| :: "event_name"[i] != 'i' && "event_name"[i] != 'k'
  {
  }

  /** A reference to the event has the value the variant tells. */
  lemma VariantValueSound(reference: Expr, v: EventVariant, env: Env)
    requires Consistent(env, v) && PlainNames(reference) && !IsMisreadAction(reference)
    requires VariantValue(reference, v).Some? && Eval(reference, env).Some?
    ensures Eval(reference, env) == VariantValue(reference, v)
  {
    hide EventReference, Lower, AccessPath, PlainNames, IsMisreadAction;
    if Lower(EventReference(reference)) == "github.event_name" {
      EventNameReference(reference);
    } else {
      ActionReference(reference);
    }
  }

  /** The reference that a comparison compares with a constant text, if the analysis reads it so. */
  function ComparedReference(rt: Runtime, e: Expr): Option<Expr>
    requires e.Compare?
  {
    var right := ConditionConstantValue(rt, e.right);
    var constant := if right.Some? then right else ConditionConstantValue(rt, e.left);
    if (e.op != Eq && e.op != Ne) || constant.None? || !constant.value.VStr? then None
    else Some(if right.Some? then e.left else e.right)
  }

  /** The comparison reads another access for the action. */
  predicate Misread(rt: Runtime, e: Expr) {
    e.Compare? && ComparedReference(rt, e).Some? && IsMisreadAction(ComparedReference(rt, e).value)
  }

  /** The truth of a guard when comparisons that misread are taken as unknown. */
  function TrustedGuardValue(rt: Runtime, e: Expr, v: EventVariant): Option<bool>
    decreases e
  {
    match e
    case Not(_, o) =>
      var b := TrustedGuardValue(rt, o, v);
      if b.None? then None else Some(!b.value)
    case Logic(_, k, l, r) =>
      var left := TrustedGuardValue(rt, l, v);
      var right := TrustedGuardValue(rt, r, v);
      if left == Some(k == Or) || right == Some(k == Or) then Some(k == Or)
      else if left.Some? && right.Some? then Some(k == And)
      else None
    case Compare(_, _, _, _) => if Misread(rt, e) then None else EventGuardValue(rt, e, v)
    case _ => None
  }

  /** The guard is undecided, or stays decided without the comparisons that misread. */
  predicate ReadsEvents(rt: Runtime, e: Expr, v: EventVariant) {
    EventGuardValue(rt, e, v).Some? ==> TrustedGuardValue(rt, e, v).Some?
  }

  /** In every run the event triggers, a guard that evaluates has the truth the analysis knows without misreading. */
  lemma {:induction false} GuardValueSound(e: Expr, v: EventVariant, env: Env)
    requires Consistent(env, v) && PlainNames(e) && TrustedGuardValue(env.rt, e, v).Some? && Eval(e, env).Some?
    ensures TrustedGuardValue(env.rt, e, v) == EventGuardValue(env.rt, e, v) == Some(Truthy(Eval(e, env).value))
    decreases e
  {
    hide Misread, Consistent;
    match e
    case Not(_, o) => assert o in Children(e); GuardValueSound(o, v, env);
    case Logic(_, k, l, r) =>
      assert l in Children(e) && r in Children(e);
      TrustedIsDecided(env.rt, e, v);
      if TrustedGuardValue(env.rt, l, v).Some? { GuardValueSound(l, v, env); }
      if TrustedGuardValue(env.rt, r, v).Some? && Eval(r, env).Some? { GuardValueSound(r, v, env); }
    case Compare(_, op, l, r) => CompareGuardSound(e, v, env);
  }

  /** What is known without misreading is what is decided. */
  lemma {:induction false} TrustedIsDecided(rt: Runtime, e: Expr, v: EventVariant)
    requires TrustedGuardValue(rt, e, v).Some?
    ensures EventGuardValue(rt, e, v) == TrustedGuardValue(rt, e, v)
    decreases e
  {
    hide Misread;
    match e
    case Not(_, o) => TrustedIsDecided(rt, o, v);
    case Logic(_, k, l, r) =>
      if TrustedGuardValue(rt, l, v).Some? { TrustedIsDecided(rt, l, v); }
      if TrustedGuardValue(rt, r, v).Some? { TrustedIsDecided(rt, r, v); }
    case _ =>
  }

  lemma CompareGuardSound(e: Expr, v: EventVariant, env: Env)
    requires e.Compare? && Consistent(env, v) && PlainNames(e) && !Misread(env.rt, e)
    requires EventGuardValue(env.rt, e, v).Some? && Eval(e, env).Some?
    ensures Truthy(Eval(e, env).value) == EventGuardValue(env.rt, e, v).value
  {
    hide VariantValue, IsMisreadAction, Consistent;
    var l, r := e.left, e.right;
    assert l in Children(e) && r in Children(e);
    FoldSound(l, env);
    FoldSound(r, env);
    var reference := if ConditionConstantValue(env.rt, r).Some? then l else r;
    VariantValueSound(reference, v, env);
    EqualitySymmetric(env.rt, e.op, Eval(l, env).value, Eval(r, env).value);
  }

  // ----- where keys mislead -----

  lemma {:induction false} Utf16Concat(a: string, b: string)
    ensures Utf16(a + b) == Utf16(a) + Utf16(b)
  {
    if a != "" {
      assert (a + b)[1..] == a[1..] + b;
      Utf16Concat(a[1..], b);
    } else {
      assert a + b == b;
    }
  }

  lemma {:induction false} FoldKeyConcat(rt: Runtime, a: string, b: string)
    ensures FoldKey(rt, a + b) == FoldKey(rt, a) + FoldKey(rt, b)
  {
    if a != "" {
      assert (a + b)[1..] == a[1..] + b;
      FoldKeyConcat(rt, a[1..], b);
    } else {
      assert a + b == b;
    }
  }

  /** Every text has one that is not equal to it. */
  lemma Longer(rt: Runtime, s: string)
    ensures !CompareValues(rt, Eq, VStr(s + "x"), VStr(s)) && CompareValues(rt, Eq, VStr(s), VStr(s))
  {
    FoldKeyConcat(rt, s, "x");
    Utf16Concat(FoldKey(rt, s), FoldKey(rt, "x"));
    assert |Utf16(FoldKey(rt, "x"))| > 0;
    OrderIsLexical(Utf16(FoldKey(rt, s + "x")), Utf16(FoldKey(rt, s)));
    OrderIsLexical(Utf16(FoldKey(rt, s)), Utf16(FoldKey(rt, s)));
  }

  const GITHUB := VObj(map["github" := VNull])
  const EVENT := VObj(map["event" := VNull])

  /** What the github context and the event hold in a run with the given event and action, and a value for all other members. */
  function Member(name: Value, action: Value, other: Value, base: Value, key: string): Value {
    if base == GITHUB && key == "event_name" then name
    else if base == GITHUB && key == "event" then EVENT
    else if base == EVENT && key == "action" then action
    else other
  }

  function RunOf(rt: Runtime, name: Value, action: Value, other: Value): Env {
    Env(rt, map["github" := GITHUB],
        (v: Value, n: string) => Member(name, action, other, v, n),
        (v: Value) => VNull,
        (v: Value, k: Value) => if k.VStr? then Member(name, action, other, v, AsciiLower(k.s)) else VNull,
        (f: string, vs: seq<Value>) => None)
  }

  function PathBase(e: Expr): Expr {
    if e.Property? then e.receiver else if e.Index? then e.operand else e
  }

  /** An access path of one component is the context; a longer one takes a member of what comes before. */
  lemma PathMember(e: Expr, path: seq<string>, rt: Runtime, name: Value, action: Value, other: Value)
    requires AccessPath(e) == Some(path)
    requires Eval(e, RunOf(rt, name, action, other)).Some?
    ensures path != []
    ensures |path| == 1 && path[0] == "github" ==> Eval(e, RunOf(rt, name, action, other)) == Some(GITHUB)
    ensures |path| > 1 ==>
      var base := PathBase(e);
      && AccessPath(base) == Some(path[..|path| - 1]) && Eval(base, RunOf(rt, name, action, other)).Some?
      && Eval(e, RunOf(rt, name, action, other)).value
         == Member(name, action, other, Eval(base, RunOf(rt, name, action, other)).value, path[|path| - 1])
  {
    hide Lower, AsciiLower, Member;
    if e.Property? {
      assert path == AccessPath(e.receiver).value + [Lower(e.spelling)];
    } else if e.Index? {
      assert path == AccessPath(e.operand).value + [AsciiLower(e.index.str)];
    }
  }

  lemma RunIsConsistent(rt: Runtime, v: EventVariant, other: Value)
    ensures var action := if EventAction(v).Some? then EventAction(v).value else VNull;
      Consistent(RunOf(rt, VStr(v.event), action, other), v)
  {
    hide AccessPath, Eval, RunOf, EventAction;
    var name := VStr(v.event);
    var action := if EventAction(v).Some? then EventAction(v).value else VNull;
    var env := RunOf(rt, name, action, other);
    forall e | AccessPath(e) == Some(["github", "event_name"]) && Eval(e, env).Some? ensures Eval(e, env).value == name {
      PathMember(e, ["github", "event_name"], rt, name, action, other);
      var base := PathBase(e);
      assert ["github", "event_name"][..1] == ["github"];
      PathMember(base, ["github"], rt, name, action, other);
    }
    forall e | AccessPath(e) == Some(["github", "event", "action"]) && Eval(e, env).Some? ensures Eval(e, env).value == action {
      PathMember(e, ["github", "event", "action"], rt, name, action, other);
      var base := PathBase(e);
      assert ["github", "event", "action"][..2] == ["github", "event"];
      PathMember(base, ["github", "event"], rt, name, action, other);
      var root := PathBase(base);
      assert ["github", "event"][..1] == ["github"];
      PathMember(root, ["github"], rt, name, action, other);
      MembersDiffer(name, action, other);
    }
  }

  lemma MembersDiffer(name: Value, action: Value, other: Value)
    ensures Member(name, action, other, GITHUB, "event") == EVENT
    ensures Member(name, action, other, EVENT, "action") == action
  {
    assert "github" in map["github" := VNull] && "github" !in map["event" := VNull];
  }

  /** A misread access holds in the run what was chosen for the other members. */
  lemma MisreadHolds(e: Expr, rt: Runtime, name: Value, action: Value, other: Value)
    requires IsMisreadAction(e)
    ensures Eval(e, RunOf(rt, name, action, other)) == Some(other)
  {
    hide AccessPath, Lower, AsciiLower, Eval, RunOf, IsVariable;
    if IsDottedAction(e) {
      GithubHolds(e.operand, rt, name, action, other);
      LongKey(e.index.str);
      KeyHolds(e, GITHUB, rt, name, action, other);
    } else {
      EventHolds(e.operand, rt, name, action, other);
      KeyHolds(e, EVENT, rt, name, action, other);
    }
  }

  lemma LongKey(key: string)
    requires Lower(key) == "event.action"
    ensures AsciiLower(key) != "event_name" && AsciiLower(key) != "event" && AsciiLower(key) != "action"
  {
    hide Lower, AsciiLower;
    assert |key| == 12;
  }

  lemma KeyHolds(e: Expr, base: Value, rt: Runtime, name: Value, action: Value, other: Value)
    requires e.Index? && e.index.StrLit? && Eval(e.operand, RunOf(rt, name, action, other)) == Some(base)
    ensures Eval(e, RunOf(rt, name, action, other)) == Some(Member(name, action, other, base, AsciiLower(e.index.str)))
  {
    hide Member, AsciiLower;
  }

  lemma GithubHolds(e: Expr, rt: Runtime, name: Value, action: Value, other: Value)
    requires IsVariable(e, "github")
    ensures Eval(e, RunOf(rt, name, action, other)) == Some(GITHUB)
  {
    hide Lower;
  }

  lemma EventHolds(e: Expr, rt: Runtime, name: Value, action: Value, other: Value)
    requires AccessPath(e) == Some(["github", "event"])
    ensures Eval(e, RunOf(rt, name, action, other)) == Some(EVENT)
  {
    hide RunOf, Eval, AccessPath;
    PathEvaluates(e, rt, name, action, other);
    PathMember(e, ["github", "event"], rt, name, action, other);
    assert ["github", "event"][..1] == ["github"];
    PathMember(PathBase(e), ["github"], rt, name, action, other);
    MembersDiffer(name, action, other);
  }

  /** Every access path into the context evaluates. */
  lemma {:induction false} PathEvaluates(e: Expr, rt: Runtime, name: Value, action: Value, other: Value)
    requires AccessPath(e).Some? && AccessPath(e).value[..1] == ["github"]
    ensures Eval(e, RunOf(rt, name, action, other)).Some?
    decreases e
  {
    hide Member, Lower, AsciiLower;
    match e
    case Variable(_, n) => assert [Lower(n)][..1] == [Lower(n)];
    case Property(_, r, n) =>
      PathStarts(r);
      assert (AccessPath(r).value + [Lower(n)])[..1] == AccessPath(r).value[..1];
      PathEvaluates(r, rt, name, action, other);
    case Index(_, o, i) =>
      PathStarts(o);
      assert (AccessPath(o).value + [AsciiLower(i.str)])[..1] == AccessPath(o).value[..1];
      PathEvaluates(o, rt, name, action, other);
  }

  lemma PathStarts(e: Expr)
    requires AccessPath(e).Some?
    ensures AccessPath(e).value != []
  {
  }

  /** An access to the event reads as one. */
  lemma EventReads(e: Expr)
    requires AccessPath(e) == Some(["github", "event"])
    ensures Lower(EventReference(e)) == "github.event"
  {
    hide Lower, AccessPath, EventReference;
    PathReads(e);
    assert ["github", "event"][..1] == ["github"];
    assert Dotted(["github", "event"]) == "github.event";
    AlreadyLower("github.event");
  }

  lemma MisreadReads(e: Expr)
    requires IsMisreadAction(e)
    ensures Lower(EventReference(e)) == "github.event.action"
  {
    hide Lower, AsciiLower, AccessPath, EventReference;
    if IsFoldedAction(e) {
      EventReads(e.operand);
      KeyReads(e);
      assert "github.event" + "." + "action" == "github.event.action";
    } else {
      VariableReads(e.operand);
      KeyReads(e);
      assert "github" + "." + "event.action" == "github.event.action";
    }
  }

  lemma VariableReads(e: Expr)
    requires e.Variable?
    ensures EventReference(e) == e.spelling
  {
  }

  lemma KeyReads(e: Expr)
    requires e.Index? && e.index.StrLit? && EventReference(e.operand) != ""
    ensures Lower(EventReference(e)) == Lower(EventReference(e.operand)) + "." + Lower(e.index.str)
  {
    hide Lower;
    var base := EventReference(e.operand);
    LowerConcat(base + ".", e.index.str);
    LowerConcat(base, ".");
    LowerDot();
  }

  /** Whenever a comparison that misreads is decided, some run that the event triggers has it otherwise. */
  lemma MisreadFails(rt: Runtime, e: Expr, v: EventVariant) returns (env: Env)
    requires Misread(rt, e) && EventGuardValue(rt, e, v).Some?
    ensures env.rt == rt && Consistent(env, v)
    ensures Eval(e, env) == Some(VBool(!EventGuardValue(rt, e, v).value))
  {
    hide Consistent, RunOf, EventReference, Lower, IsMisreadAction, EventAction;
    var right := ConditionConstantValue(rt, e.right);
    var constant := if right.Some? then right.value else ConditionConstantValue(rt, e.left).value;
    var reference := ComparedReference(rt, e).value;
    MisreadReads(reference);
    assert "github.event.action" != "github.event_name" by { assert "github.event.action"[12] != "github.event_name"[12]; }
    var action := EventAction(v).value;
    Longer(rt, constant.s);
    var other := if CompareValues(rt, Eq, action, constant) then VStr(constant.s + "x") else constant;
    env := RunOf(rt, VStr(v.event), action, other);
    assert env.rt == rt by { RunRuntime(rt, VStr(v.event), action, other); }
    RunIsConsistent(rt, v, other);
    MisreadHolds(reference, rt, VStr(v.event), action, other);
    FoldSound(e.left, env);
    FoldSound(e.right, env);
    EqualitySymmetric(rt, e.op, other, constant);
    assert Eval(e, env) == Some(VBool(CompareValues(rt, e.op, other, constant)));
    OppositeEquality(rt, e.op, action, other, constant);
  }

  lemma RunRuntime(rt: Runtime, name: Value, action: Value, other: Value)
    ensures RunOf(rt, name, action, other).rt == rt
  {
  }

  lemma OppositeEquality(rt: Runtime, op: CompareOp, a: Value, b: Value, c: Value)
    requires (op == Eq || op == Ne) && c.VStr? && CompareConditionValues(rt, op, a, c).Some?
    requires CompareValues(rt, Eq, b, c) != CompareValues(rt, Eq, a, c)
    ensures CompareValues(rt, op, b, c) != CompareConditionValues(rt, op, a, c).value
  {
  }

  /** A decided comparison is right in every run that the event triggers exactly when it does not misread. */
  lemma DecidedExactly(rt: Runtime, e: Expr, v: EventVariant)
    requires e.Compare? && PlainNames(e) && EventGuardValue(rt, e, v).Some?
    ensures !Misread(rt, e) <==>
      forall env: Env | env.rt == rt && Consistent(env, v) && Eval(e, env).Some? ::
        Truthy(Eval(e, env).value) == EventGuardValue(rt, e, v).value
  {
    hide Misread, Eval, Consistent, EventGuardValue, PlainNames;
    if Misread(rt, e) {
      var env := MisreadFails(rt, e, v);
    } else {
      forall env: Env | env.rt == rt && Consistent(env, v) && Eval(e, env).Some?
        ensures Truthy(Eval(e, env).value) == EventGuardValue(rt, e, v).value
      {
        CompareGuardSound(e, v, env);
      }
    }
  }

  /** A comparison of a misread access with 'opened'. */
  function Opened(key: Expr): Expr {
    Compare(NO_SPAN, Eq, key, StrLit(NO_SPAN, "opened"))
  }

  /** For an event that was opened, such a comparison counts as true, and is false in some run. */
  lemma OpenedMisleads(rt: Runtime, key: Expr, v: EventVariant) returns (env: Env)
    requires v.action == "opened" && IsMisreadAction(key)
    ensures EventGuardValue(rt, Opened(key), v) == Some(true)
    ensures env.rt == rt && Consistent(env, v) && Eval(Opened(key), env) == Some(VBool(false))
  {
    hide Consistent, Misread, EventGuardValue, Eval, IsMisreadAction;
    MisreadDecides(rt, Opened(key), v);
    env := MisreadFails(rt, Opened(key), v);
  }

  /** The guard github['event.action'] == 'opened'. */
  lemma DottedKeyMisleads(rt: Runtime, v: EventVariant) returns (env: Env)
    requires v.action == "opened"
    ensures var e := Opened(Index(NO_SPAN, GITHUB_CONTEXT, StrLit(NO_SPAN, "event.action")));
      && EventGuardValue(rt, e, v) == Some(true)
      && env.rt == rt && Consistent(env, v) && Eval(e, env) == Some(VBool(false))
  {
    hide Lower, Consistent, EventGuardValue, Eval;
    AlreadyLower("github");
    AlreadyLower("event.action");
    env := OpenedMisleads(rt, Index(NO_SPAN, GITHUB_CONTEXT, StrLit(NO_SPAN, "event.action")), v);
  }

  /** The guard github.event['act\U{0130}on'] == 'opened', with a dotted capital I in the key. */
  lemma FoldedKeyMisleads(rt: Runtime, v: EventVariant) returns (env: Env)
    requires v.action == "opened"
    ensures var e := Opened(Index(NO_SPAN, Property(NO_SPAN, GITHUB_CONTEXT, "event"), StrLit(NO_SPAN, "act\U{0130}on")));
      && EventGuardValue(rt, e, v) == Some(true)
      && env.rt == rt && Consistent(env, v) && Eval(e, env) == Some(VBool(false))
  {
    hide Lower, AsciiLower, Consistent, EventGuardValue, Eval;
    AlreadyLower("github");
    AlreadyLower("event");
    FoldedKey();
    assert ["github"] + ["event"] == ["github", "event"];
    env := OpenedMisleads(rt, Index(NO_SPAN, Property(NO_SPAN, GITHUB_CONTEXT, "event"), StrLit(NO_SPAN, "act\U{0130}on")), v);
  }

  lemma FoldedKey()
    ensures Lower("act\U{0130}on") == "action" && AsciiLower("act\U{0130}on") != "action"
  {
    hide Lower, AsciiLower;
    assert AsciiLower("act\U{0130}on")[3] == '\U{0130}';
    assert forall i | 0 <= i < 6 :: Lower("act\U{0130}on")[i] == "action"[i];
  }

  lemma AlreadyLower(s: string)
    requires forall c | c in s :: c == '.' || c == '_' || 'a' <= c <= 'z'
    ensures Lower(s) == s
  {
    assert forall i | 0 <= i < |s| :: s[i] in s;
  }

  lemma MisreadDecides(rt: Runtime, e: Expr, v: EventVariant)
    requires v.action == "opened" && e.Compare? && e.op == Eq && IsMisreadAction(e.left) && e.right == StrLit(NO_SPAN, "opened")
    ensures Misread(rt, e) && EventGuardValue(rt, e, v) == Some(true)
  {
    hide Lower, EventReference, IsMisreadAction;
    MisreadReads(e.left);
    assert "github.event.action" != "github.event_name" by { assert "github.event.action"[12] != "github.event_name"[12]; }
    assert ConditionConstantValue(rt, e.right) == Some(VStr("opened"));
    Longer(rt, "opened");
  }
}
