/** Which guards decide an event, and which variants they drop (internal/expression/event_variants.go). */
module GuardDecisions {
  import opened Text
  import opened Syntax
  import opened Semantics
  import opened ConstantFolding
  import opened References
  import opened EventTypes
  import opened EventGuards
  import opened GuardCheck
  import opened UntrustedInputs

  const EVENT_NAME := ["github", "event_name"]
  const EVENT_ACTION := ["github", "event", "action"]

  // ----- what a variant tells -----

  /** The event, or its action, has the value: a name is given, or the payload lists its members without one. */
  predicate Tells(v: EventVariant, path: seq<string>, value: Value) {
    if path == EVENT_NAME then v.event != "" && value == VStr(v.event)
    else
      && path == EVENT_ACTION
      && if v.action != "" then value == VStr(v.action)
         else
           && value == VNull && v.event != ""
           && v.payload.ObjectT? && v.payload.mapped == None && "action" !in v.payload.props
  }

  /** Texts are equal up to case; null equals the texts that stand for zero. */
  predicate EqualsText(rt: Runtime, value: Value, text: string) {
    if value.VStr? then Utf16(FoldKey(rt, value.s)) == Utf16(FoldKey(rt, text)) else IsZero(rt.parseNumber(text))
  }

  // ----- what a guard decides -----

  /** An equality of an access along the path with something that folds to the text, in either order. */
  predicate ComparesWith(rt: Runtime, e: Expr, path: seq<string>, text: string) {
    && e.Compare? && (e.op == Eq || e.op == Ne)
    && ((AccessPath(e.left) == Some(path) && ConditionConstantValue(rt, e.right) == Some(VStr(text)))
        || (AccessPath(e.right) == Some(path) && ConditionConstantValue(rt, e.left) == Some(VStr(text))))
  }

  /** What the variant tells makes the guard true, or false, whatever its other comparisons are. */
  ghost predicate Decides(rt: Runtime, e: Expr, v: EventVariant, truth: bool)
    decreases e
  {
    match e
    case Not(_, o) => Decides(rt, o, v, !truth)
    case Logic(_, And, l, r) =>
      if truth then Decides(rt, l, v, true) && Decides(rt, r, v, true) else Decides(rt, l, v, false) || Decides(rt, r, v, false)
    case Logic(_, Or, l, r) =>
      if truth then Decides(rt, l, v, true) || Decides(rt, r, v, true) else Decides(rt, l, v, false) && Decides(rt, r, v, false)
    case Compare(_, op, _, _) =>
      exists path, text, value ::
        ComparesWith(rt, e, path, text) && Tells(v, path, value) && truth == (EqualsText(rt, value, text) == (op == Eq))
    case _ => false
  }

  // ----- decided guards are found -----

  lemma PathIsAccess(e: Expr)
    requires AccessPath(e).Some?
    ensures IsAccess(e)
  {
  }

  lemma EventIsRead(e: Expr, v: EventVariant, path: seq<string>, value: Value)
    requires AccessPath(e) == Some(path) && Tells(v, path, value)
    ensures VariantValue(e, v) == Some(value)
  {
    hide Lower, AccessPath, EventReference;
    PathReads(e);
    ReadTexts();
  }

  lemma ReadTexts()
    ensures Dotted(EVENT_NAME) == "github.event_name" && Lower("github.event_name") == "github.event_name"
    ensures Dotted(EVENT_ACTION) == "github.event.action" && Lower("github.event.action") == "github.event.action"
    ensures "github.event.action" != "github.event_name"
  {
    hide Lower;
    assert EVENT_NAME[..1] == ["github"];
    assert EVENT_ACTION[..2] == ["github", "event"] && ["github", "event"][..1] == ["github"];
    assert "github.event.action"[12] != "github.event_name"[12];
    AlreadyLower("github.event_name");
    AlreadyLower("github.event.action");
  }

  lemma EqualityDecided(rt: Runtime, op: CompareOp, value: Value, text: string)
    requires (op == Eq || op == Ne) && (value.VStr? || value == VNull)
    ensures CompareConditionValues(rt, op, value, VStr(text)) == Some(EqualsText(rt, value, text) == (op == Eq))
  {
    hide FoldKey, Utf16;
    if value.VStr? { OrderIsLexical(Utf16(FoldKey(rt, value.s)), Utf16(FoldKey(rt, text))); }
  }

  /** A comparison of the event name or the action with a folded text is decided by what the variant tells. */
  lemma ComparisonDecided(rt: Runtime, e: Expr, v: EventVariant, path: seq<string>, text: string, value: Value)
    requires ComparesWith(rt, e, path, text) && Tells(v, path, value)
    ensures EventGuardValue(rt, e, v) == Some(EqualsText(rt, value, text) == (e.op == Eq))
    ensures PlainNames(e) ==> TrustedGuardValue(rt, e, v) == EventGuardValue(rt, e, v)
  {
    hide AccessPath, IsAccess, Tells, EqualsText, VariantValue, IsMisreadAction, PlainNames;
    var access := if AccessPath(e.left) == Some(path) && ConditionConstantValue(rt, e.right) == Some(VStr(text)) then e.left else e.right;
    PathIsAccess(access);
    AccessNeverFolds(rt, access);
    EventIsRead(access, v, path, value);
    TellsPlain(v, path, value);
    EqualityDecided(rt, e.op, value, text);
    NotMisread(access, path, v, value);
  }

  lemma TellsPlain(v: EventVariant, path: seq<string>, value: Value)
    requires Tells(v, path, value)
    ensures value.VStr? || value == VNull
  {
  }

  lemma NotMisread(e: Expr, path: seq<string>, v: EventVariant, value: Value)
    requires AccessPath(e) == Some(path) && Tells(v, path, value)
    ensures !IsMisreadAction(e)
  {
    hide IsDottedAction, IsFoldedAction, AccessPath;
    if IsDottedAction(e) { DottedPath(e); }
    if IsFoldedAction(e) { FoldedPath(e); }
  }

  lemma DottedPath(e: Expr)
    requires IsDottedAction(e)
    ensures AccessPath(e) != Some(EVENT_NAME) && AccessPath(e) != Some(EVENT_ACTION)
  {
    hide Lower, AsciiLower;
    var key := AsciiLower(e.index.str);
    assert AccessPath(e) == Some(["github"] + [key]);
    assert (["github"] + [key])[1] == key && |key| == |"event.action"| && |EVENT_NAME[1]| == 10;
  }

  lemma FoldedPath(e: Expr)
    requires IsFoldedAction(e)
    ensures AccessPath(e) != Some(EVENT_NAME) && AccessPath(e) != Some(EVENT_ACTION)
  {
    hide Lower, AsciiLower;
    var key := AsciiLower(e.index.str);
    assert AccessPath(e) == Some(["github", "event"] + [key]);
    LastKey(key);
  }

  /** Every guard that the variant decides is known to have that truth. */
  lemma {:induction false} GuardDecided(rt: Runtime, e: Expr, v: EventVariant, truth: bool)
    requires Decides(rt, e, v, truth)
    ensures EventGuardValue(rt, e, v) == Some(truth)
    ensures PlainNames(e) ==> TrustedGuardValue(rt, e, v) == Some(truth)
    decreases e
  {
    hide ComparesWith, Tells, EqualsText, VariantValue, ConditionConstantValue, Misread;
    match e
    case Not(_, o) =>
      assert o in Children(e);
      GuardDecided(rt, o, v, !truth);
    case Logic(_, _, l, r) =>
      assert l in Children(e) && r in Children(e);
      if Decides(rt, l, v, truth) { GuardDecided(rt, l, v, truth); }
      if Decides(rt, r, v, truth) { GuardDecided(rt, r, v, truth); }
    case Compare(_, op, _, _) =>
      var path, text, value :|
        ComparesWith(rt, e, path, text) && Tells(v, path, value) && truth == (EqualsText(rt, value, text) == (op == Eq));
      ComparisonDecided(rt, e, v, path, text, value);
    case _ =>
  }

  // ----- nothing else is known -----

  lemma EventIsTold(e: Expr, v: EventVariant) returns (path: seq<string>)
    requires PlainNames(e) && !IsMisreadAction(e) && VariantValue(e, v).Some?
    ensures AccessPath(e) == Some(path) && Tells(v, path, VariantValue(e, v).value)
  {
    hide Lower, AccessPath, EventReference, PlainNames, IsMisreadAction;
    ReadTexts();
    if Lower(EventReference(e)) == "github.event_name" {
      EventNameReference(e);
      path := EVENT_NAME;
    } else {
      ActionReference(e);
      path := EVENT_ACTION;
    }
  }

  lemma ComparisonDecides(rt: Runtime, e: Expr, v: EventVariant)
    requires e.Compare? && PlainNames(e) && !Misread(rt, e) && EventGuardValue(rt, e, v).Some?
    ensures Decides(rt, e, v, EventGuardValue(rt, e, v).value)
  {
    hide AccessPath, Tells, EqualsText, VariantValue, IsMisreadAction;
    var right := ConditionConstantValue(rt, e.right);
    var access := if right.Some? then e.left else e.right;
    var text := if right.Some? then right.value.s else ConditionConstantValue(rt, e.left).value.s;
    assert e.left in Children(e) && e.right in Children(e);
    var path := EventIsTold(access, v);
    var value := VariantValue(access, v).value;
    TellsPlain(v, path, value);
    EqualityDecided(rt, e.op, value, text);
    assert ComparesWith(rt, e, path, text);
  }

  /** A guard is known, without misreading, to have a truth exactly when the variant decides it so. */
  lemma {:induction false} DecidedExactlyBy(rt: Runtime, e: Expr, v: EventVariant, truth: bool)
    requires PlainNames(e)
    ensures TrustedGuardValue(rt, e, v) == Some(truth) <==> Decides(rt, e, v, truth)
    decreases e
  {
    hide Misread, EventGuardValue, ConditionConstantValue;
    if Decides(rt, e, v, truth) {
      GuardDecided(rt, e, v, truth);
    } else if TrustedGuardValue(rt, e, v) == Some(truth) {
      match e
      case Not(_, o) =>
        assert o in Children(e);
        DecidedExactlyBy(rt, o, v, !truth);
      case Logic(_, _, l, r) =>
        assert l in Children(e) && r in Children(e);
        DecidedExactlyBy(rt, l, v, truth);
        DecidedExactlyBy(rt, r, v, truth);
        ThreeTruths(TrustedGuardValue(rt, l, v));
        ThreeTruths(TrustedGuardValue(rt, r, v));
      case Compare(_, _, _, _) => ComparisonDecides(rt, e, v);
    }
  }

  // ----- which variants a guard drops -----

  /** The variants, in order, that do not decide the guard against the truth. */
  ghost function Undecided(rt: Runtime, guard: Expr, truth: bool, vs: seq<EventVariant>): seq<EventVariant> {
    if vs == [] then []
    else (if Decides(rt, guard, vs[0], !truth) then [] else [vs[0]]) + Undecided(rt, guard, truth, vs[1..])
  }

  /** A variant that decides the guard the other way is dropped. */
  lemma {:induction false} DecidedIsDropped(rt: Runtime, guard: Expr, truth: bool, vs: seq<EventVariant>, v: EventVariant)
    requires Decides(rt, guard, v, !truth)
    ensures Guarded(rt, guard, truth, vs).Some? ==> v !in Guarded(rt, guard, truth, vs).value
  {
    hide EventGuardValue, Decides;
    GuardDecided(rt, guard, v, !truth);
    NotSelected(rt, guard, truth, vs, v);
  }

  lemma {:induction false} NotSelected(rt: Runtime, guard: Expr, truth: bool, vs: seq<EventVariant>, v: EventVariant)
    requires EventGuardValue(rt, guard, v) == Some(!truth)
    ensures v !in SelectVariants(rt, guard, truth, vs)
  {
    hide EventGuardValue;
    if vs != [] { NotSelected(rt, guard, truth, vs[1..], v); }
  }

  lemma {:induction false} SelectedAreUndecided(rt: Runtime, guard: Expr, truth: bool, vs: seq<EventVariant>)
    requires PlainNames(guard) && forall v | v in vs :: ReadsEvents(rt, guard, v)
    ensures SelectVariants(rt, guard, truth, vs) == Undecided(rt, guard, truth, vs)
  {
    hide EventGuardValue, TrustedGuardValue, Decides, PlainNames;
    if vs != [] {
      var v := vs[0];
      assert v in vs;
      DecidedExactlyBy(rt, guard, v, !truth);
      if EventGuardValue(rt, guard, v).Some? { TrustedIsDecided(rt, guard, v); }
      if TrustedGuardValue(rt, guard, v) == Some(!truth) { TrustedIsDecided(rt, guard, v); }
      SelectedAreUndecided(rt, guard, truth, vs[1..]);
    }
  }

  /** A guard that reads events drops exactly the variants that decide it the other way, and keeps the order of the others; a
      branch that no variant reaches is not checked. */
  lemma GuardDropsExactly(rt: Runtime, guard: Expr, truth: bool, vs: seq<EventVariant>)
    requires PlainNames(guard) && forall v | v in vs :: ReadsEvents(rt, guard, v)
    ensures Guarded(rt, guard, truth, vs) ==
      if vs != [] && Undecided(rt, guard, truth, vs) == [] then None else Some(Undecided(rt, guard, truth, vs))
  {
    hide ReadsEvents, PlainNames;
    SelectedAreUndecided(rt, guard, truth, vs);
  }
}
