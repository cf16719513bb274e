/** Payload types and their projection over several events (internal/expression/event_variants.go). */
module EventTypes {
  import opened Text

  /** The types of payload values. An object without a mapped type has no other members. */
  datatype Type =
    | AnyT
    | NullT
    | NumberT
    | BoolT
    | StringT
    | ArrayT(elem: Type)
    | ObjectT(props: map<string, Type>, mapped: Option<Type>)

  datatype EventVariant = EventVariant(event: string, action: string, payload: Type)

  /** Merging types of which at most one is an object and at most one an array. */
  function Merge(a: Type, b: Type): Type {
    match (a, b)
    case (NullT, NullT) => NullT
    case (NumberT, NumberT) => NumberT
    case (NumberT, StringT) => StringT
    case (BoolT, BoolT) => BoolT
    case (BoolT, StringT) => StringT
    case (StringT, StringT) => StringT
    case (StringT, NumberT) => StringT
    case (StringT, BoolT) => StringT
    case _ => AnyT
  }

  /** Combining types; `same` tells which are one and the same object, and those are kept. */
  function CombineEventTypes(same: (Type, Type) -> bool, a: Type, b: Type): Type
    decreases a
  {
    if same(a, b) then a
    else if a.ObjectT? && b.ObjectT? then
      ObjectT(
        map k | k in a.props.Keys + b.props.Keys ::
          if k !in b.props then a.props[k]
          else if k !in a.props then b.props[k]
          else CombineEventTypes(same, a.props[k], b.props[k]),
        if a.mapped.None? then b.mapped
        else if b.mapped.None? then a.mapped
        else Some(CombineEventTypes(same, a.mapped.value, b.mapped.value)))
    else if a.ArrayT? && b.ArrayT? then ArrayT(CombineEventTypes(same, a.elem, b.elem))
    else Merge(a, b)
  }

  /** The payloads combined from left to right; no events at all leave an open object. */
  function Project(same: (Type, Type) -> bool, payloads: seq<Type>): Type
  {
    if payloads == [] then ObjectT(map[], Some(AnyT))
    else if |payloads| == 1 then payloads[0]
    else CombineEventTypes(same, Project(same, payloads[..|payloads| - 1]), payloads[|payloads| - 1])
  }

  function Payloads(variants: seq<EventVariant>): (ps: seq<Type>)
    ensures |ps| == |variants|
    ensures forall i | 0 <= i < |variants| :: ps[i] == variants[i].payload
  {
    seq(|variants|, i requires 0 <= i < |variants| => variants[i].payload)
  }

  method NewEventType(same: (Type, Type) -> bool, variants: seq<EventVariant>) returns (t: Type)
    requires forall v | v in variants :: v.payload.ObjectT?
    ensures t == Project(same, Payloads(variants)) && t.ObjectT?
  {
    var ps := Payloads(variants);
    var result: Option<Type> := None;
    for i := 0 to |variants|
      invariant result.Some? <==> i > 0
      invariant i > 0 ==> result.value == Project(same, ps[..i]) && result.value.ObjectT?
    {
      var p := variants[i].payload;
      assert ps[..i + 1][..i] == ps[..i];
      result := Some(if result.None? then p else CombineEventTypes(same, result.value, p));
    }
    assert ps[..|ps|] == ps;
    t := if result.Some? then result.value else ObjectT(map[], Some(AnyT));
  }

  // ----- accesses into a type -----

  datatype Step = Key(name: string) | Element

  /** Does a path of members and elements lead somewhere? Nothing is known below the any type. */
  predicate Resolves(t: Type, path: seq<Step>)
    decreases |path|
  {
    path == [] || t.AnyT? ||
    match path[0]
    case Key(n) =>
      t.ObjectT? &&
      if n in t.props then Resolves(t.props[n], path[1..])
      else t.mapped.Some? && Resolves(t.mapped.value, path[1..])
    case Element => t.ArrayT? && Resolves(t.elem, path[1..])
  }

  /** No object in the type has members that are not listed. */
  predicate Closed(t: Type)
    decreases t
  {
    match t
    case ArrayT(e) => Closed(e)
    case ObjectT(props, mapped) => mapped.None? && forall k | k in props :: Closed(props[k])
    case _ => true
  }

  /** Along the path two types of different kinds meet, which leaves anything possible below. */
  predicate Conflicts(same: (Type, Type) -> bool, a: Type, b: Type, path: seq<Step>)
    decreases |path|
  {
    path != [] && !same(a, b) &&
    if a.ObjectT? && b.ObjectT? then
      path[0].Key? &&
      var n := path[0].name;
      if n in a.props && n in b.props then Conflicts(same, a.props[n], b.props[n], path[1..])
      else
        && n !in a.props && n !in b.props && a.mapped.Some? && b.mapped.Some?
        && Conflicts(same, a.mapped.value, b.mapped.value, path[1..])
    else if a.ArrayT? && b.ArrayT? then path[0].Element? && Conflicts(same, a.elem, b.elem, path[1..])
    else Merge(a, b) == AnyT
  }

  /** Along the path one type lists a member that the other only maps, and only the mapped type resolves the rest. */
  predicate Hides(same: (Type, Type) -> bool, a: Type, b: Type, path: seq<Step>)
    decreases |path|
  {
    path != [] && !same(a, b) &&
    if a.ObjectT? && b.ObjectT? then
      path[0].Key? &&
      var n := path[0].name;
      if n in a.props && n in b.props then Hides(same, a.props[n], b.props[n], path[1..])
      else if n in a.props then HidesMapped(a.props[n], b.mapped, path[1..])
      else if n in b.props then HidesMapped(b.props[n], a.mapped, path[1..])
      else a.mapped.Some? && b.mapped.Some? && Hides(same, a.mapped.value, b.mapped.value, path[1..])
    else a.ArrayT? && b.ArrayT? && path[0].Element? && Hides(same, a.elem, b.elem, path[1..])
  }

  predicate HidesMapped(listed: Type, mapped: Option<Type>, path: seq<Step>) {
    mapped.Some? && Resolves(mapped.value, path) && !Resolves(listed, path)
  }

  /**
   * A combination loses a path of its parts exactly where a listed member hides a mapped one, and gains one exactly
   * below a conflict.
   */
  lemma {:induction false} CombineResolves(same: (Type, Type) -> bool, a: Type, b: Type, path: seq<Step>)
    requires forall x, y | same(x, y) :: x == y
    ensures (Resolves(a, path) || Resolves(b, path)) && !Resolves(CombineEventTypes(same, a, b), path) <==>
      Hides(same, a, b, path)
    ensures Resolves(CombineEventTypes(same, a, b), path) <==>
      Conflicts(same, a, b, path) || ((Resolves(a, path) || Resolves(b, path)) && !Hides(same, a, b, path))
    decreases |path|
  {
    if path != [] && !same(a, b) {
      if a.ObjectT? && b.ObjectT? {
        if path[0].Key? {
          var n := path[0].name;
          if n in a.props && n in b.props {
            CombineResolves(same, a.props[n], b.props[n], path[1..]);
          } else if n !in a.props && n !in b.props && a.mapped.Some? && b.mapped.Some? {
            CombineResolves(same, a.mapped.value, b.mapped.value, path[1..]);
          }
        }
      } else if a.ArrayT? && b.ArrayT? {
        if path[0].Element? { CombineResolves(same, a.elem, b.elem, path[1..]); }
      }
    }
  }

  /** Types without unlisted members hide nothing from each other. */
  lemma {:induction false} ClosedHideNothing(same: (Type, Type) -> bool, a: Type, b: Type, path: seq<Step>)
    requires Closed(a) && Closed(b)
    ensures !Hides(same, a, b, path)
    decreases |path|
  {
    if path != [] && !same(a, b) {
      if a.ObjectT? && b.ObjectT? {
        if path[0].Key? && path[0].name in a.props && path[0].name in b.props {
          ClosedHideNothing(same, a.props[path[0].name], b.props[path[0].name], path[1..]);
        }
      } else if a.ArrayT? && b.ArrayT? {
        if path[0].Element? { ClosedHideNothing(same, a.elem, b.elem, path[1..]); }
      }
    }
  }

  lemma {:induction false} CombineCloses(same: (Type, Type) -> bool, a: Type, b: Type)
    requires Closed(a) && Closed(b)
    ensures Closed(CombineEventTypes(same, a, b))
    decreases a
  {
    if a.ObjectT? && b.ObjectT? {
      forall k | k in a.props && k in b.props { CombineCloses(same, a.props[k], b.props[k]); }
    } else if a.ArrayT? && b.ArrayT? {
      CombineCloses(same, a.elem, b.elem);
    }
  }

  // ----- the combined types -----

  /** A value of the first type can stand where the second is expected: numbers and booleans print as strings. */
  predicate Fits(a: Type, b: Type) {
    a == b || b == AnyT || (b == StringT && (a == NumberT || a == BoolT))
  }

  /** Merging gives the wider of the two types, and anything when neither is wider. */
  lemma MergeIsWider(a: Type, b: Type)
    requires !(a.ObjectT? && b.ObjectT?) && !(a.ArrayT? && b.ArrayT?)
    ensures Merge(a, b) == if Fits(a, b) then b else if Fits(b, a) then a else AnyT
  {
  }

  /** The type at a path of listed members and elements. */
  function TypeAt(t: Type, path: seq<Step>): Option<Type>
    decreases |path|
  {
    if path == [] then Some(t)
    else match path[0]
    case Key(n) => if t.ObjectT? && n in t.props then TypeAt(t.props[n], path[1..]) else None
    case Element => if t.ArrayT? then TypeAt(t.elem, path[1..]) else None
  }

  lemma {:induction false} CombineSame(same: (Type, Type) -> bool, a: Type)
    ensures CombineEventTypes(same, a, a) == a
    decreases a
  {
    if a.ObjectT? {
      forall k | k in a.props ensures CombineEventTypes(same, a.props[k], a.props[k]) == a.props[k] { CombineSame(same, a.props[k]); }
      if a.mapped.Some? { CombineSame(same, a.mapped.value); }
      var c := CombineEventTypes(same, a, a);
      assert !same(a, a) ==> c.props == a.props;
    } else if a.ArrayT? {
      CombineSame(same, a.elem);
    }
  }

  /** At a path that both types list, the combination has the combination of what they have there. */
  lemma {:induction false} CombineAt(same: (Type, Type) -> bool, a: Type, b: Type, path: seq<Step>)
    requires forall x, y | same(x, y) :: x == y
    requires TypeAt(a, path).Some? && TypeAt(b, path).Some?
    ensures TypeAt(CombineEventTypes(same, a, b), path) == Some(CombineEventTypes(same, TypeAt(a, path).value, TypeAt(b, path).value))
    decreases |path|
  {
    hide Merge;
    if same(a, b) {
      CombineSame(same, TypeAt(a, path).value);
    } else if path != [] {
      match path[0]
      case Key(n) => CombineAt(same, a.props[n], b.props[n], path[1..]);
      case Element => CombineAt(same, a.elem, b.elem, path[1..]);
    }
  }

  /** The order of the events matters: a number, a boolean and a string come to a string in one order and to anything in another. */
  lemma OrderMatters(same: (Type, Type) -> bool, n: string)
    requires forall x, y | same(x, y) :: x == y
    ensures var num, flag, text := ObjectT(map[n := NumberT], None), ObjectT(map[n := BoolT], None), ObjectT(map[n := StringT], None);
      && TypeAt(Project(same, [num, text, flag]), [Key(n)]) == Some(StringT)
      && TypeAt(Project(same, [num, flag, text]), [Key(n)]) == Some(AnyT)
  {
    hide CombineEventTypes, Project;
    var num, flag, text := ObjectT(map[n := NumberT], None), ObjectT(map[n := BoolT], None), ObjectT(map[n := StringT], None);
    ScalarsCombine(same);
    MemberOfThree(same, num, text, flag, n);
    MemberOfThree(same, num, flag, text, n);
  }

  lemma ScalarsCombine(same: (Type, Type) -> bool)
    requires forall x, y | same(x, y) :: x == y
    ensures CombineEventTypes(same, NumberT, StringT) == StringT && CombineEventTypes(same, StringT, BoolT) == StringT
    ensures CombineEventTypes(same, NumberT, BoolT) == AnyT && CombineEventTypes(same, AnyT, StringT) == AnyT
  {
  }

  /** A member that three payloads list is combined from left to right. */
  lemma MemberOfThree(same: (Type, Type) -> bool, a: Type, b: Type, c: Type, n: string)
    requires forall x, y | same(x, y) :: x == y
    requires a.ObjectT? && b.ObjectT? && c.ObjectT? && n in a.props && n in b.props && n in c.props
    ensures TypeAt(Project(same, [a, b, c]), [Key(n)])
      == Some(CombineEventTypes(same, CombineEventTypes(same, a.props[n], b.props[n]), c.props[n]))
  {
    hide CombineEventTypes, Project;
    var path := [Key(n)];
    assert path[1..] == [];
    ProjectThree(same, a, b, c);
    CombineAt(same, a, b, path);
    CombineAt(same, CombineEventTypes(same, a, b), c, path);
  }

  lemma ProjectThree(same: (Type, Type) -> bool, a: Type, b: Type, c: Type)
    ensures Project(same, [a, b, c]) == CombineEventTypes(same, CombineEventTypes(same, a, b), c)
  {
    hide CombineEventTypes;
    assert [a, b, c][..2] == [a, b] && [a, b][..1] == [a];
    assert Project(same, [a, b]) == CombineEventTypes(same, Project(same, [a]), b);
  }

  /** Some fold step hides the path, and no later payload brings it back. */
  predicate Lost(same: (Type, Type) -> bool, payloads: seq<Type>, path: seq<Step>)
    decreases |payloads|
  {
    |payloads| > 1 &&
    var front, last := payloads[..|payloads| - 1], payloads[|payloads| - 1];
    || Hides(same, Project(same, front), last, path)
    || (Lost(same, front, path) && !Resolves(last, path) && !Conflicts(same, Project(same, front), last, path))
  }

  ghost predicate SomeResolves(payloads: seq<Type>, path: seq<Step>) {
    exists p | p in payloads :: Resolves(p, path)
  }

  lemma SomeOfFront(payloads: seq<Type>, path: seq<Step>)
    requires payloads != []
    ensures SomeResolves(payloads, path) <==>
      SomeResolves(payloads[..|payloads| - 1], path) || Resolves(payloads[|payloads| - 1], path)
  {
    var front, last := payloads[..|payloads| - 1], payloads[|payloads| - 1];
    assert payloads == front + [last];
  }

  /** For any number and order of events, a path of some payload is lost in the projection exactly when a step hides it for good. */
  lemma {:induction false} ProjectionLoses(same: (Type, Type) -> bool, payloads: seq<Type>, path: seq<Step>)
    requires forall x, y | same(x, y) :: x == y
    requires payloads != []
    ensures SomeResolves(payloads, path) ==> (!Resolves(Project(same, payloads), path) <==> Lost(same, payloads, path))
    ensures Resolves(Project(same, payloads), path) && !SomeResolves(payloads, path) ==>
      exists j | 0 < j < |payloads| :: Conflicts(same, Project(same, payloads[..j]), payloads[j], path)
    decreases |payloads|
  {
    hide Conflicts, Hides, Resolves, CombineEventTypes;
    var n := |payloads|;
    SomeOfFront(payloads, path);
    if n > 1 {
      var front, last := payloads[..n - 1], payloads[n - 1];
      ProjectionLoses(same, front, path);
      CombineResolves(same, Project(same, front), last, path);
      forall j | 0 < j < n - 1 ensures front[..j] == payloads[..j] && front[j] == payloads[j] {}
      if Resolves(Project(same, payloads), path) && !SomeResolves(payloads, path) {
        if !Resolves(Project(same, front), path) {
          assert Conflicts(same, Project(same, payloads[..n - 1]), payloads[n - 1], path);
        }
      }
    }
  }

  lemma {:induction false} NothingHidden(same: (Type, Type) -> bool, payloads: seq<Type>, path: seq<Step>)
    requires forall j | 0 < j < |payloads| :: !Hides(same, Project(same, payloads[..j]), payloads[j], path)
    ensures !Lost(same, payloads, path)
    decreases |payloads|
  {
    hide Hides, Resolves, Conflicts;
    if |payloads| > 1 {
      var front := payloads[..|payloads| - 1];
      forall j | 0 < j < |front| ensures !Hides(same, Project(same, front[..j]), front[j], path) {
        assert front[..j] == payloads[..j];
      }
      NothingHidden(same, front, path);
    }
  }

  /** When no fold step hides it, a path into some payload is a path into the projection. */
  lemma ProjectionResolves(same: (Type, Type) -> bool, payloads: seq<Type>, k: nat, path: seq<Step>)
    requires forall x, y | same(x, y) :: x == y
    requires forall j | 0 < j < |payloads| :: !Hides(same, Project(same, payloads[..j]), payloads[j], path)
    requires k < |payloads| && Resolves(payloads[k], path)
    ensures Resolves(Project(same, payloads), path)
  {
    hide Hides, Resolves, Lost;
    assert payloads[k] in payloads;
    ProjectionLoses(same, payloads, path);
    NothingHidden(same, payloads, path);
  }

  /** Payloads without unlisted members lose no path, in any order. */
  lemma ClosedProjectionResolves(same: (Type, Type) -> bool, payloads: seq<Type>, k: nat, path: seq<Step>)
    requires forall x, y | same(x, y) :: x == y
    requires forall p | p in payloads :: Closed(p)
    requires k < |payloads| && Resolves(payloads[k], path)
    ensures Resolves(Project(same, payloads), path) && Closed(Project(same, payloads))
  {
    hide Hides, Resolves, Closed;
    ProjectCloses(same, payloads);
    forall j | 0 < j < |payloads| ensures !Hides(same, Project(same, payloads[..j]), payloads[j], path) {
      ProjectCloses(same, payloads[..j]);
      assert payloads[j] in payloads;
      ClosedHideNothing(same, Project(same, payloads[..j]), payloads[j], path);
    }
    ProjectionResolves(same, payloads, k, path);
  }

  lemma {:induction false} ProjectCloses(same: (Type, Type) -> bool, payloads: seq<Type>)
    requires payloads != [] && forall p | p in payloads :: Closed(p)
    ensures Closed(Project(same, payloads))
    decreases |payloads|
  {
    var n := |payloads|;
    if n > 1 {
      ProjectCloses(same, payloads[..n - 1]);
      CombineCloses(same, Project(same, payloads[..n - 1]), payloads[n - 1]);
    }
  }

  /** One path that is lost: a listed member of one event hides the mapped members of another. */
  lemma MappedMembersAreLost(same: (Type, Type) -> bool)
    requires forall x, y | same(x, y) :: x == y
    ensures var a := ObjectT(map["p" := ObjectT(map[], None)], None);
      var b := ObjectT(map[], Some(ObjectT(map["q" := StringT], None)));
      && Resolves(b, [Key("p"), Key("q")])
      && !Resolves(Project(same, [a, b]), [Key("p"), Key("q")])
  {
    var a := ObjectT(map["p" := ObjectT(map[], None)], None);
    var b := ObjectT(map[], Some(ObjectT(map["q" := StringT], None)));
    var path := [Key("p"), Key("q")];
    assert path[1..] == [Key("q")];
    assert [a, b][..1] == [a];
    assert Project(same, [a, b]) == CombineEventTypes(same, a, b);
    assert a.props["p"] == ObjectT(map[], None);
    assert CombineEventTypes(same, a, b).props["p"] == ObjectT(map[], None);
    assert !Resolves(ObjectT(map[], None), [Key("q")]);
    assert Resolves(ObjectT(map["q" := StringT], None), [Key("q")]);
  }
}
