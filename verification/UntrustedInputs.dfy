/** Which untrusted inputs an expression interpolates (internal/expression/expr_insecure.go). */
module UntrustedInputs {
  import opened Text
  import opened Syntax
  import opened Semantics
  import opened ConstantFolding

  // ----- the search tree -----

  /** A tree of property names; a leaf is an untrusted input. */
  datatype InputMap = InputMap(name: string, children: map<string, InputMap>)

  type Roots = map<string, InputMap>

  /** A node of the search tree together with the path to it. */
  datatype Cursor = Cursor(path: seq<string>, node: InputMap) {
    predicate IsLeaf() {
      node.children == map[]
    }

    function Child(key: string): Option<Cursor> {
      if key in node.children then Some(Cursor(path + [key], node.children[key])) else None
    }

    function ObjectProp(name: string): Option<Cursor> {
      if name in node.children then Child(name) else Child("**")
    }

    function Element(): Option<Cursor> {
      if "*" in node.children then Child("*") else Child("**")
    }

    function Filtered(): set<Cursor> {
      if "*" in node.children then {Child("*").value}
      else set k | k in node.children :: Child(k).value
    }
  }

  // ----- following one access -----

  /** The cursors an access has reached, the pending object filter, and the access itself once a root matched. */
  datatype Track = Track(cur: set<Cursor>, filtering: bool, start: Option<Expr>)

  const EMPTY := Track({}, false, None)

  predicate IsAccess(e: Expr) {
    e.Variable? || e.Property? || e.Filter? || e.Index?
  }

  lemma AccessNeverFolds(rt: Runtime, e: Expr)
    requires IsAccess(e)
    ensures ConditionConstantValue(rt, e) == None
  {
  }

  function VarTrack(roots: Roots, v: Expr): Track
    requires v.Variable?
  {
    if v.Name() in roots then Track({Cursor([v.Name()], roots[v.Name()])}, false, Some(v)) else EMPTY
  }

  function PropStep(t: Track, name: string): Track {
    t.(cur := set c | c in t.cur && c.ObjectProp(name).Some? :: c.ObjectProp(name).value)
  }

  function IndexStep(t: Track): Track {
    if t.filtering then t.(filtering := false)
    else t.(cur := set c | c in t.cur && c.Element().Some? :: c.Element().value)
  }

  function FilterStep(t: Track): Track {
    t.(filtering := true, cur := set c, k | c in t.cur && k in c.Filtered() :: k)
  }

  /** Following one more step of an access. */
  function AccessStep(t: Track, e: Expr): Track
    requires e.Property? || e.Filter? || e.Index?
  {
    var moved :=
      match e
      case Property(_, _, _) => PropStep(t, e.Name())
      case Filter(_, _) => FilterStep(t)
      case Index(_, _, i) => if i.StrLit? then PropStep(t, Lower(i.str)) else IndexStep(t);
    if moved.start.Some? then moved.(start := Some(e)) else moved
  }

  function Receiver(e: Expr): Expr
    requires e.Property? || e.Filter? || e.Index?
  {
    if e.Index? then e.operand else e.receiver
  }

  function Followed(roots: Roots, e: Expr): Option<Track>
    decreases e
  {
    if e.Variable? then Some(VarTrack(roots, e))
    else if !IsAccess(e) then None
    else
      var t := Followed(roots, Receiver(e));
      if t.None? then None else Some(AccessStep(t.value, e))
  }

  /** The cursors only move from a root that matched. */
  predicate Rooted(t: Track) {
    t.start.Some? || t.cur == {}
  }

  /** An access that is followed starts, if anywhere, at itself. */
  lemma {:induction false} FollowedStart(roots: Roots, e: Expr)
    requires Followed(roots, e).Some?
    ensures var t := Followed(roots, e).value; Rooted(t) && (t.start == None || t.start == Some(e))
    decreases e
  {
    if !e.Variable? { FollowedStart(roots, Receiver(e)); }
  }

  // ----- reports -----

  datatype Report = Report(start: Expr, inputs: set<seq<string>>)

  /** The inputs found by an access: the leaves reached, or, when it is serialized, everything reached. */
  function Inputs(t: Track, leaves: bool, others: bool): set<seq<string>> {
    set c | c in t.cur && (if c.IsLeaf() then leaves else others) :: c.path
  }

  function ReportInputs(start: Option<Expr>, inputs: set<seq<string>>): seq<Report> {
    if inputs == {} || start.None? then [] else [Report(start.value, inputs)]
  }

  function Pending(t: Track, serialized: bool): seq<Report> {
    ReportInputs(t.start, Inputs(t, true, serialized))
  }

  /** The containers that serializing an expression can select. */
  function Containers(rt: Runtime, roots: Roots, e: Expr): seq<Report>
    decreases e, 2, 0
  {
    match e
    case Logic(_, k, l, r) =>
      var v := ConditionConstantValue(rt, l);
      if v.Some? then (if Truthy(v.value) != (k == Or) then Containers(rt, roots, r) else [])
      else (if k == Or then Containers(rt, roots, l) else []) + Containers(rt, roots, r)
    case Call(_, callee, args) =>
      if !IsCase(callee) || !CaseArity(|args|) then [] else CaseContainers(rt, roots, e, 0)
    case _ =>
      var t := Followed(roots, e);
      if t.None? then [] else ReportInputs(t.value.start, Inputs(t.value, false, true))
  }

  function CaseContainers(rt: Runtime, roots: Roots, e: Expr, i: nat): seq<Report>
    requires e.Call? && CaseArity(|e.args|) && i < |e.args| && i % 2 == 0
    decreases e, 1, |e.args| - i
  {
    if i == |e.args| - 1 then Containers(rt, roots, e.args[i])
    else
      var v := ConditionConstantValue(rt, e.args[i]);
      if v.Some? then
        if Truthy(v.value) then Containers(rt, roots, e.args[i + 1]) else CaseContainers(rt, roots, e, i + 2)
      else Containers(rt, roots, e.args[i + 1]) + CaseContainers(rt, roots, e, i + 2)
  }

  // ----- what the reports of an expression are -----

  /** A predicate on strings, whose arguments cannot reach the output. */
  predicate IsSafeCall(e: Expr) {
    e.Call? && IsTextPredicate(e.callee)
  }

  predicate IsToJson(e: Expr) {
    e.Call? && EqualFold(e.callee, "toJSON") && |e.args| == 1
  }

  /** The child at the place is only asked for its truth. */
  predicate OnlyTruth(parent: Expr, place: nat, child: Expr) {
    || child.Compare? || child.Not?
    || (parent.Logic? && parent.kind == And && place == 0)
    || (parent.Call? && IsCase(parent.callee) && place % 2 == 0 && place + 1 < |parent.args|)
  }

  /** A finding to look for: an access that ends here, one that is serialized whole, or a serialized selection. */
  datatype Lookup = Read(access: Expr) | Serialized(access: Expr) | Selected(arg: Expr)

  function LookupReports(rt: Runtime, roots: Roots, l: Lookup): seq<Report> {
    match l
    case Read(e) =>
      var t := Followed(roots, e);
      if t.None? then [] else Pending(t.value, false)
    case Serialized(e) =>
      var t := Followed(roots, e);
      if t.None? then [] else Pending(t.value, true)
    case Selected(arg) => Containers(rt, roots, arg)
  }

  function Reports(rt: Runtime, roots: Roots, ls: seq<Lookup>): seq<Report> {
    if ls == [] then [] else Reports(rt, roots, ls[..|ls| - 1]) + LookupReports(rt, roots, ls[|ls| - 1])
  }

  lemma {:induction false} ReportsConcat(rt: Runtime, roots: Roots, a: seq<Lookup>, b: seq<Lookup>)
    ensures Reports(rt, roots, a + b) == Reports(rt, roots, a) + Reports(rt, roots, b)
  {
    hide LookupReports;
    if b == [] {
      assert a + b == a;
    } else {
      assert (a + b)[..|a + b| - 1] == a + b[..|b| - 1];
      ReportsConcat(rt, roots, a, b[..|b| - 1]);
    }
  }

  // ----- what is found is in the search tree -----

  /** The node of the tree at a path. */
  function At(roots: Roots, path: seq<string>): Option<InputMap>
    requires path != []
  {
    if |path| == 1 then (if path[0] in roots then Some(roots[path[0]]) else None)
    else
      var n := At(roots, path[..|path| - 1]);
      if n.Some? && path[|path| - 1] in n.value.children then Some(n.value.children[path[|path| - 1]]) else None
  }

  predicate InTree(roots: Roots, c: Cursor) {
    c.path != [] && At(roots, c.path) == Some(c.node)
  }

  lemma ChildInTree(roots: Roots, c: Cursor, key: string)
    requires InTree(roots, c) && key in c.node.children
    ensures InTree(roots, c.Child(key).value)
  {
    assert (c.path + [key])[..|c.path|] == c.path;
  }

  /** Wherever an access leads is a node of the search tree, at its path. */
  lemma {:induction false} FoundInTree(roots: Roots, e: Expr, c: Cursor)
    requires Followed(roots, e).Some? && c in Followed(roots, e).value.cur
    ensures InTree(roots, c)
    decreases e
  {
    if !e.Variable? {
      var t := Followed(roots, Receiver(e)).value;
      forall d | d in t.cur ensures InTree(roots, d) { FoundInTree(roots, Receiver(e), d); }
      forall d, key | d in t.cur && key in d.node.children ensures InTree(roots, d.Child(key).value) {
        ChildInTree(roots, d, key);
      }
    }
  }

  /** Every input reported for an access is the path of a node of the search tree, a leaf of it unless the access is serialized. */
  lemma InputsInTree(roots: Roots, e: Expr, serialized: bool, r: Report, input: seq<string>)
    requires Followed(roots, e).Some? && r in Pending(Followed(roots, e).value, serialized) && input in r.inputs
    ensures input != [] && At(roots, input).Some?
    ensures !serialized ==> At(roots, input).value.children == map[]
  {
    hide Followed;
    var t := Followed(roots, e).value;
    var c :| c in t.cur && (if c.IsLeaf() then true else serialized) && c.path == input;
    FoundInTree(roots, e, c);
  }
}
