/** The checker that finds untrusted inputs while an expression is visited (internal/expression/expr_insecure.go). */
module UntrustedChecker {
  import opened Text
  import opened Syntax
  import opened Semantics
  import opened ConstantFolding
  import opened UntrustedInputs

  /** A node being visited, its place among its parent's children, and whether only its truth is used. */
  datatype Visit = Visit(node: Expr, boolean: bool)

  /** What the checker has found and is following. */
  datatype Log = Log(track: Track, errs: seq<Report>)

  /** Everything found once the access being followed ends. */
  function Flush(log: Log): seq<Report> {
    log.errs + Pending(log.track, false)
  }

  function Somes(cur: seq<Option<Cursor>>): set<Cursor> {
    set o | o in cur && o.Some? :: o.value
  }

  /** The entries that are present, in order. */
  function Compacted(cur: seq<Option<Cursor>>): (r: seq<Option<Cursor>>)
    ensures forall o | o in r :: o.Some? && o in cur
    ensures forall o | o in cur && o.Some? :: o in r
  {
    if cur == [] then []
    else if cur[|cur| - 1].None? then Compacted(cur[..|cur| - 1])
    else Compacted(cur[..|cur| - 1]) + [cur[|cur| - 1]]
  }

  predicate AllSome(cur: seq<Option<Cursor>>) {
    forall o | o in cur :: o.Some?
  }

  class UntrustedInputChecker {
    const rt: Runtime
    const roots: Roots
    var filteringObject: bool
    var cur: seq<Option<Cursor>>
    var start: Option<Expr>
    var errs: seq<Report>
    var safeCalls: nat
    var booleanContexts: nat
    var visits: seq<Visit>

    constructor (rt: Runtime, roots: Roots)
      ensures this.rt == rt && this.roots == roots && AllSome(cur)
      ensures State() == Log(EMPTY, []) && safeCalls == 0 && booleanContexts == 0 && visits == []
    {
      this.rt, this.roots := rt, roots;
      filteringObject, cur, start, errs := false, [], None, [];
      safeCalls, booleanContexts, visits := 0, 0, [];
    }

    function Following(): Track
      reads `cur, `filteringObject, `start
    {
      Track(Somes(cur), filteringObject, start)
    }

    function State(): Log
      reads `cur, `filteringObject, `start, `errs
    {
      Log(Following(), errs)
    }

    method Reset()
      modifies `start, `filteringObject, `cur
      ensures AllSome(cur) && Following() == EMPTY
    {
      start := None;
      filteringObject := false;
      cur := [];
    }

    /** Moves the entries that are present to the front, and drops the rest. */
    method Compact()
      modifies `cur
      ensures cur == Compacted(old(cur))
      ensures AllSome(cur) && Somes(cur) == Somes(old(cur))
    {
      ghost var was := cur;
      var delta := 0;
      for i := 0 to |cur|
        invariant |cur| == |was| && 0 <= delta <= i
        invariant cur[..i - delta] == Compacted(was[..i])
        invariant cur[i..] == was[i..]
      {
        var c := cur[i];
        assert was[..i + 1] == was[..i] + [was[i]];
        assert was[..i + 1][..i] == was[..i];
        assert was[i] == was[i..][0] == cur[i..][0];
        if c == None {
          delta := delta + 1;
        } else if delta > 0 {
          cur := cur[i - delta := c];
        }
      }
      assert was[..|was|] == was;
      cur := cur[..|cur| - delta];
    }

    method OnVar(v: Expr)
      requires v.Variable? && Following() == EMPTY && AllSome(cur)
      modifies `start, `cur
      ensures AllSome(cur) && Following() == VarTrack(roots, v)
    {
      if v.Name() !in roots { return; }
      start := Some(v);
      ghost var was := cur;
      cur := cur + [Some(Cursor([v.Name()], roots[v.Name()]))];
      assert forall o | o in was :: o.value in Somes(was);
      assert Somes(cur) == {Cursor([v.Name()], roots[v.Name()])};
    }

    method OnPropAccess(name: string)
      requires AllSome(cur)
      modifies `cur
      ensures AllSome(cur) && Following() == PropStep(old(Following()), name)
    {
      ghost var was := cur;
      var compact := false;
      for i := 0 to |cur|
        invariant |cur| == |was| && cur[i..] == was[i..]
        invariant forall j | 0 <= j < i :: cur[j] == was[j].value.ObjectProp(name)
        invariant compact || forall j | 0 <= j < i :: cur[j].Some?
      {
        assert cur[i] == cur[i..][0];
        var c := cur[i].value.ObjectProp(name);
        if c.None? { compact := true; }
        cur := cur[i := c];
      }
      PropCursors(old(Following()), was, cur, name);
      if compact { Compact(); }
    }

    method OnIndexAccess()
      requires AllSome(cur)
      modifies `cur, `filteringObject
      ensures AllSome(cur) && Following() == IndexStep(old(Following()))
    {
      if filteringObject {
        filteringObject := false;
        return;
      }
      ghost var was := cur;
      var compact := false;
      for i := 0 to |cur|
        modifies `cur
        invariant |cur| == |was| && cur[i..] == was[i..]
        invariant forall j | 0 <= j < i :: cur[j] == was[j].value.Element()
        invariant compact || forall j | 0 <= j < i :: cur[j].Some?
      {
        assert cur[i] == cur[i..][0];
        var c := cur[i].value.Element();
        if c.None? { compact := true; }
        cur := cur[i := c];
      }
      ElementCursors(old(Following()), was, cur);
      if compact { Compact(); }
    }

    /** An object filter goes on to the elements of an array, or to every child of an object. */
    method OnObjectFilter()
      requires AllSome(cur)
      modifies `cur, `filteringObject
      ensures AllSome(cur) && Following() == FilterStep(old(Following()))
    {
      filteringObject := true;
      ghost var was := cur;
      var n := |cur|;
      var compact := false;
      for i := 0 to n
        modifies `cur
        invariant n == |was| <= |cur| && cur[i..n] == was[i..]
        invariant Produced(cur, i, n) == FilteredOf(was[..i])
        invariant compact || Filled(cur, i, n)
      {
        assert cur[i] == cur[i..n][0] == was[i] == was[i..][0];
        FilteredNext(was, i);
        var dropped := FilterOne(i, n, cur[i].value);
        compact := compact || dropped;
      }
      FilterCursors(old(Following()), was, cur, n);
      if compact { Compact(); }
    }

    /** The first child takes the place of its parent and the others go to the end, in no particular order. */
    method FilterOne(i: nat, n: nat, c: Cursor) returns (compact: bool)
      requires i < n <= |cur| && cur[i] == Some(c)
      modifies `cur
      ensures |cur| >= n && cur[i + 1..n] == old(cur)[i + 1..n]
      ensures Produced(cur, i + 1, n) == Produced(old(cur), i, n) + c.Filtered()
      ensures compact || (Filled(old(cur), i, n) ==> Filled(cur, i + 1, n))
    {
      ghost var was := cur;
      compact := false;
      if "*" in c.node.children {
        cur := cur[i := c.Child("*")];
        ProducedPut(was, i, n, c.Child("*").value);
        return;
      }
      if c.node.children == map[] {
        cur := cur[i := None];
        compact := true;
        ProducedDrop(was, i, n);
      }
      var first := true;
      var todo := c.node.children.Keys;
      while todo != {}
        invariant todo <= c.node.children.Keys
        invariant |cur| >= n && cur[i + 1..n] == was[i + 1..n]
        invariant first ==> todo == c.node.children.Keys && (todo != {} ==> cur == was)
        invariant compact <==> c.node.children == map[]
        invariant if first then todo != {} || Produced(cur, i + 1, n) == Produced(was, i, n)
                  else Produced(cur, i + 1, n) == Produced(was, i, n) + Kids(c, c.node.children.Keys - todo)
        invariant !first && Filled(was, i, n) ==> Filled(cur, i + 1, n)
        decreases todo
      {
        var k :| k in todo;
        KidsNext(c, todo, k);
        ghost var before := cur;
        if first {
          cur := cur[i := c.Child(k)];
          first := false;
          ProducedPut(before, i, n, c.Child(k).value);
        } else {
          cur := cur + [c.Child(k)];
          ProducedAdd(before, i + 1, n, c.Child(k).value);
        }
        todo := todo - {k};
      }
      KidsAll(c);
    }
  
    /** Cursors are only followed from a root that matched. */
    predicate Valid()
      reads `cur, `filteringObject, `start
    {
      AllSome(cur) && (start.Some? || Somes(cur) == {})
    }

    method AddReport(from: Option<Expr>, inputs: seq<seq<string>>)
      requires inputs != [] ==> from.Some?
      modifies `errs
      ensures errs == old(errs) + ReportInputs(from, Elements(inputs))
    {
      assert inputs != [] ==> inputs[0] in Elements(inputs);
      if |inputs| == 0 { return; }
      errs := errs + [Report(from.value, Elements(inputs))];
    }

    /** The paths of the cursors, of leaves and of others as asked. */
    method Paths(leaves: bool, others: bool) returns (inputs: seq<seq<string>>)
      requires Valid()
      ensures Elements(inputs) == Inputs(Following(), leaves, others)
      ensures inputs != [] ==> start.Some?
    {
      inputs := [];
      for i := 0 to |cur|
        invariant forall p :: p in inputs <==>
          exists j | 0 <= j < i :: (if cur[j].value.IsLeaf() then leaves else others) && p == cur[j].value.path
      {
        assert cur[i] in cur;
        var c := cur[i].value;
        if if c.IsLeaf() then leaves else others { inputs := inputs + [c.path]; }
      }
      PathsAreInputs(Following(), cur, inputs, leaves, others);
      assert inputs != [] ==> inputs[0] in Elements(inputs);
    }

    /** Reports what the access has found, and stops following it. */
    method EndInput(serialized: bool)
      requires Valid()
      modifies `start, `filteringObject, `cur, `errs
      ensures Valid() && State() == Log(EMPTY, old(errs) + Pending(old(Following()), serialized))
    {
      var inputs := Paths(true, serialized);
      AddReport(start, inputs);
      Reset();
    }

    /** Follows an access from its root, as a visit would. */
    method FollowAccess(e: Expr) returns (ok: bool)
      requires Valid() && Following() == EMPTY
      modifies `start, `filteringObject, `cur
      ensures ok == Followed(roots, e).Some?
      ensures ok ==> Valid() && Following() == Followed(roots, e).value
      decreases e
    {
      if e.Variable? {
        OnVar(e);
        return true;
      }
      if !IsAccess(e) { return false; }
      ok := FollowAccess(Receiver(e));
      if ok { OnAccess(e); }
    }

    method OnAccess(e: Expr)
      requires Valid() && (e.Property? || e.Filter? || e.Index?)
      modifies `start, `filteringObject, `cur
      ensures Valid() && Following() == AccessStep(old(Following()), e)
    {
      ghost var t := Following();
      match e {
        case Property(_, _, _) => OnPropAccess(e.Name());
        case Filter(_, _) => OnObjectFilter();
        case Index(_, _, i) => if i.StrLit? { OnPropAccess(Lower(i.str)); } else { OnIndexAccess(); }
      }
      StepsKeepStart(t, e);
      if start.Some? { start := Some(e); }
    }

    /** Reports the containers that serializing an expression can select. */
    method SerializedContainers(e: Expr)
      modifies `errs
      ensures errs == old(errs) + Containers(rt, roots, e)
      decreases e, 1
    {
      hide Followed, ReportInputs, Inputs, CaseContainers;
      match e
      case Logic(_, k, l, r) =>
        var v := ConditionConstantValue(rt, l);
        if v.Some? {
          if Truthy(v.value) != (k == Or) { SerializedContainers(r); }
          return;
        }
        if k == Or { SerializedContainers(l); }
        SerializedContainers(r);
      case Call(_, callee, args) =>
        if IsCase(callee) && CaseArity(|args|) { SerializedCase(e); }
      case _ => SerializedAccess(e);
    }

    /** The branches a call of case can select; a branch whose predicate is known ends or skips the search. */
    method SerializedCase(e: Expr)
      requires e.Call? && CaseArity(|e.args|)
      modifies `errs
      ensures errs == old(errs) + CaseContainers(rt, roots, e, 0)
      decreases e, 0
    {
      hide Containers;
      var i := 0;
      while i < |e.args| - 1
        invariant 0 <= i < |e.args| && i % 2 == 0
        invariant old(errs) + CaseContainers(rt, roots, e, 0) == errs + CaseContainers(rt, roots, e, i)
      {
        var v := ConditionConstantValue(rt, e.args[i]);
        if v.Some? {
          if Truthy(v.value) {
            SerializedContainers(e.args[i + 1]);
            return;
          }
        } else {
          SerializedContainers(e.args[i + 1]);
        }
        i := i + 2;
      }
      SerializedContainers(e.args[|e.args| - 1]);
    }

    method SerializedAccess(e: Expr)
      modifies `errs
      ensures errs == old(errs) +
        var t := Followed(roots, e); if t.None? then [] else ReportInputs(t.value.start, Inputs(t.value, false, true))
    {
      var access := new UntrustedInputChecker(rt, roots);
      var ok := access.FollowAccess(e);
      if !ok { return; }
      var inputs := access.Paths(false, true);
      AddReport(access.start, inputs);
    }

    /** Called on a node before its children; place is where it stands among its parent's children. */
    method OnVisitNodeEnter(n: Expr, place: nat)
      modifies `visits, `booleanContexts, `safeCalls
      ensures visits == old(visits) + [Visit(n, TruthOnly(old(visits), n, place))]
      ensures booleanContexts == old(booleanContexts) + if TruthOnly(old(visits), n, place) then 1 else 0
      ensures safeCalls == old(safeCalls) + if IsSafeCall(n) then 1 else 0
    {
      var boolean := n.Compare? || n.Not?;
      if |visits| > 0 {
        match visits[|visits| - 1].node
        case Logic(_, k, _, _) => boolean := boolean || (k == And && place == 0);
        case Call(_, callee, args) =>
          if IsCase(callee) {
            for i := 0 to |args| / 2
              invariant boolean <==> n.Compare? || n.Not? || exists j | 0 <= j < i :: place == 2 * j
            {
              boolean := boolean || place == 2 * i;
            }
            assert (exists j | 0 <= j < |args| / 2 :: place == 2 * j) <==> place % 2 == 0 && place + 1 < |args| by {
              if place % 2 == 0 && place + 1 < |args| { assert place == 2 * (place / 2); }
            }
          }
        case _ =>
      }
      visits := visits + [Visit(n, boolean)];
      if boolean { booleanContexts := booleanContexts + 1; }
      if IsSafeCall(n) { safeCalls := safeCalls + 1; }
    }

    /** Called on a node after its children. */
    method OnVisitNodeLeave(n: Expr)
      requires Valid() && visits != [] && (visits[|visits| - 1].boolean ==> booleanContexts > 0)
      modifies `start, `filteringObject, `cur, `errs, `visits, `booleanContexts, `safeCalls
      ensures Valid() && visits == old(visits)[..|old(visits)| - 1]
      ensures booleanContexts == old(booleanContexts) - if old(visits)[|old(visits)| - 1].boolean then 1 else 0
      ensures
        if old(safeCalls) > 0 then State() == old(State()) && safeCalls == old(safeCalls) - if IsSafeCall(n) then 1 else 0
        else State() == LeaveStep(rt, roots, old(State()), n, old(booleanContexts) > 0) && safeCalls == 0
    {
      hide AccessStep, Containers, Pending, IsSafeCall;
      if safeCalls > 0 {
        if IsSafeCall(n) { safeCalls := safeCalls - 1; }
      } else if n.Variable? {
        EndInput(false);
        OnVar(n);
      } else if IsAccess(n) {
        OnAccess(n);
      } else if booleanContexts == 0 && IsToJson(n) {
        if IsAccess(n.args[0]) {
          EndInput(true);
        } else {
          SerializedContainers(n.args[0]);
          EndInput(false);
        }
      } else {
        EndInput(false);
      }
      var visit := visits[|visits| - 1];
      visits := visits[..|visits| - 1];
      if visit.boolean { booleanContexts := booleanContexts - 1; }
    }

    method OnVisitEnd()
      requires Valid()
      modifies `start, `filteringObject, `cur, `errs
      ensures Valid() && State() == Log(EMPTY, Flush(old(State())))
    {
      EndInput(false);
    }
  }

  /** Whether only the truth of a node is used, as far as its parent tells. */
  predicate TruthOnly(visits: seq<Visit>, n: Expr, place: nat) {
    n.Compare? || n.Not? || (visits != [] && OnlyTruth(visits[|visits| - 1].node, place, n))
  }

  /** What leaving a node outside safe calls does. */
  function LeaveStep(rt: Runtime, roots: Roots, log: Log, n: Expr, boolean: bool): Log {
    if n.Variable? then Log(VarTrack(roots, n), Flush(log))
    else if IsAccess(n) then Log(AccessStep(log.track, n), log.errs)
    else if !boolean && IsToJson(n) then
      if IsAccess(n.args[0]) then Log(EMPTY, log.errs + Pending(log.track, true))
      else Log(EMPTY, log.errs + Containers(rt, roots, n.args[0]) + Pending(log.track, false))
    else Log(EMPTY, Flush(log))
  }

  function Elements(inputs: seq<seq<string>>): set<seq<string>> {
    set p | p in inputs
  }

  lemma PathsAreInputs(t: Track, cur: seq<Option<Cursor>>, inputs: seq<seq<string>>, leaves: bool, others: bool)
    requires AllSome(cur) && t.cur == Somes(cur)
    requires forall p :: p in inputs <==>
      exists j | 0 <= j < |cur| :: (if cur[j].value.IsLeaf() then leaves else others) && p == cur[j].value.path
    ensures Elements(inputs) == Inputs(t, leaves, others)
  {
    forall p ensures p in inputs <==> p in Inputs(t, leaves, others) {
      if j :| 0 <= j < |cur| && (if cur[j].value.IsLeaf() then leaves else others) && p == cur[j].value.path {
        assert cur[j].value in t.cur;
      }
      if p in Inputs(t, leaves, others) {
        var c :| c in t.cur && (if c.IsLeaf() then leaves else others) && p == c.path;
        var j :| 0 <= j < |cur| && cur[j] == Some(c);
      }
    }
  }

  lemma StepsKeepStart(t: Track, e: Expr)
    requires (t.start.Some? || t.cur == {}) && (e.Property? || e.Filter? || e.Index?)
    ensures AccessStep(t, e).start.Some? == t.start.Some?
    ensures AccessStep(t, e).start.Some? || AccessStep(t, e).cur == {}
  {
  }

  // ----- sets of cursors -----

  lemma PropCursors(t: Track, was: seq<Option<Cursor>>, cur: seq<Option<Cursor>>, name: string)
    requires t.cur == Somes(was) && AllSome(was) && |cur| == |was|
    requires forall j | 0 <= j < |was| :: cur[j] == was[j].value.ObjectProp(name)
    ensures Somes(cur) == PropStep(t, name).cur
  {
    var after := PropStep(t, name).cur;
    forall x | x in Somes(cur) ensures x in after {
      var j :| 0 <= j < |cur| && cur[j] == Some(x);
      assert was[j].value in Somes(was);
    }
    forall x | x in after ensures x in Somes(cur) {
      var c :| c in Somes(was) && c.ObjectProp(name) == Some(x);
      var j :| 0 <= j < |was| && was[j] == Some(c);
      assert cur[j] == Some(x);
    }
  }

  lemma ElementCursors(t: Track, was: seq<Option<Cursor>>, cur: seq<Option<Cursor>>)
    requires t.cur == Somes(was) && !t.filtering && AllSome(was) && |cur| == |was|
    requires forall j | 0 <= j < |was| :: cur[j] == was[j].value.Element()
    ensures Somes(cur) == IndexStep(t).cur
  {
    var after := IndexStep(t).cur;
    forall x | x in Somes(cur) ensures x in after {
      var j :| 0 <= j < |cur| && cur[j] == Some(x);
      assert was[j].value in Somes(was);
    }
    forall x | x in after ensures x in Somes(cur) {
      var c :| c in Somes(was) && c.Element() == Some(x);
      var j :| 0 <= j < |was| && was[j] == Some(c);
      assert cur[j] == Some(x);
    }
  }

  /** What a filter has produced when it has gone through the first i of n entries. */
  function Produced(cur: seq<Option<Cursor>>, i: nat, n: nat): set<Cursor>
    requires i <= n <= |cur|
  {
    Somes(cur[..i] + cur[n..])
  }

  predicate Filled(cur: seq<Option<Cursor>>, i: nat, n: nat)
    requires i <= n <= |cur|
  {
    AllSome(cur[..i] + cur[n..])
  }

  function FilteredOf(was: seq<Option<Cursor>>): set<Cursor> {
    set o, k | o in was && o.Some? && k in o.value.Filtered() :: k
  }

  lemma FilteredNext(was: seq<Option<Cursor>>, i: nat)
    requires i < |was| && was[i].Some?
    ensures FilteredOf(was[..i + 1]) == FilteredOf(was[..i]) + was[i].value.Filtered()
  {
    assert was[..i + 1] == was[..i] + [was[i]];
  }

  lemma FilterCursors(t: Track, was: seq<Option<Cursor>>, cur: seq<Option<Cursor>>, n: nat)
    requires t.cur == Somes(was) && n == |was| <= |cur| && AllSome(was) && Produced(cur, n, n) == FilteredOf(was[..n])
    ensures Somes(cur) == FilterStep(t).cur
    ensures Filled(cur, n, n) ==> AllSome(cur)
  {
    assert cur[..n] + cur[n..] == cur && was[..n] == was;
    assert forall c | c in Somes(was) :: Some(c) in was;
    assert forall o | o in was :: o.value in Somes(was);
  }

  lemma InsertCursor(a: seq<Option<Cursor>>, x: Cursor, b: seq<Option<Cursor>>)
    ensures Somes(a + [Some(x)] + b) == Somes(a + b) + {x}
    ensures AllSome(a + b) ==> AllSome(a + [Some(x)] + b)
  {
    assert forall o | o in a + b :: o in a + [Some(x)] + b;
    assert Some(x) in a + [Some(x)] + b;
  }

  lemma ProducedPut(cur: seq<Option<Cursor>>, i: nat, n: nat, x: Cursor)
    requires i < n <= |cur|
    ensures Produced(cur[i := Some(x)], i + 1, n) == Produced(cur, i, n) + {x}
    ensures Filled(cur, i, n) ==> Filled(cur[i := Some(x)], i + 1, n)
  {
    var after := cur[i := Some(x)];
    assert after[..i + 1] + after[n..] == cur[..i] + [Some(x)] + cur[n..];
    InsertCursor(cur[..i], x, cur[n..]);
  }

  lemma ProducedDrop(cur: seq<Option<Cursor>>, i: nat, n: nat)
    requires i < n <= |cur|
    ensures Produced(cur[i := None], i + 1, n) == Produced(cur, i, n)
  {
    assert cur[i := None][..i + 1] == cur[..i] + [None];
  }

  lemma ProducedAdd(cur: seq<Option<Cursor>>, i: nat, n: nat, x: Cursor)
    requires i <= n <= |cur|
    ensures Produced(cur + [Some(x)], i, n) == Produced(cur, i, n) + {x}
    ensures Filled(cur, i, n) ==> Filled(cur + [Some(x)], i, n)
  {
    var after := cur + [Some(x)];
    assert after[..i] + after[n..] == cur[..i] + cur[n..] + [Some(x)] + [];
    InsertCursor(cur[..i] + cur[n..], x, []);
    assert cur[..i] + cur[n..] + [] == cur[..i] + cur[n..];
  }

  function Kids(c: Cursor, keys: set<string>): set<Cursor>
    requires keys <= c.node.children.Keys
  {
    set k | k in keys :: c.Child(k).value
  }

  lemma KidsNext(c: Cursor, todo: set<string>, k: string)
    requires todo <= c.node.children.Keys && k in todo
    ensures Kids(c, c.node.children.Keys - (todo - {k})) == Kids(c, c.node.children.Keys - todo) + {c.Child(k).value}
  {
    assert c.node.children.Keys - (todo - {k}) == (c.node.children.Keys - todo) + {k};
  }

  lemma KidsAll(c: Cursor)
    requires "*" !in c.node.children
    ensures Kids(c, c.node.children.Keys - {}) == c.Filtered()
  {
    assert c.node.children.Keys - {} == c.node.children.Keys;
  }
}
