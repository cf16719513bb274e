/** Which paths of the search tree an access matches, step by step (internal/expression/expr_insecure.go). */
module UntrustedMatches {
  import opened Text
  import opened Syntax
  import opened Semantics
  import opened UntrustedInputs

  /** One step of an access: to a member by its name, to an element by a computed index, or to everything by a filter. */
  datatype Segment = Member(name: string) | Element | Every

  /** The steps of an access, from its variable on. */
  function Segments(e: Expr): seq<Segment>
    decreases e
  {
    match e
    case Property(_, r, _) => Segments(r) + [Member(e.Name())]
    case Filter(_, r) => Segments(r) + [Every]
    case Index(_, o, i) => Segments(o) + [if i.StrLit? then Member(Lower(i.str)) else Element]
    case _ => []
  }

  /** The variable that an access starts at. */
  function Root(e: Expr): Option<string>
    decreases e
  {
    if e.Variable? then Some(e.Name())
    else if IsAccess(e) then Root(Receiver(e))
    else None
  }

  /** A filter has been applied, and no index since. */
  predicate AfterFilter(steps: seq<Segment>) {
    steps != [] && match steps[|steps| - 1]
      case Member(_) => AfterFilter(steps[..|steps| - 1])
      case Element => false
      case Every => true
  }

  /** From a node with these children, the step leads to the child of that name. */
  predicate Leads(children: set<string>, step: Segment, key: string) {
    key in children &&
    match step
    case Member(name) => key == if name in children then name else "**"
    case Element => key == if "*" in children then "*" else "**"
    case Every => "*" in children ==> key == "*"
  }

  /** The path of the tree is one that the steps lead along from the root; an index after a filter stays where it is. */
  predicate Matches(roots: Roots, root: string, steps: seq<Segment>, path: seq<string>)
    decreases |steps|
  {
    if steps == [] then path == [root] && root in roots
    else
      var n, before := |path| - 1, steps[..|steps| - 1];
      if steps[|steps| - 1].Element? && AfterFilter(before) then Matches(roots, root, before, path)
      else
        && n > 0 && At(roots, path[..n]).Some?
        && Matches(roots, root, before, path[..n])
        && Leads(At(roots, path[..n]).value.children.Keys, steps[|steps| - 1], path[n])
  }

  lemma {:induction false} MatchedIsThere(roots: Roots, root: string, steps: seq<Segment>, path: seq<string>)
    requires Matches(roots, root, steps, path)
    ensures path != [] && At(roots, path).Some?
    decreases |steps|
  {
    if steps != [] {
      var before := steps[..|steps| - 1];
      if steps[|steps| - 1].Element? && AfterFilter(before) { MatchedIsThere(roots, root, before, path); }
    }
  }

  /** The access has reached exactly the paths that its steps match, and waits for an index if it was filtered. */
  ghost predicate Reached(roots: Roots, root: string, steps: seq<Segment>, t: Track) {
    && t.filtering == AfterFilter(steps)
    && (forall c | c in t.cur :: InTree(roots, c) && Matches(roots, root, steps, c.path))
    && (forall path | Matches(roots, root, steps, path) ::
          path != [] && At(roots, path).Some? && Cursor(path, At(roots, path).value) in t.cur)
  }

  /** The cursors that a moving step leads to from one cursor. */
  predicate MovesTo(step: Segment, c: Cursor, d: Cursor) {
    && d.path != [] && d.path[..|d.path| - 1] == c.path
    && Leads(c.node.children.Keys, step, d.path[|d.path| - 1])
    && d.node == c.node.children[d.path[|d.path| - 1]]
  }

  function StepOf(e: Expr): Segment
    requires e.Property? || e.Filter? || e.Index?
  {
    match e
    case Property(_, _, _) => Member(e.Name())
    case Filter(_, _) => Every
    case Index(_, _, i) => if i.StrLit? then Member(Lower(i.str)) else Element
  }

  lemma ByName(t: Track, name: string, d: Cursor)
    ensures d in PropStep(t, name).cur <==> exists c | c in t.cur :: MovesTo(Member(name), c, d)
  {
    forall c | c in t.cur ensures MovesTo(Member(name), c, d) <==> c.ObjectProp(name) == Some(d) {
      ChildMoves(c, if name in c.node.children then name else "**", d);
    }
  }

  lemma ByElement(t: Track, d: Cursor)
    requires !t.filtering
    ensures d in IndexStep(t).cur <==> exists c | c in t.cur :: MovesTo(Element, c, d)
  {
    forall c | c in t.cur ensures MovesTo(Element, c, d) <==> c.Element() == Some(d) {
      ChildMoves(c, if "*" in c.node.children then "*" else "**", d);
    }
  }

  lemma ByFilter(t: Track, d: Cursor)
    ensures d in FilterStep(t).cur <==> exists c | c in t.cur :: MovesTo(Every, c, d)
  {
    forall c | c in t.cur ensures MovesTo(Every, c, d) <==> d in c.Filtered() {
      FilterMoves(c, d);
    }
  }

  lemma ChildMoves(c: Cursor, key: string, d: Cursor)
    ensures c.Child(key) == Some(d) <==>
      d.path != [] && d.path[..|d.path| - 1] == c.path && d.path[|d.path| - 1] == key && key in c.node.children
      && d.node == c.node.children[key]
  {
    if d.path != [] { assert d.path == d.path[..|d.path| - 1] + [d.path[|d.path| - 1]]; }
  }

  lemma FilterMoves(c: Cursor, d: Cursor)
    ensures MovesTo(Every, c, d) <==> d in c.Filtered()
  {
    if "*" in c.node.children {
      ChildMoves(c, "*", d);
    } else {
      if d.path != [] { ChildMoves(c, d.path[|d.path| - 1], d); }
      forall k | k in c.node.children && c.Child(k) == Some(d) ensures MovesTo(Every, c, d) { ChildMoves(c, k, d); }
    }
  }

  /** Each step of an access moves the cursors where it leads, or waits after a filter. */
  lemma StepMoves(t: Track, e: Expr, d: Cursor)
    requires e.Property? || e.Filter? || e.Index?
    ensures AccessStep(t, e).filtering == match StepOf(e) case Member(_) => t.filtering case Element => false case Every => true
    ensures if StepOf(e).Element? && t.filtering then AccessStep(t, e).cur == t.cur
      else d in AccessStep(t, e).cur <==> exists c | c in t.cur :: MovesTo(StepOf(e), c, d)
  {
    hide MovesTo, Lower;
    match e
    case Property(_, _, _) => ByName(t, e.Name(), d);
    case Filter(_, _) => ByFilter(t, d);
    case Index(_, _, i) =>
      if i.StrLit? { ByName(t, Lower(i.str), d); } else if !t.filtering { ByElement(t, d); }
  }

  lemma SegmentsLast(e: Expr)
    requires e.Property? || e.Filter? || e.Index?
    ensures Segments(e) == Segments(Receiver(e)) + [StepOf(e)]
  {
  }

  lemma InTreeMoves(roots: Roots, step: Segment, c: Cursor, d: Cursor)
    requires InTree(roots, c) && MovesTo(step, c, d)
    ensures InTree(roots, d)
  {
  }

  /** A followed access has reached exactly what its steps match. */
  lemma {:induction false} FollowedReaches(roots: Roots, e: Expr)
    requires Followed(roots, e).Some?
    ensures Root(e).Some? && Reached(roots, Root(e).value, Segments(e), Followed(roots, e).value)
    decreases e
  {
    hide Lower;
    if e.Variable? {
      VariableReaches(roots, e);
    } else {
      var r := Receiver(e);
      FollowedReaches(roots, r);
      SegmentsLast(e);
      StepReaches(roots, Root(e).value, Segments(r), Followed(roots, r).value, e);
    }
  }

  lemma VariableReaches(roots: Roots, e: Expr)
    requires e.Variable?
    ensures Reached(roots, e.Name(), [], VarTrack(roots, e))
  {
    hide Lower;
    forall path | Matches(roots, e.Name(), [], path)
      ensures path != [] && At(roots, path).Some? && Cursor(path, At(roots, path).value) in VarTrack(roots, e).cur {}
  }

  lemma StepReaches(roots: Roots, root: string, steps: seq<Segment>, t: Track, e: Expr)
    requires (e.Property? || e.Filter? || e.Index?) && Reached(roots, root, steps, t)
    ensures Reached(roots, root, steps + [StepOf(e)], AccessStep(t, e))
  {
    hide AccessStep, StepOf, Matches, AfterFilter, InTree, At;
    if StepOf(e).Element? && t.filtering {
      WaitReaches(roots, root, steps, t, e);
    } else {
      MoveReaches(roots, root, steps, t, e);
    }
  }

  /** An index after a filter stays where it is. */
  lemma WaitReaches(roots: Roots, root: string, steps: seq<Segment>, t: Track, e: Expr)
    requires (e.Property? || e.Filter? || e.Index?) && Reached(roots, root, steps, t) && StepOf(e).Element? && t.filtering
    ensures Reached(roots, root, steps + [StepOf(e)], AccessStep(t, e))
  {
    hide AccessStep, StepOf, Matches, AfterFilter, InTree, At;
    StepMoves(t, e, Cursor([], InputMap("", map[])));
    FilterAfter(steps, StepOf(e));
    forall path ensures Matches(roots, root, steps + [StepOf(e)], path) == Matches(roots, root, steps, path) {
      WaitMatches(roots, root, steps, StepOf(e), path);
    }
  }

  lemma WaitMatches(roots: Roots, root: string, steps: seq<Segment>, step: Segment, path: seq<string>)
    requires step.Element? && AfterFilter(steps)
    ensures Matches(roots, root, steps + [step], path) == Matches(roots, root, steps, path)
  {
    hide AfterFilter, At;
    assert (steps + [step])[..|steps|] == steps;
  }

  lemma MoveReaches(roots: Roots, root: string, steps: seq<Segment>, t: Track, e: Expr)
    requires (e.Property? || e.Filter? || e.Index?) && Reached(roots, root, steps, t) && !(StepOf(e).Element? && t.filtering)
    ensures Reached(roots, root, steps + [StepOf(e)], AccessStep(t, e))
  {
    hide AccessStep, StepOf, MovesTo, AfterFilter, Matches, At;
    var after, now := steps + [StepOf(e)], AccessStep(t, e);
    FilterAfter(steps, StepOf(e));
    StepMoves(t, e, Cursor([], InputMap("", map[])));
    forall d | d in now.cur ensures InTree(roots, d) && Matches(roots, root, after, d.path) {
      StepMoves(t, e, d);
      var c :| c in t.cur && MovesTo(StepOf(e), c, d);
      InTreeMoves(roots, StepOf(e), c, d);
      MoveMatches(roots, root, steps, StepOf(e), c, d);
    }
    forall path | Matches(roots, root, after, path)
      ensures path != [] && At(roots, path).Some? && Cursor(path, At(roots, path).value) in now.cur
    {
      MatchesBefore(roots, root, steps, StepOf(e), path);
      var c := Cursor(path[..|path| - 1], At(roots, path[..|path| - 1]).value);
      assert c in t.cur;
      MatchMoves(roots, root, steps, StepOf(e), c, path);
      StepMoves(t, e, Cursor(path, At(roots, path).value));
    }
  }

  lemma MatchesBefore(roots: Roots, root: string, steps: seq<Segment>, step: Segment, path: seq<string>)
    requires Matches(roots, root, steps + [step], path) && !(step.Element? && AfterFilter(steps))
    ensures |path| > 1 && At(roots, path[..|path| - 1]).Some? && Matches(roots, root, steps, path[..|path| - 1])
  {
    hide AfterFilter, At;
    assert (steps + [step])[..|steps|] == steps;
  }

  lemma FilterAfter(steps: seq<Segment>, step: Segment)
    ensures AfterFilter(steps + [step]) == match step case Member(_) => AfterFilter(steps) case Element => false case Every => true
  {
    assert (steps + [step])[..|steps|] == steps;
  }

  lemma MoveMatches(roots: Roots, root: string, steps: seq<Segment>, step: Segment, c: Cursor, d: Cursor)
    requires InTree(roots, c) && Matches(roots, root, steps, c.path) && MovesTo(step, c, d)
    requires !(step.Element? && AfterFilter(steps))
    ensures Matches(roots, root, steps + [step], d.path)
  {
    hide Leads, At, AfterFilter;
    assert (steps + [step])[..|steps|] == steps;
    assert |c.path| > 0;
  }

  lemma MatchMoves(roots: Roots, root: string, steps: seq<Segment>, step: Segment, c: Cursor, path: seq<string>)
    requires !(step.Element? && AfterFilter(steps)) && Matches(roots, root, steps + [step], path)
    requires path != [] && c.path == path[..|path| - 1] && c.path != [] && At(roots, c.path) == Some(c.node)
    ensures At(roots, path).Some? && MovesTo(step, c, Cursor(path, At(roots, path).value))
  {
    hide AfterFilter;
    assert (steps + [step])[..|steps|] == steps;
  }

  // ----- what is reported for an access -----

  /** The path is one that the access leads along, to a leaf unless it is serialized. */
  predicate Finds(roots: Roots, e: Expr, serialized: bool, path: seq<string>) {
    && Root(e).Some? && Matches(roots, Root(e).value, Segments(e), path)
    && path != [] && At(roots, path).Some? && (serialized || At(roots, path).value.children == map[])
  }

  lemma {:induction false} FollowedExactly(roots: Roots, e: Expr)
    ensures Followed(roots, e).Some? <==> Root(e).Some?
    decreases e
  {
    if e.Property? || e.Filter? || e.Index? { FollowedExactly(roots, Receiver(e)); }
  }

  /** The inputs found by an access are the paths that its steps match. */
  lemma InputsExactly(roots: Roots, e: Expr, serialized: bool, path: seq<string>)
    requires Followed(roots, e).Some?
    ensures path in Inputs(Followed(roots, e).value, true, serialized) <==> Finds(roots, e, serialized, path)
  {
    hide Followed, Segments, Matches;
    FollowedReaches(roots, e);
    if Finds(roots, e, serialized, path) {
      var c := Cursor(path, At(roots, path).value);
      assert c in Followed(roots, e).value.cur;
    }
  }

  /** An access is reported once, with exactly the paths that its steps match, when there is one. */
  lemma AccessReported(rt: Runtime, roots: Roots, e: Expr, serialized: bool, r: Report)
    ensures r in LookupReports(rt, roots, if serialized then Serialized(e) else Read(e)) <==>
      r.start == e && r.inputs != {} && forall path :: path in r.inputs <==> Finds(roots, e, serialized, path)
    ensures |LookupReports(rt, roots, if serialized then Serialized(e) else Read(e))| <= 1
  {
    hide Followed, Finds, Inputs;
    FollowedExactly(roots, e);
    if Followed(roots, e).Some? {
      FollowedStart(roots, e);
      var inputs := Inputs(Followed(roots, e).value, true, serialized);
      forall path ensures path in inputs <==> Finds(roots, e, serialized, path) { InputsExactly(roots, e, serialized, path); }
      if Followed(roots, e).value.start.None? { NothingFound(Followed(roots, e).value, serialized); }
      assert (forall path :: path in r.inputs <==> Finds(roots, e, serialized, path)) <==> r.inputs == inputs;
    } else {
      forall path ensures !Finds(roots, e, serialized, path) { NoRoot(roots, e, serialized, path); }
      if r.inputs != {} { var path :| path in r.inputs; }
    }
  }

  /** The report of an access that finds an input. */
  lemma ReportOf(rt: Runtime, roots: Roots, e: Expr, serialized: bool, input: seq<string>) returns (r: Report)
    requires Finds(roots, e, serialized, input)
    ensures r in LookupReports(rt, roots, if serialized then Serialized(e) else Read(e))
    ensures r.start == e && input in r.inputs
  {
    hide Followed, Finds, Inputs;
    FollowedExactly(roots, e);
    if Root(e).None? { NoRoot(roots, e, serialized, input); }
    r := Report(e, Inputs(Followed(roots, e).value, true, serialized));
    forall path ensures path in r.inputs <==> Finds(roots, e, serialized, path) { InputsExactly(roots, e, serialized, path); }
    AccessReported(rt, roots, e, serialized, r);
  }

  lemma FindsMore(roots: Roots, e: Expr, serialized: bool, input: seq<string>)
    requires Finds(roots, e, false, input)
    ensures Finds(roots, e, serialized, input)
  {
  }

  lemma NothingFound(t: Track, serialized: bool)
    requires t.cur == {}
    ensures Inputs(t, true, serialized) == {}
  {
  }

  lemma NoRoot(roots: Roots, e: Expr, serialized: bool, path: seq<string>)
    requires Root(e).None?
    ensures !Finds(roots, e, serialized, path)
  {
  }
}
