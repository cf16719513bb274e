/** Validating a layer contract and resolving its graph (analyzers/architecture/contract.go). */
module LayerContract {
  import opened Text
  import opened LayerGraph
  import opened PackagePaths

  datatype Definition = Definition(mod: string, layers: seq<Layer>)

  datatype Contract = Contract(
    mod: string,
    layers: Layers,
    roots: seq<string>,
    owners: map<string, string>,
    allowed: map<string, set<string>>)

  datatype Fault =
    | InvalidModule
    | NoLayers
    | InvalidName(name: string)
    | DuplicateLayer(name: string)
    | NoRoots(name: string)
    | InvalidRoot(name: string, root: string)
    | SharedRoot(root: string, owner: string, name: string)
    | Cycle(name: string)
    | UnknownLayer(name: string)
    | RepeatedDependency(name: string, dep: string)
    | TestOnlyDependency(name: string, dep: string)

  datatype Parsed = Valid(contract: Contract) | Invalid(fault: Fault)

  // ----- names -----

  predicate IsSpace(c: char) {
    || '\t' <= c <= '\r' || c == ' ' || c == '\U{0085}' || c == '\U{00A0}' || c == '\U{1680}'
    || '\U{2000}' <= c <= '\U{200A}' || c == '\U{2028}' || c == '\U{2029}' || c == '\U{202F}'
    || c == '\U{205F}' || c == '\U{3000}'
  }

  predicate ValidName(s: string) {
    s != "" && !IsSpace(s[0]) && !IsSpace(s[|s| - 1])
  }

  predicate ValidModule(s: string) {
    ValidPath(s) && s != "."
  }

  // ----- what a definition says -----

  function Table(ls: seq<Layer>): (r: Layers)
    ensures forall n | n in r :: r[n] in ls && r[n].name == n
    ensures forall l | l in ls :: l.name in r
  {
    if ls == [] then map[] else Table(ls[..|ls| - 1])[ls[|ls| - 1].name := ls[|ls| - 1]]
  }

  function RootsOf(ls: seq<Layer>): seq<string> {
    if ls == [] then [] else RootsOf(ls[..|ls| - 1]) + ls[|ls| - 1].roots
  }

  predicate NoRepeats(s: seq<string>) {
    forall i, j | 0 <= i < j < |s| :: s[i] != s[j]
  }

  predicate DistinctNames(ls: seq<Layer>) {
    forall i, j | 0 <= i < j < |ls| :: ls[i].name != ls[j].name
  }

  /** Some layer of the name lists the root. */
  predicate Lists(ls: seq<Layer>, root: string, name: string) {
    exists i | 0 <= i < |ls| :: ls[i].name == name && root in ls[i].roots
  }

  predicate GoodLayer(l: Layer) {
    ValidName(l.name) && l.roots != [] && forall r | r in l.roots :: ValidPath(r)
  }

  /** The layers' names and roots are well formed, and none is declared twice. */
  predicate GoodLayers(ls: seq<Layer>) {
    && (forall i | 0 <= i < |ls| :: GoodLayer(ls[i]))
    && DistinctNames(ls)
    && NoRepeats(RootsOf(ls))
  }

  /** A production layer uses a test-only one. */
  predicate UsesTests(layers: Layers, a: string, b: string) {
    Uses(layers, a, b) && b in layers && layers[b].testOnly && !layers[a].testOnly
  }

  /** Everything the layer uses is declared, once, and permitted for it. */
  predicate GoodUses(layers: Layers, name: string) {
    && name in layers
    && NoRepeats(layers[name].uses)
    && forall b | b in layers[name].uses :: b in layers && !UsesTests(layers, name, b)
  }

  ghost predicate Acceptable(d: Definition) {
    && ValidModule(d.mod)
    && d.layers != []
    && GoodLayers(d.layers)
    && (forall n | n in Table(d.layers) :: GoodUses(Table(d.layers), n))
    && Acyclic(Table(d.layers))
  }

  /** What a reported fault says is so. */
  ghost predicate GraphFault(layers: Layers, f: Fault) {
    match f
    case Cycle(n) => Depends(layers, n, n)
    case UnknownLayer(n) => n !in layers && exists a :: Uses(layers, a, n)
    case RepeatedDependency(n, dep) => n in layers && dep in layers[n].uses && !NoRepeats(layers[n].uses)
    case TestOnlyDependency(n, dep) => UsesTests(layers, n, dep)
    case _ => false
  }

  ghost predicate TrueFault(d: Definition, f: Fault) {
    match f
    case InvalidModule => !ValidModule(d.mod)
    case NoLayers => d.layers == []
    case InvalidName(n) => !ValidName(n) && exists i | 0 <= i < |d.layers| :: d.layers[i].name == n
    case DuplicateLayer(n) => exists i, j | 0 <= i < j < |d.layers| :: d.layers[i].name == n && d.layers[j].name == n
    case NoRoots(n) => exists i | 0 <= i < |d.layers| :: d.layers[i].name == n && d.layers[i].roots == []
    case InvalidRoot(n, r) => !ValidPath(r) && Lists(d.layers, r, n)
    case SharedRoot(r, owner, n) =>
      Lists(d.layers, r, owner) && Lists(d.layers, r, n) && !NoRepeats(RootsOf(d.layers))
    case _ => GraphFault(Table(d.layers), f)
  }

  /** A definition with a fault is not acceptable. */
  lemma FaultRefuses(d: Definition, f: Fault)
    requires TrueFault(d, f)
    ensures !Acceptable(d)
  {
    hide RootsOf, ValidPath, ValidName;
  }

  // ----- resolving the graph -----

  /** The layers resolved so far, in the order in which they were finished. */
  ghost predicate Resolved(layers: Layers, allowed: map<string, set<string>>, order: seq<string>) {
    && (forall n :: n in order <==> n in allowed)
    && (forall n | n in allowed :: GoodUses(layers, n))
    && (forall n, y | n in allowed :: y in allowed[n] <==> Reaches(layers, n, y))
    && Ordered(layers, order)
  }

  lemma FinishLayer(layers: Layers, allowed: map<string, set<string>>, order: seq<string>, name: string, permitted: set<string>)
    requires Resolved(layers, allowed, order) && GoodUses(layers, name) && name !in allowed
    requires forall b | b in layers[name].uses :: b in allowed
    requires forall y :: y in permitted <==> y == name || exists b | b in layers[name].uses :: Reaches(layers, b, y)
    ensures Resolved(layers, allowed[name := permitted], order + [name])
  {
    forall y ensures y in permitted <==> Reaches(layers, name, y) {
      ReachesFirst(layers, name, y);
      if Depends(layers, name, y) {
        var b :| Uses(layers, name, b) && Reaches(layers, b, y);
        assert b in layers[name].uses && Reaches(layers, b, y);
      }
      if b :| b in layers[name].uses && Reaches(layers, b, y) {
        assert Uses(layers, name, b);
      }
    }
    var after := order + [name];
    forall i, b | 0 <= i < |after| && Uses(layers, after[i], b) ensures b in after[..i] {
      if i < |order| {
        assert after[..i] == order[..i];
      } else {
        assert after[..i] == order;
      }
    }
  }

  /** What a layer's visit knows after the first i of its uses. */
  ghost predicate Scanned(layers: Layers, name: string, i: nat, allowed: map<string, set<string>>,
                          seen: set<string>, permitted: set<string>)
    requires name in layers
  {
    var uses := layers[name].uses;
    && i <= |uses|
    && (forall j | 0 <= j < i :: uses[j] in layers && uses[j] in allowed && !UsesTests(layers, name, uses[j]))
    && (forall n :: n in seen <==> n in uses[..i])
    && NoRepeats(uses[..i])
    && (forall y :: y in permitted <==> y == name || exists b | b in uses[..i] :: Reaches(layers, b, y))
  }

  lemma ScanStep(layers: Layers, name: string, i: nat, was: map<string, set<string>>, allowed: map<string, set<string>>,
                 order: seq<string>, seen: set<string>, permitted: set<string>)
    requires name in layers && Scanned(layers, name, i, was, seen, permitted) && i < |layers[name].uses|
    requires Resolved(layers, allowed, order) && forall n | n in was :: n in allowed
    requires var dep := layers[name].uses[i]; dep !in seen && dep in layers && dep in allowed && !UsesTests(layers, name, dep)
    ensures var dep := layers[name].uses[i];
      Scanned(layers, name, i + 1, allowed, seen + {dep}, permitted + allowed[dep])
  {
    var uses := layers[name].uses;
    assert uses[..i + 1] == uses[..i] + [uses[i]];
    forall y ensures y in permitted + allowed[uses[i]] <==> y == name || exists b | b in uses[..i + 1] :: Reaches(layers, b, y) {
      if b :| b in uses[..i + 1] && Reaches(layers, b, y) {
        assert b in uses[..i] || b == uses[i];
      }
    }
  }

  lemma ScanDone(layers: Layers, name: string, allowed: map<string, set<string>>, order: seq<string>,
                 seen: set<string>, permitted: set<string>)
    requires name in layers && Scanned(layers, name, |layers[name].uses|, allowed, seen, permitted)
    requires Resolved(layers, allowed, order) && name !in allowed
    ensures Resolved(layers, allowed[name := permitted], order + [name])
  {
    var uses := layers[name].uses;
    assert uses[..|uses|] == uses;
    FinishLayer(layers, allowed, order, name, permitted);
  }

  lemma VisitedDepend(layers: Layers, visiting: set<string>, name: string, dep: string)
    requires Uses(layers, name, dep) && forall v | v in visiting :: Depends(layers, v, name)
    ensures forall v | v in visiting + {name} :: Depends(layers, v, dep)
  {
    UseDepends(layers, name, dep);
    ReachesFirst(layers, name, dep);
    forall v | v in visiting ensures Depends(layers, v, dep) {
      DependsThen(layers, v, name, dep);
    }
  }

  class Resolver {
    const layers: Layers
    var visiting: set<string>
    var allowed: map<string, set<string>>
    ghost var order: seq<string>

    constructor (layers: Layers)
      ensures this.layers == layers && visiting == {} && allowed == map[] && order == []
    {
      this.layers := layers;
      visiting, allowed, order := {}, map[], [];
    }

    ghost predicate State()
      reads `visiting, `allowed, `order
    {
      visiting + allowed.Keys <= layers.Keys && visiting !! allowed.Keys && Resolved(layers, allowed, order)
    }

    /** Resolves a layer after everything it uses; the layers being visited all depend on it. */
    method Visit(name: string) returns (fault: Option<Fault>)
      requires State()
      requires forall v | v in visiting :: Depends(layers, v, name)
      requires name in layers || exists a :: Uses(layers, a, name)
      modifies this
      ensures fault.Some? ==> GraphFault(layers, fault.value)
      ensures fault.None? ==> State() && visiting == old(visiting) && name in layers && name in allowed
      ensures fault.None? ==> forall n | n in old(allowed) :: n in allowed
      decreases layers.Keys - visiting
    {
      hide Resolved, Scanned, Depends, NoRepeats;
      if name in visiting { return Some(Cycle(name)); }
      if name in allowed { return None; }
      if name !in layers { return Some(UnknownLayer(name)); }
      var l := layers[name];
      ghost var was := visiting;
      visiting := visiting + {name};
      var permitted := {name};
      var seen := {};
      ScanStart(layers, name, allowed);
      for i := 0 to |l.uses|
        invariant State() && visiting == was + {name}
        invariant forall n | n in old(allowed) :: n in allowed
        invariant Scanned(layers, name, i, allowed, seen, permitted)
      {
        var dep := l.uses[i];
        if dep in seen {
          SeenRepeats(layers, name, i, allowed, seen, permitted);
          return Some(RepeatedDependency(name, dep));
        }
        ghost var before, known := allowed, seen;
        seen := seen + {dep};
        if dep in layers && layers[dep].testOnly && !l.testOnly { return Some(TestOnlyDependency(name, dep)); }
        assert Uses(layers, name, dep);
        VisitedDepend(layers, was, name, dep);
        fault := Visit(dep);
        if fault.Some? { return; }
        ScanStep(layers, name, i, before, allowed, order, known, permitted);
        permitted := permitted + allowed[dep];
      }
      visiting := visiting - {name};
      ScanDone(layers, name, allowed, order, seen, permitted);
      allowed := allowed[name := permitted];
      order := order + [name];
      return None;
    }
  }

  lemma ScanStart(layers: Layers, name: string, allowed: map<string, set<string>>)
    requires name in layers
    ensures Scanned(layers, name, 0, allowed, {}, {name})
  {
  }

  lemma SeenRepeats(layers: Layers, name: string, i: nat, allowed: map<string, set<string>>,
                    seen: set<string>, permitted: set<string>)
    requires name in layers && Scanned(layers, name, i, allowed, seen, permitted)
    requires i < |layers[name].uses| && layers[name].uses[i] in seen
    ensures !NoRepeats(layers[name].uses)
  {
    var uses := layers[name].uses;
    var j :| 0 <= j < i && uses[j] == uses[i];
  }

  // ----- parsing -----

  /** Longer roots come first; roots of one length are in alphabetical order. */
  predicate Before(a: string, b: string) {
    |a| > |b| || (|a| == |b| && !LessText(b, a))
  }

  predicate LessText(a: string, b: string) {
    b != "" && (a == "" || a[0] < b[0] || (a[0] == b[0] && LessText(a[1..], b[1..])))
  }

  function Insert(r: string, sorted: seq<string>): seq<string> {
    if sorted == [] then [r]
    else if Before(r, sorted[0]) then [r] + sorted
    else [sorted[0]] + Insert(r, sorted[1..])
  }

  function SortRoots(roots: seq<string>): seq<string> {
    if roots == [] then [] else Insert(roots[0], SortRoots(roots[1..]))
  }

  predicate LongestFirst(roots: seq<string>) {
    forall i, j | 0 <= i < j < |roots| :: |roots[i]| >= |roots[j]|
  }

  lemma {:induction false} InsertSorts(r: string, sorted: seq<string>)
    requires LongestFirst(sorted)
    ensures LongestFirst(Insert(r, sorted))
    ensures multiset(Insert(r, sorted)) == multiset(sorted) + multiset{r}
  {
    if sorted != [] && !Before(r, sorted[0]) {
      InsertSorts(r, sorted[1..]);
      var rest := Insert(r, sorted[1..]);
      assert sorted == [sorted[0]] + sorted[1..];
      forall i | 0 <= i < |rest| ensures |sorted[0]| >= |rest[i]| {
        assert rest[i] in multiset(rest);
        assert rest[i] == r || rest[i] in sorted[1..];
      }
    }
  }

  lemma {:induction false} RootsAreSorted(roots: seq<string>)
    ensures LongestFirst(SortRoots(roots)) && multiset(SortRoots(roots)) == multiset(roots)
  {
    if roots != [] {
      RootsAreSorted(roots[1..]);
      InsertSorts(roots[0], SortRoots(roots[1..]));
      assert roots == [roots[0]] + roots[1..];
    }
  }

  /** Each declared root has an owner that lists it. */
  ghost predicate OwnersOf(ls: seq<Layer>, owners: map<string, string>, roots: seq<string>) {
    && (forall r :: r in owners <==> r in roots)
    && (forall r | r in owners :: Lists(ls, r, owners[r]))
  }

  /** The contract is what the definition declares, with the graph resolved. */
  ghost predicate Describes(c: Contract, d: Definition) {
    && c.mod == d.mod
    && c.layers == Table(d.layers)
    && LongestFirst(c.roots)
    && multiset(c.roots) == multiset(RootsOf(d.layers))
    && OwnersOf(d.layers, c.owners, c.roots)
    && c.allowed.Keys == c.layers.Keys
    && (forall n, y | n in c.allowed :: y in c.allowed[n] <==> Reaches(c.layers, n, y))
  }

  class Builder {
    var layers: Layers
    var owners: map<string, string>
    var roots: seq<string>

    constructor ()
      ensures layers == map[] && owners == map[] && roots == []
    {
      layers, owners, roots := map[], map[], [];
    }

    /** What the builder holds after the layers given so far. */
    ghost predicate Holds(ls: seq<Layer>)
      reads `layers, `owners, `roots
    {
      && GoodLayers(ls)
      && layers == Table(ls)
      && roots == RootsOf(ls)
      && OwnersOf(ls, owners, roots)
    }

    /** Declares the roots of a layer, each of which must be new. */
    method AddRoots(ghost ls: seq<Layer>, l: Layer) returns (fault: Option<Fault>)
      requires Holds(ls) && ValidName(l.name) && l.name !in layers && l.roots != []
      modifies this
      ensures fault.None? ==> Holds(ls + [l])
      ensures fault.Some? ==> RootFault(ls + [l], fault.value)
    {
      hide Table, RootsOf, ValidPath, ValidName, NoRepeats, Lists, OwnersOf;
      ghost var all, before := ls + [l], roots;
      assert l.roots[..0] == [] && roots + [] == roots;
      layers := layers[l.name := l];
      TableGrows(ls, l);
      OwnersGrow(ls, l, owners, roots);
      for i := 0 to |l.roots|
        invariant layers == Table(all)
        invariant roots == before + l.roots[..i] && NoRepeats(roots)
        invariant forall j | 0 <= j < i :: ValidPath(l.roots[j])
        invariant OwnersOf(all, owners, roots)
      {
        var root := l.roots[i];
        ListsLast(ls, l, root);
        if !ValidPath(root) { return Some(InvalidRoot(l.name, root)); }
        if root in owners {
          OwnedIsListed(all, owners, roots, root);
          RootTwice(ls, l, roots, i);
          return Some(SharedRoot(root, owners[root], l.name));
        }
        OwnersAdd(all, owners, roots, root, l.name);
        owners := owners[root := l.name];
        roots := roots + [root];
        assert l.roots[..i + 1] == l.roots[..i] + [root];
      }
      assert l.roots[..|l.roots|] == l.roots;
      LayersGrow(ls, l);
      return None;
    }
  }

  ghost predicate RootFault(ls: seq<Layer>, f: Fault) {
    match f
    case InvalidRoot(n, r) => !ValidPath(r) && Lists(ls, r, n)
    case SharedRoot(r, owner, n) => Lists(ls, r, owner) && Lists(ls, r, n) && !NoRepeats(RootsOf(ls))
    case _ => false
  }

  lemma TableGrows(ls: seq<Layer>, l: Layer)
    ensures Table(ls + [l]) == Table(ls)[l.name := l]
    ensures RootsOf(ls + [l]) == RootsOf(ls) + l.roots
  {
    assert (ls + [l])[..|ls|] == ls;
  }

  lemma ListsLast(ls: seq<Layer>, l: Layer, root: string)
    requires root in l.roots
    ensures Lists(ls + [l], root, l.name)
  {
    assert (ls + [l])[|ls|] == l;
  }

  lemma OwnersGrow(ls: seq<Layer>, l: Layer, owners: map<string, string>, roots: seq<string>)
    requires OwnersOf(ls, owners, roots)
    ensures OwnersOf(ls + [l], owners, roots)
  {
    forall r | r in owners ensures Lists(ls + [l], r, owners[r]) {
      var i :| 0 <= i < |ls| && ls[i].name == owners[r] && r in ls[i].roots;
      assert (ls + [l])[i] == ls[i];
    }
  }

  lemma OwnedIsListed(ls: seq<Layer>, owners: map<string, string>, roots: seq<string>, root: string)
    requires OwnersOf(ls, owners, roots) && root in owners
    ensures root in roots && Lists(ls, root, owners[root])
  {
  }

  lemma OwnersAdd(ls: seq<Layer>, owners: map<string, string>, roots: seq<string>, root: string, name: string)
    requires OwnersOf(ls, owners, roots) && root !in owners && NoRepeats(roots) && Lists(ls, root, name)
    ensures OwnersOf(ls, owners[root := name], roots + [root]) && NoRepeats(roots + [root])
  {
    assert root !in roots;
  }

  lemma LayersGrow(ls: seq<Layer>, l: Layer)
    requires GoodLayers(ls) && GoodLayer(l) && l.name !in Table(ls) && NoRepeats(RootsOf(ls) + l.roots)
    ensures GoodLayers(ls + [l])
  {
    hide RootsOf, Table, GoodLayer, NoRepeats;
    TableGrows(ls, l);
    forall i | 0 <= i < |ls| ensures ls[i].name != l.name {
      assert ls[i] in ls;
    }
  }

  lemma RootTwice(ls: seq<Layer>, l: Layer, roots: seq<string>, i: nat)
    requires i < |l.roots| && roots == RootsOf(ls) + l.roots[..i] && l.roots[i] in roots
    ensures !NoRepeats(RootsOf(ls + [l]))
  {
    hide RootsOf, Table;
    TableGrows(ls, l);
    AgainIn(RootsOf(ls), l.roots, i);
  }

  lemma AgainIn(a: seq<string>, b: seq<string>, i: nat)
    requires i < |b| && b[i] in a + b[..i]
    ensures !NoRepeats(a + b)
  {
    var j :| 0 <= j < |a| + i && (a + b[..i])[j] == b[i];
    assert (a + b)[j] == (a + b)[|a| + i];
  }

  /** Reads a contract: the layers and their roots first, then the graph. */
  method Parse(d: Definition) returns (r: Parsed)
    ensures r.Valid? <==> Acceptable(d)
    ensures r.Valid? ==> Describes(r.contract, d)
    ensures r.Invalid? ==> TrueFault(d, r.fault)
  {
    r := Build(d);
    if r.Invalid? { FaultRefuses(d, r.fault); }
  }

  method Build(d: Definition) returns (r: Parsed)
    ensures r.Valid? ==> Acceptable(d) && Describes(r.contract, d)
    ensures r.Invalid? ==> TrueFault(d, r.fault)
  {
    hide ValidPath, ValidName, RootsOf, Table, NoRepeats, Lists, OwnersOf, GoodLayers, GoodUses, LongestFirst, SortRoots,
      Acyclic, GraphFault;
    if !ValidModule(d.mod) { return Invalid(InvalidModule); }
    if |d.layers| == 0 { return Invalid(NoLayers); }
    var b, fault := ReadLayers(d);
    if fault.Some? { return Invalid(fault.value); }
    var allowed;
    allowed, fault := ResolveGraph(d, b.layers);
    if fault.Some? {
      GraphIsTrue(d, fault.value);
      return Invalid(fault.value);
    }
    RootsAreSorted(b.roots);
    OwnersSorted(d.layers, b.owners, b.roots);
    return Valid(Contract(d.mod, b.layers, SortRoots(b.roots), b.owners, allowed));
  }

  /** Declares the layers one by one. */
  method ReadLayers(d: Definition) returns (b: Builder, fault: Option<Fault>)
    ensures fresh(b)
    ensures fault.None? ==> b.Holds(d.layers)
    ensures fault.Some? ==> TrueFault(d, fault.value)
  {
    hide ValidPath, ValidName, RootsOf, Table, NoRepeats, Lists, OwnersOf, GoodLayers, RootFault, GraphFault;
    b := new Builder();
    StartEmpty();
    for i := 0 to |d.layers|
      invariant fresh(b) && b.Holds(d.layers[..i])
    {
      var l := d.layers[i];
      ghost var ls := d.layers[..i];
      assert d.layers[..i + 1] == ls + [l];
      if !ValidName(l.name) { return b, Some(InvalidName(l.name)); }
      if l.name in b.layers {
        NameTwice(d.layers, i);
        return b, Some(DuplicateLayer(l.name));
      }
      if |l.roots| == 0 { return b, Some(NoRoots(l.name)); }
      fault := b.AddRoots(ls, l);
      if fault.Some? {
        FaultExtends(d, i + 1, fault.value);
        return;
      }
    }
    assert d.layers[..|d.layers|] == d.layers;
    return b, None;
  }

  /** Visits the layers in the order in which they are declared. */
  method ResolveGraph(d: Definition, layers: Layers) returns (allowed: map<string, set<string>>, fault: Option<Fault>)
    requires layers == Table(d.layers)
    ensures fault.Some? ==> GraphFault(layers, fault.value)
    ensures fault.None? ==>
      && allowed.Keys == layers.Keys && Acyclic(layers)
      && (forall n | n in layers :: GoodUses(layers, n))
      && (forall n, y | n in allowed :: y in allowed[n] <==> Reaches(layers, n, y))
  {
    hide Table, Resolved, GraphFault, Acyclic, GoodUses;
    var g := new Resolver(layers);
    ResolveStart(layers);
    for i := 0 to |d.layers|
      invariant fresh(g) && g.layers == layers && g.State() && g.visiting == {}
      invariant forall j | 0 <= j < i :: d.layers[j].name in g.allowed
    {
      assert d.layers[i] in d.layers;
      fault := g.Visit(d.layers[i].name);
      if fault.Some? { return map[], fault; }
    }
    AllResolved(d, g.allowed, g.order);
    return g.allowed, None;
  }

  lemma GraphIsTrue(d: Definition, f: Fault)
    requires GraphFault(Table(d.layers), f)
    ensures TrueFault(d, f)
  {
    hide Table;
  }

  lemma StartEmpty()
    ensures GoodLayers([]) && Table([]) == map[] && RootsOf([]) == [] && OwnersOf([], map[], [])
  {
  }

  lemma ResolveStart(layers: Layers)
    ensures Resolved(layers, map[], [])
  {
  }

  lemma NameTwice(ls: seq<Layer>, i: nat)
    requires i < |ls| && ls[i].name in Table(ls[..i])
    ensures exists j, k | 0 <= j < k < |ls| :: ls[j].name == ls[i].name && ls[k].name == ls[i].name
  {
    hide Table;
    var l := Table(ls[..i])[ls[i].name];
    var j :| 0 <= j < i && ls[..i][j] == l;
    assert ls[j].name == ls[i].name;
  }

  lemma {:induction false} RootsPrefix(ls: seq<Layer>, k: nat)
    requires k <= |ls|
    ensures |RootsOf(ls[..k])| <= |RootsOf(ls)| && RootsOf(ls)[..|RootsOf(ls[..k])|] == RootsOf(ls[..k])
    decreases |ls|
  {
    if k < |ls| {
      RootsPrefix(ls[..|ls| - 1], k);
      assert ls[..|ls| - 1][..k] == ls[..k];
    } else {
      assert ls[..k] == ls;
    }
  }

  lemma FaultExtends(d: Definition, k: nat, f: Fault)
    requires k <= |d.layers| && RootFault(d.layers[..k], f)
    ensures TrueFault(d, f)
  {
    hide RootsOf, ValidPath;
    RootsPrefix(d.layers, k);
    forall r, n | Lists(d.layers[..k], r, n) ensures Lists(d.layers, r, n) {
      var i :| 0 <= i < k && d.layers[i].name == n && r in d.layers[i].roots;
    }
  }

  lemma AllResolved(d: Definition, allowed: map<string, set<string>>, order: seq<string>)
    requires Resolved(Table(d.layers), allowed, order) && allowed.Keys <= Table(d.layers).Keys
    requires forall j | 0 <= j < |d.layers| :: d.layers[j].name in allowed
    ensures allowed.Keys == Table(d.layers).Keys
    ensures (forall n | n in Table(d.layers) :: GoodUses(Table(d.layers), n)) && Acyclic(Table(d.layers))
    ensures forall n, y | n in allowed :: y in allowed[n] <==> Reaches(Table(d.layers), n, y)
  {
    hide Table, GoodUses, Ordered, Acyclic;
    var layers := Table(d.layers);
    forall n | n in layers ensures n in allowed && n in order {
      assert layers[n] in d.layers;
    }
    OrderedIsAcyclic(layers, order);
  }

  lemma OwnersSorted(ls: seq<Layer>, owners: map<string, string>, roots: seq<string>)
    requires OwnersOf(ls, owners, roots) && multiset(SortRoots(roots)) == multiset(roots)
    ensures OwnersOf(ls, owners, SortRoots(roots))
  {
    hide SortRoots;
    forall r ensures r in SortRoots(roots) <==> r in roots {
      assert r in multiset(roots) <==> r in roots;
      assert r in multiset(SortRoots(roots)) <==> r in SortRoots(roots);
    }
  }
}
