/** Asking a layer contract who owns a package and what it may import (analyzers/architecture/contract.go). */
module ContractQueries {
  import opened Text
  import opened LayerGraph
  import opened PackagePaths
  import opened LayerContract

  // ----- who owns a package -----

  predicate Contains(c: Contract, p: string) {
    p == c.mod || HasPrefix(p, c.mod + "/")
  }

  /** The package path within the module. */
  function Relative(c: Contract, p: string): string
    requires Contains(c, p)
  {
    if p == c.mod then "." else p[|c.mod| + 1..]
  }

  predicate Matches(root: string, relative: string) {
    relative == root || (root != "." && HasPrefix(relative, root + "/"))
  }

  /** Every root leads to a layer. */
  predicate Consistent(c: Contract) {
    forall r | r in c.roots :: r in c.owners && c.owners[r] in c.layers
  }

  function FirstMatch(roots: seq<string>, relative: string): (r: Option<string>)
    ensures r.Some? ==> r.value in roots && Matches(r.value, relative)
  {
    if roots == [] then None
    else if Matches(roots[0], relative) then Some(roots[0])
    else FirstMatch(roots[1..], relative)
  }

  function LayerOf(c: Contract, p: string): Option<Layer>
    requires Consistent(c)
  {
    if !Contains(c, p) then None
    else
      var root := FirstMatch(c.roots, Relative(c, p));
      if root.None? then None else Some(c.layers[c.owners[root.value]])
  }

  /** The search through the roots, stopping at the first that matches. */
  method FindLayer(c: Contract, p: string) returns (l: Option<Layer>)
    requires Consistent(c)
    ensures l == LayerOf(c, p)
  {
    if !Contains(c, p) { return None; }
    var relative := Relative(c, p);
    for i := 0 to |c.roots|
      invariant FirstMatch(c.roots, relative) == FirstMatch(c.roots[i..], relative)
    {
      var root := c.roots[i];
      if Matches(root, relative) { return Some(c.layers[c.owners[root]]); }
    }
    return None;
  }

  /** A layer owns a package when one of its roots matches it and no longer declared root does. */
  ghost predicate Owns(d: Definition, l: Layer, relative: string) {
    l in d.layers && exists root | root in l.roots :: OwningRoot(d, root, relative)
  }

  predicate OwningRoot(d: Definition, root: string, relative: string) {
    Matches(root, relative) && forall r | r in RootsOf(d.layers) && Matches(r, relative) :: |r| <= |root|
  }

  lemma DescribedIsConsistent(c: Contract, d: Definition)
    requires Describes(c, d)
    ensures Consistent(c)
    ensures forall r :: r in c.roots <==> r in RootsOf(d.layers)
  {
    hide RootsOf, Table;
    forall r ensures r in c.roots <==> r in RootsOf(d.layers) {
      assert r in multiset(c.roots) <==> r in c.roots;
      assert r in multiset(RootsOf(d.layers)) <==> r in RootsOf(d.layers);
    }
    forall r | r in c.roots ensures r in c.owners && c.owners[r] in c.layers {
      var i :| 0 <= i < |d.layers| && d.layers[i].name == c.owners[r] && r in d.layers[i].roots;
      assert d.layers[i] in d.layers;
    }
  }

  lemma {:induction false} RootsHold(ls: seq<Layer>, i: nat, root: string)
    requires i < |ls| && root in ls[i].roots
    ensures root in RootsOf(ls)
  {
    if i < |ls| - 1 { RootsHold(ls[..|ls| - 1], i, root); }
  }

  /** A root that is declared once belongs to one layer. */
  lemma {:induction false} OneOwner(ls: seq<Layer>, i: nat, j: nat, root: string)
    requires NoRepeats(RootsOf(ls)) && i <= j < |ls| && root in ls[i].roots && root in ls[j].roots
    ensures i == j
    decreases |ls|
  {
    var front := ls[..|ls| - 1];
    var before := RootsOf(front);
    assert RootsOf(ls) == before + ls[|ls| - 1].roots;
    if j < |ls| - 1 {
      forall a, b | 0 <= a < b < |before| ensures before[a] != before[b] {
        assert RootsOf(ls)[a] != RootsOf(ls)[b];
      }
      OneOwner(front, i, j, root);
    } else if i < j {
      RootsHold(front, i, root);
      var a :| 0 <= a < |before| && before[a] == root;
      var b :| 0 <= b < |ls[j].roots| && ls[j].roots[b] == root;
      assert RootsOf(ls)[a] == RootsOf(ls)[|before| + b];
    }
  }

  lemma {:induction false} FirstIsLongest(roots: seq<string>, relative: string)
    requires LongestFirst(roots)
    ensures FirstMatch(roots, relative).None? ==> forall r | r in roots :: !Matches(r, relative)
    ensures FirstMatch(roots, relative).Some? ==>
      forall r | r in roots && Matches(r, relative) :: |r| <= |FirstMatch(roots, relative).value|
  {
    if roots != [] && !Matches(roots[0], relative) {
      FirstIsLongest(roots[1..], relative);
    }
  }

  /** Two roots of one length that match a path are the same. */
  lemma SameLengthSameRoot(r: string, s: string, relative: string)
    requires Matches(r, relative) && Matches(s, relative) && |r| == |s|
    ensures r == s
  {
    assert relative[..|r|] == r && relative[..|s|] == s by {
      assert relative != r ==> relative[..|r| + 1][..|r|] == (r + "/")[..|r|];
      assert relative != s ==> relative[..|s| + 1][..|s|] == (s + "/")[..|s|];
    }
  }

  lemma OwnerIsTable(c: Contract, d: Definition, root: string, l: Layer)
    requires Describes(c, d) && GoodLayers(d.layers) && root in c.owners && root in l.roots && l in d.layers
    ensures c.owners[root] in c.layers && c.layers[c.owners[root]] == l
  {
    hide RootsOf, Table, Matches, GoodLayer, NoRepeats;
    var i :| 0 <= i < |d.layers| && d.layers[i].name == c.owners[root] && root in d.layers[i].roots;
    var j :| 0 <= j < |d.layers| && d.layers[j] == l;
    assert d.layers[i] in d.layers;
    if i <= j { OneOwner(d.layers, i, j, root); } else { OneOwner(d.layers, j, i, root); }
    var k :| 0 <= k < |d.layers| && d.layers[k] == c.layers[c.owners[root]];
    assert d.layers[k].name == d.layers[i].name;
  }

  lemma LongestMatchOwns(c: Contract, d: Definition, p: string, l: Layer)
    requires Describes(c, d) && GoodLayers(d.layers)
    ensures Consistent(c)
    ensures LayerOf(c, p) == Some(l) <==> Contains(c, p) && Owns(d, l, Relative(c, p))
    ensures LayerOf(c, p).None? <==>
      !Contains(c, p) || forall r | r in RootsOf(d.layers) :: !Matches(r, Relative(c, p))
  {
    hide RootsOf, Table, Matches, GoodLayers, FirstMatch, LongestFirst;
    DescribedIsConsistent(c, d);
    if Contains(c, p) {
      var relative := Relative(c, p);
      FirstIsLongest(c.roots, relative);
      var root := FirstMatch(c.roots, relative);
      if root.Some? {
        FoundOwns(c, d, root.value, relative);
        if Owns(d, l, relative) {
          var other :| other in l.roots && OwningRoot(d, other, relative);
          OwnedRoot(d, l, other);
          SameLengthSameRoot(root.value, other, relative);
          OwnerIsTable(c, d, other, l);
        }
      } else if Owns(d, l, relative) {
        var other :| other in l.roots && OwningRoot(d, other, relative);
        OwnedRoot(d, l, other);
        assert false;
      }
    }
  }

  lemma OwnedRoot(d: Definition, l: Layer, root: string)
    requires l in d.layers && root in l.roots
    ensures root in RootsOf(d.layers)
  {
    var i :| 0 <= i < |d.layers| && d.layers[i] == l;
    RootsHold(d.layers, i, root);
  }

  lemma FoundOwns(c: Contract, d: Definition, root: string, relative: string)
    requires Describes(c, d) && GoodLayers(d.layers) && Consistent(c) && root in c.roots && OwningRoot(d, root, relative)
    ensures Owns(d, c.layers[c.owners[root]], relative)
  {
    hide RootsOf, Table, Matches, GoodLayers, LongestFirst, OwningRoot;
    var i :| 0 <= i < |d.layers| && d.layers[i].name == c.owners[root] && root in d.layers[i].roots;
    OwnerIsTable(c, d, root, d.layers[i]);
  }

  // ----- ownership by parts -----

  /** The package lies in the module, below the root or at it; the root "." is the module package alone. */
  predicate Below(mod: string, root: string, p: string) {
    if root == "." then p == mod || p == mod + "/." else Split(mod) + Split(root) <= Split(p)
  }

  /** The package is below the root, and no root that it is below has more parts. */
  predicate Nearest(d: Definition, mod: string, root: string, p: string) {
    Below(mod, root, p) && forall r | r in RootsOf(d.layers) && Below(mod, r, p) :: |Split(r)| <= |Split(root)|
  }

  lemma ContainedByParts(c: Contract, p: string)
    ensures Contains(c, p) <==> Split(c.mod) <= Split(p)
    ensures Contains(c, p) && p != c.mod ==> Split(p) == Split(c.mod) + Split(Relative(c, p))
  {
    hide Split;
    ContinuesByParts(c.mod, p);
  }

  lemma FirstParts(a: seq<string>, b: seq<string>, s: seq<string>)
    requires a + b <= s
    ensures a <= s
  {
    assert forall i | 0 <= i < |a| :: (a + b)[i] == a[i];
  }

  lemma MatchesByParts(c: Contract, root: string, p: string)
    ensures Contains(c, p) && Matches(root, Relative(c, p)) <==> Below(c.mod, root, p)
  {
    hide Split;
    ContainedByParts(c, p);
    if Contains(c, p) {
      if root == "." {
        DotOwnsModuleOnly(c, p);
      } else if p == c.mod {
        assert |Split(c.mod) + Split(root)| > |Split(p)|;
        assert (root + "/")[|root|] == '/';
      } else {
        ContinuesByParts(root, Relative(c, p));
        assert Split(p)[|Split(c.mod)|..] == Split(Relative(c, p));
      }
    } else {
      if root == "." { assert HasPrefix(c.mod + "/.", c.mod + "/"); }
      if root != "." && Below(c.mod, root, p) { FirstParts(Split(c.mod), Split(root), Split(p)); }
    }
  }

  /** Of two roots that match a path, the one with more parts is the longer text. */
  lemma MoreParts(r: string, s: string, relative: string)
    requires Matches(r, relative) && Matches(s, relative)
    ensures |r| <= |s| <==> |Split(r)| <= |Split(s)|
  {
    hide Split;
    if |r| <= |s| { LongerHasMore(r, s, relative); } else { LongerHasMore(s, r, relative); }
  }

  lemma LongerHasMore(r: string, s: string, relative: string)
    requires Matches(r, relative) && Matches(s, relative) && |r| <= |s|
    ensures r == s || |Split(r)| < |Split(s)|
  {
    hide Split;
    if |r| == |s| {
      SameLengthSameRoot(r, s, relative);
    } else {
      assert s == relative[..|s|] by { assert relative != s ==> relative[..|s| + 1][..|s|] == (s + "/")[..|s|]; }
      assert s[..|r| + 1] == relative[..|r| + 1] == r + "/";
      ContinuesByParts(r, s);
    }
  }

  /** The layer of a package is the one that has the nearest root above it, and there is none when no root is. */
  lemma LongestRootOwns(c: Contract, d: Definition, p: string, l: Layer)
    requires Describes(c, d) && GoodLayers(d.layers)
    ensures Consistent(c)
    ensures LayerOf(c, p) == Some(l) <==> l in d.layers && exists root | root in l.roots :: Nearest(d, c.mod, root, p)
    ensures LayerOf(c, p).None? <==> forall r | r in RootsOf(d.layers) :: !Below(c.mod, r, p)
  {
    hide RootsOf, GoodLayers, LayerOf, Matches, Below, Describes, Contains;
    LongestMatchOwns(c, d, p, l);
    forall r ensures Contains(c, p) && Matches(r, Relative(c, p)) <==> Below(c.mod, r, p) { MatchesByParts(c, r, p); }
    forall root ensures Contains(c, p) && OwningRoot(d, root, Relative(c, p)) <==> Nearest(d, c.mod, root, p) {
      forall r | Below(c.mod, r, p) && Below(c.mod, root, p) ensures |r| <= |root| <==> |Split(r)| <= |Split(root)| {
        MoreParts(r, root, Relative(c, p));
      }
    }
  }

  /** The root "." stands for the module package; only a path ending in a lone dot is taken for it too. */
  lemma DotOwnsModuleOnly(c: Contract, p: string)
    requires Contains(c, p)
    ensures Matches(".", Relative(c, p)) <==> p == c.mod || p == c.mod + "/."
  {
    if p != c.mod {
      assert p == c.mod + "/" + Relative(c, p);
    }
  }

  // ----- what a package may import -----

  predicate Allows(c: Contract, from: string, target: string)
    requires Consistent(c)
  {
    var a := LayerOf(c, from);
    var b := LayerOf(c, target);
    a.Some? && b.Some? && a.value.name in c.allowed && b.value.name in c.allowed[a.value.name]
  }

  /** A valid contract for a definition, as parsing makes it. */
  ghost predicate Made(c: Contract, d: Definition) {
    Acceptable(d) && Describes(c, d)
  }

  lemma LayerIsDeclared(c: Contract, d: Definition, p: string)
    requires Made(c, d)
    ensures Consistent(c)
    ensures LayerOf(c, p).Some? ==>
      var l := LayerOf(c, p).value; l.name in c.layers && c.layers[l.name] == l && l.name in c.allowed
  {
    hide RootsOf, FirstMatch, Matches, GoodLayers, Acyclic, GoodUses, LongestFirst;
    DescribedIsConsistent(c, d);
  }

  /** An import is allowed when a chain of uses leads from the one layer to the other. */
  lemma AllowsIsReach(c: Contract, d: Definition, from: string, target: string)
    requires Made(c, d)
    ensures Consistent(c)
    ensures Allows(c, from, target) <==>
      var a, b := LayerOf(c, from), LayerOf(c, target);
      a.Some? && b.Some? && Reaches(c.layers, a.value.name, b.value.name)
  {
    hide RootsOf, LayerOf, GoodLayers, Acyclic, GoodUses, LongestFirst, Reaches, OwnersOf;
    LayerIsDeclared(c, d, from);
    LayerIsDeclared(c, d, target);
  }

  lemma AllowsReflexive(c: Contract, d: Definition, p: string)
    requires Made(c, d)
    ensures Consistent(c) && (Allows(c, p, p) <==> LayerOf(c, p).Some?)
  {
    hide Made, LayerOf, Allows, Reaches;
    AllowsIsReach(c, d, p, p);
    if LayerOf(c, p).Some? { ReachesSelf(c.layers, LayerOf(c, p).value.name); }
  }

  lemma AllowsTransitive(c: Contract, d: Definition, p: string, q: string, r: string)
    requires Made(c, d) && Consistent(c) && Allows(c, p, q) && Allows(c, q, r)
    ensures Allows(c, p, r)
  {
    hide Made, LayerOf, Allows, Reaches;
    AllowsIsReach(c, d, p, q);
    AllowsIsReach(c, d, q, r);
    AllowsIsReach(c, d, p, r);
    ReachesTrans(c.layers, LayerOf(c, p).value.name, LayerOf(c, q).value.name, LayerOf(c, r).value.name);
  }

  /** Two packages that may import each other are in one layer. */
  lemma AllowsAntisymmetric(c: Contract, d: Definition, p: string, q: string)
    requires Made(c, d) && Consistent(c) && Allows(c, p, q) && Allows(c, q, p)
    ensures LayerOf(c, p) == LayerOf(c, q)
  {
    hide LayerOf, Allows, Reaches, GoodUses, GoodLayers, OwnersOf, RootsOf;
    AllowsIsReach(c, d, p, q);
    AllowsIsReach(c, d, q, p);
    LayerIsDeclared(c, d, p);
    LayerIsDeclared(c, d, q);
    var a, b := LayerOf(c, p).value.name, LayerOf(c, q).value.name;
    ReachesFirst(c.layers, a, b);
    if a != b { DependsThen(c.layers, a, b, a); }
  }

  lemma {:induction false} PathStaysProduction(layers: Layers, p: seq<string>)
    requires forall n | n in layers :: GoodUses(layers, n)
    requires IsPath(layers, p) && p[0] in layers && !layers[p[0]].testOnly
    ensures p[|p| - 1] in layers && !layers[p[|p| - 1]].testOnly
  {
    if |p| > 1 {
      assert Uses(layers, p[0], p[1]);
      assert GoodUses(layers, p[0]);
      forall i | 0 <= i < |p[1..]| - 1 ensures Uses(layers, p[1..][i], p[1..][i + 1]) {
        assert Uses(layers, p[i + 1], p[i + 2]);
      }
      PathStaysProduction(layers, p[1..]);
    }
  }

  /** No chain of permissions leads a production package to a test-only one. */
  lemma ProductionAvoidsTests(c: Contract, d: Definition, from: string, target: string)
    requires Made(c, d) && Consistent(c) && Allows(c, from, target)
    ensures LayerOf(c, from).Some? && LayerOf(c, target).Some?
    ensures !LayerOf(c, from).value.testOnly ==> !LayerOf(c, target).value.testOnly
  {
    hide LayerOf, GoodLayers, Acyclic, OwnersOf, RootsOf, GoodUses;
    AllowsIsReach(c, d, from, target);
    LayerIsDeclared(c, d, from);
    LayerIsDeclared(c, d, target);
    var a, b := LayerOf(c, from).value, LayerOf(c, target).value;
    var p :| Joins(c.layers, p, a.name, b.name);
    if !a.testOnly { PathStaysProduction(c.layers, p); }
  }
}
