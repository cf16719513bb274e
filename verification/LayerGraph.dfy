/** The graph of layers and what they use (analyzers/architecture/contract.go). */
module LayerGraph {
  datatype Layer = Layer(
    name: string,
    roots: seq<string>,
    uses: seq<string>,
    portable: bool,
    entryPoint: bool,
    testOnly: bool)

  type Layers = map<string, Layer>

  predicate Uses(layers: Layers, a: string, b: string) {
    a in layers && b in layers[a].uses
  }

  predicate IsPath(layers: Layers, p: seq<string>) {
    |p| > 0 && forall i | 0 <= i < |p| - 1 :: Uses(layers, p[i], p[i + 1])
  }

  predicate Joins(layers: Layers, p: seq<string>, a: string, b: string) {
    IsPath(layers, p) && p[0] == a && p[|p| - 1] == b
  }

  /** A chain of uses, possibly empty, leads from one layer to the other. */
  ghost predicate Reaches(layers: Layers, a: string, b: string) {
    exists p :: Joins(layers, p, a, b)
  }

  /** A chain of at least one use leads from one layer to the other. */
  ghost predicate Depends(layers: Layers, a: string, b: string) {
    exists c :: Uses(layers, a, c) && Reaches(layers, c, b)
  }

  ghost predicate Acyclic(layers: Layers) {
    forall a :: !Depends(layers, a, a)
  }

  lemma ReachesSelf(layers: Layers, a: string)
    ensures Reaches(layers, a, a)
  {
    assert Joins(layers, [a], a, a);
  }

  lemma ReachesFrom(layers: Layers, a: string, b: string, c: string)
    requires Uses(layers, a, b) && Reaches(layers, b, c)
    ensures Reaches(layers, a, c)
  {
    var p :| Joins(layers, p, b, c);
    var q := [a] + p;
    assert forall i | 0 <= i < |q| - 1 :: Uses(layers, q[i], q[i + 1]);
    assert Joins(layers, q, a, c);
  }

  /** A chain is empty or starts with a use. */
  lemma ReachesFirst(layers: Layers, a: string, b: string)
    ensures Reaches(layers, a, b) <==> a == b || Depends(layers, a, b)
  {
    if Reaches(layers, a, b) && a != b {
      var p :| Joins(layers, p, a, b);
      assert Uses(layers, p[0], p[1]);
      assert forall i | 0 <= i < |p[1..]| - 1 :: Uses(layers, p[1..][i], p[1..][i + 1]) by {
        forall i | 0 <= i < |p[1..]| - 1 ensures Uses(layers, p[1..][i], p[1..][i + 1]) {
          assert Uses(layers, p[i + 1], p[i + 2]);
        }
      }
      assert Joins(layers, p[1..], p[1], b);
    }
    if a == b { ReachesSelf(layers, a); }
    if Depends(layers, a, b) {
      var c :| Uses(layers, a, c) && Reaches(layers, c, b);
      ReachesFrom(layers, a, c, b);
    }
  }

  lemma ReachesTrans(layers: Layers, a: string, b: string, c: string)
    requires Reaches(layers, a, b) && Reaches(layers, b, c)
    ensures Reaches(layers, a, c)
  {
    var p :| Joins(layers, p, a, b);
    var q :| Joins(layers, q, b, c);
    var r := p + q[1..];
    forall i | 0 <= i < |r| - 1 ensures Uses(layers, r[i], r[i + 1]) {
      if i < |p| - 1 {
        assert Uses(layers, p[i], p[i + 1]);
      } else {
        assert Uses(layers, q[i - |p| + 1], q[i - |p| + 2]);
      }
    }
    assert Joins(layers, r, a, c);
  }

  lemma DependsThen(layers: Layers, a: string, b: string, c: string)
    requires Depends(layers, a, b) && Reaches(layers, b, c)
    ensures Depends(layers, a, c)
  {
    var x :| Uses(layers, a, x) && Reaches(layers, x, b);
    ReachesTrans(layers, x, b, c);
  }

  lemma UseDepends(layers: Layers, a: string, b: string)
    requires Uses(layers, a, b)
    ensures Depends(layers, a, b)
  {
    ReachesSelf(layers, b);
  }

  // ----- orders -----

  /** Every layer in the list comes after all it uses. */
  ghost predicate Ordered(layers: Layers, order: seq<string>) {
    forall i, b | 0 <= i < |order| && Uses(layers, order[i], b) :: b in order[..i]
  }

  lemma {:induction false} PathStaysBelow(layers: Layers, order: seq<string>, k: nat, p: seq<string>)
    requires Ordered(layers, order) && k <= |order| && IsPath(layers, p) && p[0] in order[..k]
    ensures p[|p| - 1] in order[..k]
  {
    if |p| > 1 {
      var i :| 0 <= i < k && order[i] == p[0];
      assert Uses(layers, p[0], p[1]);
      assert p[1] in order[..i];
      forall j | 0 <= j < |p[1..]| - 1 ensures Uses(layers, p[1..][j], p[1..][j + 1]) {
        assert Uses(layers, p[j + 1], p[j + 2]);
      }
      PathStaysBelow(layers, order, k, p[1..]);
    }
  }

  lemma {:induction false} NotInCycle(layers: Layers, order: seq<string>, k: nat, a: string)
    requires Ordered(layers, order) && k <= |order| && Depends(layers, a, a)
    ensures a !in order[..k]
  {
    if k > 0 {
      NotInCycle(layers, order, k - 1, a);
      if order[k - 1] == a {
        var b :| Uses(layers, a, b) && Reaches(layers, b, a);
        var p :| Joins(layers, p, b, a);
        assert b in order[..k - 1];
        PathStaysBelow(layers, order, k - 1, p);
      }
    }
  }

  /** A list of all layers in which each comes after what it uses leaves no cycle. */
  lemma OrderedIsAcyclic(layers: Layers, order: seq<string>)
    requires Ordered(layers, order) && forall a | a in layers :: a in order
    ensures Acyclic(layers)
  {
    forall a ensures !Depends(layers, a, a) {
      if Depends(layers, a, a) {
        assert a in layers;
        NotInCycle(layers, order, |order|, a);
      }
    }
  }
}
