/** Suggesting a name for a misspelt one (internal/expression/event.go). */
module Typos {
  import opened Text

  /** The second text has one more character, somewhere. */
  predicate InsertedAt(a: string, b: string, i: nat) {
    |b| == |a| + 1 && i <= |a| && b[..i] == a[..i] && b[i + 1..] == a[i..]
  }

  predicate SubstitutedAt(a: string, b: string, i: nat) {
    i < |a| == |b| && a[i] != b[i] && a[..i] == b[..i] && a[i + 1..] == b[i + 1..]
  }

  /** Two different neighbours have changed places. */
  predicate SwappedAt(a: string, b: string, i: nat) {
    && i + 1 < |a| == |b| && a[i] != a[i + 1]
    && a[..i] == b[..i] && a[i] == b[i + 1] && a[i + 1] == b[i] && a[i + 2..] == b[i + 2..]
  }

  /** One insertion, deletion, substitution or swap of neighbours apart. */
  ghost predicate OneEdit(a: string, b: string) {
    exists i :: InsertedAt(a, b, i) || InsertedAt(b, a, i) || SubstitutedAt(a, b, i) || SwappedAt(a, b, i)
  }

  lemma EditSymmetric(a: string, b: string)
    ensures OneEdit(a, b) <==> OneEdit(b, a)
  {
    if i :| InsertedAt(a, b, i) || InsertedAt(b, a, i) || SubstitutedAt(a, b, i) || SwappedAt(a, b, i) {
      assert InsertedAt(b, a, i) || InsertedAt(a, b, i) || SubstitutedAt(b, a, i) || SwappedAt(b, a, i);
    }
    if i :| InsertedAt(b, a, i) || InsertedAt(a, b, i) || SubstitutedAt(b, a, i) || SwappedAt(b, a, i) {
      assert InsertedAt(a, b, i) || InsertedAt(b, a, i) || SubstitutedAt(a, b, i) || SwappedAt(a, b, i);
    }
  }

  lemma EditDiffers(a: string)
    ensures !OneEdit(a, a)
  {
  }

  lemma Agree(x: string, y: string, n: nat)
    requires n <= |x| && n <= |y| && x[..n] == y[..n]
    ensures forall k | 0 <= k < n :: x[k] == y[k]
  {
    assert forall k | 0 <= k < n :: x[k] == x[..n][k] && y[k] == y[..n][k];
  }

  /** Where two texts first differ is where a text of another length has its extra character, or before it. */
  lemma FirstInsertion(x: string, y: string, i: nat, j: nat)
    requires InsertedAt(x, y, j) && i < |x| && x[..i] == y[..i] && x[i] != y[i]
    ensures InsertedAt(x, y, i)
  {
    Agree(x, y, j);
    assert y[i + 1..] == y[j + 1..][i - j..];
    assert x[i..] == x[j..][i - j..];
  }

  /** Where two texts of one length first differ is where they were edited. */
  lemma FirstChange(x: string, y: string, i: nat, j: nat)
    requires SubstitutedAt(x, y, j) || SwappedAt(x, y, j)
    requires i < |x| == |y| && x[..i] == y[..i] && x[i] != y[i]
    ensures j == i
  {
    Agree(x, y, i);
    Agree(x, y, j);
  }

  method AdjacentTypo(a: string, b: string) returns (typo: bool)
    ensures typo <==> OneEdit(a, b)
  {
    EditDiffers(a);
    EditSymmetric(a, b);
    if a == b { return false; }
    var x, y := a, b;
    if |x| > |y| { x, y := y, x; }
    typo := Scan(x, y);
  }

  method Scan(x: string, y: string) returns (typo: bool)
    requires x != y && |x| <= |y|
    ensures typo <==> OneEdit(x, y)
  {
    if |y| - |x| > 1 { return false; }
    for i := 0 to |x|
      invariant x[..i] == y[..i]
    {
      if x[i] == y[i] { continue; }
      EditIsHere(x, y, i);
      if |x| < |y| { return x[i..] == y[i + 1..]; }
      if x[i + 1..] == y[i + 1..] { return true; }
      return i + 1 < |x| && x[i] == y[i + 1] && x[i + 1] == y[i] && x[i + 2..] == y[i + 2..];
    }
    assert y[..|x|] == x;
    if |x| < |y| { assert InsertedAt(x, y, |x|); }
    return |x| != |y|;
  }

  lemma EditIsHere(x: string, y: string, i: nat)
    requires i < |x| <= |y| && x[..i] == y[..i] && x[i] != y[i]
    ensures OneEdit(x, y) <==> InsertedAt(x, y, i) || SubstitutedAt(x, y, i) || SwappedAt(x, y, i)
  {
    if j :| InsertedAt(x, y, j) || InsertedAt(y, x, j) || SubstitutedAt(x, y, j) || SwappedAt(x, y, j) {
      if InsertedAt(x, y, j) { FirstInsertion(x, y, i, j); } else { FirstChange(x, y, i, j); }
    }
  }

  // ----- suggestions -----

  /** The candidate is one edit from the name, letter case aside. */
  ghost predicate Close(name: string, candidate: string) {
    OneEdit(Lower(name), Lower(candidate))
  }

  /** A suggestion is a close candidate, and every close candidate is the same name; without one there is none. */
  ghost predicate Suggests(name: string, candidates: seq<string>, r: string) {
    if r != "" then
      r in candidates && Close(name, r) && forall c | c in candidates && Close(name, c) :: EqualFold(r, c)
    else
      || (forall c | c in candidates :: !Close(name, c))
      || (exists c, d | c in candidates && d in candidates :: Close(name, c) && Close(name, d) && !EqualFold(c, d))
  }

  method CloseName(name: string, candidates: seq<string>) returns (suggestion: string)
    ensures "" !in candidates ==> Suggests(name, candidates, suggestion)
  {
    hide Close, EqualFold;
    suggestion := "";
    for i := 0 to |candidates|
      invariant "" !in candidates && suggestion == "" ==> forall c | c in candidates[..i] :: !Close(name, c)
      invariant "" !in candidates && suggestion != "" ==> Suggests(name, candidates[..i], suggestion)
    {
      var candidate := candidates[i];
      assert candidates[..i + 1] == candidates[..i] + [candidate];
      var close := AdjacentTypo(Lower(name), Lower(candidate));
      assert close <==> Close(name, candidate) by { IsClose(name, candidate); }
      if !close { continue; }
      if suggestion != "" && !EqualFold(suggestion, candidate) {
        assert candidate in candidates;
        assert suggestion in candidates[..i] ==> suggestion in candidates;
        return "";
      }
      if suggestion != "" && "" !in candidates { SameName(name, candidates[..i], suggestion, candidate); }
      FoldSelf(candidate);
      suggestion := candidate;
    }
    assert candidates[..|candidates|] == candidates;
  }

  lemma IsClose(name: string, candidate: string)
    ensures Close(name, candidate) <==> OneEdit(Lower(name), Lower(candidate))
  {
  }

  lemma FoldSelf(a: string)
    ensures EqualFold(a, a)
  {
  }

  /** Names that fold alike can stand for each other. */
  lemma SameName(name: string, candidates: seq<string>, r: string, s: string)
    requires EqualFold(r, s) && forall c | c in candidates && Close(name, c) :: EqualFold(r, c)
    ensures forall c | c in candidates && Close(name, c) :: EqualFold(s, c)
  {
    hide Close;
  }

  /** The order of the candidates does not matter, up to letter case. */
  lemma OrderDoesNotMatter(name: string, candidates: seq<string>, others: seq<string>, r: string, s: string)
    requires multiset(candidates) == multiset(others)
    requires Suggests(name, candidates, r) && Suggests(name, others, s)
    ensures EqualFold(r, s)
  {
    hide Close;
    forall c ensures c in candidates <==> c in others {
      assert c in multiset(candidates) <==> c in candidates;
      assert c in multiset(others) <==> c in others;
    }
  }
}
