/** Package paths of a layer contract (analyzers/architecture/contract.go). */
module PackagePaths {
  import opened Text

  /** The parts of a path between its slashes. */
  function Split(p: string): (r: seq<string>)
    ensures |r| > 0
  {
    if p == "" then [""]
    else
      var rest := Split(p[1..]);
      if p[0] == '/' then [""] + rest else [[p[0]] + rest[0]] + rest[1..]
  }

  function JoinParts(parts: seq<string>): string {
    if parts == [] then "" else if |parts| == 1 then parts[0] else parts[0] + "/" + JoinParts(parts[1..])
  }

  /** Removes empty parts, dots, and parts that a following double dot takes back. */
  function Reduce(parts: seq<string>, rooted: bool, kept: seq<string>): seq<string>
    decreases |parts|
  {
    if parts == [] then kept
    else
      var p := parts[0];
      var next :=
        if p == "" || p == "." then kept
        else if p != ".." then kept + [p]
        else if kept != [] && kept[|kept| - 1] != ".." then kept[..|kept| - 1]
        else if rooted then kept
        else kept + [p];
      Reduce(parts[1..], rooted, next)
  }

  /** The shortest path with the same meaning. */
  function Clean(p: string): string {
    var rooted := HasPrefix(p, "/");
    var s := JoinParts(Reduce(Split(p), rooted, []));
    if rooted then "/" + s else if s == "" then "." else s
  }

  const FORBIDDEN: string := "\\*?[] \t\r\n"

  predicate ValidPath(p: string) {
    && p != "" && Clean(p) == p && p != ".." && !HasPrefix(p, "../") && !HasPrefix(p, "/")
    && forall i | 0 <= i < |p| :: p[i] !in FORBIDDEN
  }

  // ----- which paths are valid -----

  predicate Plain(part: string) {
    part != "" && part != "." && part != ".."
  }

  predicate AllPlain(parts: seq<string>) {
    forall i | 0 <= i < |parts| :: Plain(parts[i])
  }

  predicate NoSlash(parts: seq<string>) {
    forall i | 0 <= i < |parts| :: '/' !in parts[i]
  }

  lemma {:induction false} SplitNoSlash(p: string)
    ensures NoSlash(Split(p))
  {
    if p != "" { SplitNoSlash(p[1..]); }
  }

  lemma {:induction false} JoinSplit(p: string)
    ensures JoinParts(Split(p)) == p
  {
    hide Split;
    if p == "" {
      SplitPart("", "");
    } else {
      JoinSplit(p[1..]);
      SplitStep(p);
      var rest := Split(p[1..]);
      assert p == [p[0]] + p[1..];
      if p[0] == '/' {
        assert ([""] + rest)[1..] == rest;
      } else {
        assert ([[p[0]] + rest[0]] + rest[1..])[1..] == rest[1..];
      }
    }
  }

  lemma {:induction false} SplitPart(part: string, more: string)
    requires '/' !in part
    ensures Split(part) == [part]
    ensures Split(part + "/" + more) == [part] + Split(more)
  {
    var s := part + "/" + more;
    if part == "" {
      assert s[1..] == more;
    } else {
      SplitPart(part[1..], more);
      assert s[1..] == part[1..] + "/" + more;
      assert [part[0]] + part[1..] == part;
    }
  }

  lemma {:induction false} SplitJoin(parts: seq<string>)
    requires parts != [] && NoSlash(parts)
    ensures Split(JoinParts(parts)) == parts
  {
    if |parts| == 1 {
      SplitPart(parts[0], "");
    } else {
      SplitJoin(parts[1..]);
      SplitPart(parts[0], JoinParts(parts[1..]));
    }
  }

  lemma SplitStep(p: string)
    requires p != ""
    ensures var rest := Split(p[1..]); Split(p) == if p[0] == '/' then [""] + rest else [[p[0]] + rest[0]] + rest[1..]
  {
  }

  /** The parts of a path that continues another are the parts of both. */
  lemma {:induction false} SplitContinues(p: string, more: string)
    ensures Split(p + "/" + more) == Split(p) + Split(more)
  {
    hide Split;
    var s := p + "/" + more;
    SplitStep(s);
    if p == "" {
      assert s[1..] == more && Split("") == [""] by { SplitPart("", more); }
    } else {
      SplitContinues(p[1..], more);
      SplitStep(p);
      assert s[1..] == p[1..] + "/" + more && s[0] == p[0];
    }
  }

  lemma {:induction false} JoinContinues(a: seq<string>, b: seq<string>)
    requires a != [] && b != []
    ensures JoinParts(a + b) == JoinParts(a) + "/" + JoinParts(b)
  {
    assert (a + b)[1..] == a[1..] + b;
    if |a| > 1 { JoinContinues(a[1..], b); }
  }

  /** A path is another one or continues it exactly when the parts of that one are its first parts. */
  lemma ContinuesByParts(p: string, s: string)
    ensures s == p || HasPrefix(s, p + "/") <==> Split(p) <= Split(s)
    ensures HasPrefix(s, p + "/") ==> Split(s) == Split(p) + Split(s[|p| + 1..])
  {
    hide Split;
    if HasPrefix(s, p + "/") {
      assert s == p + "/" + s[|p| + 1..];
      SplitContinues(p, s[|p| + 1..]);
    }
    if Split(p) <= Split(s) { PartsContinue(p, s); }
  }

  lemma PartsContinue(p: string, s: string)
    requires Split(p) <= Split(s)
    ensures s == p || HasPrefix(s, p + "/")
  {
    hide Split, JoinParts;
    JoinSplit(p);
    JoinSplit(s);
    var rest := Split(s)[|Split(p)|..];
    assert Split(s) == Split(p) + rest;
    if rest != [] {
      JoinContinues(Split(p), rest);
      assert s[..|p| + 1] == p + "/";
    } else {
      assert Split(s) == Split(p);
    }
  }

  lemma {:induction false} ReducePlain(parts: seq<string>, rooted: bool, kept: seq<string>)
    requires AllPlain(parts)
    ensures Reduce(parts, rooted, kept) == kept + parts
    decreases |parts|
  {
    if parts != [] {
      ReducePlain(parts[1..], rooted, kept + [parts[0]]);
      assert kept + [parts[0]] + parts[1..] == kept + parts;
    }
  }

  /** Reduced parts: nothing empty, no dots, and double dots only in front. */
  predicate Reduced(parts: seq<string>) {
    && NoSlash(parts)
    && (forall i | 0 <= i < |parts| :: parts[i] != "" && parts[i] != ".")
    && (forall i, j | 0 <= i < j < |parts| :: parts[j] == ".." ==> parts[i] == "..")
  }

  lemma {:induction false} ReduceReduced(parts: seq<string>, kept: seq<string>)
    requires NoSlash(parts) && Reduced(kept)
    ensures Reduced(Reduce(parts, false, kept))
    decreases |parts|
  {
    if parts != [] {
      var p := parts[0];
      if p == "" || p == "." {
        ReduceReduced(parts[1..], kept);
      } else if p == ".." && kept != [] && kept[|kept| - 1] != ".." {
        ReduceReduced(parts[1..], kept[..|kept| - 1]);
      } else {
        ReduceReduced(parts[1..], kept + [p]);
      }
    }
  }

  lemma StartsUp(parts: seq<string>)
    requires parts != [] && parts[0] == ".."
    ensures JoinParts(parts) == ".." || HasPrefix(JoinParts(parts), "../")
  {
    if |parts| > 1 {
      assert JoinParts(parts)[..3] == "../";
    }
  }

  lemma PlainIsValid(p: string)
    requires AllPlain(Split(p))
    ensures p != "" && Clean(p) == p && p != ".." && !HasPrefix(p, "../") && !HasPrefix(p, "/")
  {
    hide JoinParts, Reduce, Split;
    assert Plain(Split(p)[0]);
    JoinSplit(p);
    ReducePlain(Split(p), false, []);
    assert [] + Split(p) == Split(p);
    FirstPart(p);
  }

  lemma FirstPart(p: string)
    ensures p == "" || HasPrefix(p, "/") ==> Split(p)[0] == ""
    ensures p == ".." || HasPrefix(p, "../") ==> Split(p)[0] == ".."
  {
    hide Split;
    if HasPrefix(p, "/") {
      SplitPart("", p[1..]);
      assert p == "" + "/" + p[1..];
    }
    if HasPrefix(p, "../") {
      SplitPart("..", p[3..]);
      assert p == ".." + "/" + p[3..];
    }
    SplitPart("..", "");
    SplitPart("", "");
  }

  lemma ValidIsPlain(p: string)
    requires ValidPath(p) && p != "."
    ensures AllPlain(Split(p))
  {
    hide JoinParts, Reduce, Split, HasPrefix;
    var parts := Reduce(Split(p), false, []);
    SplitNoSlash(p);
    ReduceReduced(Split(p), []);
    assert JoinParts(parts) == p;
    assert parts != [] by { EmptyJoin(); }
    SplitJoin(parts);
    if parts[0] == ".." { StartsUp(parts); }
  }

  lemma EmptyJoin()
    ensures JoinParts([]) == ""
  {
  }

  lemma DotIsValid()
    ensures ValidPath(".")
  {
    SplitPart(".", "");
    assert Reduce(["."], false, []) == [];
  }

  /** A path is valid when it is a single dot, or has only plain parts; and no forbidden character. */
  lemma ValidPathIff(p: string)
    ensures ValidPath(p) <==>
      (p == "." || AllPlain(Split(p))) && forall i | 0 <= i < |p| :: p[i] !in FORBIDDEN
  {
    hide Clean, Split;
    if p == "." {
      DotIsValid();
    } else if AllPlain(Split(p)) {
      PlainIsValid(p);
    } else if ValidPath(p) {
      ValidIsPlain(p);
    }
  }
}
