/** The path of a reference as text (internal/expression/event.go, eventReference). */
module References {
  import opened Text
  import opened Syntax

  /** Dots join the names and literal keys of a static access path; other indices read as []. */
  function EventReference(e: Expr): string
    decreases e
  {
    match e
    case Variable(_, n) => n
    case Filter(_, r) =>
      var base := EventReference(r);
      if base == "" then "" else base + ".*"
    case Index(_, o, i) =>
      var base := EventReference(o);
      if base == "" then "" else if i.StrLit? then base + "." + i.str else base + "[]"
    case Property(_, r, n) =>
      var base := EventReference(r);
      if base == "" then "" else base + "." + n
    case _ => ""
  }

  predicate IsVariable(e: Expr, name: string) {
    e.Variable? && e.Name() == name
  }

  const GITHUB_CONTEXT := Variable(NO_SPAN, "github")

  // ----- where an access leads -----

  /** The components of a static access path, in lower case; of keys only ASCII letters have one. */
  function AccessPath(e: Expr): Option<seq<string>>
    decreases e
  {
    match e
    case Variable(_, n) => Some([Lower(n)])
    case Property(_, r, n) =>
      var base := AccessPath(r);
      if base.None? then None else Some(base.value + [Lower(n)])
    case Index(_, o, i) =>
      var base := AccessPath(o);
      if base.None? || !i.StrLit? then None else Some(base.value + [AsciiLower(i.str)])
    case _ => None
  }

  /** Every literal key along an access path is looked up as it is read. */
  predicate OrdinalKeys(e: Expr)
    decreases e
  {
    match e
    case Property(_, r, _) => OrdinalKeys(r)
    case Filter(_, r) => OrdinalKeys(r)
    case Index(_, o, i) => OrdinalKeys(o) && (i.StrLit? ==> AsciiLower(i.str) == Lower(i.str))
    case _ => true
  }

  // ----- a dotted text names one path -----

  predicate NoDot(s: string) {
    forall i | 0 <= i < |s| :: s[i] != '.'
  }

  /** No name and no literal key along an access path contains a dot. */
  predicate DotFree(e: Expr)
    decreases e
  {
    match e
    case Variable(_, n) => NoDot(n)
    case Property(_, r, n) => NoDot(n) && DotFree(r)
    case Filter(_, r) => DotFree(r)
    case Index(_, o, i) => DotFree(o) && (i.StrLit? ==> NoDot(i.str))
    case _ => true
  }

  function Dotted(path: seq<string>): string
    requires path != []
  {
    if |path| == 1 then path[0] else Dotted(path[..|path| - 1]) + "." + path[|path| - 1]
  }

  predicate PlainComponent(s: string) {
    s != "" && NoDot(s) && s[|s| - 1] != ']' && s != "*"
  }

  lemma LowerConcat(a: string, b: string)
    ensures Lower(a + b) == Lower(a) + Lower(b)
  {
  }

  lemma LowerKeepsDots(s: string)
    requires NoDot(s)
    ensures NoDot(Lower(s))
  {
  }

  /** The text after the last dot is determined. */
  lemma LastDot(a: string, b: string, c: string, d: string)
    requires NoDot(b) && NoDot(d) && a + "." + b == c + "." + d
    ensures a == c && b == d
  {
    var s, t := a + "." + b, c + "." + d;
    assert s[|a|] == '.' && t[|c|] == '.';
    assert forall k | |a| < k < |s| :: s[k] != '.';
    assert forall k | |c| < k < |t| :: t[k] != '.';
    assert |a| == |c|;
    assert a == s[..|a|] && c == t[..|c|];
    assert b == s[|a| + 1..] && d == t[|c| + 1..];
  }

  lemma DottedHasDot(path: seq<string>)
    requires |path| > 1
    ensures exists i | 0 <= i < |Dotted(path)| :: Dotted(path)[i] == '.'
  {
    var front := Dotted(path[..|path| - 1]);
    assert Dotted(path)[|front|] == '.';
  }

  /** A reference that reads as a path of plain components, without dots in its keys, accesses that path exactly when its keys
      are looked up as they are read. */
  lemma {:induction false} ReferenceIsPath(e: Expr, path: seq<string>)
    requires DotFree(e) && path != [] && forall c | c in path :: PlainComponent(c)
    requires Lower(EventReference(e)) == Dotted(path)
    ensures AccessPath(e) == Some(path) <==> OrdinalKeys(e)
    decreases e, 0
  {
    var last := path[|path| - 1];
    assert last in path;
    match e
    case Variable(_, n) =>
      LowerKeepsDots(n);
      if |path| > 1 { DottedHasDot(path); }
      assert path == [path[0]];
    case Property(_, r, n) => ComponentIsLast(e, r, n, path);
    case Filter(_, r) => ComponentIsLast(e, r, "*", path);
    case Index(_, o, i) =>
      if i.StrLit? {
        ComponentIsLast(e, o, i.str, path);
      } else {
        var text := EventReference(e);
        assert Lower(text)[|text| - 1] == ']';
        DottedEnds(path);
      }
    case _ => DottedEnds(path);
  }

  lemma DottedEnds(path: seq<string>)
    requires path != [] && PlainComponent(path[|path| - 1])
    ensures Dotted(path) != "" && Dotted(path)[|Dotted(path)| - 1] == path[|path| - 1][|path[|path| - 1]| - 1]
  {
  }

  lemma {:induction false} ComponentIsLast(e: Expr, base: Expr, name: string, path: seq<string>)
    requires base < e && EventReference(base) != "" && EventReference(e) == EventReference(base) + "." + name
    requires NoDot(name) && DotFree(base) && path != [] && forall c | c in path :: PlainComponent(c)
    requires Lower(EventReference(e)) == Dotted(path)
    ensures |path| > 1 && Lower(name) == path[|path| - 1] && path == path[..|path| - 1] + [Lower(name)]
    ensures AccessPath(base) == Some(path[..|path| - 1]) <==> OrdinalKeys(base)
    decreases base, 1
  {
    hide EventReference, Lower, AccessPath, DotFree;
    var text, n := EventReference(base), |path|;
    LowerConcat(text + ".", name);
    LowerConcat(text, ".");
    LowerDot();
    LowerKeepsDots(name);
    assert path[n - 1] in path;
    DotMeansLonger(path, |text|);
    LastDot(Lower(text), Lower(name), Dotted(path[..n - 1]), path[n - 1]);
    assert forall c | c in path[..n - 1] :: c in path;
    ReferenceIsPath(base, path[..n - 1]);
  }

  lemma DotMeansLonger(path: seq<string>, i: nat)
    requires path != [] && NoDot(path[|path| - 1]) && i < |Dotted(path)| && Dotted(path)[i] == '.'
    ensures |path| > 1
  {
  }

  lemma LowerDot()
    ensures Lower(".") == "."
  {
  }

  /** What a reference with a component at its end consists of. */
  lemma SplitReference(e: Expr, base: Expr, name: string, text: string)
    requires EventReference(e) == EventReference(base) + "." + name && Lower(EventReference(e)) == text
    ensures |EventReference(base)| < |text| && text[|EventReference(base)|] == '.'
    ensures Lower(EventReference(base)) == text[..|EventReference(base)|]
    ensures Lower(name) == text[|EventReference(base)| + 1..]
  {
    hide EventReference, Lower;
    var b := EventReference(base);
    LowerConcat(b + ".", name);
    LowerConcat(b, ".");
    LowerDot();
    assert text == Lower(b) + "." + Lower(name);
  }

  /** A reference with a computed key at its end ends in a bracket. */
  lemma ComputedEnds(e: Expr)
    requires e.Index? && !e.index.StrLit? && EventReference(e) != ""
    ensures var text := Lower(EventReference(e)); text != "" && text[|text| - 1] == ']'
  {
  }

  /** A reference without dots is a variable. */
  lemma WordIsVariable(e: Expr, word: string)
    requires Lower(EventReference(e)) == word && PlainComponent(word)
    ensures e.Variable? && Lower(e.spelling) == word
  {
    hide Lower;
    match e
    case Variable(_, _) =>
    case Property(_, r, n) => SplitReference(e, r, n, word);
    case Filter(_, r) => SplitReference(e, r, "*", word);
    case Index(_, o, i) =>
      if i.StrLit? { SplitReference(e, o, i.str, word); } else { ComputedEnds(e); }
    case _ =>
  }

  lemma SplitPair(e: Expr, base: Expr, name: string, a: string, b: string)
    requires EventReference(e) == EventReference(base) + "." + name && Lower(EventReference(e)) == a + "." + b
    requires PlainComponent(a) && PlainComponent(b)
    ensures Lower(EventReference(base)) == a && Lower(name) == b && name != "*"
  {
    hide EventReference, Lower;
    var text := a + "." + b;
    SplitReference(e, base, name, text);
    assert |EventReference(base)| == |a|;
    assert text[..|a|] == a && text[|a| + 1..] == b;
    if name == "*" { LowerStar(); }
  }

  lemma LowerStar()
    ensures Lower("*") == "*"
  {
  }

  lemma PlainParts(e: Expr)
    requires PlainNames(e)
    ensures e.Variable? || e.Property? ==> NoDot(e.spelling)
    ensures e.Property? || e.Filter? ==> PlainNames(e.receiver) && (e.receiver.Variable? ==> NoDot(e.receiver.spelling))
    ensures e.Index? ==> PlainNames(e.operand) && (e.operand.Variable? ==> NoDot(e.operand.spelling))
  {
    assert forall i | 0 <= i < |Children(e)| :: Children(e)[i] in Children(e);
    assert e.Property? || e.Filter? ==> e.receiver == Children(e)[0];
    assert e.Index? ==> e.operand == Children(e)[0];
    assert forall s: string | (forall c | c in s :: IsNameChar(c)) :: NoDot(s) by {
      forall s: string | forall c | c in s :: IsNameChar(c) ensures NoDot(s) {
        assert forall i | 0 <= i < |s| :: s[i] in s;
      }
    }
  }

  /** A reference of two words is an access along them exactly when its keys are looked up as they are read. */
  lemma PairReference(e: Expr, a: string, b: string)
    requires !e.Variable? && Lower(EventReference(e)) == a + "." + b && PlainComponent(a) && PlainComponent(b)
    ensures AccessPath(e) == Some([a, b]) <==> OrdinalKeys(e)
    ensures e.Property? || (e.Index? && e.index.StrLit? && Lower(e.index.str) == b)
    ensures var base := if e.Property? then e.receiver else e.operand; base.Variable? && Lower(base.spelling) == a
  {
    hide Lower, AsciiLower, PlainComponent;
    match e
    case Property(_, r, n) =>
      SplitPair(e, r, n, a, b);
      WordIsVariable(r, a);
      assert AccessPath(r) == Some([a]) && [a] + [b] == [a, b];
    case Filter(_, r) => SplitPair(e, r, "*", a, b);
    case Index(_, o, i) =>
      if i.StrLit? {
        SplitPair(e, o, i.str, a, b);
        WordIsVariable(o, a);
        assert AccessPath(o) == Some([a]) && OrdinalKeys(o) && ([a] + [AsciiLower(i.str)])[1] == AsciiLower(i.str);
        assert [a] + [b] == [a, b];
      } else {
        ComputedEnds(e);
        PairEnds(a, b);
      }
    case _ =>
  }

  lemma PairEnds(a: string, b: string)
    requires PlainComponent(b)
    ensures var t := a + "." + b; t[|t| - 1] != ']'
  {
  }

  lemma DottedIsNoName(e: Expr, a: string, b: string)
    requires PlainNames(e) && Lower(EventReference(e)) == a + "." + b
    ensures !e.Variable?
  {
    hide PlainNames, Lower;
    if e.Variable? {
      PlainParts(e);
      LowerKeepsDots(e.spelling);
      HasDot(a, b);
    }
  }

  lemma HasDot(a: string, b: string)
    ensures !NoDot(a + "." + b)
  {
    assert (a + "." + b)[|a|] == '.';
  }

  /** Words without the two letters that other characters fold into are looked up as they are read. */
  lemma OrdinalWord(s: string)
    requires forall i | 0 <= i < |s| :: LowerChar(s[i]) != 'i' && LowerChar(s[i]) != 'k'
    ensures AsciiLower(s) == Lower(s)
  {
  }

  /** A key that reads as such a word is looked up so. */
  lemma PairIsOrdinal(e: Expr, a: string, b: string)
    requires !e.Variable? && Lower(EventReference(e)) == a + "." + b && PlainComponent(a) && PlainComponent(b)
    requires forall i | 0 <= i < |b| :: b[i] != 'i' && b[i] != 'k'
    ensures AccessPath(e) == Some([a, b])
  {
    hide Lower, AsciiLower, PlainComponent, EventReference;
    PairReference(e, a, b);
    if e.Index? {
      assert forall k | 0 <= k < |b| :: LowerChar(e.index.str[k]) == b[k];
      OrdinalWord(e.index.str);
    }
  }

  /** What is read does not depend on which letters were lowered before. */
  lemma LowerAgain(s: string)
    ensures Lower(Lower(s)) == Lower(s) && Lower(AsciiLower(s)) == Lower(s)
  {
    assert forall i | 0 <= i < |s| :: LowerChar(Lower(s)[i]) == LowerChar(s[i]) && LowerChar(AsciiLower(s)[i]) == LowerChar(s[i]);
  }

  /** Every access along a path reads as the path. */
  lemma {:induction false} PathReads(e: Expr)
    requires AccessPath(e).Some? && forall c | c in AccessPath(e).value :: c != ""
    ensures AccessPath(e).value != [] && EventReference(e) != ""
    ensures Lower(EventReference(e)) == Lower(Dotted(AccessPath(e).value))
    decreases e
  {
    hide Lower, AsciiLower;
    match e
    case Variable(_, n) =>
      LowerAgain(n);
      assert Lower(n) in [Lower(n)];
    case Property(_, r, n) => ComponentReads(e, r, n, Lower(n));
    case Index(_, o, i) => ComponentReads(e, o, i.str, AsciiLower(i.str));
  }

  lemma {:induction false} ComponentReads(e: Expr, base: Expr, name: string, key: string)
    requires base < e && AccessPath(base).Some? && AccessPath(e) == Some(AccessPath(base).value + [key])
    requires EventReference(base) != "" ==> EventReference(e) == EventReference(base) + "." + name
    requires (forall c | c in AccessPath(e).value :: c != "") && (key == Lower(name) || key == AsciiLower(name))
    ensures AccessPath(e).value != [] && EventReference(e) != ""
    ensures Lower(EventReference(e)) == Lower(Dotted(AccessPath(e).value))
    decreases e, 0
  {
    hide Lower, AsciiLower, AccessPath, EventReference;
    var before, path := AccessPath(base).value, AccessPath(e).value;
    assert forall c | c in before :: c in path;
    PathReads(base);
    LowerAgain(name);
    assert path[..|path| - 1] == before;
    LowerConcat(EventReference(base) + ".", name);
    LowerConcat(EventReference(base), ".");
    LowerConcat(Dotted(before) + ".", key);
    LowerConcat(Dotted(before), ".");
  }
}
