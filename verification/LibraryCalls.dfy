/** What the library functions compute that folding and evaluation share (internal/expression/condition_constant.go). */
module LibraryCalls {
  import opened Text
  import opened Syntax
  import opened Numbers
  import opened Semantics
  import opened ConstantFolding

  // ----- contains, startsWith and endsWith -----

  lemma {:induction false} InfixSomewhere(s: string, p: string)
    ensures HasInfix(s, p) <==> exists i | 0 <= i <= |s| :: HasPrefix(s[i..], p)
    decreases |s|
  {
    assert s[0..] == s;
    if s != "" {
      InfixSomewhere(s[1..], p);
      forall i | 0 <= i < |s| ensures s[1..][i..] == s[i + 1..] {}
      if HasInfix(s[1..], p) {
        var i :| 0 <= i <= |s[1..]| && HasPrefix(s[1..][i..], p);
        assert HasPrefix(s[i + 1..], p);
      }
      forall i | 0 < i <= |s| && HasPrefix(s[i..], p) ensures HasPrefix(s[1..][i - 1..], p) { assert s[1..][i - 1..] == s[i..]; }
    }
  }

  /** The second text stands somewhere in the first, at its start, or at its end. */
  predicate Located(f: string, a: string, b: string) {
    if f == "contains" then exists i, j | 0 <= i <= j <= |a| :: a[i..j] == b
    else if f == "startswith" then exists j | 0 <= j <= |a| :: a[..j] == b
    else exists i | 0 <= i <= |a| :: a[i..] == b
  }

  lemma TextPredicateLocates(f: string, a: string, b: string)
    requires f == "contains" || f == "startswith" || f == "endswith"
    ensures TextPredicate(f, a, b) <==> Located(f, a, b)
  {
    hide HasInfix;
    if f == "contains" {
      InfixSomewhere(a, b);
      PartsAreInfixes(a, b);
    } else if f == "startswith" {
      if HasPrefix(a, b) { assert a[..|b|] == b; }
    } else {
      if HasSuffix(a, b) { assert a[|a| - |b|..] == b; }
    }
  }

  /** The predicates on two texts say where, without case, the second stands in the first. */
  lemma PredicatesLocate(rt: Runtime, f: string, s: string, t: string)
    requires IsTextPredicate(f)
    ensures ConditionConstantValue(rt, Call(NO_SPAN, f, [StrLit(NO_SPAN, s), StrLit(NO_SPAN, t)]))
      == Some(VBool(Located(Lower(f), FoldKey(rt, s), FoldKey(rt, t))))
  {
    hide Lower, FoldKey, TextPredicate, Located;
    TwoTexts(rt, s, t);
    TextPredicateLocates(Lower(f), FoldKey(rt, s), FoldKey(rt, t));
  }

  lemma PartsAreInfixes(a: string, b: string)
    ensures (exists i | 0 <= i <= |a| :: HasPrefix(a[i..], b)) <==> exists i, j | 0 <= i <= j <= |a| :: a[i..j] == b
  {
    forall i | 0 <= i <= |a| && HasPrefix(a[i..], b) ensures i + |b| <= |a| && a[i..i + |b|] == b {
      assert a[i..][..|b|] == a[i..i + |b|];
    }
    forall i, j | 0 <= i <= j <= |a| && a[i..j] == b ensures HasPrefix(a[i..], b) {
      assert a[i..][..|b|] == a[i..j];
    }
  }

  lemma TwoTexts(rt: Runtime, s: string, t: string)
    ensures FoldAll(rt, [StrLit(NO_SPAN, s), StrLit(NO_SPAN, t)]) == Some([VStr(s), VStr(t)])
  {
    var args := [StrLit(NO_SPAN, s), StrLit(NO_SPAN, t)];
    assert args[1..] == [StrLit(NO_SPAN, t)] && args[1..][1..] == [];
    assert FoldAll(rt, args[1..][1..]) == Some([]);
    assert FoldAll(rt, args[1..]) == Some([VStr(t)] + []) && [VStr(t)] + [] == [VStr(t)];
    assert FoldAll(rt, args) == Some([VStr(s)] + [VStr(t)]) && [VStr(s)] + [VStr(t)] == [VStr(s), VStr(t)];
  }

  // ----- join -----

  /** Joining lists one after the other puts the separator between them too. */
  lemma {:induction false} JoinContinues(a: seq<string>, b: seq<string>, separator: string)
    requires a != [] && b != []
    ensures Join(a + b, separator) == Join(a, separator) + separator + Join(b, separator)
  {
    assert (a + b)[1..] == a[1..] + b && (a + b)[0] == a[0];
    if |a| > 1 {
      JoinContinues(a[1..], b, separator);
    } else {
      assert a[1..] + b == b;
    }
  }

  // ----- format -----

  predicate NoBrace(s: string) {
    forall i | 0 <= i < |s| :: s[i] != '{' && s[i] != '}'
  }

  lemma {:induction false} BraceMoves(s: string, f: string, i: nat)
    requires i <= |f|
    ensures ClosingBrace(s + f, |s| + i) == |s| + ClosingBrace(f, i)
    decreases |f| - i
  {
    if i < |f| && f[i] != '}' { BraceMoves(s, f, i + 1); }
  }

  /** What stands at a position does not depend on what comes before. */
  lemma PartMoves(s: string, f: string, i: nat)
    requires i < |f|
    ensures var p, q := FormatPartAt(s + f, |s| + i), FormatPartAt(f, i);
      match q
      case Plain(n) => p == Plain(|s| + n)
      case Brace(n) => p == Brace(|s| + n)
      case Field(t, n) => p == Field(t, |s| + n)
      case BadFormat => p == BadFormat
  {
    BraceMoves(s, f, i);
    var e := ClosingBrace(f, i);
    if i + 1 <= e { assert (s + f)[|s| + i + 1..|s| + e] == f[i + 1..e]; }
  }

  lemma {:induction false} FormatMoves(rt: Runtime, s: string, f: string, i: nat, args: seq<Value>)
    requires i <= |f|
    ensures Format(rt, s + f, |s| + i, args) == Format(rt, f, i, args)
    decreases |f| - i
  {
    hide FormatPartAt, FormatArg;
    if i < |f| {
      PartMoves(s, f, i);
      var p := FormatPartAt(f, i);
      if !p.BadFormat? { FormatMoves(rt, s, f, p.next, args); }
    }
  }

  function Prefixed(s: string, t: Option<string>): Option<string> {
    if t.None? then None else Some(s + t.value)
  }

  /** Text without braces stands for itself. */
  lemma {:induction false} FormatCopies(rt: Runtime, s: string, f: string, args: seq<Value>)
    requires NoBrace(s)
    ensures Format(rt, s + f, 0, args) == Prefixed(s, Format(rt, f, 0, args))
  {
    hide FormatArg;
    if s == "" {
      assert s + f == f && (Format(rt, f, 0, args).Some? ==> "" + Format(rt, f, 0, args).value == Format(rt, f, 0, args).value);
    } else {
      FormatCopies(rt, s[1..], f, args);
      assert s + f == [s[0]] + (s[1..] + f);
      FormatMoves(rt, [s[0]], s[1..] + f, 0, args);
      if Format(rt, f, 0, args).Some? { assert [s[0]] + (s[1..] + Format(rt, f, 0, args).value) == s + Format(rt, f, 0, args).value; }
    }
  }

  /** A doubled brace stands for one. */
  lemma FormatUnescapes(rt: Runtime, c: char, f: string, args: seq<Value>)
    requires c == '{' || c == '}'
    ensures Format(rt, [c, c] + f, 0, args) == Prefixed([c], Format(rt, f, 0, args))
  {
    hide FormatArg;
    FormatMoves(rt, [c, c], f, 0, args);
    assert FormatPartAt([c, c] + f, 0) == Brace(2);
  }

  lemma {:induction false} DigitTextReads(n: nat)
    ensures DigitText(n) != "" && AllDigits(DigitText(n)) && Digits(DigitText(n), 10) == n
    decreases n
  {
    if n >= 10 { DigitTextReads(n / 10); }
    var digit := [(('0' as int) + n % 10) as char];
    assert Digits(digit, 10) == n % 10 by { assert digit[..0] == ""; }
    if n >= 10 {
      assert DigitText(n) == DigitText(n / 10) + digit;
      assert DigitText(n)[..|DigitText(n)| - 1] == DigitText(n / 10);
    }
  }

  lemma NoClosingBrace(s: string, rest: string, i: nat)
    requires i <= |s| && forall k | 0 <= k < |s| :: s[k] != '}'
    ensures ClosingBrace(s + "}" + rest, i) == |s|
    decreases |s| - i
  {
    if i < |s| { NoClosingBrace(s, rest, i + 1); }
  }

  /** A field with a decimal index stands for the text of that argument, and there is no value when there is no such argument. */
  lemma FormatSubstitutes(rt: Runtime, n: nat, f: string, args: seq<Value>)
    ensures Format(rt, "{" + DigitText(n) + "}" + f, 0, args) ==
      if n < |args| then Prefixed(TextOf(rt, args[n]), Format(rt, f, 0, args)) else None
  {
    hide Format, DigitText, Digits, TextOf;
    var digits := DigitText(n);
    var s := "{" + digits + "}" + f;
    DigitTextReads(n);
    assert forall k | 0 <= k < |digits| :: IsDigit(digits[k]);
    NoClosingBrace("{" + digits, f, 0);
    assert s[1] == digits[0] && s[1..|digits| + 1] == digits;
    assert FormatPartAt(s, 0) == Field(digits, |digits| + 2);
    assert ParseIndex(digits) == Some(n);
    assert s == ("{" + digits + "}") + f;
    FormatMoves(rt, "{" + digits + "}", f, 0, args);
    FormatField(rt, s, digits, |digits| + 2, args);
  }

  lemma FormatField(rt: Runtime, s: string, field: string, next: nat, args: seq<Value>)
    requires s != "" && FormatPartAt(s, 0) == Field(field, next)
    ensures Format(rt, s, 0, args) ==
      if FormatArg(rt, field, args).None? then None else Prefixed(FormatArg(rt, field, args).value, Format(rt, s, next, args))
  {
    hide FormatPartAt, FormatArg;
  }
}
