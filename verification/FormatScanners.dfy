/** The two scanners of format strings: the substitution (condition_constant.go) and the placeholder check (expr_sema.go). */
module FormatScanners {
  import opened Text
  import opened Numbers
  import opened Semantics
  import opened ConstantFolding

  const MAX_INT64: nat := 0x7fff_ffff_ffff_ffff

  /** A run of digits as strconv.Atoi returns it, overflow included. */
  function SpecifierValue(digits: string): nat {
    var n := Digits(digits, 10);
    if n > MAX_INT64 then MAX_INT64 else n
  }

  /** Before a specifier, inside one that starts at `start`, or behind its closing brace at `end`. */
  datatype Scan = Outside | Inside(start: nat) | After(start: nat, end: nat)

  predicate ScanValid(f: string, i: nat, st: Scan) {
    match st
    case Outside => i <= |f|
    case Inside(s) => s <= i <= |f| && forall k | s <= k < i :: IsDigit(f[k])
    case After(s, e) => s < e < i <= |f| && (forall k | s <= k < e :: IsDigit(f[k])) && forall k | e <= k < i :: f[k] == '}'
  }

  /** An odd number of closing braces closes the specifier. */
  function Closing(f: string, i: nat, s: nat, e: nat): set<nat>
    requires s < e < i && e <= |f|
  {
    if (i - e) % 2 == 1 then {SpecifierValue(f[s..e])} else {}
  }

  function NextScan(c: char, i: nat, st: Scan): Scan {
    match st
    case Outside => if c == '{' then Inside(i + 1) else Outside
    case Inside(s) =>
      if c == '{' then (if i == s then Outside else Inside(i + 1))
      else if c == '}' then (if i == s then Outside else After(s, i))
      else if IsDigit(c) then st
      else Outside
    case After(s, e) =>
      if c == '}' then st
      else if c == '{' then Inside(i + 1)
      else Outside
  }

  /** The specifiers found from position i on. */
  function Specifiers(f: string, i: nat, st: Scan): set<nat>
    requires ScanValid(f, i, st)
    decreases |f| - i
  {
    if i == |f| then (if st.After? then Closing(f, i, st.start, st.end) else {})
    else
      (if st.After? && f[i] != '}' then Closing(f, i, st.start, st.end) else {}) +
      Specifiers(f, i + 1, NextScan(f[i], i, st))
  }

  /** The scanning loop over its start and end marks, -1 standing for none. */
  method ParseFormatFuncSpecifiers(f: string) returns (ret: set<nat>)
    ensures ret == Specifiers(f, 0, Outside)
  {
    ret := {};
    var start, end := -1, -1;
    ghost var st := Outside;
    for i := 0 to |f|
      invariant ScanValid(f, i, st)
      invariant match st
        case Outside => start == -1 && end == -1
        case Inside(s) => start == s && end == -1
        case After(s, e) => start == s && end == e
      invariant ret + Specifiers(f, i, st) == Specifiers(f, 0, Outside)
    {
      var r := f[i];
      st := NextScan(r, i, st);
      if start == -1 {
        if r == '{' { start := i + 1; }
        continue;
      }
      if end == -1 {
        if r == '{' && i == start {
          start := -1;
        } else if r == '}' {
          if i == start { start := -1; } else { end := i; }
        } else if r < '0' || r > '9' {
          start := if r == '{' then i + 1 else -1;
        }
        continue;
      }
      if r == '}' { continue; }
      if (i - end) % 2 == 1 { ret := ret + {SpecifierValue(f[start..end])}; }
      start := if r == '{' then i + 1 else -1;
      end := -1;
    }
    if start > -1 && end > -1 && (|f| - end) % 2 == 1 {
      ret := ret + {SpecifierValue(f[start..end])};
    }
  }

  // ----- the fields of a format string that can be substituted -----

  /** Every brace is escaped or belongs to a field that holds an index. */
  predicate FieldsParse(f: string, i: nat)
    requires i <= |f|
    decreases |f| - i
  {
    i == |f| ||
    var p := FormatPartAt(f, i);
    !p.BadFormat? && (p.Field? ==> ParseIndex(p.field).Some?) && FieldsParse(f, p.next)
  }

  predicate Signed(field: string) {
    HasPrefix(field, "+") || HasPrefix(field, "-")
  }

  /** The indices of the fields with, or without, a sign. */
  function Indices(f: string, i: nat, signed: bool): set<int>
    requires i <= |f| && FieldsParse(f, i)
    decreases |f| - i
  {
    if i == |f| then {}
    else
      var p := FormatPartAt(f, i);
      (if p.Field? && Signed(p.field) == signed then {ParseIndex(p.field).value} else {}) + Indices(f, p.next, signed)
  }

  lemma {:induction false} OutsideSkips(f: string, a: nat, b: nat)
    requires a <= b <= |f| && forall k | a <= k < b :: f[k] != '{'
    ensures Specifiers(f, a, Outside) == Specifiers(f, b, Outside)
    decreases b - a
  {
    if a < b { OutsideSkips(f, a + 1, b); }
  }

  lemma {:induction false} InsideDigits(f: string, s: nat, a: nat, b: nat)
    requires s <= a <= b <= |f| && forall k | s <= k < b :: IsDigit(f[k])
    ensures Specifiers(f, a, Inside(s)) == Specifiers(f, b, Inside(s))
    decreases b - a
  {
    if a < b { InsideDigits(f, s, a + 1, b); }
  }

  /** Behind a closed specifier, escaped closing braces come in pairs and do not change it. */
  lemma {:induction false} AfterCloses(f: string, j: nat, s: nat, e: nat)
    requires ScanValid(f, j, After(s, e)) && FieldsParse(f, j) && (j - e) % 2 == 1
    ensures Specifiers(f, j, After(s, e)) == {SpecifierValue(f[s..e])} + Specifiers(f, j, Outside)
    decreases |f| - j
  {
    if j < |f| && f[j] == '}' {
      assert FormatPartAt(f, j) == Brace(j + 2);
      AfterCloses(f, j + 2, s, e);
    }
  }

  lemma {:induction false} ClosingBraceIs(f: string, i: nat)
    requires i <= |f|
    ensures forall k | i <= k < ClosingBrace(f, i) :: f[k] != '}'
    ensures ClosingBrace(f, i) < |f| ==> f[ClosingBrace(f, i)] == '}'
    decreases |f| - i
  {
    if i < |f| && f[i] != '}' { ClosingBraceIs(f, i + 1); }
  }

  /** One field, as the placeholder check reads it. */
  lemma FieldScanned(f: string, i: nat)
    requires i < |f| && FieldsParse(f, i) && FormatPartAt(f, i).Field?
    ensures var p := FormatPartAt(f, i);
      Specifiers(f, i, Outside) ==
        (if Signed(p.field) then {} else {SpecifierValue(p.field)}) + Specifiers(f, p.next, Outside)
  {
    hide Digits;
    var p := FormatPartAt(f, i);
    var s, e := i + 1, p.next - 1;
    ClosingBraceIs(f, i);
    assert f[i] == '{' && f[e] == '}' && p.field == f[s..e] && s < e;
    if Signed(p.field) {
      SignedFieldScanned(f, s, e);
    } else {
      assert AllDigits(f[s..e]);
      forall k | s <= k < e ensures IsDigit(f[k]) { assert f[k] == f[s..e][k - s]; }
      InsideDigits(f, s, s, e);
      AfterCloses(f, e + 1, s, e);
    }
  }

  lemma SignedFieldScanned(f: string, s: nat, e: nat)
    requires s < e < |f| && f[e] == '}' && Signed(f[s..e]) && ParseIndex(f[s..e]).Some?
    ensures Specifiers(f, s, Inside(s)) == Specifiers(f, e + 1, Outside)
  {
    hide Digits;
    var field := f[s..e];
    assert field[0] == f[s];
    var digits := field[1..];
    assert AllDigits(digits);
    forall k | s + 1 <= k < e + 1 ensures f[k] != '{' {
      if k < e { assert f[k] == digits[k - s - 1]; }
    }
    OutsideSkips(f, s + 1, e + 1);
  }

  /** The placeholder check finds exactly the unsigned fields. */
  lemma {:induction false} SpecifiersAreUnsigned(f: string, i: nat)
    requires i <= |f| && FieldsParse(f, i)
    requires forall n | n in Indices(f, i, false) :: n <= MAX_INT64
    ensures Specifiers(f, i, Outside) == Indices(f, i, false)
    decreases |f| - i
  {
    if i < |f| {
      var p := FormatPartAt(f, i);
      assert forall n | n in Indices(f, p.next, false) :: n in Indices(f, i, false);
      SpecifiersAreUnsigned(f, p.next);
      if p.Field? {
        FieldScanned(f, i);
        if !Signed(p.field) { assert ParseIndex(p.field).value in Indices(f, i, false); }
      } else {
        OutsideTwice(f, i);
      }
    }
  }

  lemma OutsideTwice(f: string, i: nat)
    requires i < |f| && (FormatPartAt(f, i).Plain? || FormatPartAt(f, i).Brace?)
    ensures Specifiers(f, i, Outside) == Specifiers(f, FormatPartAt(f, i).next, Outside)
  {
    if FormatPartAt(f, i).Brace? && f[i] == '}' { OutsideSkips(f, i, i + 2); }
  }

  /** A successful substitution used these indices, all within the arguments. */
  lemma {:induction false} SubstitutedInRange(f: string, i: nat, args: seq<Value>)
    requires i <= |f| && FoldFormat(f, i, args).Some?
    ensures FieldsParse(f, i)
    ensures forall n, signed | n in Indices(f, i, signed) :: 0 <= n < |args|
    decreases |f| - i
  {
    if i < |f| { SubstitutedInRange(f, FormatPartAt(f, i).next, args); }
  }

  /**
   * For a format string that substitutes, the placeholder check reports the substituted
   * indices exactly when every index written with a sign is also written without one.
   */
  lemma ScannersAgree(f: string, args: seq<Value>)
    requires FoldFormat(f, 0, args).Some? && |args| <= MAX_INT64
    ensures FieldsParse(f, 0)
    ensures Specifiers(f, 0, Outside) == Indices(f, 0, false)
    ensures Specifiers(f, 0, Outside) == Indices(f, 0, false) + Indices(f, 0, true) <==>
      Indices(f, 0, true) <= Indices(f, 0, false)
  {
    SubstitutedInRange(f, 0, args);
    SpecifiersAreUnsigned(f, 0);
  }

  /** A sign is enough for the scanners to disagree. */
  lemma SignsDisagree()
    ensures FoldFormat("{+0}", 0, [VStr("x")]) == Some("x")
    ensures Specifiers("{+0}", 0, Outside) == {}
  {
    var f := "{+0}";
    assert ClosingBrace(f, 0) == 3;
    assert FormatPartAt(f, 0) == Field(f[1..3], 4);
    assert f[1..3] == "+0" && "+0"[1..] == "0";
    assert Digits("0", 10) == 0;
    assert ParseIndex("+0") == Some(0);
    assert FoldArg(f[1..3], [VStr("x")]) == Some("x");
    assert FoldFormat(f, 4, [VStr("x")]) == Some("") && "x" + "" == "x";
    OutsideSkips(f, 2, 4);
  }
}
