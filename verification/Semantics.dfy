/** The runner's evaluation of expressions, as the documentation of the language describes it. */
module Semantics {
  import opened Text
  import opened Syntax
  import opened Numbers

  datatype Value =
    | VNull
    | VBool(b: bool)
    | VNum(n: Number)
    | VStr(s: string)
    | VArr(items: seq<Value>)
    | VObj(members: map<string, Value>)

  /** Library functions that are the same in every run. */
  datatype Runtime = Runtime(
    parseNumber: string -> Number,
    numberText: Number -> string,
    upper: char -> char,
    decodeJson: string -> Option<Value>,
    membersCollide: string -> bool,
    decodeAmbiguous: string -> Option<Value>,
    encodeJson: Value -> string,
    compareComposites: (CompareOp, Value, Value) -> bool
  )

  /** One run: its contexts, how it dereferences values, and its other functions. */
  datatype Env = Env(
    rt: Runtime,
    contexts: map<string, Value>,
    property: (Value, string) -> Value,
    filter: Value -> Value,
    index: (Value, Value) -> Value,
    call: (string, seq<Value>) -> Option<Value>
  )

  // ----- numbers -----

  predicate IsZero(n: Number) {
    n == NegZero || n == Fin(0.0)
  }

  predicate NumberEq(a: Number, b: Number) {
    a != NaN && b != NaN && (a == b || (IsZero(a) && IsZero(b)))
  }

  predicate NumberLess(a: Number, b: Number) {
    match (a, b)
    case (NaN, _) => false
    case (_, NaN) => false
    case (Infinity(neg), _) => neg && b != Infinity(true)
    case (_, Infinity(neg)) => !neg
    case (NegZero, NegZero) => false
    case (NegZero, Fin(y)) => 0.0 < y
    case (Fin(x), NegZero) => x < 0.0
    case (Fin(x), Fin(y)) => x < y
  }

  predicate CompareNumbers(op: CompareOp, a: Number, b: Number) {
    match op
    case Eq => NumberEq(a, b)
    case Ne => !NumberEq(a, b)
    case Lt => NumberLess(a, b)
    case Le => NumberLess(a, b) || NumberEq(a, b)
    case Gt => NumberLess(b, a)
    case Ge => NumberLess(b, a) || NumberEq(a, b)
  }

  /** An integer literal; minus zero is a literal of its own. */
  function IntegerNumber(text: string): Number {
    if IntegerOf(text) == 0 && HasPrefix(text, "-") then NegZero else Fin(IntegerOf(text) as real)
  }

  // ----- texts -----

  function DigitText(n: nat): string
    decreases n
  {
    var digit := [(('0' as int) + n % 10) as char];
    if n < 10 then digit else DigitText(n / 10) + digit
  }

  function IntegerText(n: int): string {
    if n < 0 then "-" + DigitText(-n) else DigitText(n)
  }

  /** Integers below 10^15 print as decimals everywhere. */
  predicate SmallInteger(n: Number) {
    n.Fin? && -1000000000000000.0 < n.value < 1000000000000000.0 && n.value == n.value.Floor as real
  }

  function BoolText(b: bool): string {
    if b then "true" else "false"
  }

  function TextOf(rt: Runtime, v: Value): string {
    match v
    case VNull => ""
    case VBool(b) => BoolText(b)
    case VNum(n) => if SmallInteger(n) then IntegerText(n.value.Floor) else rt.numberText(n)
    case VStr(s) => s
    case VArr(_) => "Array"
    case VObj(_) => "Object"
  }

  /** Ordinal case folding: upper case, unless that would make an ASCII letter of another character. */
  function FoldKey(rt: Runtime, s: string): (r: string)
    ensures |r| == |s|
  {
    if s == "" then ""
    else
      var u := rt.upper(s[0]);
      [if s[0] as int >= 128 && (u as int) < 128 then s[0] else u] + FoldKey(rt, s[1..])
  }

  function Utf16(s: string): seq<int> {
    if s == "" then []
    else
      var c := s[0] as int;
      (if c < 0x10000 then [c] else [0xd800 + (c - 0x10000) / 0x400, 0xdc00 + (c - 0x10000) % 0x400]) + Utf16(s[1..])
  }

  /** Lexicographic order: negative, zero or positive. */
  function OrderOf(a: seq<int>, b: seq<int>): int {
    if a == [] && b == [] then 0
    else if a == [] then -1
    else if b == [] then 1
    else if a[0] != b[0] then (if a[0] < b[0] then -1 else 1)
    else OrderOf(a[1..], b[1..])
  }

  /** The first text comes before the second: it is a proper part of it, or smaller where they first differ. */
  predicate Before(a: seq<int>, b: seq<int>) {
    exists i | 0 <= i <= |a| && i < |b| :: a[..i] == b[..i] && (i == |a| || a[i] < b[i])
  }

  lemma {:induction false} OrderIsLexical(a: seq<int>, b: seq<int>)
    ensures OrderOf(a, b) < 0 <==> Before(a, b)
    ensures OrderOf(a, b) > 0 <==> Before(b, a)
    ensures OrderOf(a, b) == 0 <==> a == b
  {
    if a != [] && b != [] && a[0] == b[0] {
      OrderIsLexical(a[1..], b[1..]);
      assert a == [a[0]] + a[1..] && b == [b[0]] + b[1..];
      BeforeTail(a, b);
      BeforeTail(b, a);
    } else {
      if a != [] && b != [] && a[0] < b[0] { assert a[..0] == b[..0]; }
      if a != [] && b != [] && b[0] < a[0] { assert b[..0] == a[..0]; }
      if a == [] && b != [] { assert a[..0] == b[..0]; }
      if b == [] && a != [] { assert a[..0] == b[..0]; }
    }
  }

  lemma BeforeTail(a: seq<int>, b: seq<int>)
    requires a != [] && b != [] && a[0] == b[0]
    ensures Before(a, b) <==> Before(a[1..], b[1..])
  {
    if Before(a, b) {
      var i :| 0 <= i <= |a| && i < |b| && a[..i] == b[..i] && (i == |a| || a[i] < b[i]);
      assert a[1..][..i - 1] == a[..i][1..] && b[1..][..i - 1] == b[..i][1..];
    }
    if Before(a[1..], b[1..]) {
      var i :| 0 <= i <= |a[1..]| && i < |b[1..]| && a[1..][..i] == b[1..][..i] && (i == |a[1..]| || a[1..][i] < b[1..][i]);
      assert a[..i + 1] == [a[0]] + a[1..][..i] && b[..i + 1] == [b[0]] + b[1..][..i];
    }
  }

  function StringOrder(rt: Runtime, a: string, b: string): int {
    OrderOf(Utf16(FoldKey(rt, a)), Utf16(FoldKey(rt, b)))
  }

  predicate HasSuffix(s: string, p: string) {
    |p| <= |s| && s[|s| - |p|..] == p
  }

  predicate HasInfix(s: string, p: string) {
    HasPrefix(s, p) || (s != "" && HasInfix(s[1..], p))
  }

  // ----- operators -----

  predicate Truthy(v: Value) {
    match v
    case VNull => false
    case VBool(b) => b
    case VNum(n) => n != NaN && !IsZero(n)
    case VStr(s) => s != ""
    case _ => true
  }

  predicate Composite(v: Value) {
    v.VArr? || v.VObj?
  }

  function ToNumber(rt: Runtime, v: Value): Number {
    match v
    case VNull => Fin(0.0)
    case VBool(b) => if b then Fin(1.0) else Fin(0.0)
    case VNum(n) => n
    case VStr(s) => rt.parseNumber(s)
    case _ => NaN
  }

  /** Strings compare without case, composites by identity, everything else as numbers. */
  predicate CompareValues(rt: Runtime, op: CompareOp, l: Value, r: Value) {
    if l.VStr? && r.VStr? then CompareNumbers(op, Fin(StringOrder(rt, l.s, r.s) as real), Fin(0.0))
    else if Composite(l) && Composite(r) then rt.compareComposites(op, l, r)
    else CompareNumbers(op, ToNumber(rt, l), ToNumber(rt, r))
  }

  // ----- functions -----

  predicate IsCase(callee: string) {
    Lower(callee) == "case"
  }

  predicate CaseArity(n: nat) {
    n >= 3 && n % 2 == 1
  }

  predicate IsTextPredicate(callee: string) {
    Lower(callee) == "contains" || Lower(callee) == "startswith" || Lower(callee) == "endswith"
  }

  predicate TextPredicate(f: string, left: string, right: string) {
    if f == "contains" then HasInfix(left, right)
    else if f == "startswith" then HasPrefix(left, right)
    else HasSuffix(left, right)
  }

  predicate Contains(rt: Runtime, items: seq<Value>, v: Value) {
    exists i | 0 <= i < |items| :: CompareValues(rt, Eq, items[i], v)
  }

  function Join(parts: seq<string>, separator: string): string {
    if parts == [] then ""
    else if |parts| == 1 then parts[0]
    else parts[0] + separator + Join(parts[1..], separator)
  }

  function Texts(rt: Runtime, vs: seq<Value>): (ts: seq<string>)
    ensures |ts| == |vs|
  {
    if vs == [] then [] else [TextOf(rt, vs[0])] + Texts(rt, vs[1..])
  }

  /** A string that no JSON encoder escapes. */
  predicate PlainJson(s: string) {
    forall i | 0 <= i < |s| :: ' ' <= s[i] <= '~' && s[i] !in "\"\\<>&'+`"
  }

  function EncodeJson(rt: Runtime, v: Value): string {
    match v
    case VNull => "null"
    case VBool(b) => BoolText(b)
    case VStr(s) => if PlainJson(s) then "\"" + s + "\"" else rt.encodeJson(v)
    case _ => rt.encodeJson(v)
  }

  function DecodeJson(rt: Runtime, s: string): Option<Value> {
    if rt.membersCollide(s) then rt.decodeAmbiguous(s) else rt.decodeJson(s)
  }

  predicate AllDigits(s: string) {
    forall i | 0 <= i < |s| :: IsDigit(s[i])
  }

  /** A decimal index, with an optional sign, as strconv.Atoi reads it. */
  function ParseIndex(s: string): Option<int> {
    var digits := if HasPrefix(s, "-") || HasPrefix(s, "+") then s[1..] else s;
    if digits != "" && AllDigits(digits) then
      Some(if HasPrefix(s, "-") then -(Digits(digits, 10) as int) else Digits(digits, 10))
    else None
  }

  /** The position of the first closing brace from i on, or the length of the text. */
  function ClosingBrace(f: string, i: nat): (e: nat)
    requires i <= |f|
    ensures i <= e <= |f|
    decreases |f| - i
  {
    if i == |f| || f[i] == '}' then i else ClosingBrace(f, i + 1)
  }

  /** What stands at position i of a format string: an ordinary character, an escaped brace, a field, or an error. */
  datatype FormatPart = Plain(next: nat) | Brace(next: nat) | Field(field: string, next: nat) | BadFormat

  function FormatPartAt(f: string, i: nat): (p: FormatPart)
    requires i < |f|
    ensures !p.BadFormat? ==> i < p.next <= |f|
  {
    var c := f[i];
    if c != '{' && c != '}' then Plain(i + 1)
    else if i + 1 < |f| && f[i + 1] == c then Brace(i + 2)
    else
      var e := ClosingBrace(f, i);
      if c != '{' || e == |f| || e < i + 2 then BadFormat
      else Field(f[i + 1..e], e + 1)
  }

  /** The text of the argument that a field selects. */
  function FormatArg(rt: Runtime, field: string, args: seq<Value>): Option<string> {
    match ParseIndex(field)
    case Some(n) => if 0 <= n < |args| then Some(TextOf(rt, args[n])) else None
    case None => None
  }

  /** Formatting from position i on. */
  function Format(rt: Runtime, f: string, i: nat, args: seq<Value>): Option<string>
    requires i <= |f|
    decreases |f| - i
  {
    if i == |f| then Some("")
    else
      var p := FormatPartAt(f, i);
      if p.BadFormat? then None
      else
        var first := if p.Field? then FormatArg(rt, p.field, args) else Some([f[i]]);
        var rest := Format(rt, f, p.next, args);
        if first.None? || rest.None? then None else Some(first.value + rest.value)
  }

  function Separator(rt: Runtime, args: seq<Value>, n: nat): string {
    if |args| == 2 && n > 1 && !Composite(args[1]) then TextOf(rt, args[1]) else ","
  }

  function JoinValue(rt: Runtime, args: seq<Value>): string
    requires |args| == 1 || |args| == 2
  {
    match args[0]
    case VArr(items) => Join(Texts(rt, items), Separator(rt, args, |items|))
    case VObj(_) => ""
    case v => TextOf(rt, v)
  }

  /** A function other than case, applied to evaluated arguments; f is in lower case. */
  function Apply(env: Env, f: string, args: seq<Value>): Option<Value> {
    if f == "contains" || f == "startswith" || f == "endswith" then
      if |args| != 2 then None
      else if f == "contains" && args[0].VArr? then Some(VBool(Contains(env.rt, args[0].items, args[1])))
      else if Composite(args[0]) || Composite(args[1]) then Some(VBool(false))
      else Some(VBool(TextPredicate(f, FoldKey(env.rt, TextOf(env.rt, args[0])), FoldKey(env.rt, TextOf(env.rt, args[1])))))
    else if f == "tojson" then
      if |args| == 1 then Some(VStr(EncodeJson(env.rt, args[0]))) else None
    else if f == "fromjson" then
      if |args| == 1 then DecodeJson(env.rt, TextOf(env.rt, args[0])) else None
    else if f == "join" then
      if |args| == 1 || |args| == 2 then Some(VStr(JoinValue(env.rt, args))) else None
    else if f == "format" then
      if |args| == 0 then None
      else
        var t := Format(env.rt, TextOf(env.rt, args[0]), 0, args[1..]);
        if t.None? then None else Some(VStr(t.value))
    else env.call(f, args)
  }

  // ----- evaluation -----

  /** None when evaluation fails. */
  function Eval(e: Expr, env: Env): Option<Value>
    decreases e
  {
    match e
    case NullLit(_) => Some(VNull)
    case BoolLit(_, b) => Some(VBool(b))
    case IntLit(_, t) => Some(VNum(IntegerNumber(t)))
    case FloatLit(_, t) => if ParseFloat64(t).Some? then Some(VNum(ParseFloat64(t).value)) else None
    case StrLit(_, s) => Some(VStr(s))
    case Variable(_, _) => if e.Name() in env.contexts then Some(env.contexts[e.Name()]) else None
    case Property(_, r, _) =>
      var v := Eval(r, env);
      if v.None? then None else Some(env.property(v.value, e.Name()))
    case Filter(_, r) =>
      var v := Eval(r, env);
      if v.None? then None else Some(env.filter(v.value))
    case Index(_, o, i) =>
      var v := Eval(o, env);
      var x := Eval(i, env);
      if v.None? || x.None? then None else Some(env.index(v.value, x.value))
    case Not(_, o) =>
      var v := Eval(o, env);
      if v.None? then None else Some(VBool(!Truthy(v.value)))
    case Compare(_, op, l, r) =>
      var v := Eval(l, env);
      var w := Eval(r, env);
      if v.None? || w.None? then None else Some(VBool(CompareValues(env.rt, op, v.value, w.value)))
    case Logic(_, k, l, r) =>
      var v := Eval(l, env);
      if v.None? then None
      else if Truthy(v.value) == (k == Or) then v
      else Eval(r, env)
    case Call(_, f, args) =>
      if IsCase(f) then
        if CaseArity(|args|) then EvalCase(args, env) else None
      else
        var vs := EvalAll(args, env);
        if vs.None? then None else Apply(env, Lower(f), vs.value)
  }

  function EvalAll(args: seq<Expr>, env: Env): (vs: Option<seq<Value>>)
    ensures vs.Some? ==> |vs.value| == |args|
    decreases args
  {
    if args == [] then Some([])
    else
      var v := Eval(args[0], env);
      var vs := EvalAll(args[1..], env);
      if v.None? || vs.None? then None else Some([v.value] + vs.value)
  }

  /** Predicates must be boolean; the first true one selects the value after it. */
  function EvalCase(args: seq<Expr>, env: Env): Option<Value>
    decreases args
  {
    if args == [] then None
    else if |args| == 1 then Eval(args[0], env)
    else
      var p := Eval(args[0], env);
      if p.None? || !p.value.VBool? then None
      else if p.value.b then Eval(args[1], env)
      else EvalCase(args[2..], env)
  }
}
