/** Values that cannot change the syntax of a script (internal/expression/script_interpolation.go). */
module ScriptSafety {
  import opened Text
  import opened Syntax
  import opened Semantics
  import opened ConstantFolding
  import opened References

  // ----- safe texts -----

  /** No quoting, expansion, whitespace or command separators. */
  predicate SafeScriptLiteral(s: string) {
    forall i | 0 <= i < |s| :: IsAlnum(s[i]) || s[i] in "_./:-"
  }

  predicate IsIONumber(s: string) {
    s != "" && forall i | 0 <= i < |s| :: IsDigit(s[i])
  }

  /** One position in a script: a data argument or any shell word, and what is known there. */
  datatype Position = Position(
    rt: Runtime,
    argument: bool,
    safeReference: Expr -> bool,
    keywords: set<string>
  )

  predicate SafeScriptWord(p: Position, s: string) {
    s != "" && SafeScriptLiteral(s) && !IsIONumber(s) && s !in p.keywords && s != "elif"
  }

  /** A value whose text is safe in the position; scalars are safe as data arguments only. */
  predicate SafeValue(p: Position, v: Value) {
    match v
    case VNull | VBool(_) | VNum(_) => p.argument
    case VStr(s) => (p.argument && SafeScriptLiteral(s)) || SafeScriptWord(p, s)
    case _ => false
  }

  // ----- the analysis -----

  const WORD_REFERENCES: set<string> := {
    "github.repository", "github.repositoryurl", "github.event_name", "github.ref_type",
    "github.repository_visibility", "runner.os", "runner.arch", "runner.environment", "job.status"
  }

  const ARGUMENT_REFERENCES: set<string> := {
    "github.repository_owner", "github.sha", "github.run_id", "github.run_number", "github.run_attempt",
    "github.repository_id", "github.repository_owner_id", "github.actor_id"
  }

  const STATUS_FUNCTIONS: set<string> := {"success", "failure", "cancelled", "always"}

  /** The receiver and the property of a dot access or of an access with a literal key. */
  function Access(e: Expr): Option<(Expr, string)> {
    match e
    case Property(_, r, n) => Some((r, n))
    case Index(_, o, i) => if i.StrLit? then Some((o, i.str)) else None
    case _ => None
  }

  /** steps.x.conclusion, steps.x.outcome and needs.x.result hold one of a few status words. */
  predicate StatusReference(p: Position, e: Expr) {
    Access(e).Some? &&
    var (receiver, property) := Access(e).value;
    var context := if receiver.Property? then Some(receiver.receiver)
      else if receiver.Index? then Some(receiver.operand) else None;
    && context.Some? && context.value.Variable?
    && (match Lower(context.value.Name())
        case "steps" => EqualFold(property, "conclusion") || EqualFold(property, "outcome")
        case "needs" => EqualFold(property, "result")
        case _ => false)
    && (p.argument || ((receiver.Index? ==> receiver.index.StrLit?) && p.safeReference(receiver)))
  }

  predicate Listed(p: Position, path: string) {
    path in WORD_REFERENCES || (p.argument && path in ARGUMENT_REFERENCES)
  }

  predicate ListedReference(p: Position, e: Expr) {
    Listed(p, Lower(EventReference(e)))
  }

  /** The references whose values are known to be safe by what they are. */
  predicate Accepted(p: Position, e: Expr) {
    p.safeReference(e) || StatusReference(p, e) || ListedReference(p, e)
  }

  /** References listed for data arguments only are decided by their path alone. */
  predicate Rejected(p: Position, e: Expr) {
    !p.argument && Lower(EventReference(e)) in ARGUMENT_REFERENCES
  }

  predicate SafeScriptExpression(p: Position, e: Expr)
    decreases e, 0
  {
    var known := ConditionConstantValue(p.rt, e);
    if known.Some? then SafeValue(p, known.value)
    else if Accepted(p, e) then true
    else if Rejected(p, e) then false
    else match e
    case Compare(_, _, _, _) => p.argument
    case Not(_, _) => p.argument
    case Logic(_, k, l, r) =>
      var v := ConditionConstantValue(p.rt, l);
      if v.Some? then
        if Truthy(v.value) != (k == Or) then SafeScriptExpression(p, r) else SafeScriptExpression(p, l)
      else if k == And then SafeFalsyResult(p, l) && SafeScriptExpression(p, r)
      else SafeTruthyResult(p, l) && SafeScriptExpression(p, r)
    case Call(_, f, args) =>
      if IsTextPredicate(f) || Lower(f) == "hashfiles" then p.argument
      else if Lower(f) == "tojson" && |args| == 1 && (args[0].Compare? || args[0].Not?) then p.argument
      else if Lower(f) in STATUS_FUNCTIONS then p.argument
      else IsCase(f) && CaseArity(|args|) && SafeCase(p, args)
    case _ => false
  }

  predicate SafeCase(p: Position, args: seq<Expr>)
    decreases args
  {
    if args == [] then false
    else if |args| == 1 then SafeScriptExpression(p, args[0])
    else
      var v := ConditionConstantValue(p.rt, args[0]);
      if v.Some? && !Truthy(v.value) then SafeCase(p, args[2..])
      else if v.Some? then SafeScriptExpression(p, args[1])
      else SafeScriptExpression(p, args[1]) && SafeCase(p, args[2..])
  }

  /** Is the result safe whenever it is truthy? */
  predicate SafeTruthyResult(p: Position, e: Expr)
    decreases e, 1
  {
    var v := ConditionConstantValue(p.rt, e);
    if v.Some? then !Truthy(v.value) || SafeScriptExpression(p, e)
    else match e
    case Logic(_, And, _, r) => SafeTruthyResult(p, r)
    case Logic(_, Or, l, r) => SafeTruthyResult(p, l) && SafeTruthyResult(p, r)
    case _ => SafeScriptExpression(p, e)
  }

  /** Is the result safe whenever it is falsy? Every falsy value is safe as a data argument. */
  predicate SafeFalsyResult(p: Position, e: Expr)
    decreases e, 1
  {
    if p.argument then true
    else
      var v := ConditionConstantValue(p.rt, e);
      if v.Some? then Truthy(v.value) || SafeScriptExpression(p, e)
      else match e
      case Logic(_, And, l, r) => SafeFalsyResult(p, l) && SafeFalsyResult(p, r)
      case Logic(_, Or, _, r) => SafeFalsyResult(p, r)
      case _ => SafeScriptExpression(p, e)
  }

  // ----- soundness -----

  /** In this run the functions return what they are documented to. */
  ghost predicate Trustworthy(p: Position, env: Env) {
    && p.rt == env.rt
    && (forall vs | env.call("hashfiles", vs).Some? ::
          var v := env.call("hashfiles", vs).value; v.VStr? && SafeScriptLiteral(v.s))
    && (forall f, vs | f in STATUS_FUNCTIONS && env.call(f, vs).Some? :: env.call(f, vs).value.VBool?)
  }

  /** The accepted references that the expression consists of hold safe values in this run. */
  predicate ReadsSafely(p: Position, e: Expr, env: Env)
    decreases e
  {
    && (Accepted(p, e) && Eval(e, env).Some? ==> SafeValue(p, Eval(e, env).value))
    && forall c | c in Children(e) :: ReadsSafely(p, c, env)
  }

  lemma PartsReadSafely(p: Position, e: Expr, env: Env)
    requires ReadsSafely(p, e, env)
    ensures e.Logic? ==> ReadsSafely(p, e.left, env) && ReadsSafely(p, e.right, env)
    ensures e.Call? ==> forall a | a in e.args :: ReadsSafely(p, a, env)
  {
    if e.Logic? { assert e.left in Children(e) && e.right in Children(e); }
  }

  /** In every trustworthy run in which the references it consists of are safe, an accepted expression evaluates to a safe value. */
  lemma {:induction false} SafeExpressionSound(p: Position, e: Expr, env: Env)
    requires Trustworthy(p, env) && ReadsSafely(p, e, env) && SafeScriptExpression(p, e) && Eval(e, env).Some?
    ensures SafeValue(p, Eval(e, env).value)
    decreases e, 1
  {
    FoldSound(e, env);
    PartsReadSafely(p, e, env);
    if ConditionConstantValue(p.rt, e).None? && !Accepted(p, e) {
      match e
      case Logic(_, k, l, r) =>
        FoldSound(l, env);
        var v := ConditionConstantValue(p.rt, l);
        if v.Some? {
          SafeExpressionSound(p, if Truthy(v.value) != (k == Or) then r else l, env);
        } else {
          if Truthy(Eval(l, env).value) == (k == Or) {
            if k == And { SafeFalsySound(p, l, env); } else { SafeTruthySound(p, l, env); }
          } else {
            SafeExpressionSound(p, r, env);
          }
        }
      case Call(_, f, args) => SafeCallSound(p, e, env);
      case _ =>
    }
  }

  lemma {:induction false} SafeCallSound(p: Position, e: Expr, env: Env)
    requires e.Call? && Trustworthy(p, env) && ReadsSafely(p, e, env) && SafeScriptExpression(p, e) && Eval(e, env).Some?
    requires ConditionConstantValue(p.rt, e).None? && !Accepted(p, e)
    ensures SafeValue(p, Eval(e, env).value)
    decreases e, 0
  {
    PartsReadSafely(p, e, env);
    if IsCase(e.callee) {
      SafeCaseSound(p, e.args, env);
    } else if Lower(e.callee) == "tojson" {
      assert "tojson"[0] != "always"[0];
      assert |e.args| == 1 && (e.args[0].Compare? || e.args[0].Not?);
      EncodedPredicate(e.args, env);
    }
  }

  /** A comparison or negation encodes as a word of letters. */
  lemma EncodedPredicate(args: seq<Expr>, env: Env)
    requires |args| == 1 && (args[0].Compare? || args[0].Not?)
    ensures EvalAll(args, env).Some? ==>
      var v := Apply(env, "tojson", EvalAll(args, env).value);
      v.Some? && v.value.VStr? && SafeScriptLiteral(v.value.s)
  {
    var v := Eval(args[0], env);
    assert EvalAll(args[1..], env) == Some([]);
    if v.Some? {
      assert EvalAll(args, env) == Some([v.value]) by { assert [v.value] + [] == [v.value]; }
      assert v.value.VBool?;
      assert Apply(env, "tojson", [v.value]) == Some(VStr(BoolText(v.value.b)));
      assert SafeScriptLiteral("true") && SafeScriptLiteral("false");
    }
  }

  lemma {:induction false} SafeCaseSound(p: Position, args: seq<Expr>, env: Env)
    requires Trustworthy(p, env) && (forall a | a in args :: ReadsSafely(p, a, env)) && SafeCase(p, args) && EvalCase(args, env).Some?
    ensures SafeValue(p, EvalCase(args, env).value)
    decreases args
  {
    if |args| == 1 {
      SafeExpressionSound(p, args[0], env);
    } else {
      FoldSound(args[0], env);
      if Eval(args[0], env).value.b {
        SafeExpressionSound(p, args[1], env);
      } else {
        SafeCaseSound(p, args[2..], env);
      }
    }
  }

  lemma {:induction false} SafeTruthySound(p: Position, e: Expr, env: Env)
    requires Trustworthy(p, env) && ReadsSafely(p, e, env) && SafeTruthyResult(p, e)
    requires Eval(e, env).Some? && Truthy(Eval(e, env).value)
    ensures SafeValue(p, Eval(e, env).value)
    decreases e, 2
  {
    FoldSound(e, env);
    PartsReadSafely(p, e, env);
    match e
    case Logic(_, k, l, r) =>
      if ConditionConstantValue(p.rt, e).Some? {
        SafeExpressionSound(p, e, env);
      } else if k == Or && Truthy(Eval(l, env).value) {
        SafeTruthySound(p, l, env);
      } else {
        SafeTruthySound(p, r, env);
      }
    case _ => SafeExpressionSound(p, e, env);
  }

  lemma {:induction false} SafeFalsySound(p: Position, e: Expr, env: Env)
    requires Trustworthy(p, env) && ReadsSafely(p, e, env) && SafeFalsyResult(p, e)
    requires Eval(e, env).Some? && !Truthy(Eval(e, env).value)
    ensures SafeValue(p, Eval(e, env).value)
    decreases e, 2
  {
    FoldSound(e, env);
    PartsReadSafely(p, e, env);
    if !p.argument {
      match e
      case Logic(_, k, l, r) =>
        if ConditionConstantValue(p.rt, e).Some? {
          SafeExpressionSound(p, e, env);
        } else if k == And && !Truthy(Eval(l, env).value) {
          SafeFalsySound(p, l, env);
        } else {
          SafeFalsySound(p, r, env);
        }
      case _ => SafeExpressionSound(p, e, env);
    }
  }

  // ----- what a safe text excludes -----

  /** Characters that shells treat specially: separators, quotes, expansions, redirections, patterns, history, controls and
      everything that is not ASCII. */
  predicate ShellSpecial(c: char) {
    || c <= ' ' || c >= '\U{7F}'
    || c in "'\"\\`$" || c in ";&|<>()" || c in "[]{}*?~+@," || c in "!#=%^"
  }

  predicate NothingSpecial(s: string) {
    forall i | 0 <= i < |s| :: !ShellSpecial(s[i])
  }

  lemma SpecialExactly(c: char)
    ensures ShellSpecial(c) <==> !(IsAlnum(c) || c in "_./:-")
  {
    SpecialMarks(c);
    if !ShellSpecial(c) {
      assert 33 <= c as int <= 126;
    }
  }

  lemma SpecialMarks(c: char)
    ensures (c in "'\"\\`$" || c in ";&|<>()" || c in "[]{}*?~+@," || c in "!#=%^") <==>
      c as int in {33, 34, 35, 36, 37, 38, 39, 40, 41, 42, 43, 44, 59, 60, 61, 62, 63, 64, 91, 92, 93, 94, 96, 123, 124, 125, 126}
    ensures c in "_./:-" <==> c as int in {45, 46, 47, 58, 95}
  {
  }

  /** A text is a safe literal exactly when it holds no special character. */
  lemma SafeTextExactly(s: string)
    ensures SafeScriptLiteral(s) <==> NothingSpecial(s)
  {
    hide IsAlnum, ShellSpecial;
    forall i | 0 <= i < |s| ensures ShellSpecial(s[i]) <==> !(IsAlnum(s[i]) || s[i] in "_./:-") { SpecialExactly(s[i]); }
  }

  /** A quoted text is accepted as a data argument exactly when it holds no special character, and as a word exactly when it
      is moreover neither empty nor a number nor a keyword. */
  lemma QuotedExactly(p: Position, s: string)
    ensures SafeScriptExpression(p, StrLit(NO_SPAN, s)) <==>
      NothingSpecial(s) && (p.argument || (s != "" && (exists c | c in s :: !IsDigit(c)) && s !in p.keywords && s != "elif"))
  {
    hide SafeScriptLiteral, NothingSpecial, IsDigit;
    SafeTextExactly(s);
    assert (exists c | c in s :: !IsDigit(c)) <==> exists i | 0 <= i < |s| :: !IsDigit(s[i]);
    assert ConditionConstantValue(p.rt, StrLit(NO_SPAN, s)) == Some(VStr(s));
  }

  /** Whatever an accepted expression interpolates in such a run brings no special character into the script, other than those
      that the runner prints fractions and large numbers with; in a word position it is neither empty nor a number nor a keyword. */
  lemma InterpolatedText(p: Position, e: Expr, env: Env)
    requires Trustworthy(p, env) && ReadsSafely(p, e, env) && SafeScriptExpression(p, e) && Eval(e, env).Some?
    ensures var v := Eval(e, env).value; !Composite(v) && ((v.VNum? && !SmallInteger(v.n)) || NothingSpecial(TextOf(p.rt, v)))
    ensures var v := Eval(e, env).value; !p.argument ==>
      v.VStr? && v.s != "" && (exists c | c in v.s :: !IsDigit(c)) && v.s !in p.keywords && v.s != "elif"
  {
    hide SafeScriptExpression, ReadsSafely, Trustworthy, SafeScriptLiteral, NothingSpecial, IsDigit, SmallInteger, IntegerText;
    SafeExpressionSound(p, e, env);
    var v := Eval(e, env).value;
    SafeTextExactly(TextOf(p.rt, v));
    ScalarTexts(p.rt, v);
    if v.VStr? { assert (exists c | c in v.s :: !IsDigit(c)) <==> exists i | 0 <= i < |v.s| :: !IsDigit(v.s[i]); }
  }

  lemma ScalarTexts(rt: Runtime, v: Value)
    ensures v.VNull? || v.VBool? || (v.VNum? && SmallInteger(v.n)) ==> SafeScriptLiteral(TextOf(rt, v))
  {
    hide IntegerText;
    assert SafeScriptLiteral("") && SafeScriptLiteral("true") && SafeScriptLiteral("false");
    if v.VNum? && SmallInteger(v.n) { IntegerTextIsSafe(v.n.value.Floor); }
  }

  lemma IntegerTextIsSafe(n: int)
    ensures SafeScriptLiteral(IntegerText(n))
  {
    hide DigitText;
    DigitTextIsDigits(if n < 0 then -n else n);
  }

  lemma {:induction false} DigitTextIsDigits(n: nat)
    ensures forall i | 0 <= i < |DigitText(n)| :: IsDigit(DigitText(n)[i])
    decreases n
  {
    if n >= 10 { DigitTextIsDigits(n / 10); }
  }

  // ----- which listed references are safe -----

  /** The access leads to a listed member of a context. */
  predicate ListedAccess(p: Position, e: Expr) {
    var path := AccessPath(e);
    path.Some? && |path.value| == 2 && Listed(p, path.value[0] + "." + path.value[1])
  }

  /** In this run the listed members of the contexts hold safe values. */
  ghost predicate ListedHold(p: Position, env: Env) {
    forall e | ListedAccess(p, e) && Eval(e, env).Some? :: SafeValue(p, Eval(e, env).value)
  }

  predicate PlainPath(s: string) {
    forall i | 0 <= i < |s| :: s[i] == '.' || s[i] == '_' || 'a' <= s[i] <= 'z'
  }

  /** The listed references are members of three contexts, with plain names. */
  predicate ContextMember(a: string, b: string) {
    a in {"github", "runner", "job"} && PlainComponent(a) && PlainComponent(b) && PlainPath(a + "." + b)
  }

  lemma Pair(a: string, b: string)
    requires a in {"github", "runner", "job"} && b != "" && forall i | 0 <= i < |b| :: b[i] == '_' || 'a' <= b[i] <= 'z'
    ensures ContextMember(a, b)
  {
    hide PlainComponent, PlainPath;
    ContextName(a);
    PlainName(b);
    PlainPair(a, b);
  }

  lemma ContextName(a: string)
    requires a in {"github", "runner", "job"}
    ensures PlainComponent(a) && PlainPath(a)
  {
  }

  lemma PlainName(b: string)
    requires b != "" && forall i | 0 <= i < |b| :: b[i] == '_' || 'a' <= b[i] <= 'z'
    ensures PlainComponent(b) && PlainPath(b)
  {
  }

  lemma PlainPair(a: string, b: string)
    requires PlainPath(a) && PlainPath(b)
    ensures PlainPath(a + "." + b)
  {
    var path := a + "." + b;
    assert forall i | 0 <= i < |path| :: path[i] == if i < |a| then a[i] else if i == |a| then '.' else b[i - |a| - 1];
  }

  lemma RepositoryPaths()
    ensures "github.repository" == "github" + "." + "repository" && ContextMember("github", "repository")
    ensures "github.repositoryurl" == "github" + "." + "repositoryurl" && ContextMember("github", "repositoryurl")
    ensures "github.event_name" == "github" + "." + "event_name" && ContextMember("github", "event_name")
  {
    hide ContextMember;
    Pair("github", "repository");
    Pair("github", "repositoryurl");
    Pair("github", "event_name");
  }

  lemma TypePaths()
    ensures "github.ref_type" == "github" + "." + "ref_type" && ContextMember("github", "ref_type")
    ensures "github.repository_visibility" == "github" + "." + "repository_visibility" && ContextMember("github", "repository_visibility")
  {
    hide ContextMember;
    Pair("github", "ref_type");
    Pair("github", "repository_visibility");
  }

  lemma RunnerPaths()
    ensures "runner.os" == "runner" + "." + "os" && ContextMember("runner", "os")
    ensures "runner.arch" == "runner" + "." + "arch" && ContextMember("runner", "arch")
    ensures "runner.environment" == "runner" + "." + "environment" && ContextMember("runner", "environment")
  {
    hide ContextMember;
    Pair("runner", "os");
    Pair("runner", "arch");
    Pair("runner", "environment");
  }

  lemma JobPaths()
    ensures "job.status" == "job" + "." + "status" && ContextMember("job", "status")
  {
    hide ContextMember;
    Pair("job", "status");
  }

  lemma RunPaths()
    ensures "github.repository_owner" == "github" + "." + "repository_owner" && ContextMember("github", "repository_owner")
    ensures "github.sha" == "github" + "." + "sha" && ContextMember("github", "sha")
    ensures "github.run_id" == "github" + "." + "run_id" && ContextMember("github", "run_id")
  {
    hide ContextMember;
    Pair("github", "repository_owner");
    Pair("github", "sha");
    Pair("github", "run_id");
  }

  lemma AttemptPaths()
    ensures "github.run_number" == "github" + "." + "run_number" && ContextMember("github", "run_number")
    ensures "github.run_attempt" == "github" + "." + "run_attempt" && ContextMember("github", "run_attempt")
    ensures "github.repository_id" == "github" + "." + "repository_id" && ContextMember("github", "repository_id")
  {
    hide ContextMember;
    Pair("github", "run_number");
    Pair("github", "run_attempt");
    Pair("github", "repository_id");
  }

  lemma OwnerPaths()
    ensures "github.repository_owner_id" == "github" + "." + "repository_owner_id" && ContextMember("github", "repository_owner_id")
    ensures "github.actor_id" == "github" + "." + "actor_id" && ContextMember("github", "actor_id")
  {
    hide ContextMember;
    Pair("github", "repository_owner_id");
    Pair("github", "actor_id");
  }

  lemma ListedParts(p: Position, path: string) returns (a: string, b: string)
    requires Listed(p, path)
    ensures path == a + "." + b && ContextMember(a, b)
  {
    hide ContextMember;
    RepositoryPaths();
    TypePaths();
    RunnerPaths();
    JobPaths();
    RunPaths();
    AttemptPaths();
    OwnerPaths();
    a := if path in {"runner.os", "runner.arch", "runner.environment"} then "runner" else if path == "job.status" then "job" else "github";
    b := match path
      case "github.repository" => "repository"
      case "github.repositoryurl" => "repositoryurl"
      case "github.event_name" => "event_name"
      case "github.ref_type" => "ref_type"
      case "github.repository_visibility" => "repository_visibility"
      case "runner.os" => "os"
      case "runner.arch" => "arch"
      case "runner.environment" => "environment"
      case "job.status" => "status"
      case "github.repository_owner" => "repository_owner"
      case "github.sha" => "sha"
      case "github.run_id" => "run_id"
      case "github.run_number" => "run_number"
      case "github.run_attempt" => "run_attempt"
      case "github.repository_id" => "repository_id"
      case "github.repository_owner_id" => "repository_owner_id"
      case "github.actor_id" => "actor_id"
      case _ => "";
  }

  /** A listed reference is an access to a listed member exactly when its key is looked up as it is read. */
  lemma ListedIsAccess(p: Position, e: Expr)
    requires PlainNames(e) && ListedReference(p, e)
    ensures ListedAccess(p, e) <==> OrdinalKeys(e)
    ensures e.Property? || (e.Index? && e.index.StrLit?)
    ensures var base := if e.Property? then e.receiver else e.operand;
      base.Variable? && Lower(base.spelling) in {"github", "runner", "job"}
  {
    hide Lower, EventReference, PlainNames, Listed, AccessPath, OrdinalKeys;
    var a, b := ListedParts(p, Lower(EventReference(e)));
    DottedIsNoName(e, a, b);
    PairReference(e, a, b);
    if e.Property? {
      ByProperty(e);
    } else {
      ByKey(e, a);
      if ListedAccess(p, e) { ListedIsOrdinal(p, e); }
    }
  }

  lemma ByProperty(e: Expr)
    requires e.Property? && e.receiver.Variable?
    ensures OrdinalKeys(e)
  {
  }

  lemma ByKey(e: Expr, a: string)
    requires e.Index? && e.index.StrLit? && e.operand.Variable? && Lower(e.operand.spelling) == a
    ensures OrdinalKeys(e) <==> AsciiLower(e.index.str) == Lower(e.index.str)
  {
    hide Lower, AsciiLower;
  }

  /** The key of an access to a listed member is looked up as it is read. */
  lemma ListedIsOrdinal(p: Position, e: Expr)
    requires ListedAccess(p, e)
    ensures e.Property? || (e.Index? && e.index.StrLit? && AsciiLower(e.index.str) == Lower(e.index.str))
  {
    hide Lower, AsciiLower, Listed;
    var path := AccessPath(e).value;
    if e.Index? {
      assert path[1] == AsciiLower(e.index.str);
      var a, b := ListedParts(p, path[0] + "." + path[1]);
      PlainKey(path[0], e.index.str);
    }
  }

  lemma PlainKey(a: string, key: string)
    requires PlainPath(a + "." + AsciiLower(key))
    ensures AsciiLower(key) == Lower(key)
  {
    var path := a + "." + AsciiLower(key);
    assert forall i | 0 <= i < |key| :: AsciiLower(key)[i] == path[|a| + 1 + i];
  }

  /** A run in which keys that are looked up as they are read hold a word, and all others something else. */
  function KeyedRun(rt: Runtime, word: string, other: Value): Env {
    var context := VObj(map[]);
    Env(rt, map["github" := context, "runner" := context, "job" := context],
        (v: Value, n: string) => VStr(word), (v: Value) => VNull,
        (v: Value, k: Value) => if k.VStr? && AsciiLower(k.s) == Lower(k.s) then VStr(word) else other,
        (f: string, vs: seq<Value>) => None)
  }

  lemma KeyedRunHolds(p: Position, word: string, other: Value)
    requires SafeScriptWord(p, word)
    ensures ListedHold(p, KeyedRun(p.rt, word, other)) && Trustworthy(p, KeyedRun(p.rt, word, other))
  {
    hide SafeScriptWord, ListedAccess;
    var env := KeyedRun(p.rt, word, other);
    forall e | ListedAccess(p, e) && Eval(e, env).Some? ensures SafeValue(p, Eval(e, env).value) {
      ListedIsOrdinal(p, e);
    }
  }

  /** A listed reference is safe in every run in which the listed members are exactly when its key is looked up as it is read. */
  lemma ListedExactly(p: Position, e: Expr, word: string)
    requires PlainNames(e) && ListedReference(p, e) && SafeScriptWord(p, word)
    ensures OrdinalKeys(e) <==>
      forall env: Env | env.rt == p.rt && ListedHold(p, env) && Eval(e, env).Some? :: SafeValue(p, Eval(e, env).value)
  {
    hide PlainNames, ListedReference, Listed, SafeScriptWord, OrdinalKeys, ListedAccess, Lower, AsciiLower;
    ListedIsAccess(p, e);
    if !OrdinalKeys(e) {
      var env := KeyedRun(p.rt, word, VArr([]));
      KeyedRunHolds(p, word, VArr([]));
      UnequalKey(p, e, word, VArr([]));
      assert env.rt == p.rt;
    }
  }

  lemma UnequalKey(p: Position, e: Expr, word: string, other: Value)
    requires PlainNames(e) && ListedReference(p, e) && !OrdinalKeys(e)
    ensures Eval(e, KeyedRun(p.rt, word, other)) == Some(other)
  {
    hide PlainNames, ListedReference, Lower, AsciiLower;
    ListedIsAccess(p, e);
  }

  /** No listed reference that the expression consists of has a key that is not looked up as it is read. */
  predicate ListedAreOrdinal(p: Position, e: Expr)
    decreases e
  {
    (ListedReference(p, e) ==> OrdinalKeys(e)) && forall c | c in Children(e) :: ListedAreOrdinal(p, c)
  }

  /** The references accepted for another reason hold safe values. */
  predicate OthersReadSafely(p: Position, e: Expr, env: Env)
    decreases e
  {
    && ((p.safeReference(e) || StatusReference(p, e)) && Eval(e, env).Some? ==> SafeValue(p, Eval(e, env).value))
    && forall c | c in Children(e) :: OthersReadSafely(p, c, env)
  }

  /** When the listed members of the contexts are safe, so are the listed references of such an expression. */
  lemma {:induction false} OrdinalReadsSafely(p: Position, e: Expr, env: Env)
    requires PlainNames(e) && ListedAreOrdinal(p, e) && ListedHold(p, env) && OthersReadSafely(p, e, env)
    ensures ReadsSafely(p, e, env)
    decreases e
  {
    hide StatusReference, ListedReference, OrdinalKeys, ListedAccess;
    if ListedReference(p, e) { ListedIsAccess(p, e); }
    forall c | c in Children(e) ensures ReadsSafely(p, c, env) { OrdinalReadsSafely(p, c, env); }
  }

  /** A key that reads like repository, with a dotted capital I. */
  const FOLDED := Index(NO_SPAN, GITHUB_CONTEXT, StrLit(NO_SPAN, "repos\U{0130}tory"))

  lemma FoldedReads()
    ensures Lower(EventReference(FOLDED)) == "github.repository"
    ensures PlainNames(FOLDED) && !OrdinalKeys(FOLDED)
  {
    hide Lower, AsciiLower;
    var key := "repos\U{0130}tory";
    assert EventReference(FOLDED) == "github" + "." + key;
    LowerConcat("github" + ".", key);
    LowerConcat("github", ".");
    LowerDot();
    FoldedWords();
    assert "github.repository" == "github" + "." + "repository";
    FoldedKey();
  }

  lemma FoldedKey()
    ensures PlainNames(FOLDED) && !OrdinalKeys(FOLDED)
  {
    hide Lower, AsciiLower;
    var key := "repos\U{0130}tory";
    assert AsciiLower(key)[5] == '\U{0130}' && Lower(key)[5] == 'i';
    assert PlainNames(FOLDED.operand);
  }

  lemma FoldedWords()
    ensures Lower("github") == "github" && Lower("repos\U{0130}tory") == "repository"
  {
    hide Lower;
    assert forall i | 0 <= i < 10 :: Lower("repos\U{0130}tory")[i] == "repository"[i];
    assert forall i | 0 <= i < 6 :: Lower("github")[i] == "github"[i];
  }

  /** In any word position github['repos\U{0130}tory'] is accepted, though it is null in some run, which is not a safe word. */
  lemma FoldedReferenceMisleads(p: Position, word: string)
    requires !p.argument && SafeScriptWord(p, word)
    ensures var env := KeyedRun(p.rt, word, VNull);
      && SafeScriptExpression(p, FOLDED) && Trustworthy(p, env) && ListedHold(p, env)
      && Eval(FOLDED, env) == Some(VNull) && !SafeValue(p, VNull)
  {
    hide Lower, EventReference, PlainNames, OrdinalKeys, SafeScriptWord, ListedAccess, KeyedRun, ListedHold, Trustworthy;
    FoldedReads();
    assert "github.repository" in WORD_REFERENCES;
    KeyedRunHolds(p, word, VNull);
    UnequalKey(p, FOLDED, word, VNull);
  }
}
