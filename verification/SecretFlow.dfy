/** Secrets interpolated into scripts (internal/expression/secret_interpolation.go). */
module SecretFlow {
  import opened Text
  import opened Syntax
  import opened Semantics
  import opened ConstantFolding
  import opened References
  import opened UntrustedInputs
  import opened UntrustedMatches

  // ----- the analysis -----

  /** An access that yields a secret: anything of the secrets context, and github.token. */
  predicate SecretValue(rt: Runtime, e: Expr)
    decreases e
  {
    match e
    case Variable(_, _) => e.Name() == "secrets"
    case Property(_, r, _) => (IsVariable(r, "github") && e.Name() == "token") || SecretValue(rt, r)
    case Filter(_, r) => SecretValue(rt, r)
    case Index(_, o, i) => (IsVariable(o, "github") && IsTokenKey(ConditionConstantValue(rt, i))) || SecretValue(rt, o)
    case _ => false
  }

  predicate IsTokenKey(v: Option<Value>) {
    v.Some? && v.value.VStr? && EqualFold(v.value.s, "token")
  }

  /** The secret accesses reported, in order. */
  function Findings(rt: Runtime, e: Expr): seq<Expr>
    decreases e
  {
    if SecretValue(rt, e) then [e]
    else match e
    case Logic(_, k, l, r) =>
      var v := ConditionConstantValue(rt, l);
      if v.Some? then (if Truthy(v.value) != (k == Or) then Findings(rt, r) else [])
      else (if k == Or then Findings(rt, l) else []) + Findings(rt, r)
    case Call(_, f, args) =>
      if IsTextPredicate(f) || Lower(f) == "hashfiles" then []
      else if IsCase(f) && CaseArity(|args|) then CaseFindings(rt, args)
      else AllFindings(rt, args)
    case Property(_, r, _) => Findings(rt, r)
    case Filter(_, r) => Findings(rt, r)
    case Index(_, o, _) => Findings(rt, o)
    case _ => []
  }

  function AllFindings(rt: Runtime, args: seq<Expr>): seq<Expr>
    decreases args
  {
    if args == [] then [] else Findings(rt, args[0]) + AllFindings(rt, args[1..])
  }

  function CaseFindings(rt: Runtime, args: seq<Expr>): seq<Expr>
    decreases args
  {
    if args == [] then []
    else if |args| == 1 then Findings(rt, args[0])
    else
      var p := ConditionConstantValue(rt, args[0]);
      if p.Some? && !Truthy(p.value) then CaseFindings(rt, args[2..])
      else if p.Some? then Findings(rt, args[1])
      else Findings(rt, args[1]) + CaseFindings(rt, args[2..])
  }

  /** The recursive visit that appends to a shared list of findings. */
  class SecretScan {
    const rt: Runtime
    var findings: seq<Expr>

    constructor (rt: Runtime)
      ensures this.rt == rt && findings == []
    {
      this.rt := rt;
      findings := [];
    }

    method Visit(e: Expr)
      modifies this
      ensures findings == old(findings) + Findings(rt, e)
      decreases e
    {
      hide AllFindings, CaseFindings, Lower, ConditionConstantValue, SecretValue;
      if SecretValue(rt, e) {
        findings := findings + [e];
        return;
      }
      match e {
        case Logic(_, k, l, r) =>
          var v := ConditionConstantValue(rt, l);
          if v.Some? {
            if Truthy(v.value) != (k == Or) { Visit(r); }
            return;
          }
          if k == Or { Visit(l); }
          Visit(r);
        case Call(_, f, args) =>
          if IsTextPredicate(f) || Lower(f) == "hashfiles" {
          } else if IsCase(f) && CaseArity(|args|) {
            VisitCase(args);
          } else {
            VisitAll(args);
          }
        case Property(_, r, _) => Visit(r);
        case Filter(_, r) => Visit(r);
        case Index(_, o, _) => Visit(o);
        case _ =>
      }
    }

    method VisitAll(args: seq<Expr>)
      modifies this
      ensures findings == old(findings) + AllFindings(rt, args)
      decreases args
    {
      for i := 0 to |args|
        invariant findings + AllFindings(rt, args[i..]) == old(findings) + AllFindings(rt, args)
      {
        assert args[i..][1..] == args[i + 1..];
        Visit(args[i]);
      }
      assert args[|args|..] == [];
    }

    method VisitCase(args: seq<Expr>)
      requires |args| % 2 == 1
      modifies this
      ensures findings == old(findings) + CaseFindings(rt, args)
      decreases args
    {
      var i := 0;
      while i < |args| - 1
        invariant i % 2 == 0 && i < |args|
        invariant findings + CaseFindings(rt, args[i..]) == old(findings) + CaseFindings(rt, args)
      {
        assert args[i..][2..] == args[i + 2..];
        var p := ConditionConstantValue(rt, args[i]);
        if p.Some? {
          if Truthy(p.value) {
            Visit(args[i + 1]);
            return;
          }
        } else {
          Visit(args[i + 1]);
        }
        i := i + 2;
      }
      Visit(args[|args| - 1]);
    }
  }

  method CheckSecretInterpolations(rt: Runtime, e: Expr) returns (findings: seq<Expr>)
    ensures findings == Findings(rt, e)
  {
    var scan := new SecretScan(rt);
    scan.Visit(e);
    findings := scan.findings;
  }

  // ----- what is reported -----

  /** The first step of an access behind its variable. */
  function FirstStep(e: Expr): Expr
    requires e.Property? || e.Filter? || e.Index?
    decreases e
  {
    var r := Receiver(e);
    if r.Property? || r.Filter? || r.Index? then FirstStep(r) else e
  }

  /** An access yields a secret exactly when it starts at the secrets context, or at the github context with a key known to be token. */
  lemma {:induction false} SecretExactly(rt: Runtime, e: Expr)
    ensures SecretValue(rt, e) <==>
      || Root(e) == Some("secrets")
      || (Root(e) == Some("github") && !e.Variable?
          && match FirstStep(e)
             case Property(_, _, _) => FirstStep(e).Name() == "token"
             case Index(_, _, i) => IsTokenKey(ConditionConstantValue(rt, i))
             case _ => false)
    decreases e
  {
    hide Lower, ConditionConstantValue, IsTokenKey;
    assert |"github"| != |"secrets"|;
    if e.Property? || e.Filter? || e.Index? { SecretExactly(rt, Receiver(e)); }
  }

  /**
   * The value of e can be made of the value of a: not when a stands in a comparison, a negation, a predicate, a hash, an
   * index, the condition of a case call, or on the left of &&.
   */
  predicate Feeds(e: Expr, a: Expr)
    decreases e
  {
    e == a ||
    match e
    case Property(_, r, _) => Feeds(r, a)
    case Filter(_, r) => Feeds(r, a)
    case Index(_, o, _) => Feeds(o, a)
    case Logic(_, k, l, r) => Feeds(r, a) || (k == Or && Feeds(l, a))
    case Call(_, f, args) =>
      && !IsTextPredicate(f) && Lower(f) != "hashfiles"
      && exists i | 0 <= i < |args| :: (IsCase(f) && CaseArity(|args|) ==> i % 2 == 1 || i == |args| - 1) && Feeds(args[i], a)
    case _ => false
  }

  /** Every finding is an access to a secret that the value can be made of. */
  lemma {:induction false} FindingsFeed(rt: Runtime, e: Expr, a: Expr)
    requires a in Findings(rt, e)
    ensures SecretValue(rt, a) && Feeds(e, a)
    decreases e, 1
  {
    hide Lower, ConditionConstantValue, SecretValue, Truthy;
    if !SecretValue(rt, e) {
      match e
      case Property(_, r, _) => FindingsFeed(rt, r, a);
      case Filter(_, r) => FindingsFeed(rt, r, a);
      case Index(_, o, _) => FindingsFeed(rt, o, a);
      case Logic(_, k, l, r) => if a in Findings(rt, r) { FindingsFeed(rt, r, a); } else { FindingsFeed(rt, l, a); }
      case Call(_, f, args) =>
        if IsCase(f) && CaseArity(|args|) {
          var i := BranchFeeds(rt, args, a);
        } else {
          var i := ArgumentFeeds(rt, args, a);
        }
    }
  }

  lemma {:induction false} ArgumentFeeds(rt: Runtime, args: seq<Expr>, a: Expr) returns (i: nat)
    requires a in AllFindings(rt, args)
    ensures SecretValue(rt, a) && i < |args| && Feeds(args[i], a)
    decreases args, 0
  {
    hide Findings, Feeds, SecretValue;
    if a in Findings(rt, args[0]) {
      FindingsFeed(rt, args[0], a);
      i := 0;
    } else {
      i := ArgumentFeeds(rt, args[1..], a);
      i := i + 1;
    }
  }

  lemma {:induction false} BranchFeeds(rt: Runtime, args: seq<Expr>, a: Expr) returns (i: nat)
    requires a in CaseFindings(rt, args)
    ensures SecretValue(rt, a) && i < |args| && (i % 2 == 1 || i == |args| - 1) && Feeds(args[i], a)
    decreases args, 0
  {
    hide Findings, Feeds, SecretValue, Truthy, ConditionConstantValue;
    if |args| == 1 {
      FindingsFeed(rt, args[0], a);
      i := 0;
    } else if a in Findings(rt, args[1]) {
      FindingsFeed(rt, args[1], a);
      i := 1;
    } else {
      i := BranchFeeds(rt, args[2..], a);
      i := i + 2;
    }
  }

  // ----- what flows at run time -----

  /** The key that the token is looked up by. */
  predicate NamesToken(v: Option<Value>) {
    v.Some? && v.value.VStr? && AsciiLower(v.value.s) == "token"
  }

  /** The scan knows every constant key of that name. */
  lemma NamedIsKey(v: Option<Value>)
    requires NamesToken(v)
    ensures IsTokenKey(v)
  {
    var s := v.value.s;
    forall i | 0 <= i < |s| ensures FoldChar(s[i]) == FoldChar("token"[i]) {
      assert AsciiLower(s)[i] == "token"[i];
    }
  }

  /**
   * Does the value of e carry a secret in this run? The secrets context does, and so does the github context as a
   * whole, of whose members only the token does. Falsy values, comparisons and predicates carry nothing, a hash hides
   * its input, and an index only selects.
   */
  predicate Carries(e: Expr, env: Env)
    decreases e
  {
    Eval(e, env).Some? && Truthy(Eval(e, env).value) &&
    match e
    case Variable(_, _) => e.Name() == "secrets" || e.Name() == "github"
    case Property(_, r, _) => if IsVariable(r, "github") then e.Name() == "token" else Carries(r, env)
    case Filter(_, r) => Carries(r, env)
    case Index(_, o, i) => if IsVariable(o, "github") then NamesToken(Eval(i, env)) else Carries(o, env)
    case Logic(_, k, l, r) =>
      if Truthy(Eval(l, env).value) == (k == Or) then Carries(l, env) else Carries(r, env)
    case Call(_, f, args) =>
      if IsTextPredicate(f) || Lower(f) == "hashfiles" then false
      else if IsCase(f) then CaseCarries(args, env)
      else exists a | a in args :: Carries(a, env)
    case _ => false
  }

  /** The selected branch of a case call. */
  predicate CaseCarries(args: seq<Expr>, env: Env)
    decreases args
  {
    EvalCase(args, env).Some? &&
    if |args| == 1 then Carries(args[0], env)
    else if Eval(args[0], env).value.b then Carries(args[1], env)
    else CaseCarries(args[2..], env)
  }

  /**
   * The same flow from two sources only: the github context as a whole, and a member of it whose key is computed and
   * comes to the name of the token in this run.
   */
  predicate Escapes(e: Expr, env: Env)
    decreases e
  {
    Eval(e, env).Some? && Truthy(Eval(e, env).value) &&
    match e
    case Variable(_, _) => e.Name() == "github"
    case Property(_, r, _) => !IsVariable(r, "github") && Escapes(r, env)
    case Filter(_, r) => Escapes(r, env)
    case Index(_, o, i) =>
      if IsVariable(o, "github") then ConditionConstantValue(env.rt, i).None? && NamesToken(Eval(i, env))
      else Escapes(o, env)
    case Logic(_, k, l, r) =>
      if Truthy(Eval(l, env).value) == (k == Or) then Escapes(l, env) else Escapes(r, env)
    case Call(_, f, args) =>
      if IsTextPredicate(f) || Lower(f) == "hashfiles" then false
      else if IsCase(f) then CaseEscapes(args, env)
      else exists a | a in args :: Escapes(a, env)
    case _ => false
  }

  predicate CaseEscapes(args: seq<Expr>, env: Env)
    decreases args
  {
    EvalCase(args, env).Some? &&
    if |args| == 1 then Escapes(args[0], env)
    else if Eval(args[0], env).value.b then Escapes(args[1], env)
    else CaseEscapes(args[2..], env)
  }

  // ----- soundness -----

  /** Constants carry no secret. */
  lemma {:induction false} FoldedIsClean(e: Expr, env: Env)
    requires ConditionConstantValue(env.rt, e).Some?
    ensures !Carries(e, env) && !Escapes(e, env)
    decreases e
  {
    FoldSound(e, env);
    match e
    case Logic(_, k, l, r) =>
      FoldSound(l, env);
      FoldedIsClean(l, env);
      if Truthy(ConditionConstantValue(env.rt, l).value) != (k == Or) { FoldedIsClean(r, env); }
    case Call(_, f, args) =>
      if IsCase(f) { FoldedCaseIsClean(args, env); } else { FoldedArgsAreClean(args, env); }
    case _ =>
  }

  lemma {:induction false} FoldedCaseIsClean(args: seq<Expr>, env: Env)
    requires FoldCase(env.rt, args).Some?
    ensures !CaseCarries(args, env) && !CaseEscapes(args, env)
    decreases args
  {
    FoldSound(args[0], env);
    if |args| == 1 {
      FoldedIsClean(args[0], env);
    } else if ConditionConstantValue(env.rt, args[0]).value.b {
      FoldedIsClean(args[1], env);
    } else {
      FoldedCaseIsClean(args[2..], env);
    }
  }

  lemma {:induction false} FoldedArgsAreClean(args: seq<Expr>, env: Env)
    requires FoldAll(env.rt, args).Some?
    ensures forall a | a in args :: !Carries(a, env) && !Escapes(a, env)
    decreases args
  {
    if args != [] {
      FoldedIsClean(args[0], env);
      FoldedArgsAreClean(args[1..], env);
    }
  }

  /** Without findings, a run's value carries a secret exactly when one escapes the scan. */
  lemma {:induction false} OnlyEscapesAreMissed(e: Expr, env: Env)
    requires Findings(env.rt, e) == []
    ensures Carries(e, env) <==> Escapes(e, env)
    decreases e
  {
    match e
    case Property(_, r, _) => OnlyEscapesAreMissed(r, env);
    case Filter(_, r) => OnlyEscapesAreMissed(r, env);
    case Index(_, o, i) =>
      OnlyEscapesAreMissed(o, env);
      FoldSound(i, env);
      if NamesToken(Eval(i, env)) { NamedIsKey(Eval(i, env)); }
    case Logic(_, k, l, r) =>
      FoldSound(l, env);
      if ConditionConstantValue(env.rt, l).Some? {
        FoldedIsClean(l, env);
      } else if k == Or {
        OnlyEscapesAreMissed(l, env);
      }
      if ConditionConstantValue(env.rt, l).None? || Truthy(ConditionConstantValue(env.rt, l).value) != (k == Or) {
        OnlyEscapesAreMissed(r, env);
      }
    case Call(_, f, args) =>
      if IsTextPredicate(f) || Lower(f) == "hashfiles" {
      } else if IsCase(f) {
        if CaseArity(|args|) { OnlyCaseEscapes(args, env); }
      } else {
        OnlyArgEscapes(args, env);
      }
    case _ =>
  }

  lemma {:induction false} OnlyCaseEscapes(args: seq<Expr>, env: Env)
    requires CaseFindings(env.rt, args) == []
    ensures CaseCarries(args, env) <==> CaseEscapes(args, env)
    decreases args
  {
    if |args| == 1 {
      OnlyEscapesAreMissed(args[0], env);
    } else if |args| > 1 {
      FoldSound(args[0], env);
      var p := ConditionConstantValue(env.rt, args[0]);
      if p.Some? && !Truthy(p.value) {
        OnlyCaseEscapes(args[2..], env);
      } else {
        OnlyEscapesAreMissed(args[1], env);
        if p.None? { OnlyCaseEscapes(args[2..], env); }
      }
    }
  }

  lemma {:induction false} OnlyArgEscapes(args: seq<Expr>, env: Env)
    requires AllFindings(env.rt, args) == []
    ensures forall a | a in args :: Carries(a, env) <==> Escapes(a, env)
    decreases args
  {
    if args != [] {
      OnlyEscapesAreMissed(args[0], env);
      OnlyArgEscapes(args[1..], env);
    }
  }

  // ----- what a caller can check -----

  /** The places a scan like that of Findings passes where a secret can escape it. */
  function Unseen(rt: Runtime, e: Expr): seq<Expr>
    decreases e
  {
    match e
    case Variable(_, _) => if e.Name() == "github" then [e] else []
    case Property(_, r, _) => if IsVariable(r, "github") then [] else Unseen(rt, r)
    case Filter(_, r) => Unseen(rt, r)
    case Index(_, o, i) =>
      if !IsVariable(o, "github") then Unseen(rt, o)
      else if ConditionConstantValue(rt, i).None? then [e]
      else []
    case Logic(_, k, l, r) =>
      var v := ConditionConstantValue(rt, l);
      if v.Some? then (if Truthy(v.value) != (k == Or) then Unseen(rt, r) else [])
      else (if k == Or then Unseen(rt, l) else []) + Unseen(rt, r)
    case Call(_, f, args) =>
      if IsTextPredicate(f) || Lower(f) == "hashfiles" then []
      else if IsCase(f) && CaseArity(|args|) then CaseUnseen(rt, args)
      else AllUnseen(rt, args)
    case _ => []
  }

  function AllUnseen(rt: Runtime, args: seq<Expr>): seq<Expr>
    decreases args
  {
    if args == [] then [] else Unseen(rt, args[0]) + AllUnseen(rt, args[1..])
  }

  function CaseUnseen(rt: Runtime, args: seq<Expr>): seq<Expr>
    decreases args
  {
    if args == [] then []
    else if |args| == 1 then Unseen(rt, args[0])
    else
      var p := ConditionConstantValue(rt, args[0]);
      if p.Some? && !Truthy(p.value) then CaseUnseen(rt, args[2..])
      else if p.Some? then Unseen(rt, args[1])
      else Unseen(rt, args[1]) + CaseUnseen(rt, args[2..])
  }

  /** Nothing escapes when no such place is passed; a conjunction's left operand can only be falsy where it is the value. */
  lemma {:induction false} EscapesAreUnseen(e: Expr, env: Env)
    requires Unseen(env.rt, e) == []
    ensures !Escapes(e, env)
    decreases e
  {
    match e
    case Property(_, r, _) => if !IsVariable(r, "github") { EscapesAreUnseen(r, env); }
    case Filter(_, r) => EscapesAreUnseen(r, env);
    case Index(_, o, _) => if !IsVariable(o, "github") { EscapesAreUnseen(o, env); }
    case Logic(_, k, l, r) =>
      FoldSound(l, env);
      if ConditionConstantValue(env.rt, l).Some? {
        FoldedIsClean(l, env);
      } else if k == Or {
        EscapesAreUnseen(l, env);
      }
      if ConditionConstantValue(env.rt, l).None? || Truthy(ConditionConstantValue(env.rt, l).value) != (k == Or) {
        EscapesAreUnseen(r, env);
      }
    case Call(_, f, args) =>
      if IsTextPredicate(f) || Lower(f) == "hashfiles" {
      } else if IsCase(f) {
        if CaseArity(|args|) { CaseEscapesAreUnseen(args, env); }
      } else {
        ArgEscapesAreUnseen(args, env);
      }
    case _ =>
  }

  lemma {:induction false} CaseEscapesAreUnseen(args: seq<Expr>, env: Env)
    requires CaseUnseen(env.rt, args) == []
    ensures !CaseEscapes(args, env)
    decreases args
  {
    if |args| == 1 {
      EscapesAreUnseen(args[0], env);
    } else if |args| > 1 {
      FoldSound(args[0], env);
      var p := ConditionConstantValue(env.rt, args[0]);
      if p.Some? && !Truthy(p.value) {
        CaseEscapesAreUnseen(args[2..], env);
      } else {
        EscapesAreUnseen(args[1], env);
        if p.None? { CaseEscapesAreUnseen(args[2..], env); }
      }
    }
  }

  lemma {:induction false} ArgEscapesAreUnseen(args: seq<Expr>, env: Env)
    requires AllUnseen(env.rt, args) == []
    ensures forall a | a in args :: !Escapes(a, env)
    decreases args
  {
    if args != [] {
      EscapesAreUnseen(args[0], env);
      ArgEscapesAreUnseen(args[1..], env);
    }
  }

  /** Without findings and without a place to escape through, no run's value carries a secret. */
  lemma NoFindingsNoSecret(e: Expr, env: Env)
    requires Findings(env.rt, e) == [] && Unseen(env.rt, e) == []
    ensures !Carries(e, env)
  {
    hide Findings, Unseen, Carries, Escapes;
    OnlyEscapesAreMissed(e, env);
    EscapesAreUnseen(e, env);
  }

  /** A computed key of github is never reported, and carries the token exactly in the runs that compute its name. */
  lemma ComputedTokenMissed(e: Expr, env: Env)
    requires e.Index? && IsVariable(e.operand, "github") && ConditionConstantValue(env.rt, e.index).None?
    ensures Findings(env.rt, e) == [] && Unseen(env.rt, e) == [e]
    ensures Carries(e, env) <==>
      Eval(e, env).Some? && Truthy(Eval(e, env).value) && NamesToken(Eval(e.index, env))
  {
    assert |"github"| != |"secrets"|;
    assert !SecretValue(env.rt, e.operand) && Findings(env.rt, e.operand) == [];
  }

  /** A function of the whole github context is never reported, and carries the token whenever it has a truthy value. */
  lemma WholeContextMissed(e: Expr, env: Env)
    requires e.Call? && |e.args| == 1 && IsVariable(e.args[0], "github")
    requires !IsTextPredicate(e.callee) && Lower(e.callee) != "hashfiles" && !IsCase(e.callee)
    ensures Findings(env.rt, e) == [] && Unseen(env.rt, e) == e.args
    ensures Carries(e, env) <==>
      && Eval(e, env).Some? && Truthy(Eval(e, env).value)
      && Eval(e.args[0], env).Some? && Truthy(Eval(e.args[0], env).value)
  {
    var github := e.args[0];
    assert |"github"| != |"secrets"|;
    assert e.args == [github] && e.args[1..] == [];
    assert !SecretValue(env.rt, github) && Findings(env.rt, github) == [];
    assert AllFindings(env.rt, e.args) == Findings(env.rt, github) + AllFindings(env.rt, e.args[1..]);
    assert AllUnseen(env.rt, e.args) == Unseen(env.rt, github) + AllUnseen(env.rt, e.args[1..]);
    assert Carries(github, env) <==> Eval(github, env).Some? && Truthy(Eval(github, env).value);
  }

  // ----- runs in which the token escapes -----

  const COMPUTED := Index(NO_SPAN, GITHUB_CONTEXT, Property(NO_SPAN, Variable(NO_SPAN, "matrix"), "k"))
  const WHOLE := Call(NO_SPAN, "toJSON", [GITHUB_CONTEXT])

  /** A run whose matrix holds the name of the token and whose github context holds the token. */
  function LeakingRun(rt: Runtime, token: string): Env {
    Env(rt, map["github" := VObj(map["token" := VStr(token)]), "matrix" := VObj(map["k" := VStr("token")])],
        (v: Value, name: string) => if v.VObj? && name in v.members then v.members[name] else VNull,
        (v: Value) => v,
        (v: Value, k: Value) => if v.VObj? && k.VStr? && AsciiLower(k.s) in v.members then v.members[AsciiLower(k.s)] else VNull,
        (f: string, vs: seq<Value>) => None)
  }

  lemma LeakNames()
    ensures Lower("github") == "github" && Lower("matrix") == "matrix" && Lower("k") == "k" && AsciiLower("token") == "token"
    ensures Lower("toJSON") == "tojson"
  {
    hide Lower, AsciiLower;
    assert forall i | 0 <= i < 6 :: Lower("github")[i] == "github"[i] && Lower("matrix")[i] == "matrix"[i];
    assert Lower("k")[0] == "k"[0];
    assert forall i | 0 <= i < 5 :: AsciiLower("token")[i] == "token"[i];
    assert forall i | 0 <= i < 6 :: Lower("toJSON")[i] == "tojson"[i];
  }

  /** In that run github[matrix.k] has no finding and is the token. */
  lemma ComputedTokenLeaks(rt: Runtime, token: string)
    requires token != ""
    ensures var env := LeakingRun(rt, token);
      Findings(rt, COMPUTED) == [] && Eval(COMPUTED, env) == Some(VStr(token)) && Carries(COMPUTED, env)
  {
    hide Lower, AsciiLower, Findings;
    LeakNames();
    var env := LeakingRun(rt, token);
    assert "github" in env.contexts && "matrix" in env.contexts;
    assert Eval(COMPUTED.index, env) == Some(VStr("token"));
    ComputedTokenMissed(COMPUTED, env);
  }

  /** In that run toJSON(github) has no finding and carries the token. */
  lemma WholeContextLeaks(rt: Runtime, token: string)
    requires EncodeJson(rt, VObj(map["token" := VStr(token)])) != ""
    ensures Findings(rt, WHOLE) == [] && Carries(WHOLE, LeakingRun(rt, token))
  {
    hide Lower, AsciiLower, Findings, EncodeJson;
    LeakNames();
    var env := LeakingRun(rt, token);
    var github := VObj(map["token" := VStr(token)]);
    assert Eval(GITHUB_CONTEXT, env) == Some(github);
    assert WHOLE.args[1..] == [];
    assert EvalAll(WHOLE.args, env) == Some([github]) by { assert [github] + [] == [github]; }
    assert Eval(WHOLE, env) == Some(VStr(EncodeJson(rt, github))) by { assert "tojson"[0] == 't'; }
    WholeContextMissed(WHOLE, env);
  }
}
