/** What the analysis of script interpolations accepts (internal/expression/script_interpolation.go). */
module ScriptAcceptance {
  import opened Text
  import opened Syntax
  import opened Numbers
  import opened Semantics
  import opened ConstantFolding
  import opened UntrustedInputs
  import opened ScriptSafety

  /** The references known to the caller are accesses. */
  ghost predicate ReferencesOnly(p: Position) {
    forall e | p.safeReference(e) :: IsAccess(e)
  }

  /** Scalars, predicates, hashes and status functions, whose texts a data argument may hold. */
  predicate Scalar(e: Expr) {
    match e
    case NullLit(_) | BoolLit(_, _) | IntLit(_, _) | Compare(_, _, _, _) | Not(_, _) => true
    case FloatLit(_, t) => ParseFloat64(t).Some?
    case Call(_, f, args) =>
      || Lower(f) in {"contains", "startswith", "endswith", "hashfiles", "success", "failure", "cancelled", "always"}
      || (Lower(f) == "tojson" && |args| == 1 && (args[0].Compare? || args[0].Not?))
    case _ => false
  }

  /** Safe texts, accepted references and, for data arguments, scalars, selected by logical operators and case calls. */
  predicate MadeOfSafe(p: Position, e: Expr)
    decreases e
  {
    match e
    case StrLit(_, s) => SafeValue(p, VStr(s))
    case Logic(_, _, l, r) => MadeOfSafe(p, l) && MadeOfSafe(p, r)
    case Call(_, f, args) =>
      if IsCase(f) then CaseArity(|args|) && BranchesMadeOfSafe(p, args) else p.argument && Scalar(e)
    case _ => if IsAccess(e) then Accepted(p, e) else p.argument && Scalar(e)
  }

  predicate BranchesMadeOfSafe(p: Position, args: seq<Expr>)
    decreases args
  {
    args != [] && if |args| == 1 then MadeOfSafe(p, args[0]) else MadeOfSafe(p, args[1]) && BranchesMadeOfSafe(p, args[2..])
  }

  lemma NoReference(p: Position, e: Expr)
    requires ReferencesOnly(p) && !IsAccess(e)
    ensures !Accepted(p, e) && !Rejected(p, e)
  {
  }

  lemma ScalarAccepted(p: Position, e: Expr)
    requires ReferencesOnly(p) && p.argument && Scalar(e) && !(e.Call? && IsCase(e.callee))
    ensures SafeScriptExpression(p, e)
  {
    hide Accepted, Rejected, ReferencesOnly;
    NoReference(p, e);
    if e.Call? { CallScalar(p, e); }
  }

  lemma CallScalar(p: Position, e: Expr)
    requires e.Call? && p.argument && Scalar(e) && !IsCase(e.callee) && !Accepted(p, e) && !Rejected(p, e)
    ensures SafeScriptExpression(p, e)
  {
    hide Accepted, Rejected, Lower, FoldKey, TextPredicate;
    var args := e.args;
    if Lower(e.callee) == "tojson" {
      FoldedEncoding(p, e);
    }
  }

  lemma FoldedEncoding(p: Position, e: Expr)
    requires e.Call? && Lower(e.callee) == "tojson" && |e.args| == 1 && (e.args[0].Compare? || e.args[0].Not?)
    ensures var v := ConditionConstantValue(p.rt, e); v.Some? ==> v.value.VStr? && SafeScriptLiteral(v.value.s)
  {
    hide Lower;
    assert "tojson"[0] != "case"[0];
    assert e.args[1..] == [];
    assert SafeScriptLiteral("true") && SafeScriptLiteral("false");
    var v := ConditionConstantValue(p.rt, e.args[0]);
    if v.Some? { assert FoldAll(p.rt, e.args) == Some([v.value] + []) && [v.value] + [] == [v.value]; }
  }

  /** Whatever is made of safe parts is accepted, as it is and as the value of an operand. */
  lemma {:induction false} MadeOfSafeAccepted(p: Position, e: Expr)
    requires ReferencesOnly(p) && MadeOfSafe(p, e)
    ensures SafeScriptExpression(p, e) && SafeTruthyResult(p, e) && SafeFalsyResult(p, e)
    decreases e, 1
  {
    hide Accepted, Rejected, ReferencesOnly, Scalar, Lower, Truthy, FoldApply;
    match e
    case StrLit(_, _) => NoReference(p, e);
    case Logic(_, _, l, r) =>
      NoReference(p, e);
      MadeOfSafeAccepted(p, l);
      MadeOfSafeAccepted(p, r);
      FoldedOperand(p, e);
    case Call(_, f, args) =>
      if IsCase(f) {
        NoReference(p, e);
        BranchesAccepted(p, args);
      } else {
        ScalarAccepted(p, e);
      }
    case _ =>
      if IsAccess(e) { AccessNeverFolds(p.rt, e); } else { ScalarAccepted(p, e); }
  }

  /** A folded operator has the folded value of an accepted operand. */
  lemma FoldedOperand(p: Position, e: Expr)
    requires e.Logic? && SafeScriptExpression(p, e.left) && SafeScriptExpression(p, e.right)
    ensures ConditionConstantValue(p.rt, e).Some? ==> SafeValue(p, ConditionConstantValue(p.rt, e).value)
  {
    hide Accepted, Rejected, Truthy;
  }

  lemma {:induction false} BranchesAccepted(p: Position, args: seq<Expr>)
    requires ReferencesOnly(p) && |args| % 2 == 1 && BranchesMadeOfSafe(p, args)
    ensures SafeCase(p, args)
    ensures FoldCase(p.rt, args).Some? ==> SafeValue(p, FoldCase(p.rt, args).value)
    decreases args, 0
  {
    hide Accepted, Rejected, ReferencesOnly, MadeOfSafe, SafeTruthyResult, SafeFalsyResult;
    if |args| == 1 {
      MadeOfSafeAccepted(p, args[0]);
    } else {
      MadeOfSafeAccepted(p, args[1]);
      BranchesAccepted(p, args[2..]);
    }
  }
}
