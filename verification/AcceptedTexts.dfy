/** The texts that parse are exactly the layouts of derivations (internal/expression/expr_lexer.go, expr_parser.go). */
module AcceptedTexts {
  import opened Text
  import opened Syntax
  import opened Lexing
  import opened Relexing
  import opened Depth
  import opened Parsing
  import opened Grammar
  import opened RoundTrip
  import opened Spans

  /** The text is the derivation's tokens with whitespace around them, an end marker, and what comes after it. */
  ghost predicate Laid(src: string, c: Cst, gaps: seq<string>, rest: string) {
    && WellFormed(c, OR_LEVEL) && (forall x | x in RoundTrip.Lexemes(c) :: IsLexeme(x))
    && Spaced(RoundTrip.Lexemes(c), gaps) && (rest != "" ==> rest[0] != NUL)
    && src == Layout(RoundTrip.Lexemes(c), gaps, rest)
  }

  // ----- a token of a source as a lexeme -----

  /** The text of a mark; other tokens have many. */
  function MarkText(k: Kind): string {
    match k
    case LeftParen => "(" case RightParen => ")" case LeftBracket => "[" case RightBracket => "]"
    case Dot => "." case Star => "*" case Comma => "," case Bang => "!"
    case Less => "<" case LessEq => "<=" case Greater => ">" case GreaterEq => ">="
    case EqEq => "==" case NotEq => "!=" case AndAnd => "&&" case OrOr => "||" case End => "}}"
    case _ => ""
  }

  predicate MarkSpelled(k: Kind, text: string) {
    MarkText(k) != "" ==> text == MarkText(k)
  }

  lemma MarkShape(src: string, q: nat)
    requires q < |src| && LexShape(src, q).Tok?
    ensures MarkSpelled(LexShape(src, q).kind, src[q..LexShape(src, q).at])
  {
    hide LexNumber, LexStringRest, RunEnd;
    var s := LexShape(src, q);
    var c := src[q];
    if IsAlpha(c) || c == '_' {
    } else if IsDigit(c) || c == '-' {
      NumberKind(src, q);
    } else if c == '\'' {
      StringKind(src, q + 1);
    } else if s.at == q + 1 {
      assert src[q..q + 1] == [c];
    } else {
      assert src[q..q + 2] == [c, src[q + 1]];
    }
  }

  lemma NumberKind(src: string, q: nat)
    requires InAt(src, q, Digit) || Is(src, q, '-')
    ensures LexNumber(src, q).Tok? ==> LexNumber(src, q).kind == Int || LexNumber(src, q).kind == Float
  {
  }

  /** The token of a source is one token on its own. */
  lemma AloneShape(src: string, q: nat)
    requires q < |src| && LexShape(src, q).Tok?
    ensures var s := LexShape(src, q); LexShape(src[q..s.at], 0) == Tok(s.kind, s.at - q)
  {
    hide LexShape, HexAt;
    var s := LexShape(src, q);
    var x := src[q..s.at];
    assert x[0..s.at - q] == x;
    SameIntro(src, q, x, 0, s.at - q);
    ShapeLocal(src, q, x, 0);
  }

  lemma HexKept(src: string, q: nat)
    requires q < |src| && LexShape(src, q).Tok? && LexShape(src, q).kind == Int && HexAt(src, q)
    ensures HexAt(src[q..LexShape(src, q).at], 0)
  {
    var p := if Is(src, q, '-') then q + 1 else q;
    var x := src[q..LexShape(src, q).at];
    assert LexNumber(src, q) == LexHex(src, p + 2);
    assert LexShape(src, q).at > p + 2;
    assert x[p - q] == src[p] && x[p + 1 - q] == src[p + 1] && x[0] == src[q];
  }

  lemma StopsKept(src: string, q: nat, x: Lexeme)
    requires q < |src| && LexShape(src, q).Tok? && LexShape(src, q).at < |src|
    requires x == Lexeme(LexShape(src, q).kind, src[q..LexShape(src, q).at])
    ensures StopsBefore(x, src[LexShape(src, q).at])
  {
    hide LexShape, HexAt;
    ShapeStops(src, q);
    if x.kind == Int && HexAt(src, q) { HexKept(src, q); }
  }

  function LexemeOf(t: Token): Lexeme {
    Lexeme(t.kind, t.value)
  }

  /** Tokens i to j of a scan. */
  function Marks(ts: seq<Token>, i: nat, j: nat): (xs: seq<Lexeme>)
    requires i <= j <= |ts|
    ensures |xs| == j - i && forall k | 0 <= k < j - i :: xs[k] == LexemeOf(ts[i + k])
  {
    seq(j - i, k requires 0 <= k < j - i => LexemeOf(ts[i + k]))
  }

  /** A token read without an error is a lexeme, and what follows it does not extend it. */
  lemma TokenLexeme(src: string, k: nat)
    requires k < |Scan(src, 0, 0)| && Clean(Scan(src, 0, 0), k + 1)
    ensures var l := Scan(src, 0, 0)[k];
      && MarkSpelled(l.tok.kind, l.tok.value) && l.pos <= |src|
      && (l.tok.kind != End ==> IsLexeme(LexemeOf(l.tok)))
      && (l.pos < |src| ==> StopsBefore(LexemeOf(l.tok), src[l.pos]) && src[l.pos] != NUL)
  {
    hide LexShape, StopsBefore, Scan, RunEnd, NulBetween, MarkSpelled, Lex, IsLexeme;
    var l := Scan(src, 0, 0)[k];
    CleanToken(src, k);
    var p := Before(Scan(src, 0, 0), k);
    var q := RunEnd(src, p, White);
    MarkShape(src, q);
    if l.pos < |src| { StopsKept(src, q, LexemeOf(l.tok)); }
    NoNulRead(src, p);
    NulNone(src, p, l.pos);
    if l.tok.kind != End { LexemeIntro(src, q, LexemeOf(l.tok)); }
  }

  lemma LexemeIntro(src: string, q: nat, x: Lexeme)
    requires q < |src| && LexShape(src, q).Tok? && x == Lexeme(LexShape(src, q).kind, src[q..LexShape(src, q).at])
    requires x.kind != End && forall i | q <= i < LexShape(src, q).at :: src[i] != NUL
    ensures IsLexeme(x)
  {
    hide LexShape;
    AloneShape(src, q);
  }

  lemma NoNulRead(src: string, p: nat)
    requires p <= |src| && Lex(src, p, p).err == None
    ensures NulBetween(src, p, Lex(src, p, p).pos) == None
  {
  }

  // ----- the tokens of a derivation -----

  predicate Spelled(ts: seq<Token>, n: nat) {
    n <= |ts| && forall k | 0 <= k < n :: MarkSpelled(ts[k].kind, ts[k].value)
  }

  lemma MarksSplit(ts: seq<Token>, i: nat, m: nat, j: nat)
    requires i <= m <= j <= |ts|
    ensures Marks(ts, i, j) == Marks(ts, i, m) + Marks(ts, m, j)
  {
  }

  lemma MarksOne(ts: seq<Token>, i: nat)
    requires i < |ts|
    ensures Marks(ts, i, i + 1) == [LexemeOf(ts[i])]
  {
  }

  /** Two marks around or between what has been spelled. */
  lemma MarksThree(ts: seq<Token>, i: nat, a: nat, b: nat, j: nat)
    requires i <= a <= b <= j <= |ts|
    ensures Marks(ts, i, j) == Marks(ts, i, a) + Marks(ts, a, b) + Marks(ts, b, j)
  {
    MarksSplit(ts, i, b, j);
    MarksSplit(ts, i, a, b);
  }

  /** The lexeme of a mark. */
  function Mark(k: Kind): Lexeme {
    Lexeme(k, MarkText(k))
  }

  lemma MarkRead(ts: seq<Token>, i: nat, n: nat, k: Kind)
    requires Spelled(ts, n) && i < n && TokenIs(ts, i, k) && MarkText(k) != ""
    ensures Marks(ts, i, i + 1) == [Mark(k)]
  {
    hide MarkText;
    MarksOne(ts, i);
  }

  lemma OpeningMarks()
    ensures Mark(LeftParen) == Lexeme(LeftParen, "(") && Mark(RightParen) == Lexeme(RightParen, ")")
    ensures Mark(LeftBracket) == Lexeme(LeftBracket, "[") && Mark(RightBracket) == Lexeme(RightBracket, "]")
    ensures Mark(Dot) == Lexeme(Dot, ".") && Mark(Star) == Lexeme(Star, "*") && Mark(Comma) == Lexeme(Comma, ",")
    ensures Mark(Bang) == Lexeme(Bang, "!")
    ensures forall k | k == LeftParen || k == RightParen || k == LeftBracket || k == RightBracket || k == Dot || k == Star
      || k == Comma || k == Bang :: MarkText(k) != ""
  {
  }

  lemma OperatorMarks(op: CompareOp, k: LogicOp)
    ensures Mark(CompareKind(op)) == CompareLexeme(op) && MarkText(CompareKind(op)) != ""
    ensures Mark(LogicKind(k)) == (if k == And then Lexeme(AndAnd, "&&") else Lexeme(OrOr, "||")) && MarkText(LogicKind(k)) != ""
  {
  }

  /** The tokens that spell a derivation are its lexemes. */
  lemma {:induction false} LexemesRead(c: Cst, ts: seq<Token>, i: nat, n: nat)
    requires Spells(c, ts, i) && i + Width(c) <= n && Spelled(ts, n)
    ensures RoundTrip.Lexemes(c) == Marks(ts, i, i + Width(c))
    decreases c
  {
    hide Marks, Mark, MarkText, Spelled, RoundTrip.Lexemes, Spells, Width;
    Within(ts, n);
    match c
    case WordC(_) | IntC(_) | FloatC(_) | StringC(_) => LeafRead(c, ts, i, n);
    case ParenC(x) => ParenRead(c, ts, i, n);
    case CallC(_, _) => CallRead(c, ts, i, n);
    case PropertyC(_, _) | FilterC(_) => MemberRead(c, ts, i, n);
    case IndexC(_, _) => IndexRead(c, ts, i, n);
    case NotC(_) => NotRead(c, ts, i, n);
    case CompareC(_, _, _) | LogicC(_, _, _) => BinaryRead(c, ts, i, n);
  }

  lemma LeafRead(c: Cst, ts: seq<Token>, i: nat, n: nat)
    requires (c.WordC? || c.IntC? || c.FloatC? || c.StringC?) && Spells(c, ts, i) && i + Width(c) <= n <= |ts|
    ensures RoundTrip.Lexemes(c) == Marks(ts, i, i + Width(c))
  {
    hide Marks;
    MarksOne(ts, i);
  }

  lemma {:induction false} ParenRead(c: Cst, ts: seq<Token>, i: nat, n: nat)
    requires c.ParenC? && Spells(c, ts, i) && i + Width(c) <= n && Spelled(ts, n)
    ensures RoundTrip.Lexemes(c) == Marks(ts, i, i + Width(c))
    decreases c, 0
  {
    hide Marks, Mark, MarkText, Spelled, Spells, Width, RoundTrip.Lexemes;
    Within(ts, n);
    OpeningMarks();
    ParenParts(c, ts, i);
    var j := i + Width(c);
    LexemesRead(c.inner, ts, i + 1, n);
    MarksThree(ts, i, i + 1, j - 1, j);
    MarkRead(ts, i, n, LeftParen);
    MarkRead(ts, j - 1, n, RightParen);
  }

  lemma ParenParts(c: Cst, ts: seq<Token>, i: nat)
    requires c.ParenC? && Spells(c, ts, i)
    ensures Width(c) == Width(c.inner) + 2 && Spells(c.inner, ts, i + 1)
    ensures TokenIs(ts, i, LeftParen) && TokenIs(ts, i + 1 + Width(c.inner), RightParen)
    ensures RoundTrip.Lexemes(c) == [Lexeme(LeftParen, "(")] + RoundTrip.Lexemes(c.inner) + [Lexeme(RightParen, ")")]
  {
  }

  lemma MemberParts(c: Cst, ts: seq<Token>, i: nat)
    requires (c.PropertyC? || c.FilterC?) && Spells(c, ts, i)
    ensures Width(c) == Width(c.of) + 2 && Spells(c.of, ts, i) && TokenIs(ts, i + Width(c.of), Dot)
    ensures if c.PropertyC? then TokenReads(ts, i + Width(c.of) + 1, Ident, c.name) else TokenIs(ts, i + Width(c.of) + 1, Star)
    ensures RoundTrip.Lexemes(c)
      == RoundTrip.Lexemes(c.of) + [Lexeme(Dot, ".")] + [if c.PropertyC? then Lexeme(Ident, c.name) else Lexeme(Star, "*")]
  {
  }

  lemma NotParts(c: Cst, ts: seq<Token>, i: nat)
    requires c.NotC? && Spells(c, ts, i)
    ensures Width(c) == Width(c.of) + 1 && Spells(c.of, ts, i + 1) && TokenIs(ts, i, Bang)
    ensures RoundTrip.Lexemes(c) == [Lexeme(Bang, "!")] + RoundTrip.Lexemes(c.of)
  {
  }

  lemma IndexParts(c: Cst, ts: seq<Token>, i: nat)
    requires c.IndexC? && Spells(c, ts, i)
    ensures Width(c) == Width(c.of) + Width(c.index) + 2
    ensures Spells(c.of, ts, i) && Spells(c.index, ts, i + Width(c.of) + 1)
    ensures TokenIs(ts, i + Width(c.of), LeftBracket) && TokenIs(ts, i + Width(c.of) + 1 + Width(c.index), RightBracket)
    ensures RoundTrip.Lexemes(c) == RoundTrip.Lexemes(c.of) + [Lexeme(LeftBracket, "[")]
      + (RoundTrip.Lexemes(c.index) + [Lexeme(RightBracket, "]")])
  {
  }

  lemma CallParts(c: Cst, ts: seq<Token>, i: nat)
    requires c.CallC? && Spells(c, ts, i)
    ensures Width(c) == ArgsWidth(c.args) + 3 && SpellsArgs(c.args, ts, i + 2)
    ensures TokenReads(ts, i, Ident, c.callee) && TokenIs(ts, i + 1, LeftParen)
    ensures TokenIs(ts, i + 2 + ArgsWidth(c.args), RightParen)
  {
    hide SpellsArgs, ArgsWidth, RoundTrip.Lexemes, ArgLexemes;
  }

  lemma CallLexemes(c: Cst)
    requires c.CallC?
    ensures RoundTrip.Lexemes(c) == [Lexeme(Ident, c.callee)] + [Lexeme(LeftParen, "(")]
      + (ArgLexemes(c.args) + [Lexeme(RightParen, ")")])
  {
    hide ArgLexemes, ArgsWidth;
  }

  lemma ArgParts(args: seq<Cst>, ts: seq<Token>, i: nat)
    requires |args| > 1 && SpellsArgs(args, ts, i)
    ensures ArgsWidth(args) == Width(args[0]) + 1 + ArgsWidth(args[1..])
    ensures Spells(args[0], ts, i) && TokenIs(ts, i + Width(args[0]), Comma) && SpellsArgs(args[1..], ts, i + Width(args[0]) + 1)
    ensures ArgLexemes(args) == RoundTrip.Lexemes(args[0]) + [Lexeme(Comma, ",")] + ArgLexemes(args[1..])
  {
  }

  lemma BinaryParts(c: Cst, ts: seq<Token>, i: nat)
    requires (c.CompareC? || c.LogicC?) && Spells(c, ts, i)
    ensures Width(c) == Width(c.left) + Width(c.right) + 1
    ensures Spells(c.left, ts, i) && Spells(c.right, ts, i + Width(c.left) + 1)
    ensures TokenIs(ts, i + Width(c.left), if c.CompareC? then CompareKind(c.op) else LogicKind(c.kind))
    ensures RoundTrip.Lexemes(c) == RoundTrip.Lexemes(c.left)
      + [if c.CompareC? then CompareLexeme(c.op) else if c.kind == And then Lexeme(AndAnd, "&&") else Lexeme(OrOr, "||")]
      + RoundTrip.Lexemes(c.right)
  {
  }

  lemma Within(ts: seq<Token>, n: nat)
    requires Spelled(ts, n)
    ensures n <= |ts|
  {
  }

  lemma {:induction false} MemberRead(c: Cst, ts: seq<Token>, i: nat, n: nat)
    requires (c.PropertyC? || c.FilterC?) && Spells(c, ts, i) && i + Width(c) <= n && Spelled(ts, n)
    ensures RoundTrip.Lexemes(c) == Marks(ts, i, i + Width(c))
    decreases c, 0
  {
    hide Marks, Mark, MarkText, Spelled, Spells, Width, RoundTrip.Lexemes;
    Within(ts, n);
    OpeningMarks();
    MemberParts(c, ts, i);
    var j := i + Width(c);
    LexemesRead(c.of, ts, i, n);
    MarksThree(ts, i, j - 2, j - 1, j);
    MarkRead(ts, j - 2, n, Dot);
    if c.PropertyC? { MarksOne(ts, j - 1); } else { MarkRead(ts, j - 1, n, Star); }
  }

  lemma {:induction false} NotRead(c: Cst, ts: seq<Token>, i: nat, n: nat)
    requires c.NotC? && Spells(c, ts, i) && i + Width(c) <= n && Spelled(ts, n)
    ensures RoundTrip.Lexemes(c) == Marks(ts, i, i + Width(c))
    decreases c, 0
  {
    hide Marks, Mark, MarkText, Spelled, Spells, Width, RoundTrip.Lexemes;
    Within(ts, n);
    OpeningMarks();
    NotParts(c, ts, i);
    LexemesRead(c.of, ts, i + 1, n);
    MarksSplit(ts, i, i + 1, i + Width(c));
    MarkRead(ts, i, n, Bang);
  }

  lemma {:induction false} BinaryRead(c: Cst, ts: seq<Token>, i: nat, n: nat)
    requires (c.CompareC? || c.LogicC?) && Spells(c, ts, i) && i + Width(c) <= n && Spelled(ts, n)
    ensures RoundTrip.Lexemes(c) == Marks(ts, i, i + Width(c))
    decreases c, 0
  {
    hide Marks, Mark, MarkText, Spelled, Spells, Width, RoundTrip.Lexemes, CompareKind, LogicKind, CompareLexeme;
    Within(ts, n);
    BinaryParts(c, ts, i);
    var m, j := i + Width(c.left), i + Width(c);
    LexemesRead(c.left, ts, i, n);
    LexemesRead(c.right, ts, m + 1, n);
    MarksThree(ts, i, m, m + 1, j);
    if c.CompareC? {
      OperatorMarks(c.op, And);
      MarkRead(ts, m, n, CompareKind(c.op));
    } else {
      OperatorMarks(Eq, c.kind);
      MarkRead(ts, m, n, LogicKind(c.kind));
    }
  }

  lemma {:induction false} IndexRead(c: Cst, ts: seq<Token>, i: nat, n: nat)
    requires c.IndexC? && Spells(c, ts, i) && i + Width(c) <= n && Spelled(ts, n)
    ensures RoundTrip.Lexemes(c) == Marks(ts, i, i + Width(c))
    decreases c, 0
  {
    hide Marks, Mark, MarkText, Spelled, Spells, Width, RoundTrip.Lexemes;
    Within(ts, n);
    OpeningMarks();
    IndexParts(c, ts, i);
    var m, j := i + Width(c.of), i + Width(c);
    LexemesRead(c.of, ts, i, n);
    LexemesRead(c.index, ts, m + 1, n);
    MarksThree(ts, i, m, m + 1, j);
    MarksSplit(ts, m + 1, j - 1, j);
    MarkRead(ts, m, n, LeftBracket);
    MarkRead(ts, j - 1, n, RightBracket);
  }

  lemma {:induction false} CallRead(c: Cst, ts: seq<Token>, i: nat, n: nat)
    requires c.CallC? && Spells(c, ts, i) && i + Width(c) <= n && Spelled(ts, n)
    ensures RoundTrip.Lexemes(c) == Marks(ts, i, i + Width(c))
    decreases c, 0
  {
    hide Marks, Mark, MarkText, Spelled, Spells, Width, RoundTrip.Lexemes, ArgLexemes, SpellsArgs, ArgsWidth;
    Within(ts, n);
    OpeningMarks();
    CallParts(c, ts, i);
    CallLexemes(c);
    var j := i + Width(c);
    ArgsRead(c.args, ts, i + 2, n);
    MarksThree(ts, i, i + 1, i + 2, j);
    MarksSplit(ts, i + 2, j - 1, j);
    MarksOne(ts, i);
    MarkRead(ts, i + 1, n, LeftParen);
    MarkRead(ts, j - 1, n, RightParen);
  }

  lemma {:induction false} ArgsRead(args: seq<Cst>, ts: seq<Token>, i: nat, n: nat)
    requires SpellsArgs(args, ts, i) && i + ArgsWidth(args) <= n && Spelled(ts, n)
    ensures ArgLexemes(args) == Marks(ts, i, i + ArgsWidth(args))
    decreases args
  {
    hide Marks, Mark, MarkText, Spelled, Spells, RoundTrip.Lexemes, Width;
    Within(ts, n);
    if args == [] {
      MarksNone(ts, i);
    } else if |args| == 1 {
      LexemesRead(args[0], ts, i, n);
    } else {
      MoreArgsRead(args, ts, i, n);
    }
  }

  lemma {:induction false} MoreArgsRead(args: seq<Cst>, ts: seq<Token>, i: nat, n: nat)
    requires |args| > 1 && SpellsArgs(args, ts, i) && i + ArgsWidth(args) <= n && Spelled(ts, n)
    ensures ArgLexemes(args) == Marks(ts, i, i + ArgsWidth(args))
    decreases args, 0
  {
    hide Marks, Mark, MarkText, Spelled, Spells, RoundTrip.Lexemes, Width, SpellsArgs, ArgsWidth, ArgLexemes;
    Within(ts, n);
    OpeningMarks();
    ArgParts(args, ts, i);
    var m, j := i + Width(args[0]), i + ArgsWidth(args);
    LexemesRead(args[0], ts, i, n);
    ArgsRead(args[1..], ts, m + 1, n);
    MarksThree(ts, i, m, m + 1, j);
    MarkRead(ts, m, n, Comma);
  }

  lemma MarksNone(ts: seq<Token>, i: nat)
    requires i <= |ts|
    ensures Marks(ts, i, i) == []
  {
  }

  // ----- the layout of a source -----

  /** The whitespace before each of the tokens from k through n. */
  function Gaps(src: string, k: nat, n: nat): (gs: seq<string>)
    requires k <= n < |Scan(src, 0, 0)| && Clean(Scan(src, 0, 0), n + 1)
    ensures |gs| == n - k + 1
    decreases n - k
  {
    var ls := Scan(src, 0, 0);
    assert Before(ls, k) <= ls[k].tok.offset <= |src| by { CleanToken(src, k); }
    [src[Before(ls, k)..ls[k].tok.offset]] + if k == n then [] else Gaps(src, k + 1, n)
  }

  lemma GapHead(src: string, k: nat, n: nat)
    requires k <= n < |Scan(src, 0, 0)| && Clean(Scan(src, 0, 0), n + 1)
    ensures var ls := Scan(src, 0, 0); Before(ls, k) <= ls[k].tok.offset <= |src|
    ensures var ls := Scan(src, 0, 0); var gap := src[Before(ls, k)..ls[k].tok.offset];
      Gaps(src, k, n) == [gap] + if k == n then [] else Gaps(src, k + 1, n)
  {
    hide Scan;
    CleanToken(src, k);
  }

  /** From token k on, the source is the layout of its tokens up to the end marker, token n. */
  ghost predicate LaidFrom(src: string, k: nat, n: nat)
    requires k <= n < |Scan(src, 0, 0)| && Clean(Scan(src, 0, 0), n + 1)
  {
    var ls := Scan(src, 0, 0);
    var xs := Marks(Tokens(ls), k, n);
    && Before(ls, k) <= |src| && ls[n].pos <= |src|
    && Spaced(xs, Gaps(src, k, n)) && src[Before(ls, k)..] == Layout(xs, Gaps(src, k, n), src[ls[n].pos..])
  }

  lemma EndIsLaid(src: string, n: nat)
    requires n < |Scan(src, 0, 0)| && Clean(Scan(src, 0, 0), n + 1) && Scan(src, 0, 0)[n].tok.kind == End
    ensures LaidFrom(src, n, n)
  {
    hide Scan, IsLexeme, StopsBefore, Lex, MarkText, AllWhite, Spaced, Layout, MarkSpelled;
    var ls := Scan(src, 0, 0);
    var p, q, e := Before(ls, n), ls[n].tok.offset, ls[n].pos;
    CleanToken(src, n);
    TokensTile(src, n);
    TokenLexeme(src, n);
    EndText(ls[n].tok);
    assert src[p..] == src[p..q] + src[q..e] + src[e..];
    assert Marks(Tokens(ls), n, n) == [] && Gaps(src, n, n) == [src[p..q]];
    LayoutNone(src[p..q], src[e..]);
  }

  lemma {:induction false} SourceIsLayout(src: string, k: nat, n: nat)
    requires k <= n < |Scan(src, 0, 0)| && Clean(Scan(src, 0, 0), n + 1) && Scan(src, 0, 0)[n].tok.kind == End
    requires forall i | 0 <= i < n :: Scan(src, 0, 0)[i].tok.kind != End
    ensures LaidFrom(src, k, n)
    decreases n - k
  {
    hide Scan, LaidFrom, StopsBefore;
    if k == n {
      EndIsLaid(src, n);
    } else {
      SourceIsLayout(src, k + 1, n);
      if k + 1 < n { NextGap(src, k, n); }
      NextIsLaid(src, k, n);
    }
  }

  lemma ThreeParts(src: string, p: nat, q: nat, e: nat)
    requires p <= q <= e <= |src|
    ensures src[p..] == src[p..q] + src[q..e] + src[e..]
  {
  }

  lemma FirstMark(xs: seq<Lexeme>, ts: seq<Token>, i: nat, j: nat)
    requires i <= j <= |ts| && xs == Marks(ts, i, j)
    ensures |xs| == j - i && (i < j ==> xs[0] == LexemeOf(ts[i]))
  {
  }

  /** The marks from a token on: its own, and those from the next token on. */
  lemma NextMarks(ts: seq<Token>, k: nat, n: nat)
    requires k < n <= |ts|
    ensures Marks(ts, k, n) == [LexemeOf(ts[k])] + Marks(ts, k + 1, n)
    ensures k + 1 < n ==> Marks(ts, k + 1, n)[0] == LexemeOf(ts[k + 1])
  {
    hide Marks;
    MarksSplit(ts, k, k + 1, n);
    MarksOne(ts, k);
    FirstMark(Marks(ts, k + 1, n), ts, k + 1, n);
  }

  lemma NextIsLaid(src: string, k: nat, n: nat)
    requires k < n < |Scan(src, 0, 0)| && Clean(Scan(src, 0, 0), n + 1) && LaidFrom(src, k + 1, n)
    requires var ts := Tokens(Scan(src, 0, 0)); k + 1 < n && Gaps(src, k + 1, n)[0] == "" ==>
      ts[k + 1].value != "" && StopsBefore(LexemeOf(ts[k]), ts[k + 1].value[0])
    ensures LaidFrom(src, k, n)
  {
    hide Scan, StopsBefore, AllWhite, Spaced, Layout, Gaps, Marks, Clean;
    var ls := Scan(src, 0, 0);
    var p, q, e := Before(ls, k), ls[k].tok.offset, ls[k].pos;
    CleanPrefix(ls, n + 1, k + 1);
    TokensTile(src, k);
    GapHead(src, k, n);
    NextMarks(Tokens(ls), k, n);
    LaidBefore(src, p, q, e, LexemeOf(ls[k].tok), Marks(Tokens(ls), k + 1, n), Gaps(src, k + 1, n), src[ls[n].pos..]);
  }

  lemma LaidBefore(src: string, p: nat, q: nat, e: nat, x: Lexeme, xs: seq<Lexeme>, gaps: seq<string>, rest: string)
    requires p <= q <= e <= |src| && AllWhite(src[p..q]) && src[q..e] == x.text
    requires |gaps| == |xs| + 1 && Spaced(xs, gaps) && src[e..] == Layout(xs, gaps, rest)
    requires xs != [] && gaps[0] == "" ==> xs[0].text != "" && StopsBefore(x, xs[0].text[0])
    ensures var gs := [src[p..q]] + gaps; Spaced([x] + xs, gs) && src[p..] == Layout([x] + xs, gs, rest)
  {
    hide StopsBefore, AllWhite, Spaced, Layout;
    ThreeParts(src, p, q, e);
    LayoutOne(x, xs, src[p..q], gaps, rest);
  }

  lemma LayoutNone(gap: string, rest: string)
    requires AllWhite(gap)
    ensures Spaced([], [gap]) && Layout([], [gap], rest) == gap + "}}" + rest
  {
  }

  lemma LayoutOne(x: Lexeme, xs: seq<Lexeme>, gap: string, gaps: seq<string>, rest: string)
    requires AllWhite(gap) && Spaced(xs, gaps)
    requires xs != [] && gaps[0] == "" ==> xs[0].text != "" && StopsBefore(x, xs[0].text[0])
    ensures Spaced([x] + xs, [gap] + gaps) && Layout([x] + xs, [gap] + gaps, rest) == gap + x.text + Layout(xs, gaps, rest)
  {
    hide AllWhite, StopsBefore;
    assert ([x] + xs)[1..] == xs && ([gap] + gaps)[1..] == gaps;
  }

  /** Where nothing separates two tokens, the second does not extend the first. */
  lemma NextGap(src: string, k: nat, n: nat)
    requires k < n < |Scan(src, 0, 0)| && Clean(Scan(src, 0, 0), n + 1)
    requires Scan(src, 0, 0)[k].tok.kind != End && Scan(src, 0, 0)[k + 1].tok.kind != End
    ensures var ts := Tokens(Scan(src, 0, 0)); Gaps(src, k + 1, n)[0] == "" ==>
      ts[k + 1].value != "" && StopsBefore(LexemeOf(ts[k]), ts[k + 1].value[0])
  {
    hide Scan, IsLexeme, StopsBefore, AllWhite, MarkSpelled, Gaps;
    var ls := Scan(src, 0, 0);
    GapHead(src, k + 1, n);
    TokensTile(src, k + 1);
    TokenLexeme(src, k);
    var t := ls[k + 1].tok;
    FirstOf(src, t.offset, t.EndOffset());
  }

  lemma FirstOf(src: string, a: nat, b: nat)
    requires a < b <= |src|
    ensures src[a..b] != "" && src[a..b][0] == src[a]
  {
  }

  lemma EndText(t: Token)
    requires MarkSpelled(t.kind, t.value) && t.kind == End
    ensures t.value == "}}"
  {
  }

  /** A text that parses is a layout of a derivation of its tree, up to where the parser stops. */
  lemma ParsedIsLaid(src: string) returns (c: Cst, gaps: seq<string>, rest: string)
    requires ParseSource(src).Tree?
    ensures Laid(src, c, gaps, rest)
    ensures ParseSource(src) == Tree(TreeOf(c, gaps, rest), |src| - |rest|)
    ensures Exceeding(TreeOf(c, gaps, rest), 1) == None
  {
    hide Scan, Exceeding, ParseOr, Build, Spells, WellFormed, Width, IsLexeme, Spaced, Layout, RoundTrip.Lexemes, Lex,
      FlatDepth, MarkSpelled;
    var ls := Scan(src, 0, 0);
    c := ParsedDerivation(src);
    var n, ts := Width(c), Tokens(ls);
    TokenLexeme(src, n);
    rest := src[ls[n].pos..];
    forall k | 0 <= k <= n
      ensures MarkSpelled(ts[k].kind, ts[k].value) && (ts[k].kind != End ==> IsLexeme(LexemeOf(ts[k])))
    {
      TokenLexeme(src, k);
    }
    LexemesRead(c, ts, 0, n);
    ScanSteps(src, 0, 0);
    SourceIsLayout(src, 0, n);
    gaps := Gaps(src, 0, n);
    assert src[0..] == src;
    Recognised(c, gaps, rest);
  }

  /** The texts that parse are the layouts of derivations whose trees are not too deep. */
  lemma AcceptedExactly(src: string)
    ensures ParseSource(src).Tree? <==>
      exists c, gaps, rest :: Laid(src, c, gaps, rest) && |gaps| == Width(c) + 1 && Exceeding(TreeOf(c, gaps, rest), 1) == None
  {
    hide ParseSource, Laid, Exceeding, TreeOf, Width;
    if ParseSource(src).Tree? {
      var c, gaps, rest := ParsedIsLaid(src);
      LaidGaps(src, c, gaps, rest);
    }
    forall c, gaps, rest | Laid(src, c, gaps, rest) && |gaps| == Width(c) + 1 && Exceeding(TreeOf(c, gaps, rest), 1) == None
      ensures ParseSource(src).Tree?
    {
      LaidParses(src, c, gaps, rest);
    }
  }

  lemma LaidGaps(src: string, c: Cst, gaps: seq<string>, rest: string)
    requires Laid(src, c, gaps, rest)
    ensures |gaps| == Width(c) + 1
  {
    hide WellFormed, RoundTrip.Lexemes, IsLexeme;
  }

  lemma LaidParses(src: string, c: Cst, gaps: seq<string>, rest: string)
    requires Laid(src, c, gaps, rest) && |gaps| == Width(c) + 1 && Exceeding(TreeOf(c, gaps, rest), 1) == None
    ensures ParseSource(src) == Tree(TreeOf(c, gaps, rest), |src| - |rest|)
  {
    hide ParseSource, Exceeding, TreeOf, WellFormed, RoundTrip.Lexemes, IsLexeme, Spaced;
    Recognised(c, gaps, rest);
  }

  // ----- the names of a parsed tree -----

  predicate SpeltAsName(s: string) {
    forall i | 0 <= i < |s| :: IsNameChar(s[i])
  }

  /** Every name among the lexemes is spelled as a name is. */
  predicate NamesIn(xs: seq<Lexeme>) {
    forall k | 0 <= k < |xs| :: xs[k].kind == Ident ==> SpeltAsName(xs[k].text)
  }

  lemma NameLexeme(x: Lexeme)
    requires IsLexeme(x) && x.kind == Ident
    ensures SpeltAsName(x.text)
  {
    hide LexNumber, LexStringRest;
    var c := x.text[0];
    if IsAlpha(c) || c == '_' {
      RunEndAll(x.text, 1, NameChar);
    } else if IsDigit(c) || c == '-' {
      NumberKind(x.text, 0);
    } else if c == '\'' {
      StringKind(x.text, 1);
    }
  }

  lemma NamesSplit(a: seq<Lexeme>, b: seq<Lexeme>)
    ensures NamesIn(a + b) <==> NamesIn(a) && NamesIn(b)
  {
    if NamesIn(a + b) {
      assert forall k | 0 <= k < |a| :: a[k] == (a + b)[k];
      assert forall k | 0 <= k < |b| :: b[k] == (a + b)[|a| + k];
    }
  }

  lemma SpanKeepsNames(e: Expr, s: Span)
    requires PlainNames(e)
    ensures PlainNames(e.(span := s))
  {
    assert Children(e.(span := s)) == Children(e);
  }

  lemma NameText(s: string)
    requires SpeltAsName(s)
    ensures forall c | c in s :: IsNameChar(c)
  {
  }

  lemma {:induction false} BuiltNames(c: Cst, ts: seq<Token>, i: nat)
    requires i + Width(c) <= |ts| && NamesIn(RoundTrip.Lexemes(c))
    ensures PlainNames(Build(c, ts, i))
    decreases c
  {
    hide NamesIn, SpeltAsName, PlainNames, Width, Build;
    match c
    case WordC(t) => LeafNames(c, ts, i);
    case IntC(_) | FloatC(_) | StringC(_) => LeafNames(c, ts, i);
    case ParenC(x) => OuterNames(c, ts, i, x, i + 1);
    case NotC(x) => OuterNames(c, ts, i, x, i + 1);
    case FilterC(x) => OuterNames(c, ts, i, x, i);
    case PropertyC(x, n) => OuterNames(c, ts, i, x, i);
    case IndexC(x, y) => TwoNames(c, ts, i, x, y);
    case CompareC(_, x, y) => TwoNames(c, ts, i, x, y);
    case LogicC(_, x, y) => TwoNames(c, ts, i, x, y);
    case CallC(f, args) => CallNamesRead(c, ts, i);
  }

  lemma LeafNames(c: Cst, ts: seq<Token>, i: nat)
    requires (c.WordC? || c.IntC? || c.FloatC? || c.StringC?) && i + Width(c) <= |ts| && NamesIn(RoundTrip.Lexemes(c))
    ensures PlainNames(Build(c, ts, i))
  {
    if c.WordC? {
      assert RoundTrip.Lexemes(c)[0] == Lexeme(Ident, c.text);
      NameText(c.text);
    }
  }

  lemma {:induction false} OuterNames(c: Cst, ts: seq<Token>, i: nat, x: Cst, j: nat)
    requires i <= j && i + Width(c) <= |ts| && NamesIn(RoundTrip.Lexemes(c))
    requires OneOperand(c, x, j - i)
    ensures PlainNames(Build(c, ts, i))
    decreases c, 0
  {
    hide NamesIn, SpeltAsName, PlainNames, RoundTrip.Lexemes, Build, Width;
    OuterLexemes(c, x);
    OneBuilt(c, ts, i, x, j);
    if c.PropertyC? { NameOf(c.name); }
    BuiltNames(x, ts, j);
    var e := Build(x, ts, j);
    if c.ParenC? { SpanKeepsNames(e, SpanOf(ts, i, i + Width(c))); } else { OneChild(Build(c, ts, i), e); }
  }

  lemma OneBuilt(c: Cst, ts: seq<Token>, i: nat, x: Cst, j: nat)
    requires i <= j && i + Width(c) <= |ts| && OneOperand(c, x, j - i)
    ensures j + Width(x) <= |ts| && i < i + Width(c)
    ensures c.ParenC? ==> Build(c, ts, i) == Build(x, ts, j).(span := SpanOf(ts, i, i + Width(c)))
    ensures var e := Build(c, ts, i); !c.ParenC? ==>
      Children(e) == [Build(x, ts, j)] && !e.Call? && (e.Property? ==> c.PropertyC? && e.spelling == c.name)
  {
    hide Build, SpanOf, Width;
    BuildOne(c, x, j - i, ts, i);
  }

  lemma IndexBuilt(c: Cst, ts: seq<Token>, i: nat)
    requires c.IndexC? && i + Width(c) <= |ts| && Width(c) == Width(c.of) + Width(c.index) + 2
    ensures Build(c, ts, i) == Index(SpanOf(ts, i, i + Width(c)), Build(c.of, ts, i), Build(c.index, ts, i + Width(c.of) + 1))
  {
    hide SpanOf, Width;
  }

  lemma CompareBuilt(c: Cst, ts: seq<Token>, i: nat)
    requires c.CompareC? && i + Width(c) <= |ts| && Width(c) == Width(c.left) + Width(c.right) + 1
    ensures Build(c, ts, i)
      == Compare(SpanOf(ts, i, i + Width(c)), c.op, Build(c.left, ts, i), Build(c.right, ts, i + Width(c.left) + 1))
  {
    hide SpanOf, Width;
  }

  lemma LogicBuilt(c: Cst, ts: seq<Token>, i: nat)
    requires c.LogicC? && i + Width(c) <= |ts| && Width(c) == Width(c.left) + Width(c.right) + 1
    ensures Build(c, ts, i)
      == Logic(SpanOf(ts, i, i + Width(c)), c.kind, Build(c.left, ts, i), Build(c.right, ts, i + Width(c.left) + 1))
  {
    hide SpanOf, Width;
  }

  lemma NameOf(n: string)
    requires NamesIn([Lexeme(Ident, n)])
    ensures SpeltAsName(n)
  {
    assert [Lexeme(Ident, n)][0].text == n;
  }

  lemma OneChild(e: Expr, x: Expr)
    requires Children(e) == [x] && PlainNames(x) && !e.Call? && (e.Property? ==> SpeltAsName(e.spelling))
    ensures PlainNames(e)
  {
    if e.Property? { NameText(e.spelling); }
  }

  lemma OuterLexemes(c: Cst, x: Cst)
    requires NamesIn(RoundTrip.Lexemes(c))
    requires (c.ParenC? && c.inner == x) || ((c.NotC? || c.FilterC? || c.PropertyC?) && c.of == x)
    ensures NamesIn(RoundTrip.Lexemes(x)) && (c.PropertyC? ==> NamesIn([Lexeme(Ident, c.name)]))
  {
    hide NamesIn;
    var xs := RoundTrip.Lexemes(x);
    match c
    case ParenC(_) =>
      NamesSplit([Lexeme(LeftParen, "(")] + xs, [Lexeme(RightParen, ")")]);
      NamesSplit([Lexeme(LeftParen, "(")], xs);
    case NotC(_) => NamesSplit([Lexeme(Bang, "!")], xs);
    case FilterC(_) => NamesSplit(xs, [Lexeme(Dot, "."), Lexeme(Star, "*")]);
    case PropertyC(_, n) =>
      NamesSplit(xs, [Lexeme(Dot, "."), Lexeme(Ident, n)]);
      assert [Lexeme(Dot, "."), Lexeme(Ident, n)] == [Lexeme(Dot, ".")] + [Lexeme(Ident, n)];
      NamesSplit([Lexeme(Dot, ".")], [Lexeme(Ident, n)]);
  }

  lemma {:induction false} TwoNames(c: Cst, ts: seq<Token>, i: nat, x: Cst, y: Cst)
    requires TwoOperands(c, x, y) && i + Width(c) <= |ts| && NamesIn(RoundTrip.Lexemes(c))
    ensures PlainNames(Build(c, ts, i))
    decreases c, 0
  {
    hide NamesIn, SpeltAsName, PlainNames, RoundTrip.Lexemes, Build, Width;
    TwoWidth(c, x, y);
    TwoLexemes(c, x, y);
    BuiltNames(x, ts, i);
    BuiltNames(y, ts, i + Width(x) + 1);
    if c.IndexC? { IndexBuilt(c, ts, i); } else if c.CompareC? { CompareBuilt(c, ts, i); } else { LogicBuilt(c, ts, i); }
    TwoChildren(Build(c, ts, i));
  }

  lemma TwoChildren(e: Expr)
    requires e.Index? || e.Compare? || e.Logic?
    requires if e.Index? then PlainNames(e.operand) && PlainNames(e.index) else PlainNames(e.left) && PlainNames(e.right)
    ensures PlainNames(e)
  {
  }

  lemma TwoLexemes(c: Cst, x: Cst, y: Cst)
    requires TwoOperands(c, x, y) && NamesIn(RoundTrip.Lexemes(c))
    ensures NamesIn(RoundTrip.Lexemes(x)) && NamesIn(RoundTrip.Lexemes(y))
  {
    hide NamesIn;
    var xs, ys := RoundTrip.Lexemes(x), RoundTrip.Lexemes(y);
    match c
    case IndexC(_, _) =>
      NamesSplit(xs + [Lexeme(LeftBracket, "[")] + ys, [Lexeme(RightBracket, "]")]);
      NamesSplit(xs + [Lexeme(LeftBracket, "[")], ys);
      NamesSplit(xs, [Lexeme(LeftBracket, "[")]);
    case CompareC(op, _, _) =>
      NamesSplit(xs + [CompareLexeme(op)], ys);
      NamesSplit(xs, [CompareLexeme(op)]);
    case LogicC(k, _, _) =>
      var l := if k == And then Lexeme(AndAnd, "&&") else Lexeme(OrOr, "||");
      NamesSplit(xs + [l], ys);
      NamesSplit(xs, [l]);
  }

  lemma {:induction false} CallNamesRead(c: Cst, ts: seq<Token>, i: nat)
    requires c.CallC? && i + Width(c) <= |ts| && NamesIn(RoundTrip.Lexemes(c))
    ensures PlainNames(Build(c, ts, i))
    decreases c, 0
  {
    hide NamesIn, SpeltAsName, PlainNames, ArgLexemes, BuildArgs, ArgsWidth;
    var open := Lexeme(LeftParen, "(");
    NamesSplit([Lexeme(Ident, c.callee), open] + ArgLexemes(c.args), [Lexeme(RightParen, ")")]);
    NamesSplit([Lexeme(Ident, c.callee), open], ArgLexemes(c.args));
    assert [Lexeme(Ident, c.callee), open] == [Lexeme(Ident, c.callee)] + [open];
    NamesSplit([Lexeme(Ident, c.callee)], [open]);
    NameOf(c.callee);
    ArgNames(c.args, ts, i + 2);
    CallOf(Build(c, ts, i));
  }

  lemma CallOf(e: Expr)
    requires e.Call? && SpeltAsName(e.callee) && forall a | a in e.args :: PlainNames(a)
    ensures PlainNames(e)
  {
    NameText(e.callee);
  }

  lemma {:induction false} ArgNames(args: seq<Cst>, ts: seq<Token>, i: nat)
    requires i + ArgsWidth(args) <= |ts| && NamesIn(ArgLexemes(args))
    ensures forall e | e in BuildArgs(args, ts, i) :: PlainNames(e)
    decreases args
  {
    hide NamesIn, PlainNames, Build;
    if |args| == 1 {
      BuiltNames(args[0], ts, i);
    } else if |args| > 1 {
      NamesSplit(RoundTrip.Lexemes(args[0]) + [Lexeme(Comma, ",")], ArgLexemes(args[1..]));
      NamesSplit(RoundTrip.Lexemes(args[0]), [Lexeme(Comma, ",")]);
      BuiltNames(args[0], ts, i);
      ArgNames(args[1..], ts, i + Width(args[0]) + 1);
    }
  }

  /** In every parsed tree the names are spelled with letters, digits, underscores and hyphens. */
  lemma ParsedNames(src: string)
    requires ParseSource(src).Tree?
    ensures PlainNames(ParseSource(src).node)
  {
    hide ParseSource, Build, RoundTrip.Lexemes, PlainNames, IsLexeme, Exceeding, Spaced, Layout, WellFormed, Scan, SpeltAsName;
    var c, gaps, rest := ParsedIsLaid(src);
    LaidGaps(src, c, gaps, rest);
    var xs := RoundTrip.Lexemes(c);
    forall k | 0 <= k < |xs| && xs[k].kind == Ident ensures SpeltAsName(xs[k].text) {
      assert xs[k] in xs;
      NameLexeme(xs[k]);
    }
    var ts := Tokens(Scan(Layout(xs, gaps, rest), 0, 0));
    if Width(c) <= |ts| {
      BuiltNames(c, ts, 0);
    } else {
      NullIsPlain();
    }
  }

  lemma NullIsPlain()
    ensures PlainNames(NullLit(NO_SPAN))
  {
  }

  // ----- one name alone -----

  predicate NameCharacter(c: char) {
    'a' <= c <= 'z' || 'A' <= c <= 'Z' || '0' <= c <= '9' || c == '_' || c == '-'
  }

  /** Letters, digits, underscores and hyphens, the first of them no digit and no hyphen. */
  predicate IsIdentifier(s: string) {
    s != "" && !('0' <= s[0] <= '9') && s[0] != '-' && forall i | 0 <= i < |s| :: NameCharacter(s[i])
  }

  lemma {:induction false} NamesAt(e: Expr, path: seq<nat>)
    requires PlainNames(e) && Sub(e, path).Some?
    ensures PlainNames(Sub(e, path).value)
    decreases |path|
  {
    if path != [] {
      assert Children(e)[path[0]] in Children(e);
      NamesAt(Children(e)[path[0]], path[1..]);
    }
  }

  /** Every name anywhere in a parsed tree consists of letters, digits, underscores and hyphens. */
  lemma ParsedNameCharacters(src: string, path: seq<nat>, c: char)
    requires ParseSource(src).Tree? && Sub(ParseSource(src).node, path).Some?
    requires var x := Sub(ParseSource(src).node, path).value;
      ((x.Variable? || x.Property?) && c in x.spelling) || (x.Call? && c in x.callee)
    ensures NameCharacter(c)
  {
    hide ParseSource, Sub;
    ParsedNames(src);
    NamesAt(ParseSource(src).node, path);
  }

  lemma IdentifierIsName(s: string)
    requires IsIdentifier(s)
    ensures IsName(s)
  {
    assert forall k | 1 <= k < |s| :: In(NameChar, s[k]);
    RunEndIs(s, 1, NameChar, |s|);
    assert LexShape(s, 0) == Tok(Ident, |s|);
  }

  lemma VariableLayout(s: string)
    requires IsIdentifier(s) && s !in {"null", "true", "false"}
    ensures var e := Variable(NO_SPAN, s);
      && Printable(e) && FlatDepth(e) == 1 && Strip(e) == e
      && RoundTrip.Lexemes(Unparse(e, OR_LEVEL)) == [Lexeme(Ident, s)]
      && Spaced([Lexeme(Ident, s)], ["", ""]) && Layout([Lexeme(Ident, s)], ["", ""], "") == s + "}}"
  {
    IdentifierIsName(s);
  }

  /** An identifier that is no keyword is a variable of that name, hyphens and all. */
  lemma IdentifierParses(s: string)
    requires IsIdentifier(s) && s !in {"null", "true", "false"}
    ensures var r := ParseSource(s + "}}"); r.Tree? && r.node.Variable? && r.node.spelling == s && r.offset == |s| + 2
  {
    hide ParseSource, Layout, RoundTrip.Lexemes, Unparse, FlatDepth, Spaced, Printable, IsIdentifier;
    VariableLayout(s);
    RoundTrip.RoundTrip(Variable(NO_SPAN, s), ["", ""], "");
    assert Strip(ParseSource(s + "}}").node) == Variable(NO_SPAN, s);
  }
}
