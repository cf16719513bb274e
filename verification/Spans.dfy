/** Every node's span is exactly its text: spans nest, and the text of a span parses to its node. */
module Spans {
  import opened Text
  import opened Syntax
  import opened Lexing
  import opened Relexing
  import opened Depth
  import opened Parsing
  import opened Grammar
  import opened RoundTrip

  // ----- tokens and the source -----

  /** The first n tokens were read without an error. */
  ghost predicate Clean(ls: seq<Lexed>, n: nat) {
    n <= |ls| && forall k | 0 <= k < n :: ls[k].err == None
  }

  lemma {:induction false} NoErrorIsClean(ls: seq<Lexed>, n: nat)
    requires n <= |ls| && FirstError(ls, n) == None
    ensures Clean(ls, n)
  {
    if n > 0 { NoErrorIsClean(ls, n - 1); }
  }

  lemma CleanPrefix(ls: seq<Lexed>, n: nat, m: nat)
    requires Clean(ls, n) && m <= n
    ensures n <= |ls| && Clean(ls, m)
  {
  }

  /** Where the lexer stood before token k. */
  function Before(ls: seq<Lexed>, k: nat): nat
    requires k <= |ls|
  {
    if k == 0 then 0 else ls[k - 1].pos
  }

  /** Token k is the token that starts after the whitespace at the position before it. */
  lemma {:induction false} CleanToken(src: string, k: nat)
    requires k < |Scan(src, 0, 0)| && Clean(Scan(src, 0, 0), k + 1)
    ensures var ls := Scan(src, 0, 0); var p := Before(ls, k);
      p <= |src| && ls[k] == Lex(src, p, p) && ls[k].start == ls[k].pos
    ensures var ls := Scan(src, 0, 0); var p := Before(ls, k); var q := RunEnd(src, p, White);
      && q < |src| && LexShape(src, q) == Tok(ls[k].tok.kind, ls[k].pos)
      && ls[k].tok == Token(ls[k].tok.kind, src[q..ls[k].pos], q)
      && p <= q < ls[k].pos == ls[k].tok.EndOffset() <= |src|
  {
    ScanSteps(src, 0, 0);
    if k > 0 { CleanToken(src, k - 1); }
  }

  /** The tokens tile the source, with only whitespace between one and the next. */
  lemma TokensTile(src: string, k: nat)
    requires k < |Scan(src, 0, 0)| && Clean(Scan(src, 0, 0), k + 1)
    ensures var ls := Scan(src, 0, 0); var t := ls[k].tok;
      && Before(ls, k) <= t.offset < t.EndOffset() == ls[k].pos <= |src|
      && AllWhite(src[Before(ls, k)..t.offset])
      && src[t.offset..t.EndOffset()] == t.value
  {
    CleanToken(src, k);
    RunEndAll(src, Before(Scan(src, 0, 0), k), White);
  }

  lemma {:induction false} TokensInOrder(src: string, i: nat, j: nat)
    requires i < j < |Scan(src, 0, 0)| && Clean(Scan(src, 0, 0), j + 1)
    ensures var ls := Scan(src, 0, 0); ls[i].tok.EndOffset() <= ls[j].tok.offset
    decreases j
  {
    CleanToken(src, j);
    CleanToken(src, j - 1);
    if i < j - 1 { TokensInOrder(src, i, j - 1); }
  }

  // ----- lexing the text of a range of tokens -----

  lemma {:induction false} NulNone(src: string, lo: nat, hi: nat)
    requires lo <= hi <= |src| && NulBetween(src, lo, hi) == None
    ensures forall k | lo <= k <= hi && k < |src| :: src[k] != NUL
    decreases hi - lo
  {
    if lo < hi { NulNone(src, lo + 1, hi); }
  }

  /** The text from token i through token j - 1, with an end marker. */
  function Excerpt(src: string, a: nat, b: nat): string
    requires a <= b <= |src|
  {
    src[a..b] + "}}"
  }

  lemma ExcerptAt(src: string, a: nat, b: nat, k: nat)
    requires a <= b <= |src| && k <= b - a
    ensures k < |Excerpt(src, a, b)|
    ensures Excerpt(src, a, b)[k] == if k < b - a then src[a + k] else '}'
  {
  }

  /** Whitespace before a token, all of it or what the excerpt keeps of it. */
  lemma WhiteExcerpt(src: string, p: nat, a: nat, b: nat, p': nat, q: nat)
    requires p <= |src| && p <= q == RunEnd(src, p, White) && a <= q < b <= |src|
    requires p' + a == p || (p' == 0 && q == a)
    ensures RunEnd(Excerpt(src, a, b), p', White) == q - a
  {
    var x := Excerpt(src, a, b);
    RunEndAll(src, p, White);
    ExcerptAt(src, a, b, q - a);
    forall k | p' <= k < q - a ensures In(White, x[k]) { ExcerptAt(src, a, b, k); }
    RunEndIs(x, p', White, q - a);
  }

  lemma ShapeExcerpt(src: string, q: nat, a: nat, b: nat)
    requires a <= q < b <= |src| && LexShape(src, q).Tok? && LexShape(src, q).at <= b
    ensures q - a < |Excerpt(src, a, b)|
    ensures LexShape(Excerpt(src, a, b), q - a) == Shift(LexShape(src, q), q, q - a)
  {
    hide LexShape, HexAt;
    var x := Excerpt(src, a, b);
    var e := LexShape(src, q).at;
    ExcerptSlice(src, q, e, a, b);
    SameIntro(src, q, x, q - a, e - q);
    ShapeStops(src, q);
    ExcerptAt(src, a, b, e - a);
    ShapeLocal(src, q, x, q - a);
  }

  lemma NulExcerpt(src: string, p: nat, e: nat, a: nat, b: nat, p': nat)
    requires p <= e && a <= e <= b <= |src| && NulBetween(src, p, e) == None
    requires p' <= e - a && p <= p' + a
    ensures NulBetween(Excerpt(src, a, b), p', e - a) == None
  {
    var x := Excerpt(src, a, b);
    NulNone(src, p, e);
    forall k | p' <= k <= e - a && k < |x| ensures x[k] != NUL { ExcerptAt(src, a, b, k); }
    NoNulBetween(x, p', e - a);
  }

  /** A token of the source is the same token of an excerpt that contains it. */
  lemma LexExcerpt(src: string, p: nat, a: nat, b: nat, p': nat)
    requires p <= |src| && a <= b <= |src| && Lex(src, p, p).err == None
    requires var l := Lex(src, p, p);
      && a <= l.tok.offset && l.tok.EndOffset() <= b
      && (p' + a == p || (p' == 0 && l.tok.offset == a))
    ensures var l, x := Lex(src, p, p), Excerpt(src, a, b);
      && p' <= |x| && a <= l.pos
      && Lex(x, p', p') == Lexed(Token(l.tok.kind, l.tok.value, l.tok.offset - a), l.pos - a, l.pos - a, None)
  {
    hide LexShape, RunEnd, NulBetween, Excerpt;
    var q := RunEnd(src, p, White);
    var e := Lex(src, p, p).pos;
    ExcerptSlice(src, q, e, a, b);
    WhiteExcerpt(src, p, a, b, p', q);
    ShapeExcerpt(src, q, a, b);
    NulExcerpt(src, p, e, a, b, p');
  }

  lemma ExcerptSlice(src: string, q: nat, e: nat, a: nat, b: nat)
    requires a <= q <= e <= b <= |src|
    ensures |Excerpt(src, a, b)| == b - a + 2
    ensures Excerpt(src, a, b)[q - a..e - a] == src[q..e]
  {
    forall k | 0 <= k < e - q ensures Excerpt(src, a, b)[q - a..e - a][k] == src[q..e][k] { ExcerptAt(src, a, b, q - a + k); }
  }

  // ----- scanning and parsing an excerpt -----

  function MoveToken(t: Token, d: nat): Token {
    Token(t.kind, t.value, if d <= t.offset then t.offset - d else 0)
  }

  /** n tokens from i on are n tokens of another list, d characters further left. */
  ghost predicate TokensMoved(ts: seq<Token>, i: nat, ts': seq<Token>, i': nat, n: nat, d: nat) {
    && i + n <= |ts| && i' + n <= |ts'|
    && forall k | i <= k < i + n :: d <= ts[k].offset && ts'[k - i + i'] == MoveToken(ts[k], d)
  }

  /** The first m tokens of the excerpt are tokens i.. of the source. */
  ghost predicate Copied(ls: seq<Lexed>, ls': seq<Lexed>, i: nat, m: nat, a: nat) {
    && m < |ls'| && i + m <= |ls|
    && Before(ls', m) == (if m == 0 then 0 else Before(ls, i + m) - a)
    && (m > 0 ==> a <= Before(ls, i + m) && ls'[m - 1].start == ls'[m - 1].pos)
    && forall k | 0 <= k < m ::
         a <= ls[i + k].tok.offset && ls'[k].tok == MoveToken(ls[i + k].tok, a) && ls'[k].err == None
  }

  /** The token the excerpt's scanner reads after its first m tokens. */
  lemma NextCopied(src: string, k: nat, a: nat, b: nat, m: nat)
    requires a <= b <= |src|
    requires var ls, ls' := Scan(src, 0, 0), Scan(Excerpt(src, a, b), 0, 0);
      && k < |ls| - 1 && Clean(ls, k + 1) && m < |ls'|
      && a <= ls[k].tok.offset && ls[k].tok.EndOffset() <= b
      && (m > 0 ==> ls'[m - 1].start == ls'[m - 1].pos)
      && (Before(ls', m) + a == Before(ls, k) || (m == 0 && ls[k].tok.offset == a))
    ensures a <= Scan(src, 0, 0)[k].pos
    ensures var ls, ls' := Scan(src, 0, 0), Scan(Excerpt(src, a, b), 0, 0);
      && m + 1 < |ls'|
      && ls'[m] == Lexed(MoveToken(ls[k].tok, a), ls[k].pos - a, ls[k].pos - a, None)
  {
    hide Lex, Excerpt, Scan, LexShape, RunEnd;
    var ls, ls' := Scan(src, 0, 0), Scan(Excerpt(src, a, b), 0, 0);
    CleanToken(src, k);
    ScanSteps(src, 0, 0);
    ScanSteps(Excerpt(src, a, b), 0, 0);
    var p := Before(ls', m);
    assert ls'[m] == Lex(Excerpt(src, a, b), p, p);
    LexExcerpt(src, Before(ls, k), a, b, p);
    assert Tokens(ls)[k].kind != End;
    assert Tokens(ls')[m].kind != End;
  }

  lemma CopyExtend(ls: seq<Lexed>, ls': seq<Lexed>, i: nat, m: nat, a: nat)
    requires Copied(ls, ls', i, m, a) && i + m < |ls| && m + 1 < |ls'|
    requires a <= ls[i + m].tok.offset && a <= ls[i + m].pos
    requires ls'[m] == Lexed(MoveToken(ls[i + m].tok, a), ls[i + m].pos - a, ls[i + m].pos - a, None)
    ensures Copied(ls, ls', i, m + 1, a)
  {
  }

  lemma CopyStep(src: string, i: nat, j: nat, m: nat, a: nat, b: nat)
    requires var ls := Scan(src, 0, 0);
      && i + m < j < |ls| && Clean(ls, j)
      && a == ls[i].tok.offset && b == ls[j - 1].tok.EndOffset() <= |src| && a <= b
      && Copied(ls, Scan(Excerpt(src, a, b), 0, 0), i, m, a)
    ensures Copied(Scan(src, 0, 0), Scan(Excerpt(src, a, b), 0, 0), i, m + 1, a)
  {
    hide Lex, Excerpt, Scan, LexShape, RunEnd;
    var ls, ls' := Scan(src, 0, 0), Scan(Excerpt(src, a, b), 0, 0);
    var k := i + m;
    CleanToken(src, k);
    if m > 0 { TokensInOrder(src, i, k); }
    if k < j - 1 { TokensInOrder(src, k, j - 1); }
    NextCopied(src, k, a, b, m);
    CopyExtend(ls, ls', i, m, a);
  }

  /** The excerpt from token i to token j scans to those tokens and the end marker. */
  lemma {:induction false} ScanExcerpt(src: string, i: nat, j: nat, m: nat, a: nat, b: nat)
    requires var ls := Scan(src, 0, 0);
      && i < j < |ls| && Clean(ls, j) && m <= j - i
      && a == ls[i].tok.offset && b == ls[j - 1].tok.EndOffset()
    ensures a < b <= |src| && Copied(Scan(src, 0, 0), Scan(Excerpt(src, a, b), 0, 0), i, m, a)
    decreases m
  {
    hide Copied, Excerpt, Lex, LexShape;
    CleanToken(src, i);
    CleanToken(src, j - 1);
    if i < j - 1 { TokensInOrder(src, i, j - 1); }
    if m > 0 {
      ScanExcerpt(src, i, j, m - 1, a, b);
      CopyStep(src, i, j, m - 1, a, b);
    } else {
      CopyNothing(Scan(src, 0, 0), Scan(Excerpt(src, a, b), 0, 0), i, a);
    }
  }

  lemma CopyNothing(ls: seq<Lexed>, ls': seq<Lexed>, i: nat, a: nat)
    requires 0 < |ls'| && i <= |ls|
    ensures Copied(ls, ls', i, 0, a)
  {
  }

  // ----- derivations in an excerpt -----

  lemma {:induction false} MovedPart(ts: seq<Token>, i: nat, ts': seq<Token>, i': nat, n: nat, d: nat, k: nat, m: nat)
    requires TokensMoved(ts, i, ts', i', n, d) && k + m <= n
    ensures TokensMoved(ts, i + k, ts', i' + k, m, d)
  {
  }

  lemma MovedReads(ts: seq<Token>, i: nat, ts': seq<Token>, i': nat, n: nat, d: nat, k: nat)
    requires TokensMoved(ts, i, ts', i', n, d) && k < n
    ensures i + k < |ts| && i' + k < |ts'|
    ensures ts'[i' + k] == MoveToken(ts[i + k], d) && d <= ts[i + k].offset
  {
    assert ts'[i + k - i + i'] == MoveToken(ts[i + k], d);
  }

  lemma TokenMoved(ts: seq<Token>, i: nat, ts': seq<Token>, i': nat, n: nat, d: nat, j: nat, j': nat)
    requires TokensMoved(ts, i, ts', i', n, d) && i <= j < i + n && j' == j - i + i'
    ensures forall kind :: TokenIs(ts, j, kind) ==> TokenIs(ts', j', kind)
    ensures forall kind, text :: TokenReads(ts, j, kind, text) ==> TokenReads(ts', j', kind, text)
  {
    MovedReads(ts, i, ts', i', n, d, j - i);
  }

  lemma {:induction false} SpellsMoved(c: Cst, ts: seq<Token>, i: nat, ts': seq<Token>, i': nat, d: nat)
    requires Spells(c, ts, i) && TokensMoved(ts, i, ts', i', Width(c), d)
    ensures Spells(c, ts', i')
    decreases c, 1
  {
    hide TokensMoved, Spells, Width;
    match c
    case CompareC(_, x, y) => SpellsTwoMoved(c, x, y, ts, i, ts', i', d);
    case LogicC(_, x, y) => SpellsTwoMoved(c, x, y, ts, i, ts', i', d);
    case IndexC(x, y) => SpellsTwoMoved(c, x, y, ts, i, ts', i', d);
    case PropertyC(x, _) => SpellsOneMoved(c, x, 0, ts, i, ts', i', d);
    case FilterC(x) => SpellsOneMoved(c, x, 0, ts, i, ts', i', d);
    case ParenC(x) => SpellsOneMoved(c, x, 1, ts, i, ts', i', d);
    case NotC(x) => SpellsOneMoved(c, x, 1, ts, i, ts', i', d);
    case CallC(_, args) => SpellsCallMoved(c, ts, i, ts', i', d);
    case _ => SpellsLeafMoved(c, ts, i, ts', i', d);
  }

  lemma SpellsLeafMoved(c: Cst, ts: seq<Token>, i: nat, ts': seq<Token>, i': nat, d: nat)
    requires (c.WordC? || c.IntC? || c.FloatC? || c.StringC?) && Spells(c, ts, i) && TokensMoved(ts, i, ts', i', Width(c), d)
    ensures Spells(c, ts', i')
  {
    hide TokensMoved, Width, TokenIs, TokenReads;
    TokenMoved(ts, i, ts', i', Width(c), d, i + 0, i' + 0);
  }

  lemma {:induction false} SpellsCallMoved(c: Cst, ts: seq<Token>, i: nat, ts': seq<Token>, i': nat, d: nat)
    requires c.CallC? && Spells(c, ts, i) && TokensMoved(ts, i, ts', i', Width(c), d)
    ensures Spells(c, ts', i')
    decreases c, 0
  {
    hide TokensMoved, Spells, Width, TokenIs, TokenReads;
    SpellsCall(c.callee, c.args, ts, i);
    var n := Width(c);
    TokenMoved(ts, i, ts', i', n, d, i + 0, i' + 0);
    TokenMoved(ts, i, ts', i', n, d, i + 1, i' + 1);
    TokenMoved(ts, i, ts', i', n, d, i + n - 1, i' + n - 1);
    MovedPart(ts, i, ts', i', n, d, 2, ArgsWidth(c.args));
    SpellsArgsMoved(c.args, ts, i + 2, ts', i' + 2, d);
    SpellsCall(c.callee, c.args, ts', i');
  }

  lemma OneMarksMoved(c: Cst, x: Cst, k: nat, ts: seq<Token>, i: nat, ts': seq<Token>, i': nat, d: nat)
    requires OneOperand(c, x, k) && OneMarks(c, ts, i, Width(x))
    requires TokensMoved(ts, i, ts', i', Width(x) + (if c.NotC? then 1 else 2), d)
    ensures OneMarks(c, ts', i', Width(x))
  {
    hide TokensMoved, Width, TokenIs, TokenReads;
    var w, n := Width(x), Width(x) + if c.NotC? then 1 else 2;
    TokenMoved(ts, i, ts', i', n, d, i + 0, i' + 0);
    TokenMoved(ts, i, ts', i', n, d, i + w, i' + w);
    TokenMoved(ts, i, ts', i', n, d, i + n - 1, i' + n - 1);
  }

  lemma {:induction false} SpellsOneMoved(c: Cst, x: Cst, k: nat, ts: seq<Token>, i: nat, ts': seq<Token>, i': nat, d: nat)
    requires OneOperand(c, x, k) && Spells(c, ts, i) && TokensMoved(ts, i, ts', i', Width(c), d)
    ensures Spells(c, ts', i')
    decreases c, 0
  {
    hide TokensMoved, Spells, Width, OneMarks;
    SpellsOne(c, x, k, ts, i);
    MovedPart(ts, i, ts', i', Width(c), d, k, Width(x));
    SpellsMoved(x, ts, i + k, ts', i' + k, d);
    OneMarksMoved(c, x, k, ts, i, ts', i', d);
    SpellsOne(c, x, k, ts', i');
  }

  lemma MarksMoved(c: Cst, x: Cst, y: Cst, ts: seq<Token>, i: nat, ts': seq<Token>, i': nat, d: nat)
    requires TokensMoved(ts, i, ts', i', Width(x) + Width(y) + (if c.IndexC? then 2 else 1), d)
    requires TwoMarks(c, ts, i + Width(x), i + Width(x) + 1 + Width(y))
    ensures TwoMarks(c, ts', i' + Width(x), i' + Width(x) + 1 + Width(y))
  {
    hide TokensMoved, Width;
    var w, n := Width(x), Width(x) + Width(y) + if c.IndexC? then 2 else 1;
    MovedReads(ts, i, ts', i', n, d, w);
    if c.IndexC? { MovedReads(ts, i, ts', i', n, d, w + 1 + Width(y)); }
  }

  lemma {:induction false} SpellsTwoMoved(c: Cst, x: Cst, y: Cst, ts: seq<Token>, i: nat, ts': seq<Token>, i': nat, d: nat)
    requires TwoOperands(c, x, y) && Spells(c, ts, i) && TokensMoved(ts, i, ts', i', Width(c), d)
    ensures Spells(c, ts', i')
    decreases c, 0
  {
    hide TokensMoved, Spells, Width, TwoMarks;
    SpellsTwo(c, x, y, ts, i);
    var n, w := Width(c), Width(x);
    MovedPart(ts, i, ts', i', n, d, 0, w);
    MovedPart(ts, i, ts', i', n, d, w + 1, Width(y));
    SpellsMoved(x, ts, i, ts', i', d);
    SpellsMoved(y, ts, i + w + 1, ts', i' + w + 1, d);
    MarksMoved(c, x, y, ts, i, ts', i', d);
    SpellsTwo(c, x, y, ts', i');
  }

  lemma {:induction false} SpellsArgsMoved(args: seq<Cst>, ts: seq<Token>, i: nat, ts': seq<Token>, i': nat, d: nat)
    requires SpellsArgs(args, ts, i) && TokensMoved(ts, i, ts', i', ArgsWidth(args), d)
    ensures SpellsArgs(args, ts', i')
    decreases args
  {
    hide TokensMoved, Spells, Width;
    if |args| == 1 {
      SpellsMoved(args[0], ts, i, ts', i', d);
    } else if |args| > 1 {
      var n, w := ArgsWidth(args), Width(args[0]);
      MovedReads(ts, i, ts', i', n, d, w);
      MovedPart(ts, i, ts', i', n, d, 0, w);
      MovedPart(ts, i, ts', i', n, d, w + 1, ArgsWidth(args[1..]));
      SpellsMoved(args[0], ts, i, ts', i', d);
      SpellsArgsMoved(args[1..], ts, i + w + 1, ts', i' + w + 1, d);
    }
  }

  function MoveSpan(s: Span, d: nat): Span {
    Span(if d <= s.start then s.start - d else 0, if d <= s.end then s.end - d else 0)
  }

  /** The tree with every span d characters further left. */
  function MoveExpr(e: Expr, d: nat): Expr {
    match e
    case Property(s, r, n) => Property(MoveSpan(s, d), MoveExpr(r, d), n)
    case Filter(s, r) => Filter(MoveSpan(s, d), MoveExpr(r, d))
    case Index(s, o, i) => Index(MoveSpan(s, d), MoveExpr(o, d), MoveExpr(i, d))
    case Not(s, o) => Not(MoveSpan(s, d), MoveExpr(o, d))
    case Compare(s, op, l, r) => Compare(MoveSpan(s, d), op, MoveExpr(l, d), MoveExpr(r, d))
    case Logic(s, k, l, r) => Logic(MoveSpan(s, d), k, MoveExpr(l, d), MoveExpr(r, d))
    case Call(s, c, args) => Call(MoveSpan(s, d), c, seq(|args|, i requires 0 <= i < |args| => MoveExpr(args[i], d)))
    case NullLit(s) => NullLit(MoveSpan(s, d))
    case BoolLit(s, b) => BoolLit(MoveSpan(s, d), b)
    case IntLit(s, t) => IntLit(MoveSpan(s, d), t)
    case FloatLit(s, t) => FloatLit(MoveSpan(s, d), t)
    case StrLit(s, t) => StrLit(MoveSpan(s, d), t)
    case Variable(s, n) => Variable(MoveSpan(s, d), n)
  }

  lemma MoveRespan(e: Expr, s: Span, d: nat)
    ensures MoveExpr(e.(span := s), d) == MoveExpr(e, d).(span := MoveSpan(s, d))
  {
  }

  lemma MoveSpanOf(ts: seq<Token>, i: nat, ts': seq<Token>, i': nat, n: nat, d: nat)
    requires n > 0 && TokensMoved(ts, i, ts', i', n, d)
    ensures SpanOf(ts', i', i' + n) == MoveSpan(SpanOf(ts, i, i + n), d)
  {
    MovedReads(ts, i, ts', i', n, d, 0);
    MovedReads(ts, i, ts', i', n, d, n - 1);
  }

  lemma {:induction false} BuildMoved(c: Cst, ts: seq<Token>, i: nat, ts': seq<Token>, i': nat, d: nat)
    requires TokensMoved(ts, i, ts', i', Width(c), d)
    ensures Build(c, ts', i') == MoveExpr(Build(c, ts, i), d)
    decreases c, 1
  {
    var n := Width(c);
    MoveSpanOf(ts, i, ts', i', n, d);
    match c
    case LogicC(_, _, _) | CompareC(_, _, _) => BuildBinaryMoved(c, ts, i, ts', i', d);
    case PropertyC(_, _) | FilterC(_) | IndexC(_, _) => BuildPostfixMoved(c, ts, i, ts', i', d);
    case CallC(_, _) => BuildCallMoved(c, ts, i, ts', i', d);
    case ParenC(_) | NotC(_) => BuildOneMoved(c, ts, i, ts', i', d);
    case _ =>
  }

  lemma MoveNot(s: Span, x: Expr, d: nat)
    ensures MoveExpr(Not(s, x), d) == Not(MoveSpan(s, d), MoveExpr(x, d))
  {
  }

  lemma {:induction false} BuildOneMoved(c: Cst, ts: seq<Token>, i: nat, ts': seq<Token>, i': nat, d: nat)
    requires (c.ParenC? || c.NotC?) && TokensMoved(ts, i, ts', i', Width(c), d)
    ensures Build(c, ts', i') == MoveExpr(Build(c, ts, i), d)
    decreases c, 0
  {
    hide Build, Width, TokensMoved, SpanOf, MoveExpr, MoveSpan;
    var n, x := Width(c), if c.ParenC? then c.inner else c.of;
    MovedBounds(ts, i, ts', i', n, d);
    BuildOne(c, x, 1, ts, i);
    BuildOne(c, x, 1, ts', i');
    MoveSpanOf(ts, i, ts', i', n, d);
    MovedPart(ts, i, ts', i', n, d, 1, Width(x));
    BuildMoved(x, ts, i + 1, ts', i' + 1, d);
    var y, s := Build(x, ts, i + 1), SpanOf(ts, i, i + n);
    MoveRespan(y, s, d);
    MoveNot(s, y, d);
  }

  lemma {:induction false} BuildBinaryMoved(c: Cst, ts: seq<Token>, i: nat, ts': seq<Token>, i': nat, d: nat)
    requires (c.LogicC? || c.CompareC?) && TokensMoved(ts, i, ts', i', Width(c), d)
    ensures Build(c, ts', i') == MoveExpr(Build(c, ts, i), d)
    decreases c, 0
  {
    hide Build, TokensMoved;
    var n, k := Width(c), Width(c.left) + 1;
    MovedBounds(ts, i, ts', i', n, d);
    MoveSpanOf(ts, i, ts', i', n, d);
    MovedPart(ts, i, ts', i', n, d, 0, Width(c.left));
    MovedPart(ts, i, ts', i', n, d, k, Width(c.right));
    BuildBinary(c, ts, i);
    BuildBinary(c, ts', i');
    BuildMoved(c.left, ts, i, ts', i', d);
    BuildMoved(c.right, ts, i + k, ts', i' + k, d);
  }

  lemma MovedBounds(ts: seq<Token>, i: nat, ts': seq<Token>, i': nat, n: nat, d: nat)
    requires TokensMoved(ts, i, ts', i', n, d)
    ensures i + n <= |ts| && i' + n <= |ts'|
  {
  }

  lemma {:induction false} BuildPostfixMoved(c: Cst, ts: seq<Token>, i: nat, ts': seq<Token>, i': nat, d: nat)
    requires (c.PropertyC? || c.FilterC? || c.IndexC?) && TokensMoved(ts, i, ts', i', Width(c), d)
    ensures Build(c, ts', i') == MoveExpr(Build(c, ts, i), d)
    decreases c, 0
  {
    hide Build, TokensMoved;
    var n, k := Width(c), Width(c.of) + 1;
    MovedBounds(ts, i, ts', i', n, d);
    MoveSpanOf(ts, i, ts', i', n, d);
    MovedPart(ts, i, ts', i', n, d, 0, Width(c.of));
    BuildPostfix(c, ts, i);
    BuildPostfix(c, ts', i');
    BuildMoved(c.of, ts, i, ts', i', d);
    if c.IndexC? {
      MovedPart(ts, i, ts', i', n, d, k, Width(c.index));
      BuildMoved(c.index, ts, i + k, ts', i' + k, d);
    }
  }

  lemma {:induction false} BuildCallMoved(c: Cst, ts: seq<Token>, i: nat, ts': seq<Token>, i': nat, d: nat)
    requires c.CallC? && TokensMoved(ts, i, ts', i', Width(c), d)
    ensures Build(c, ts', i') == MoveExpr(Build(c, ts, i), d)
    decreases c, 0
  {
    hide BuildArgs, ArgsWidth;
    var n := Width(c);
    MoveSpanOf(ts, i, ts', i', n, d);
    MovedPart(ts, i, ts', i', n, d, 2, ArgsWidth(c.args));
    BuildArgsMoved(c.args, ts, i + 2, ts', i' + 2, d);
  }

  lemma {:induction false} BuildArgsMoved(args: seq<Cst>, ts: seq<Token>, i: nat, ts': seq<Token>, i': nat, d: nat)
    requires TokensMoved(ts, i, ts', i', ArgsWidth(args), d)
    ensures forall k | 0 <= k < |args| :: BuildArgs(args, ts', i')[k] == MoveExpr(BuildArgs(args, ts, i)[k], d)
    decreases args
  {
    hide Build, TokensMoved, Width, MoveExpr;
    MovedBounds(ts, i, ts', i', ArgsWidth(args), d);
    if |args| == 1 {
      BuildMoved(args[0], ts, i, ts', i', d);
    } else if |args| > 1 {
      var n, w := ArgsWidth(args), Width(args[0]);
      MovedPart(ts, i, ts', i', n, d, 0, w);
      MovedPart(ts, i, ts', i', n, d, w + 1, ArgsWidth(args[1..]));
      BuildMoved(args[0], ts, i, ts', i', d);
      BuildArgsMoved(args[1..], ts, i + w + 1, ts', i' + w + 1, d);
    }
  }

  // ----- the derivation of a subexpression -----

  lemma BuildSpan(c: Cst, ts: seq<Token>, i: nat)
    requires i + Width(c) <= |ts|
    ensures Build(c, ts, i).span == SpanOf(ts, i, i + Width(c))
  {
  }

  lemma RespanChildren(e: Expr, s: Span)
    ensures Children(e.(span := s)) == Children(e)
  {
  }

  /** Every child of a derivation's tree is the tree of a part of the derivation. */
  lemma {:induction false} ChildDerivation(c: Cst, ts: seq<Token>, i: nat, k: nat) returns (x: Cst, j: nat)
    requires WellFormed(c, OR_LEVEL) && Spells(c, ts, i) && i + Width(c) <= |ts|
    requires k < |Children(Build(c, ts, i))|
    ensures i <= j && j + Width(x) <= i + Width(c) && WellFormed(x, OR_LEVEL) && Spells(x, ts, j)
    ensures Children(Build(c, ts, i))[k] == Build(x, ts, j)
    decreases c
  {
    hide Build, Spells, Width, WellFormed, Children;
    match c
    case ParenC(y) =>
      InnerParts(c, y, ts, i);
      RespanChildren(Build(y, ts, i + 1), SpanOf(ts, i, i + Width(c)));
      x, j := ChildDerivation(y, ts, i + 1, k);
    case NotC(y) =>
      InnerParts(c, y, ts, i);
      OnlyChild(SpanOf(ts, i, i + Width(c)), Build(y, ts, i + 1));
      x, j := y, i + 1;
      Looser(x, OR_LEVEL, PREFIX_LEVEL);
    case CallC(_, args) => x, j := CallChild(c, ts, i, k);
    case PropertyC(_, _) | FilterC(_) | IndexC(_, _) => x, j := PostfixChild(c, ts, i, k);
    case CompareC(_, _, _) | LogicC(_, _, _) => x, j := BinaryChild(c, ts, i, k);
    case _ =>
      LeafChildren(c, ts, i);
      assert false;
  }

  lemma InnerParts(c: Cst, y: Cst, ts: seq<Token>, i: nat)
    requires OneOperand(c, y, 1) && WellFormed(c, OR_LEVEL) && Spells(c, ts, i) && i + Width(c) <= |ts|
    ensures Spells(y, ts, i + 1) && WellFormed(y, if c.ParenC? then OR_LEVEL else PREFIX_LEVEL)
    ensures i + 1 + Width(y) <= i + Width(c)
    ensures Build(c, ts, i) ==
      var s := SpanOf(ts, i, i + Width(c));
      if c.ParenC? then Build(y, ts, i + 1).(span := s) else Not(s, Build(y, ts, i + 1))
  {
    hide Build, Spells, Width, WellFormed;
    TopLevel(c);
    SpellsOne(c, y, 1, ts, i);
    WellFormedOne(c, y, 1, LevelOf(c));
    BuildOne(c, y, 1, ts, i);
  }

  lemma TopLevel(c: Cst)
    requires WellFormed(c, OR_LEVEL)
    ensures WellFormed(c, LevelOf(c))
  {
  }

  lemma OnlyChild(s: Span, x: Expr)
    ensures Children(Not(s, x)) == [x]
  {
  }

  lemma LeafChildren(c: Cst, ts: seq<Token>, i: nat)
    requires (c.WordC? || c.IntC? || c.FloatC? || c.StringC?) && i + Width(c) <= |ts|
    ensures Children(Build(c, ts, i)) == []
  {
  }

  lemma CallChild(c: Cst, ts: seq<Token>, i: nat, k: nat) returns (x: Cst, j: nat)
    requires c.CallC? && WellFormed(c, OR_LEVEL) && Spells(c, ts, i)
    requires i + Width(c) <= |ts| && k < |Children(Build(c, ts, i))|
    ensures i <= j && j + Width(x) <= i + Width(c) && WellFormed(x, OR_LEVEL) && Spells(x, ts, j)
    ensures Children(Build(c, ts, i))[k] == Build(x, ts, j)
  {
    hide Spells, TokenIs, TokenReads, SpellsArgs;
    SpellsCall(c.callee, c.args, ts, i);
    x, j := ArgDerivation(c.args, ts, i + 2, k);
  }

  lemma PostfixChild(c: Cst, ts: seq<Token>, i: nat, k: nat) returns (x: Cst, j: nat)
    requires (c.PropertyC? || c.FilterC? || c.IndexC?) && WellFormed(c, OR_LEVEL) && Spells(c, ts, i)
    requires i + Width(c) <= |ts| && k < |Children(Build(c, ts, i))|
    ensures i <= j && j + Width(x) <= i + Width(c) && WellFormed(x, OR_LEVEL) && Spells(x, ts, j)
    ensures Children(Build(c, ts, i))[k] == Build(x, ts, j)
  {
    hide Build, Spells, Width;
    assert WellFormed(c, POSTFIX_LEVEL);
    PostfixParts(c, ts, i);
    BuildPostfix(c, ts, i);
    if k == 0 {
      x, j := c.of, i;
      Looser(x, OR_LEVEL, POSTFIX_LEVEL);
    } else {
      x, j := c.index, i + Width(c.of) + 1;
    }
  }

  lemma BinaryChild(c: Cst, ts: seq<Token>, i: nat, k: nat) returns (x: Cst, j: nat)
    requires (c.CompareC? || c.LogicC?) && WellFormed(c, OR_LEVEL) && Spells(c, ts, i)
    requires i + Width(c) <= |ts| && k < |Children(Build(c, ts, i))|
    ensures i <= j && j + Width(x) <= i + Width(c) && WellFormed(x, OR_LEVEL) && Spells(x, ts, j)
    ensures Children(Build(c, ts, i))[k] == Build(x, ts, j)
  {
    hide Build, Spells, Width;
    assert WellFormed(c, LevelOf(c));
    BinaryParts(c, ts, i);
    BuildBinary(c, ts, i);
    x, j := if k == 0 then c.left else c.right, if k == 0 then i else i + Width(c.left) + 1;
    Looser(x, OR_LEVEL, if k == 0 then LevelOf(c) + 1 else LevelOf(c));
  }

  lemma {:induction false} ArgDerivation(args: seq<Cst>, ts: seq<Token>, i: nat, k: nat) returns (x: Cst, j: nat)
    requires (forall a | a in args :: WellFormed(a, OR_LEVEL)) && SpellsArgs(args, ts, i)
    requires i + ArgsWidth(args) <= |ts| && k < |args|
    ensures i <= j && j + Width(x) <= i + ArgsWidth(args) && WellFormed(x, OR_LEVEL) && Spells(x, ts, j)
    ensures BuildArgs(args, ts, i)[k] == Build(x, ts, j)
    decreases args
  {
    hide Build, Spells, WellFormed, Width;
    if k == 0 {
      x, j := args[0], i;
    } else {
      x, j := ArgDerivation(args[1..], ts, i + Width(args[0]) + 1, k - 1);
    }
  }

  lemma {:induction false} SubDerivation(c: Cst, ts: seq<Token>, i: nat, path: seq<nat>) returns (x: Cst, j: nat)
    requires WellFormed(c, OR_LEVEL) && Spells(c, ts, i) && i + Width(c) <= |ts|
    requires Sub(Build(c, ts, i), path).Some?
    ensures i <= j && j + Width(x) <= i + Width(c) && WellFormed(x, OR_LEVEL) && Spells(x, ts, j)
    ensures Sub(Build(c, ts, i), path).value == Build(x, ts, j)
    decreases |path|
  {
    hide Build, Spells, WellFormed, Width;
    if path == [] {
      x, j := c, i;
    } else {
      x, j := ChildDerivation(c, ts, i, path[0]);
      x, j := SubDerivation(x, ts, j, path[1..]);
    }
  }

  lemma {:induction false} SubDepth(e: Expr, path: seq<nat>)
    requires Sub(e, path).Some?
    ensures FlatDepth(Sub(e, path).value) <= FlatDepth(e)
    decreases |path|
  {
    if path != [] {
      var c := Children(e)[path[0]];
      SubDepth(c, path[1..]);
      DepthBelowMax(e, |Children(e)|);
      if e.Logic? { OperandDepthBound(e.kind, c); assert c == e.left || c == e.right; }
    }
  }

  lemma {:induction false} OperandDepthBound(k: LogicOp, e: Expr)
    ensures FlatDepth(e) <= 1 + OperandDepth(k, e)
  {
    if e.Logic? && e.kind != k { assert OperandDepth(k, e) == FlatDepth(e); }
  }

  lemma {:induction false} MoveStrip(e: Expr, d: nat)
    ensures Strip(MoveExpr(e, d)) == Strip(e)
    decreases e
  {
    match e
    case Property(_, r, _) => MoveStrip(r, d);
    case Filter(_, r) => MoveStrip(r, d);
    case Index(_, o, i) => MoveStrip(o, d); MoveStrip(i, d);
    case Not(_, o) => MoveStrip(o, d);
    case Compare(_, _, l, r) => MoveStrip(l, d); MoveStrip(r, d);
    case Logic(_, _, l, r) => MoveStrip(l, d); MoveStrip(r, d);
    case Call(_, _, args) => forall k | 0 <= k < |args| { MoveStrip(args[k], d); }
    case _ =>
  }

  // ----- the theorems -----

  /** A successful parse comes from a derivation that covers all tokens before the end marker. */
  lemma ParsedDerivation(src: string) returns (c: Cst)
    requires ParseSource(src).Tree?
    ensures var ls := Scan(src, 0, 0); var ts := Tokens(ls);
      && Closed(ts) && Width(c) < |ts| && Clean(ls, Width(c) + 1) && ts[Width(c)].kind == End
      && WellFormed(c, OR_LEVEL) && Spells(c, ts, 0)
      && ParseSource(src) == Tree(Build(c, ts, 0), ls[Width(c)].pos)
      && FlatDepth(Build(c, ts, 0)) <= MAX_DEPTH
  {
    hide ParseOr, Build, Spells, WellFormed, Width, Scan, Exceeding, FlatDepth, Lex;
    var ls := Scan(src, 0, 0);
    ScanSteps(src, 0, 0);
    c := Sound(OR_LEVEL, Tokens(ls), 0);
    NoErrorIsClean(ls, ParseOr(Tokens(ls), 0).at + 1);
    ExceedingIsDepth(Build(c, Tokens(ls), 0), 1);
  }

  lemma TokenRange(src: string, k: nat)
    requires k < |Scan(src, 0, 0)| && Clean(Scan(src, 0, 0), k + 1)
    ensures var t := Scan(src, 0, 0)[k].tok; t.offset < t.EndOffset() <= |src|
  {
    CleanToken(src, k);
  }

  /** The span of a range of tokens contains the span of any range within it. */
  lemma RangesNest(src: string, i: nat, n: nat, j: nat, m: nat)
    requires i <= j && j + m <= i + n && 0 < m
    requires var ls := Scan(src, 0, 0); i + n <= |ls| && Clean(ls, i + n)
    ensures var ts := Tokens(Scan(src, 0, 0));
      ts[i].offset <= ts[j].offset < ts[j + m - 1].EndOffset() <= ts[i + n - 1].EndOffset() <= |src|
  {
    hide Scan, Clean, Lex;
    var ls := Scan(src, 0, 0);
    CleanPrefix(ls, i + n, j + 1);
    CleanPrefix(ls, i + n, j + m);
    RangeOrder(src, i, j);
    RangeOrder(src, j, j + m - 1);
    RangeOrder(src, j + m - 1, i + n - 1);
  }

  lemma RangeOrder(src: string, i: nat, j: nat)
    requires i <= j < |Scan(src, 0, 0)| && Clean(Scan(src, 0, 0), j + 1)
    ensures var t, u := Scan(src, 0, 0)[i].tok, Scan(src, 0, 0)[j].tok;
      t.offset <= u.offset < u.EndOffset() <= |src| && t.EndOffset() <= u.EndOffset()
  {
    hide Scan, Clean, Lex;
    CleanPrefix(Scan(src, 0, 0), j + 1, i + 1);
    TokenRange(src, i);
    TokenRange(src, j);
    if i < j { TokensInOrder(src, i, j); }
  }

  /** A node's span lies within the source and contains the span of each of its children. */
  lemma SpansNest(src: string, path: seq<nat>, k: nat)
    requires ParseSource(src).Tree? && Sub(ParseSource(src).node, path).Some?
    requires k < |Children(Sub(ParseSource(src).node, path).value)|
    ensures var n := Sub(ParseSource(src).node, path).value;
      var x := Children(n)[k];
      n.span.start <= x.span.start < x.span.end <= n.span.end <= |src|
  {
    hide ParseSource, Build, Spells, WellFormed, Width, Scan, FlatDepth, Lex;
    var c := ParsedDerivation(src);
    var ts := Tokens(Scan(src, 0, 0));
    var y, j := SubDerivation(c, ts, 0, path);
    var x, m := ChildDerivation(y, ts, j, k);
    BuildSpan(y, ts, j);
    BuildSpan(x, ts, m);
    RangesNest(src, j, Width(y), m, Width(x));
  }

  /** The text of a node's span, with an end marker, parses to that node, at its own offsets. */
  lemma SpanReparses(src: string, path: seq<nat>)
    requires ParseSource(src).Tree? && Sub(ParseSource(src).node, path).Some?
    ensures var n := Sub(ParseSource(src).node, path).value;
      && n.span.start < n.span.end <= |src|
      && var text := src[n.span.start..n.span.end] + "}}";
         ParseSource(text) == Tree(MoveExpr(n, n.span.start), |text|)
  {
    hide ParseSource, Build, Spells, WellFormed, Width, Scan, FlatDepth, MoveExpr, Lex;
    var c := ParsedDerivation(src);
    var ls := Scan(src, 0, 0);
    var ts := Tokens(ls);
    var x, i := SubDerivation(c, ts, 0, path);
    var n := Build(x, ts, i);
    BuildSpan(x, ts, i);
    SubDepth(Build(c, ts, 0), path);
    ReparseDerivation(src, x, i);
  }

  lemma ReparseDerivation(src: string, x: Cst, i: nat)
    requires var ls := Scan(src, 0, 0); var ts := Tokens(ls);
      && i + Width(x) < |ls| && Clean(ls, i + Width(x))
      && WellFormed(x, OR_LEVEL) && Spells(x, ts, i) && FlatDepth(Build(x, ts, i)) <= MAX_DEPTH
    ensures var ts := Tokens(Scan(src, 0, 0));
      var a, b := ts[i].offset, ts[i + Width(x) - 1].EndOffset();
      && a < b <= |src|
      && ParseSource(Excerpt(src, a, b)) == Tree(MoveExpr(Build(x, ts, i), a), b - a + 2)
  {
    hide Build, Spells, WellFormed, Width, Scan, FlatDepth, MoveExpr, ParseOr, Exceeding, Copied, TokensMoved, Excerpt, Lex;
    var ls, w := Scan(src, 0, 0), Width(x);
    var ts := Tokens(ls);
    var a, b := ts[i].offset, ts[i + w - 1].EndOffset();
    ScanExcerpt(src, i, i + w, w, a, b);
    var text := Excerpt(src, a, b);
    var ls' := Scan(text, 0, 0);
    EndOfExcerpt(src, i, w, a, b);
    CopiedMoved(ls, ls', i, w, a);
    SpellsMoved(x, ts, i, Tokens(ls'), 0, a);
    BuildMoved(x, ts, i, Tokens(ls'), 0, a);
    MovedShallow(Build(x, ts, i), a);
    ParseDerivation(text, x);
  }

  /** A text whose tokens spell a derivation up to the end marker parses to its tree. */
  lemma ParseDerivation(text: string, x: Cst)
    requires WellFormed(x, OR_LEVEL)
    requires var ls := Scan(text, 0, 0); var ts := Tokens(ls);
      && Spells(x, ts, 0) && Width(x) < |ls| && ts[Width(x)].kind == End
      && (forall k | 0 <= k < Width(x) + 1 :: ls[k].err == None)
      && Exceeding(Build(x, ts, 0), 1) == None
    ensures var ls := Scan(text, 0, 0);
      ParseSource(text) == Tree(Build(x, Tokens(ls), 0), ls[Width(x)].pos)
  {
    hide Build, Spells, WellFormed, Width, Scan, ParseOr, Exceeding, Lex;
    var ls := Scan(text, 0, 0);
    ScanSteps(text, 0, 0);
    Complete(x, Tokens(ls), 0, OR_LEVEL);
    NoErrors(ls, Width(x) + 1);
  }

  lemma CopiedMoved(ls: seq<Lexed>, ls': seq<Lexed>, i: nat, w: nat, a: nat)
    requires Copied(ls, ls', i, w, a) && w < |ls'| && ls'[w].err == None
    ensures TokensMoved(Tokens(ls), i, Tokens(ls'), 0, w, a)
    ensures forall k | 0 <= k < w + 1 :: ls'[k].err == None
  {
    forall k | i <= k < i + w
      ensures a <= Tokens(ls)[k].offset && Tokens(ls')[k - i + 0] == MoveToken(Tokens(ls)[k], a)
    {
      assert ls'[k - i].tok == MoveToken(ls[i + (k - i)].tok, a);
    }
  }

  lemma MovedShallow(tree: Expr, a: nat)
    requires FlatDepth(tree) <= MAX_DEPTH
    ensures Exceeding(MoveExpr(tree, a), 1) == None
  {
    MoveStrip(tree, a);
    StripDepth(tree);
    StripDepth(MoveExpr(tree, a));
    ExceedingIsDepth(MoveExpr(tree, a), 1);
  }

  /** After the copied tokens comes the end marker. */
  lemma EndOfExcerpt(src: string, i: nat, w: nat, a: nat, b: nat)
    requires var ls := Scan(src, 0, 0);
      && 0 < w && i + w < |ls| && Clean(ls, i + w)
      && a == ls[i].tok.offset && b == ls[i + w - 1].tok.EndOffset() <= |src| && a <= b
      && Copied(ls, Scan(Excerpt(src, a, b), 0, 0), i, w, a)
    ensures var ls' := Scan(Excerpt(src, a, b), 0, 0);
      w < |ls'| && ls'[w].tok.kind == End && ls'[w].err == None && ls'[w].pos == b - a + 2
  {
    hide Scan, Lex;
    var x := Excerpt(src, a, b);
    CleanToken(src, i + w - 1);
    ScanSteps(x, 0, 0);
    assert x[b - a..] == "" + "}}" + "";
    LexEndMarker(x, b - a, "", "");
    assert Scan(x, 0, 0)[w] == Lex(x, b - a, b - a);
  }
}
