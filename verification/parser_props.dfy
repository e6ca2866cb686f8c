/**
 * Properties of the parser that relate several of its functions: how `match`
 * treats line ends, the order in which `parseExpr` and `parseStmt` try their
 * alternatives, and where `skipFnBody` stops.
 */
module ParserProperties {
  import opened Basics
  import opened Tokens
  import opened Ast
  import opened ParserSpec

  /**
   * For every kind but Eol, `match` first steps over all line ends; it then
   * consumes exactly one token when that token has the kind, and nothing more
   * otherwise.
   */
  lemma MatchSkipsLineEndsThenConsumesOne(ts: seq<Token>, i: nat, tok: TokenKind)
    requires WellFormed(ts) && i < |ts| && tok != Eol && tok != End
    ensures var j := SkipEols(ts, i); var m := MatchAt(ts, i, tok);
      (forall k :: i <= k < j ==> ts[k].kind == Eol) && ts[j].kind != Eol &&
      (m.val <==> ts[j].kind == tok) &&
      (m.val ==> m.pos == j + 1) && (!m.val ==> m.pos == j)
  {
    SkipEolsSkipsOnlyEols(ts, i);
  }

  /** Matching Eol never skips anything: it consumes the current token or nothing. */
  lemma MatchEolConsumesOnlyTheCurrentToken(ts: seq<Token>, i: nat)
    requires WellFormed(ts) && i < |ts|
    ensures var m := MatchAt(ts, i, Eol);
      (m.val <==> ts[i].kind == Eol) && m.pos == (if m.val then i + 1 else i)
  {
  }

  // ------------------------------------------------------------ parseExpr

  /** Results of alternatives, in the order they are tried. */
  datatype Tries<T> = Done | Try(first: At<T>, rest: Tries<T>)

  /** The expression parsers in the order `parseExpr` tries them, each from `i`. */
  function ExprAlternatives(ts: seq<Token>, i: nat): (alts: Tries<Option<Expr>>)
    requires WellFormed(ts) && i < |ts|
    ensures alts.Try? && alts.first == TrueAt(ts, i)
  {
    Try(TrueAt(ts, i), Try(FalseAt(ts, i), Try(NumberAt(ts, i), Try(TernaryAt(ts, i),
    Try(SizeofAt(ts, i), Try(InputAt(ts, i), Try(IndexAt(ts, i), Try(CallAt(ts, i),
    Try(IdentAt(ts, i), Try(BinopAt(ts, i), Try(UnaryAt(ts, i), Done)))))))))))
  }

  /** Whether every result in `alts` is empty. */
  predicate AllNone(alts: Tries<Option<Expr>>) {
    alts.Try? ==> alts.first.val.None? && AllNone(alts.rest)
  }

  /** The first result that holds a node; none, with the cursor back at `i`, when no result does. */
  function FirstNode(alts: Tries<Option<Expr>>, i: nat): (r: At<Option<Expr>>)
    ensures r.val.None? <==> AllNone(alts)
    ensures r.val.None? ==> r.pos == i
  {
    if alts.Done? then At(None, i)
    else if alts.first.val.Some? then alts.first
    else FirstNode(alts.rest, i)
  }

  /**
   * `parseExpr` returns the first alternative that produced a node; when none
   * did it returns null and resets the cursor to where it started.
   */
  lemma ExprIsFirstNode(ts: seq<Token>, i: nat)
    requires WellFormed(ts) && i < |ts|
    ensures ExprAt(ts, i) == FirstNode(ExprAlternatives(ts, i), i)
  {
    assert ExprAt(ts, i) == ExprAlternativesAt(ts, i);
    // one unfolding of FirstNode per alternative
    var t := ExprAlternatives(ts, i);
    assert FirstNode(t, i) == (if t.first.val.Some? then t.first else FirstNode(t.rest, i));
    t := t.rest;
    assert FirstNode(t, i) == (if t.first.val.Some? then t.first else FirstNode(t.rest, i));
    t := t.rest;
    assert FirstNode(t, i) == (if t.first.val.Some? then t.first else FirstNode(t.rest, i));
    t := t.rest;
    assert FirstNode(t, i) == (if t.first.val.Some? then t.first else FirstNode(t.rest, i));
    t := t.rest;
    assert FirstNode(t, i) == (if t.first.val.Some? then t.first else FirstNode(t.rest, i));
    t := t.rest;
    assert FirstNode(t, i) == (if t.first.val.Some? then t.first else FirstNode(t.rest, i));
    t := t.rest;
    assert FirstNode(t, i) == (if t.first.val.Some? then t.first else FirstNode(t.rest, i));
    t := t.rest;
    assert FirstNode(t, i) == (if t.first.val.Some? then t.first else FirstNode(t.rest, i));
    t := t.rest;
    assert FirstNode(t, i) == (if t.first.val.Some? then t.first else FirstNode(t.rest, i));
    t := t.rest;
    assert FirstNode(t, i) == (if t.first.val.Some? then t.first else FirstNode(t.rest, i));
    t := t.rest;
    assert FirstNode(t, i) == (if t.first.val.Some? then t.first else FirstNode(t.rest, i));
    t := t.rest;
  }

  // ------------------------------------------------------------ parseStmt

  /** The statement parsers in the order `parseStmt` tries them, each from `i`. */
  function StmtAlternatives(ts: seq<Token>, i: nat): (alts: Tries<Outcome<Stmt>>)
    requires WellFormed(ts) && i < |ts|
    ensures alts.Try? && alts.first == BlockAt(ts, i)
  {
    Try(BlockAt(ts, i), Try(VarDeclsAt(ts, i), Try(ArrayDeclsAt(ts, i), Try(PrintAt(ts, i),
    Try(IfAt(ts, i), Try(WhileAt(ts, i), Try(ForAt(ts, i), Try(VarAssignAt(ts, i),
    Try(ArrayAssignAt(ts, i), Try(ExprStmtAt(ts, i), Try(ReturnAt(ts, i), Done)))))))))))
  }

  /** Whether every result in `alts` is null. */
  predicate AllNull(alts: Tries<Outcome<Stmt>>) {
    alts.Try? ==> alts.first.val.NoParse? && AllNull(alts.rest)
  }

  /** The first result that is not null, or `fallback` when every result is null. */
  function FirstOutcome(alts: Tries<Outcome<Stmt>>, fallback: At<Outcome<Stmt>>): (r: At<Outcome<Stmt>>)
    ensures AllNull(alts) ==> r == fallback
    ensures !AllNull(alts) ==> !r.val.NoParse?
  {
    if alts.Done? then fallback
    else if !alts.first.val.NoParse? then alts.first
    else FirstOutcome(alts.rest, fallback)
  }

  /**
   * `parseStmt` returns the first alternative that did not return null; when
   * all did, it throws a parse error naming the token the last one stopped on.
   */
  lemma StmtIsFirstOutcome(ts: seq<Token>, i: nat)
    requires WellFormed(ts) && i < |ts|
    ensures var p := ReturnAt(ts, i).pos;
      StmtAt(ts, i) == FirstOutcome(StmtAlternatives(ts, i), At(Failed(StmtError(ts[p].line, ts[p].text)), p))
  {
    assert StmtAt(ts, i) == StmtAlternativesAt(ts, i);
    var p := ReturnAt(ts, i).pos;
    var fallback := At(Failed(StmtError(ts[p].line, ts[p].text)), p);
    // one unfolding of FirstOutcome per alternative
    var t := StmtAlternatives(ts, i);
    assert FirstOutcome(t, fallback) == (if !t.first.val.NoParse? then t.first else FirstOutcome(t.rest, fallback));
    t := t.rest;
    assert FirstOutcome(t, fallback) == (if !t.first.val.NoParse? then t.first else FirstOutcome(t.rest, fallback));
    t := t.rest;
    assert FirstOutcome(t, fallback) == (if !t.first.val.NoParse? then t.first else FirstOutcome(t.rest, fallback));
    t := t.rest;
    assert FirstOutcome(t, fallback) == (if !t.first.val.NoParse? then t.first else FirstOutcome(t.rest, fallback));
    t := t.rest;
    assert FirstOutcome(t, fallback) == (if !t.first.val.NoParse? then t.first else FirstOutcome(t.rest, fallback));
    t := t.rest;
    assert FirstOutcome(t, fallback) == (if !t.first.val.NoParse? then t.first else FirstOutcome(t.rest, fallback));
    t := t.rest;
    assert FirstOutcome(t, fallback) == (if !t.first.val.NoParse? then t.first else FirstOutcome(t.rest, fallback));
    t := t.rest;
    assert FirstOutcome(t, fallback) == (if !t.first.val.NoParse? then t.first else FirstOutcome(t.rest, fallback));
    t := t.rest;
    assert FirstOutcome(t, fallback) == (if !t.first.val.NoParse? then t.first else FirstOutcome(t.rest, fallback));
    t := t.rest;
    assert FirstOutcome(t, fallback) == (if !t.first.val.NoParse? then t.first else FirstOutcome(t.rest, fallback));
    t := t.rest;
    assert FirstOutcome(t, fallback) == (if !t.first.val.NoParse? then t.first else FirstOutcome(t.rest, fallback));
    t := t.rest;
  }

  // ----------------------------------------------------------- skipFnBody

  /** `skipFnBody` fails exactly when the next token that is not a line end is not `{`. */
  lemma SkipFnBodyNeedsBrace(ts: seq<Token>, p: nat)
    requires WellFormed(ts) && p < |ts|
    ensures SkipFnBodyAt(ts, p).val.NoBody? <==> ts[SkipEols(ts, p)].kind != CL
  {
  }

  /**
   * When `skipFnBody` succeeds the cursor is just past the `}` that brings the
   * brace depth, counted from the `{`, back to zero, and the depth stays
   * positive before it.
   */
  lemma SkipFnBodyStopsAfterMatchingBrace(ts: seq<Token>, p: nat)
    requires WellFormed(ts) && p < |ts|
    ensures var r := SkipFnBodyAt(ts, p); var j := SkipEols(ts, p);
      r.val.Skipped? ==>
        (j < r.pos && ts[r.pos - 1].kind == CR && BraceDepth(ts, j, r.pos) == 0 &&
         forall k :: j < k < r.pos ==> BraceDepth(ts, j, k) > 0)
  {
    var j := SkipEols(ts, p);
    var r := SkipFnBodyAt(ts, p);
    if ts[j].kind == CL {
      assert r == SkipBodyLoopAt(ts, j + 1, 1);
      if r.val.Skipped? {
        SkipBodyLoopStopsAtClosingBrace(ts, j + 1, 1);
        SkipBodyLoopStopsAtFirstClose(ts, j + 1, 1);
        assert BraceDepth(ts, j, j + 1) == 1 by {
          assert BraceDepth(ts, j, j) == 0;
        }
        BraceDepthSplit(ts, j, r.pos);
        forall k | j < k < r.pos
          ensures BraceDepth(ts, j, k) > 0
        {
          BraceDepthSplit(ts, j, k);
        }
      }
    }
  }
}
