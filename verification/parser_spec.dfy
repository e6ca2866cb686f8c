/**
 * What each function of the recursive-descent parser (parser.cpp) computes, written
 * as pure functions of the token sequence and a cursor position. `F(ts, i)` is the
 * result the parse function returns when it is entered with `curTokIdx == i`,
 * paired with the value `curTokIdx` holds when it returns (or throws).
 *
 * The class `Parser.Parser` runs the same algorithms on a mutable cursor and is
 * proved to agree with these functions.
 */
module ParserSpec {
  import opened Basics
  import opened Tokens
  import opened Ast

  /** A result together with the cursor position it leaves behind. */
  datatype At<+T> = At(val: T, pos: nat)

  /** The exceptions the parser throws. */
  datatype ParseError =
    | StmtError(line: int, text: string)                            // no statement alternative applies
    | FnHeaderError(fnName: string)                                 // a function header does not parse
    | FnBodySkipError                                               // no `{` where a body should start
    | MainCountError                                                // not exactly one `main`
    | StrictMatchError(line: int, expected: TokenKind, found: TokenKind)

  /**
   * How a parse function ends: a node, a null pointer, an exception, a loop that
   * never ends, or a read of the token after the End sentinel.
   */
  datatype Outcome<+T> = Parsed(value: T) | NoParse | Failed(error: ParseError) | Spins | ReadsPastEnd

  /** A failure of one kind of parse, passed on unchanged as a failure of another. */
  function Propagate<T, U>(o: Outcome<T>): (r: Outcome<U>)
    requires !o.Parsed?
    ensures !r.Parsed?
    ensures r.NoParse? == o.NoParse? && r.Spins? == o.Spins? && r.ReadsPastEnd? == o.ReadsPastEnd?
    ensures r.Failed? <==> o.Failed?
    ensures r.Failed? ==> r.error == o.error
  {
    match o
    case NoParse => NoParse
    case Failed(e) => Failed(e)
    case Spins => Spins
    case ReadsPastEnd => ReadsPastEnd
  }

  /**
   * The token vector the driver hands to the parser ends with the End sentinel.
   * Every read the parser makes stays in bounds because it advances only past a
   * token that is not End.
   */
  predicate WellFormed(ts: seq<Token>) {
    |ts| > 0 && ts[|ts| - 1].kind == End
  }

  // ---------------------------------------------------------------- cursor

  /** Where `skipEOLs` leaves the cursor: the first token at or after `i` that is not a line end. */
  function SkipEols(ts: seq<Token>, i: nat): (j: nat)
    requires WellFormed(ts) && i < |ts|
    ensures i <= j < |ts| && ts[j].kind != Eol
    decreases |ts| - i
  {
    if ts[i].kind != Eol then i else SkipEols(ts, i + 1)
  }

  /** Every token `skipEOLs` passes over is a line end. */
  lemma {:induction false} SkipEolsSkipsOnlyEols(ts: seq<Token>, i: nat)
    requires WellFormed(ts) && i < |ts|
    ensures forall k :: i <= k < SkipEols(ts, i) ==> ts[k].kind == Eol
    decreases |ts| - i
  {
    if ts[i].kind == Eol {
      SkipEolsSkipsOnlyEols(ts, i + 1);
    }
  }

  /**
   * `match(tok)`: line ends are skipped first unless `tok` is Eol itself; when the
   * current token then has kind `tok` it is consumed and the result is true.
   */
  function MatchAt(ts: seq<Token>, i: nat, tok: TokenKind): (r: At<bool>)
    requires WellFormed(ts) && i < |ts| && tok != End
    ensures i <= r.pos < |ts|
    ensures r.val ==> i < r.pos
    ensures ts[i].kind == tok ==> r == At(true, i + 1)
  {
    var j := if tok == Eol then i else SkipEols(ts, i);
    if ts[j].kind == tok then At(true, j + 1) else At(false, j)
  }

  /** `strict_match(tok)`: a match that throws, naming the line and the token found, when it fails. */
  function StrictMatchAt(ts: seq<Token>, i: nat, tok: TokenKind): (r: At<Option<ParseError>>)
    requires WellFormed(ts) && i < |ts| && tok != End
    ensures r.val.None? <==> MatchAt(ts, i, tok).val
    ensures r.val.Some? ==> r.val.value.StrictMatchError? && r.val.value.found != tok
  {
    var m := MatchAt(ts, i, tok);
    if m.val then At(None, m.pos)
    else At(Some(StrictMatchError(ts[m.pos].line, tok, ts[m.pos].kind)), m.pos)
  }

  /**
   * `match(tok)` as written, for every kind including End: None when the match
   * succeeds on the last token, where the `getNextTok` that consumes it reads
   * `tokens[tokens.size()]`.
   */
  function MatchAsWrittenAt(ts: seq<Token>, i: nat, tok: TokenKind): (r: Option<At<bool>>)
    requires WellFormed(ts) && i < |ts|
    ensures tok != End ==> r == Some(MatchAt(ts, i, tok))
    ensures r.None? ==> tok == End
  {
    var j := if tok == Eol then i else SkipEols(ts, i);
    if ts[j].kind != tok then Some(At(false, j))
    else if j == |ts| - 1 then None
    else Some(At(true, j + 1))
  }

  /**
   * As written, `parseProgram1` calls `match(Token::End)` once the last body is
   * skipped; when only line ends remain, the match reaches the sentinel and reads
   * past it.
   */
  lemma {:induction false} MatchEndReadsPastSentinel(ts: seq<Token>, i: nat)
    requires WellFormed(ts) && i < |ts|
    requires forall k :: i <= k < |ts| - 1 ==> ts[k].kind == Eol
    ensures SkipEols(ts, i) == |ts| - 1
    ensures MatchAsWrittenAt(ts, i, End).None?
    decreases |ts| - i
  {
    if i < |ts| - 1 {
      MatchEndReadsPastSentinel(ts, i + 1);
    }
  }

  // ----------------------------------------------------------- expressions

  function TrueAt(ts: seq<Token>, i: nat): (r: At<Option<Expr>>)
    requires WellFormed(ts) && i < |ts|
    ensures i <= r.pos < |ts|
    ensures r.val.Some? ==> r.val.value == BoolLit(true)
  {
    var m := MatchAt(ts, i, LiteralTrue);
    if m.val then At(Some(BoolLit(true)), m.pos) else At(None, m.pos)
  }

  function FalseAt(ts: seq<Token>, i: nat): (r: At<Option<Expr>>)
    requires WellFormed(ts) && i < |ts|
    ensures i <= r.pos < |ts|
    ensures r.val.Some? ==> r.val.value == BoolLit(false)
  {
    var m := MatchAt(ts, i, LiteralFalse);
    if m.val then At(Some(BoolLit(false)), m.pos) else At(None, m.pos)
  }

  /**
   * `parseNumberExpr` reads `curVal` after `match` has consumed the number, so the
   * value is `atoi` of the text of the token that FOLLOWS the literal.
   */
  function NumberAt(ts: seq<Token>, i: nat): (r: At<Option<Expr>>)
    requires WellFormed(ts) && i < |ts|
    ensures i <= r.pos < |ts|
    ensures r.val.Some? ==> r.val.value == Num(Atoi(ts[r.pos].text))
  {
    var m := MatchAt(ts, i, Number);
    if m.val then At(Some(Num(Atoi(ts[m.pos].text))), m.pos) else At(None, m.pos)
  }

  /** `parseIdentExpr` also names the node after the token that follows the identifier. */
  function IdentAt(ts: seq<Token>, i: nat): (r: At<Option<Expr>>)
    requires WellFormed(ts) && i < |ts|
    ensures i <= r.pos < |ts|
    ensures r.val.Some? ==> r.val.value == Ident(ts[r.pos].text)
  {
    var m := MatchAt(ts, i, Id);
    if m.val then At(Some(Ident(ts[m.pos].text)), m.pos) else At(None, m.pos)
  }

  function InputAt(ts: seq<Token>, i: nat): (r: At<Option<Expr>>)
    requires WellFormed(ts) && i < |ts|
    ensures i <= r.pos < |ts|
    ensures r.val.Some? ==> r.val.value == Input && i + 3 <= r.pos
  {
    var kw := MatchAt(ts, i, KwInput);
    if !kw.val then At(None, kw.pos) else
    var open := MatchAt(ts, kw.pos, PL);
    if !open.val then At(None, open.pos) else
    var close := MatchAt(ts, open.pos, PR);
    if close.val then At(Some(Input), close.pos) else At(None, close.pos)
  }

  function TernaryAt(ts: seq<Token>, i: nat): (r: At<Option<Expr>>)
    requires WellFormed(ts) && i < |ts|
    ensures i <= r.pos < |ts|
    ensures r.val.Some? ==> i < r.pos && r.val.value.Ternary?
    ensures r.val.Some? ==> r.val.value.cond != Null && r.val.value.onTrue != Null
    decreases |ts| - i, 0, 0
  {
    var open := MatchAt(ts, i, PL);
    if !open.val then At(None, open.pos) else
    var c := ExprAt(ts, open.pos);
    if c.val.None? then At(None, c.pos) else
    var q := MatchAt(ts, c.pos, OpQuestion);
    if !q.val then At(None, q.pos) else
    var t := ExprAt(ts, q.pos);
    if t.val.None? then At(None, t.pos) else
    var colon := MatchAt(ts, t.pos, OpColon);
    if !colon.val then At(None, colon.pos) else
    var f := ExprAt(ts, colon.pos);
    var close := MatchAt(ts, f.pos, PR);
    if !close.val then At(None, close.pos) else
    At(Some(Ternary(c.val.value, t.val.value, OrNull(f.val))), close.pos)
  }

  function SizeofAt(ts: seq<Token>, i: nat): (r: At<Option<Expr>>)
    requires WellFormed(ts) && i < |ts|
    ensures i <= r.pos < |ts|
    ensures r.val.Some? ==> i < r.pos && r.val.value.Sizeof? && r.val.value.arg != Null
    decreases |ts| - i, 0, 0
  {
    var kw := MatchAt(ts, i, KwSizeof);
    if !kw.val then At(None, kw.pos) else
    var open := MatchAt(ts, kw.pos, PL);
    if !open.val then At(None, open.pos) else
    var e := ExprAt(ts, open.pos);
    if e.val.None? then At(None, e.pos) else
    var close := MatchAt(ts, e.pos, PR);
    if close.val then At(Some(Sizeof(e.val.value)), close.pos) else At(None, close.pos)
  }

  /** `parseArrayExpr`: `id [ e ]`, named (as written) after the token following the identifier. */
  function IndexAt(ts: seq<Token>, i: nat): (r: At<Option<Expr>>)
    requires WellFormed(ts) && i < |ts|
    ensures i <= r.pos < |ts|
    ensures r.val.Some? ==> i < r.pos && r.val.value.Index? && r.val.value.index != Null
    decreases |ts| - i, 0, 0
  {
    var id := MatchAt(ts, i, Id);
    if !id.val then At(None, id.pos) else
    var name := ts[id.pos].text;
    var open := MatchAt(ts, id.pos, SL);
    if !open.val then At(None, open.pos) else
    var e := ExprAt(ts, open.pos);
    if e.val.None? then At(None, e.pos) else
    var close := MatchAt(ts, e.pos, SR);
    if close.val then At(Some(Index(name, e.val.value)), close.pos) else At(None, close.pos)
  }

  /**
   * `parseFncallExpr`: an identifier directly followed by `(`; the callee name is
   * (as written) the text of the token after the identifier.
   */
  function CallAt(ts: seq<Token>, i: nat): (r: At<Option<Expr>>)
    requires WellFormed(ts) && i < |ts|
    ensures i <= r.pos < |ts|
    ensures r.val.Some? ==> i < r.pos && r.val.value.Call?
    decreases |ts| - i, 0, 0
  {
    var id := MatchAt(ts, i, Id);
    if !id.val then At(None, id.pos) else
    var name := ts[id.pos].text;
    if ts[id.pos].kind != PL then At(None, id.pos) else
    var args := ArgsAt(ts, id.pos);
    if args.val.Some? then At(Some(Call(name, args.val.value)), args.pos) else At(None, args.pos)
  }

  /** `parseFnArgs`: `( e, e, ... )`; an argument that does not parse is stored as a null pointer. */
  function ArgsAt(ts: seq<Token>, i: nat): (r: At<Option<seq<Expr>>>)
    requires WellFormed(ts) && i < |ts|
    ensures i <= r.pos < |ts|
    ensures r.val.Some? ==> i < r.pos
    decreases |ts| - i, 0, 0
  {
    var open := MatchAt(ts, i, PL);
    if !open.val then At(None, open.pos) else ArgsLoopAt(ts, open.pos, true, [])
  }

  /** The loop of `parseFnArgs`, entered at `p` with the arguments `acc` collected so far. */
  function ArgsLoopAt(ts: seq<Token>, p: nat, first: bool, acc: seq<Expr>): (r: At<Option<seq<Expr>>>)
    requires WellFormed(ts) && p < |ts|
    ensures p <= r.pos < |ts|
    ensures r.val.Some? ==> p < r.pos
    decreases |ts| - p, if first then 4 else 3, 0
  {
    if ts[p].kind == PR then At(Some(acc), p + 1)
    else
      var c := if first then At(true, p) else MatchAt(ts, p, Comma);
      if !c.val then At(None, c.pos)
      else
        var e := ExprAt(ts, c.pos);
        ArgsLoopAt(ts, e.pos, false, acc + [OrNull(e.val)])
  }

  /**
   * `parseBinopExpr`: `( l op r )`. The left operand is not checked, so it may be
   * null; the operator is whatever binary operator follows it directly, consumed
   * by matching the current token's own kind.
   */
  function BinopAt(ts: seq<Token>, i: nat): (r: At<Option<Expr>>)
    requires WellFormed(ts) && i < |ts|
    ensures i <= r.pos < |ts|
    ensures r.val.Some? ==> i < r.pos && r.val.value.Binop?
    ensures r.val.Some? ==> IsBinOp(r.val.value.op) && r.val.value.right != Null
    decreases |ts| - i, 0, 0
  {
    var open := MatchAt(ts, i, PL);
    if !open.val then At(None, open.pos) else
    var l := ExprAt(ts, open.pos);
    if !IsBinOp(ts[l.pos].kind) then At(None, l.pos) else
    var op := ts[l.pos].kind;
    var consumed := MatchAt(ts, l.pos, op);
    if !consumed.val then At(None, consumed.pos) else
    var rhs := ExprAt(ts, consumed.pos);
    if rhs.val.None? then At(None, rhs.pos) else
    var close := MatchAt(ts, rhs.pos, PR);
    if close.val then At(Some(Binop(OrNull(l.val), op, rhs.val.value)), close.pos) else At(None, close.pos)
  }

  function UnaryAt(ts: seq<Token>, i: nat): (r: At<Option<Expr>>)
    requires WellFormed(ts) && i < |ts|
    ensures i <= r.pos < |ts|
    ensures r.val.Some? ==> i < r.pos && r.val.value.Unary?
    ensures r.val.Some? ==> IsUnaryOp(r.val.value.op) && r.val.value.operand != Null
    decreases |ts| - i, 0, 0
  {
    var open := MatchAt(ts, i, PL);
    if !open.val then At(None, open.pos) else
    if !IsUnaryOp(ts[open.pos].kind) then At(None, open.pos) else
    var op := ts[open.pos].kind;
    var consumed := MatchAt(ts, open.pos, op);
    if !consumed.val then At(None, consumed.pos) else
    var operand := ExprAt(ts, consumed.pos);
    if operand.val.None? then At(None, operand.pos) else
    var close := MatchAt(ts, operand.pos, PR);
    if close.val then At(Some(Unary(op, operand.val.value)), close.pos) else At(None, close.pos)
  }

  /** `parseExpr` (see `ExprAlternativesAt`). */
  function ExprAt(ts: seq<Token>, i: nat): (r: At<Option<Expr>>)
    requires WellFormed(ts) && i < |ts|
    ensures i <= r.pos < |ts|
    ensures r.val.Some? ==> i < r.pos && r.val.value != Null
    ensures r.val.None? ==> r.pos == i
    decreases |ts| - i, 2, 0
  {
    ExprAlternativesAt(ts, i)
  }

  /**
   * The body of `parseExpr`: the alternatives are tried in a fixed order, each
   * from `i`: true, false, number, ternary, sizeof, input, array index, call,
   * identifier, binop, unary. The first non-null result is returned; when none
   * applies the cursor is put back at `i`.
   */
  function ExprAlternativesAt(ts: seq<Token>, i: nat): (r: At<Option<Expr>>)
    requires WellFormed(ts) && i < |ts|
    ensures i <= r.pos < |ts|
    ensures r.val.Some? ==> i < r.pos && r.val.value != Null
    ensures r.val.None? ==> r.pos == i
    decreases |ts| - i, 1, 0
  {
    var a := TrueAt(ts, i);
    if a.val.Some? then a else
    var b := FalseAt(ts, i);
    if b.val.Some? then b else
    var c := NumberAt(ts, i);
    if c.val.Some? then c else
    var d := TernaryAt(ts, i);
    if d.val.Some? then d else
    var e := SizeofAt(ts, i);
    if e.val.Some? then e else
    var f := InputAt(ts, i);
    if f.val.Some? then f else
    var g := IndexAt(ts, i);
    if g.val.Some? then g else
    var h := CallAt(ts, i);
    if h.val.Some? then h else
    var k := IdentAt(ts, i);
    if k.val.Some? then k else
    var l := BinopAt(ts, i);
    if l.val.Some? then l else
    var m := UnaryAt(ts, i);
    if m.val.Some? then m else
    At(None, i)
  }

  // ------------------------------------------------------------ statements

  /** `parseVarDecls`: `type a, b, c` then a line end. */
  function VarDeclsAt(ts: seq<Token>, i: nat): (r: At<Outcome<Stmt>>)
    requires WellFormed(ts) && i < |ts|
    ensures i <= r.pos < |ts|
    ensures r.val.Parsed? || r.val.NoParse?
    ensures r.val.Parsed? ==> i < r.pos && r.val.value.VarDecl? && |r.val.value.vars| >= 1
  {
    var t := ts[i].kind;
    if !IsTokenType(t) then At(NoParse, i) else
    var typeKw := MatchAt(ts, i, t);
    var names := VarNamesAt(ts, typeKw.pos, t, []);
    var eol := MatchAt(ts, names.pos, Eol);
    if eol.val && |names.val| >= 1 then At(Parsed(VarDecl(names.val)), eol.pos) else At(NoParse, eol.pos)
  }

  /** The loop of `parseVarDecls`: identifiers, each optionally followed by a comma. */
  function VarNamesAt(ts: seq<Token>, p: nat, t: TokenKind, acc: seq<VarDeclItem>): (r: At<seq<VarDeclItem>>)
    requires WellFormed(ts) && p < |ts|
    ensures p <= r.pos < |ts|
    decreases |ts| - p
  {
    if ts[p].kind != Id then At(acc, p)
    else
      var id := MatchAt(ts, p, Id);
      var acc' := acc + [VarDeclItem(t, ts[p].text)];
      var next := if ts[id.pos].kind == Comma then MatchAt(ts, id.pos, Comma).pos else id.pos;
      VarNamesAt(ts, next, t, acc')
  }

  /** Every variable a `var` statement declares has the statement's type keyword. */
  lemma VarDeclsTyped(ts: seq<Token>, i: nat)
    requires WellFormed(ts) && i < |ts|
    ensures var r := VarDeclsAt(ts, i);
      r.val.Parsed? ==> forall v :: v in r.val.value.vars ==> v.varType == ts[i].kind && IsTokenType(v.varType)
  {
    if IsTokenType(ts[i].kind) {
      VarNamesKeepPrefixAndType(ts, MatchAt(ts, i, ts[i].kind).pos, ts[i].kind, []);
    }
  }

  /** The names loop only appends, and only items of the statement's type. */
  lemma {:induction false} VarNamesKeepPrefixAndType(ts: seq<Token>, p: nat, t: TokenKind, acc: seq<VarDeclItem>)
    requires WellFormed(ts) && p < |ts|
    ensures var r := VarNamesAt(ts, p, t, acc);
      acc <= r.val && forall k :: |acc| <= k < |r.val| ==> r.val[k].varType == t
    decreases |ts| - p
  {
    if ts[p].kind == Id {
      var id := MatchAt(ts, p, Id);
      var acc' := acc + [VarDeclItem(t, ts[p].text)];
      var next := if ts[id.pos].kind == Comma then MatchAt(ts, id.pos, Comma).pos else id.pos;
      VarNamesKeepPrefixAndType(ts, next, t, acc');
    }
  }

  /**
   * `parseArrayDecls`: `array a[e], b[e]` then a line end. The keyword is matched
   * twice (the second match usually fails and consumes nothing).
   */
  function ArrayDeclsAt(ts: seq<Token>, i: nat): (r: At<Outcome<Stmt>>)
    requires WellFormed(ts) && i < |ts|
    ensures i <= r.pos < |ts|
    ensures r.val.Parsed? || r.val.NoParse? || r.val.Spins?
    ensures r.val.Parsed? ==> i < r.pos && r.val.value.ArrayDecl? && |r.val.value.arrays| >= 1
  {
    var kw := MatchAt(ts, i, TypeArray);
    if !kw.val then At(NoParse, kw.pos) else
    var again := MatchAt(ts, kw.pos, TypeArray);
    var items := ArrayItemsAt(ts, again.pos, true, []);
    if !items.val.Parsed? then At(Propagate(items.val), items.pos) else
    var eol := MatchAt(ts, items.pos, Eol);
    if eol.val && |items.val.value| >= 1 then At(Parsed(ArrayDecl(items.val.value)), eol.pos)
    else At(NoParse, eol.pos)
  }

  /**
   * One pass of the loop of `parseArrayDecls` from `p` (after the comma, when
   * this is not the first declaration): the declaration it adds, if any, and
   * where it leaves the cursor.
   */
  function ArrayItemAt(ts: seq<Token>, p: nat): (r: At<Option<ArrayDeclItem>>)
    requires WellFormed(ts) && p < |ts|
    ensures p <= r.pos < |ts|
    ensures r.val.Some? ==> p < r.pos && r.val.value.name == ts[p].text
  {
    var name := ts[p].text;
    var id := MatchAt(ts, p, Id);
    var open := MatchAt(ts, id.pos, SL);
    if !open.val then At(None, open.pos) else
    var size := ExprAt(ts, open.pos);
    var close := MatchAt(ts, size.pos, SR);
    if close.val then At(Some(ArrayDeclItem(name, OrNull(size.val))), close.pos) else At(None, close.pos)
  }

  /**
   * One pass of the loop of `parseArrayDecls` from `p`: the comma (unless this
   * is the first declaration), then a declaration. Parsed(Some(d)) adds `d`;
   * Parsed(None) adds nothing but has moved the cursor. A pass that adds nothing
   * and consumes nothing leaves the state exactly as it was, so the source loops
   * forever: `Spins`.
   */
  function ArrayPassAt(ts: seq<Token>, p: nat, first: bool): (r: At<Outcome<Option<ArrayDeclItem>>>)
    requires WellFormed(ts) && p < |ts|
    ensures p <= r.pos < |ts|
    ensures r.val.Parsed? || r.val.NoParse? || r.val.Spins?
    ensures r.val.Parsed? ==> p < r.pos
  {
    var c := if first then At(true, p) else MatchAt(ts, p, Comma);
    if !c.val then At(NoParse, c.pos)
    else
      var item := ArrayItemAt(ts, c.pos);
      if item.val.Some? then At(Parsed(item.val), item.pos)
      else if item.pos == p then At(Spins, p)
      else At(Parsed(None), item.pos)
  }

  /** The loop of `parseArrayDecls`, after the declarations `acc`. */
  function ArrayItemsAt(ts: seq<Token>, p: nat, first: bool, acc: seq<ArrayDeclItem>): (r: At<Outcome<seq<ArrayDeclItem>>>)
    requires WellFormed(ts) && p < |ts|
    requires !first ==> |acc| >= 1
    ensures p <= r.pos < |ts|
    ensures r.val.Parsed? || r.val.NoParse? || r.val.Spins?
    ensures r.val.Parsed? ==> ts[r.pos].kind == Eol
    ensures r.val.Parsed? && !first ==> |r.val.value| >= 1
    decreases |ts| - p
  {
    if ts[p].kind == Eol then At(Parsed(acc), p)
    else
      var pass := ArrayPassAt(ts, p, first);
      if !pass.val.Parsed? then At(Propagate(pass.val), pass.pos)
      else if pass.val.value.Some? then ArrayItemsAt(ts, pass.pos, false, acc + [pass.val.value.value])
      else ArrayItemsAt(ts, pass.pos, first, acc)
  }

  /** `parsePrintStmt`: `print` followed by a parenthesised argument list. */
  function PrintAt(ts: seq<Token>, i: nat): (r: At<Outcome<Stmt>>)
    requires WellFormed(ts) && i < |ts|
    ensures i <= r.pos < |ts|
    ensures r.val.Parsed? || r.val.NoParse?
    ensures r.val.Parsed? ==> i < r.pos && r.val.value.Print? && |r.val.value.args| >= 1
  {
    var kw := MatchAt(ts, i, KwPrint);
    if !kw.val then At(NoParse, kw.pos) else
    var args := PrintArgsAt(ts, kw.pos);
    if args.val.Some? then At(Parsed(Print(args.val.value)), args.pos) else At(NoParse, args.pos)
  }

  /** `parsePrintArgs`: Some(args) exactly when the source returns true. */
  function PrintArgsAt(ts: seq<Token>, p: nat): (r: At<Option<seq<Expr>>>)
    requires WellFormed(ts) && p < |ts|
    ensures p <= r.pos < |ts|
    ensures r.val.Some? ==> |r.val.value| >= 1
  {
    var open := MatchAt(ts, p, PL);
    if !open.val then At(None, open.pos) else PrintArgsLoopAt(ts, open.pos, true, [])
  }

  /** The loop of `parsePrintArgs`, entered at `p` with the arguments `acc` collected so far. */
  function PrintArgsLoopAt(ts: seq<Token>, p: nat, first: bool, acc: seq<Expr>): (r: At<Option<seq<Expr>>>)
    requires WellFormed(ts) && p < |ts|
    ensures p <= r.pos < |ts|
    ensures r.val.Some? ==> |r.val.value| >= 1
    decreases |ts| - p
  {
    var close := MatchAt(ts, p, PR);
    if close.val then (if |acc| > 0 then At(Some(acc), close.pos) else At(None, close.pos))
    else
      var c := if first then At(true, close.pos) else MatchAt(ts, close.pos, Comma);
      if !c.val then At(None, c.pos)
      else
        var arg := PrintArgAt(ts, c.pos);
        if arg.val.None? then At(None, arg.pos)
        else PrintArgsLoopAt(ts, arg.pos, false, acc + [arg.val.value])
  }

  /**
   * One argument of `parsePrintArgs`: a string literal, given (as written) the
   * text of the token that follows it, or else an expression.
   */
  function PrintArgAt(ts: seq<Token>, p: nat): (r: At<Option<Expr>>)
    requires WellFormed(ts) && p < |ts|
    ensures p <= r.pos < |ts|
    ensures r.val.Some? ==> p < r.pos && r.val.value != Null
  {
    if ts[p].kind == LiteralString then
      var lit := MatchAt(ts, p, LiteralString);
      At(Some(Str(ts[lit.pos].text)), lit.pos)
    else ExprAt(ts, p)
  }

  /** No element of `es` is the null expression. */
  predicate AllNodes(es: seq<Expr>) {
    forall k :: 0 <= k < |es| ==> es[k] != Null
  }

  /** Every argument `parsePrintArgs` stores is a node: a null argument makes it fail. */
  lemma {:induction false} PrintArgsAreNodes(ts: seq<Token>, p: nat, first: bool, acc: seq<Expr>)
    requires WellFormed(ts) && p < |ts| && AllNodes(acc)
    ensures var r := PrintArgsLoopAt(ts, p, first, acc);
      r.val.Some? ==> AllNodes(r.val.value)
    decreases |ts| - p
  {
    var r := PrintArgsLoopAt(ts, p, first, acc);
    var close := MatchAt(ts, p, PR);
    if close.val {
      assert r.val.Some? ==> r.val.value == acc;
    } else {
      var c := if first then At(true, close.pos) else MatchAt(ts, close.pos, Comma);
      if c.val {
        var arg := PrintArgAt(ts, c.pos);
        if arg.val.Some? {
          var acc' := acc + [arg.val.value];
          assert AllNodes(acc') by {
            assert forall k :: 0 <= k < |acc| ==> acc'[k] == acc[k];
          }
          PrintArgsAreNodes(ts, arg.pos, false, acc');
          assert r == PrintArgsLoopAt(ts, arg.pos, false, acc');
        }
      }
    }
  }

  /** `parseVarAssignment`: `id = e` then a line end; the name is the token at `i`. */
  function VarAssignAt(ts: seq<Token>, i: nat): (r: At<Outcome<Stmt>>)
    requires WellFormed(ts) && i < |ts|
    ensures i <= r.pos < |ts|
    ensures r.val.Parsed? || r.val.NoParse?
    ensures r.val.Parsed? ==> i < r.pos && r.val.value.VarAssign? && r.val.value.name == ts[i].text
    ensures r.val.Parsed? ==> r.val.value.value != Null
  {
    var name := ts[i].text;
    var id := MatchAt(ts, i, Id);
    if !id.val then At(NoParse, id.pos) else
    var eq := MatchAt(ts, id.pos, OpEq);
    if !eq.val then At(NoParse, eq.pos) else
    var rhs := ExprAt(ts, eq.pos);
    if rhs.val.None? then At(NoParse, rhs.pos) else
    var eol := MatchAt(ts, rhs.pos, Eol);
    if eol.val then At(Parsed(VarAssign(name, rhs.val.value)), eol.pos) else At(NoParse, eol.pos)
  }

  /** `parseArrayAssignment`: `id [ e ] = e` then a line end. */
  function ArrayAssignAt(ts: seq<Token>, i: nat): (r: At<Outcome<Stmt>>)
    requires WellFormed(ts) && i < |ts|
    ensures i <= r.pos < |ts|
    ensures r.val.Parsed? || r.val.NoParse?
    ensures r.val.Parsed? ==> i < r.pos && r.val.value.ArrayAssign? && r.val.value.target == ts[i].text
    ensures r.val.Parsed? ==> r.val.value.index != Null && r.val.value.value != Null
  {
    var name := ts[i].text;
    var id := MatchAt(ts, i, Id);
    if !id.val then At(NoParse, id.pos) else
    var open := MatchAt(ts, id.pos, SL);
    if !open.val then At(NoParse, open.pos) else
    var idx := ExprAt(ts, open.pos);
    if idx.val.None? then At(NoParse, idx.pos) else
    var close := MatchAt(ts, idx.pos, SR);
    if !close.val then At(NoParse, close.pos) else
    var eq := MatchAt(ts, close.pos, OpEq);
    if !eq.val then At(NoParse, eq.pos) else
    var rhs := ExprAt(ts, eq.pos);
    if rhs.val.None? then At(NoParse, rhs.pos) else
    var eol := MatchAt(ts, rhs.pos, Eol);
    if eol.val then At(Parsed(ArrayAssign(name, idx.val.value, rhs.val.value)), eol.pos) else At(NoParse, eol.pos)
  }

  /** An expression used as a statement (`parseStmt` calls `parseExpr`). */
  function ExprStmtAt(ts: seq<Token>, i: nat): (r: At<Outcome<Stmt>>)
    requires WellFormed(ts) && i < |ts|
    ensures i <= r.pos < |ts|
    ensures r.val.Parsed? || (r.val.NoParse? && r.pos == i)
    ensures r.val.Parsed? ==> i < r.pos && r.val.value.ExprStmt? && r.val.value.expr != Null
  {
    var e := ExprAt(ts, i);
    if e.val.Some? then At(Parsed(ExprStmt(e.val.value)), e.pos) else At(NoParse, e.pos)
  }

  /** `parseReturnStmt`: `return`, an optional expression, then a line end. */
  function ReturnAt(ts: seq<Token>, i: nat): (r: At<Outcome<Stmt>>)
    requires WellFormed(ts) && i < |ts|
    ensures i <= r.pos < |ts|
    ensures r.val.Parsed? || r.val.NoParse?
    ensures r.val.Parsed? ==> i < r.pos && r.val.value.Return?
  {
    var kw := MatchAt(ts, i, KwReturn);
    if !kw.val then At(NoParse, kw.pos) else
    var e := ExprAt(ts, kw.pos);
    var eol := MatchAt(ts, e.pos, Eol);
    if eol.val then At(Parsed(Return(OrNull(e.val))), eol.pos) else At(NoParse, eol.pos)
  }

  /**
   * `parseIfStmt`: `if ( c ) s [else s]`. The condition is not checked (it may be
   * null); an exception from either branch propagates.
   */
  function IfAt(ts: seq<Token>, i: nat): (r: At<Outcome<Stmt>>)
    requires WellFormed(ts) && i < |ts|
    ensures i <= r.pos < |ts|
    ensures r.val.Parsed? ==> i < r.pos && r.val.value.If?
    decreases |ts| - i, 0, 0
  {
    var kw := MatchAt(ts, i, KwIf);
    if !kw.val then At(NoParse, kw.pos) else
    var open := MatchAt(ts, kw.pos, PL);
    if !open.val then At(NoParse, open.pos) else
    var cond := ExprAt(ts, open.pos);
    var close := MatchAt(ts, cond.pos, PR);
    if !close.val then At(NoParse, close.pos) else
    var body := StmtAt(ts, close.pos);
    if !body.val.Parsed? then At(Propagate(body.val), body.pos) else
    var els := MatchAt(ts, body.pos, KwElse);
    if !els.val then At(Parsed(If(OrNull(cond.val), body.val.value, None)), els.pos) else
    var other := StmtAt(ts, els.pos);
    if !other.val.Parsed? then At(Propagate(other.val), other.pos)
    else At(Parsed(If(OrNull(cond.val), body.val.value, Some(other.val.value))), other.pos)
  }

  /** `parseWhileStmt`: `while ( c ) { ... }`; the body must be a block. */
  function WhileAt(ts: seq<Token>, i: nat): (r: At<Outcome<Stmt>>)
    requires WellFormed(ts) && i < |ts|
    ensures i <= r.pos < |ts|
    ensures r.val.Parsed? ==> i < r.pos && r.val.value.While? && r.val.value.cond != Null
    ensures r.val.Parsed? ==> r.val.value.body.Block?
    decreases |ts| - i, 0, 0
  {
    var kw := MatchAt(ts, i, KwWhile);
    if !kw.val then At(NoParse, kw.pos) else
    var open := MatchAt(ts, kw.pos, PL);
    if !open.val then At(NoParse, open.pos) else
    var cond := ExprAt(ts, open.pos);
    if cond.val.None? then At(NoParse, cond.pos) else
    var close := MatchAt(ts, cond.pos, PR);
    if !close.val then At(NoParse, close.pos) else
    var body := BlockAt(ts, close.pos);
    if body.val.Parsed? then At(Parsed(While(cond.val.value, body.val.value)), body.pos)
    else At(Propagate(body.val), body.pos)
  }

  /** `parseForStmt`: `for ( e : e ) s`. */
  function ForAt(ts: seq<Token>, i: nat): (r: At<Outcome<Stmt>>)
    requires WellFormed(ts) && i < |ts|
    ensures i <= r.pos < |ts|
    ensures r.val.Parsed? ==> i < r.pos && r.val.value.For?
    ensures r.val.Parsed? ==> r.val.value.ident != Null && r.val.value.container != Null
    decreases |ts| - i, 0, 0
  {
    var kw := MatchAt(ts, i, KwFor);
    if !kw.val then At(NoParse, kw.pos) else
    var open := MatchAt(ts, kw.pos, PL);
    if !open.val then At(NoParse, open.pos) else
    var id := ExprAt(ts, open.pos);
    if id.val.None? then At(NoParse, id.pos) else
    var colon := MatchAt(ts, id.pos, OpColon);
    if !colon.val then At(NoParse, colon.pos) else
    var container := ExprAt(ts, colon.pos);
    if container.val.None? then At(NoParse, container.pos) else
    var close := MatchAt(ts, container.pos, PR);
    if !close.val then At(NoParse, close.pos) else
    var body := StmtAt(ts, close.pos);
    if body.val.Parsed? then At(Parsed(For(id.val.value, container.val.value, body.val.value)), body.pos)
    else At(Propagate(body.val), body.pos)
  }

  /**
   * `parseStmtBlock`: `{`, a line end, statements, `}`. When the header does not
   * match, `}` is still matched but the result is null.
   */
  function BlockAt(ts: seq<Token>, i: nat): (r: At<Outcome<Stmt>>)
    requires WellFormed(ts) && i < |ts|
    ensures i <= r.pos < |ts|
    ensures r.val.Parsed? ==> i < r.pos && r.val.value.Block?
    decreases |ts| - i, 0, 0
  {
    var open := MatchAt(ts, i, CL);
    var items :=
      if !open.val then At(NoParse, open.pos) else
      var eol := MatchAt(ts, open.pos, Eol);
      if !eol.val then At(NoParse, eol.pos) else BlockItemsAt(ts, SkipEols(ts, eol.pos), []);
    if items.val.Failed? || items.val.Spins? || items.val.ReadsPastEnd? then At(Propagate(items.val), items.pos)
    else
      var close := MatchAt(ts, items.pos, CR);
      if close.val && items.val.Parsed? then At(Parsed(Block(items.val.value)), close.pos)
      else At(NoParse, close.pos)
  }

  /** The loop of `parseStmtBlock`, at `p` (line ends already skipped). */
  function BlockItemsAt(ts: seq<Token>, p: nat, acc: seq<Stmt>): (r: At<Outcome<seq<Stmt>>>)
    requires WellFormed(ts) && p < |ts|
    ensures p <= r.pos < |ts|
    ensures !r.val.NoParse?
    ensures r.val.Parsed? ==> ts[r.pos].kind == CR
    decreases |ts| - p, 3, 0
  {
    if ts[p].kind == CR then At(Parsed(acc), p)
    else
      var s := StmtAt(ts, p);
      if s.val.Parsed? then BlockItemsAt(ts, SkipEols(ts, s.pos), acc + [s.val.value])
      else At(Propagate(s.val), s.pos)
  }

  /** `parseStmt` (see `StmtAlternativesAt`). */
  function StmtAt(ts: seq<Token>, i: nat): (r: At<Outcome<Stmt>>)
    requires WellFormed(ts) && i < |ts|
    ensures i <= r.pos < |ts|
    ensures !r.val.NoParse?
    ensures r.val.Parsed? ==> i < r.pos
    decreases |ts| - i, 2, 0
  {
    StmtAlternativesAt(ts, i)
  }

  /**
   * The body of `parseStmt`: the statement alternatives in their fixed order,
   * each from `i`: block, variable declaration, array declaration, print, if,
   * while, for, variable assignment, array assignment, expression, return. The
   * first that yields a node (or throws, or loops) decides. When none applies it
   * throws, naming the line and text of the token where `parseReturnStmt` stopped.
   */
  function StmtAlternativesAt(ts: seq<Token>, i: nat): (r: At<Outcome<Stmt>>)
    requires WellFormed(ts) && i < |ts|
    ensures i <= r.pos < |ts|
    ensures !r.val.NoParse?
    ensures r.val.Parsed? ==> i < r.pos
    decreases |ts| - i, 1, 0
  {
    var a := BlockAt(ts, i);
    if !a.val.NoParse? then a else
    var b := VarDeclsAt(ts, i);
    if !b.val.NoParse? then b else
    var c := ArrayDeclsAt(ts, i);
    if !c.val.NoParse? then c else
    var d := PrintAt(ts, i);
    if !d.val.NoParse? then d else
    var e := IfAt(ts, i);
    if !e.val.NoParse? then e else
    var f := WhileAt(ts, i);
    if !f.val.NoParse? then f else
    var g := ForAt(ts, i);
    if !g.val.NoParse? then g else
    var h := VarAssignAt(ts, i);
    if !h.val.NoParse? then h else
    var k := ArrayAssignAt(ts, i);
    if !k.val.NoParse? then k else
    var l := ExprStmtAt(ts, i);
    if !l.val.NoParse? then l else
    var m := ReturnAt(ts, i);
    if !m.val.NoParse? then m else
    At(Failed(StmtError(ts[m.pos].line, ts[m.pos].text)), m.pos)
  }

  // ------------------------------------------------------ first pass (headers)

  /**
   * `parseFnParams`: `( type id, type id, ... )`. Every parameter is named after
   * the lexer's last string `strval`, whatever its identifier token says.
   */
  function ParamsAt(ts: seq<Token>, p: nat, strval: string): (r: At<Option<seq<FnParam>>>)
    requires WellFormed(ts) && p < |ts|
    ensures p <= r.pos < |ts|
    ensures r.val.Some? ==> p < r.pos
  {
    var open := MatchAt(ts, p, PL);
    if !open.val then At(None, open.pos) else ParamsLoopAt(ts, open.pos, true, [], strval)
  }

  /**
   * One iteration of `parseFnParams`' loop: a comma unless it is the first
   * parameter, a type keyword and an identifier.
   */
  function ParamAt(ts: seq<Token>, p: nat, first: bool, strval: string): (r: At<Option<FnParam>>)
    requires WellFormed(ts) && p < |ts|
    ensures p <= r.pos < |ts|
    ensures r.val.Some? ==> p < r.pos && IsTokenType(r.val.value.paramType) && r.val.value.name == strval
  {
    var c := if first then At(true, p) else MatchAt(ts, p, Comma);
    if !c.val then At(None, c.pos)
    else
      var q := c.pos;
      if !IsTokenType(ts[q].kind) then At(None, q)
      else if ts[q + 1].kind != Id then At(None, q + 1)
      else At(Some(FnParam(ts[q].kind, strval)), q + 2)
  }

  /** The loop of `parseFnParams`: parameters until `)`, after the ones in `acc`. */
  function ParamsLoopAt(ts: seq<Token>, p: nat, first: bool, acc: seq<FnParam>, strval: string): (r: At<Option<seq<FnParam>>>)
    requires WellFormed(ts) && p < |ts|
    ensures p <= r.pos < |ts|
    ensures r.val.Some? ==> p < r.pos
    decreases |ts| - p
  {
    if ts[p].kind == PR then At(Some(acc), p + 1)
    else
      var one := ParamAt(ts, p, first, strval);
      if one.val.None? then At(None, one.pos)
      else ParamsLoopAt(ts, one.pos, false, acc + [one.val.value], strval)
  }

  /** Every parameter in `ps` has a type keyword and the name `strval`. */
  predicate TypedAndNamed(ps: seq<FnParam>, strval: string) {
    forall q :: q in ps ==> IsTokenType(q.paramType) && q.name == strval
  }

  /** Every parameter `parseFnParams` collects has a type keyword and the name `strval`. */
  lemma ParamsTypedAndNamed(ts: seq<Token>, p: nat, strval: string)
    requires WellFormed(ts) && p < |ts|
    ensures var r := ParamsAt(ts, p, strval);
      r.val.Some? ==> TypedAndNamed(r.val.value, strval)
  {
    var open := MatchAt(ts, p, PL);
    if open.val {
      ParamsLoopTypedAndNamed(ts, open.pos, true, [], strval);
    }
  }

  lemma {:induction false} ParamsLoopTypedAndNamed(ts: seq<Token>, p: nat, first: bool, acc: seq<FnParam>, strval: string)
    requires WellFormed(ts) && p < |ts| && TypedAndNamed(acc, strval)
    ensures var r := ParamsLoopAt(ts, p, first, acc, strval);
      r.val.Some? ==> TypedAndNamed(r.val.value, strval)
    decreases |ts| - p
  {
    var r := ParamsLoopAt(ts, p, first, acc, strval);
    if ts[p].kind == PR {
      assert r.val == Some(acc);
    } else {
      var one := ParamAt(ts, p, first, strval);
      if one.val.Some? {
        var acc' := acc + [one.val.value];
        ParamsLoopTypedAndNamed(ts, one.pos, false, acc', strval);
        assert r == ParamsLoopAt(ts, one.pos, false, acc', strval);
      }
    }
  }

  /**
   * `parseFnDef`: a type keyword, a non-empty identifier and a parameter list, or
   * an exception naming the function (empty when no name was read). The source
   * tests `getNextTok()` for non-zero before the parameter list; the only kind with
   * ordinal 0 is Number, on which the parameter list fails without moving, so the
   * test changes nothing and is not modelled.
   */
  function FnDefAt(ts: seq<Token>, p: nat, strval: string): (r: At<Outcome<FunctionDefinition>>)
    requires WellFormed(ts) && p < |ts|
    ensures p <= r.pos < |ts|
    ensures r.val.Parsed? || r.val.Failed?
    ensures r.val.Failed? ==> r.val.error.FnHeaderError?
    ensures r.val.Parsed? ==> p < r.pos && r.val.value.body.None?
    ensures r.val.Parsed? ==> var proto := r.val.value.proto;
      IsTokenType(proto.fnType) && proto.fnType == ts[p].kind && proto.name == ts[p + 1].text && proto.name != ""
  {
    var fnType := ts[p].kind;
    if !IsTokenType(fnType) then At(Failed(FnHeaderError("")), p)
    else if ts[p + 1].kind != Id || ts[p + 1].text == "" then At(Failed(FnHeaderError("")), p + 1)
    else FnDefTailAt(ts, p + 2, fnType, ts[p + 1].text, strval)
  }

  /** The rest of `parseFnDef` once the type `fnType` and the name `name` are read: the parameter list. */
  function FnDefTailAt(ts: seq<Token>, q: nat, fnType: TokenKind, name: string, strval: string): (r: At<Outcome<FunctionDefinition>>)
    requires WellFormed(ts) && q < |ts|
    ensures q <= r.pos < |ts|
    ensures r.val.Parsed? || r.val.Failed?
    ensures r.val.Failed? ==> r.val.error == FnHeaderError(name)
    ensures r.val.Parsed? ==> q < r.pos && r.val.value.body.None? && r.val.value.proto.fnType == fnType && r.val.value.proto.name == name
  {
    var params := ParamsAt(ts, q, strval);
    if params.val.None? then At(Failed(FnHeaderError(name)), params.pos)
    else At(Parsed(FunctionDefinition(FunctionPrototype(fnType, name, params.val.value), None)), params.pos)
  }

  /** How `skipFnBody` ends. */
  datatype BodySkip = Skipped | NoBody | PastEnd

  /** Net brace depth of `ts[lo..hi]`: opening braces minus closing braces. */
  function BraceDepth(ts: seq<Token>, lo: nat, hi: nat): int
    requires lo <= hi <= |ts|
    decreases hi
  {
    if lo == hi then 0
    else BraceDepth(ts, lo, hi - 1) + (if ts[hi - 1].kind == CL then 1 else if ts[hi - 1].kind == CR then -1 else 0)
  }

  /** `skipFnBody`: a `{`, then every token up to and including the `}` that closes it. */
  function SkipFnBodyAt(ts: seq<Token>, p: nat): (r: At<BodySkip>)
    requires WellFormed(ts) && p < |ts|
    ensures p <= r.pos < |ts|
    ensures r.val.Skipped? ==> p < r.pos
  {
    var open := MatchAt(ts, p, CL);
    if !open.val then At(NoBody, open.pos) else SkipBodyLoopAt(ts, open.pos, 1)
  }

  /**
   * The loop of `skipFnBody` at depth `depth`. Reaching the last token (the
   * sentinel) with braces still open makes the next `getNextTok` read past the
   * end of the tokens.
   */
  function SkipBodyLoopAt(ts: seq<Token>, q: nat, depth: nat): (r: At<BodySkip>)
    requires WellFormed(ts) && q < |ts|
    ensures q <= r.pos < |ts|
    ensures r.val != NoBody
    ensures r.val.Skipped? && depth > 0 ==> q < r.pos
    decreases |ts| - q
  {
    if depth == 0 then At(Skipped, q)
    else if q == |ts| - 1 then At(PastEnd, q)
    else
      var depth' := if ts[q].kind == CL then depth + 1 else if ts[q].kind == CR then depth - 1 else depth;
      SkipBodyLoopAt(ts, q + 1, depth')
  }

  /**
   * The skip loop stops exactly after the `}` that brings the depth back to 0:
   * the braces seen since `q` close `depth` levels.
   */
  lemma {:induction false} SkipBodyLoopStopsAtClosingBrace(ts: seq<Token>, q: nat, depth: nat)
    requires WellFormed(ts) && q < |ts| && depth > 0
    ensures var r := SkipBodyLoopAt(ts, q, depth);
      r.val.Skipped? ==> ts[r.pos - 1].kind == CR && BraceDepth(ts, q, r.pos) == -(depth as int)
    decreases |ts| - q
  {
    var r := SkipBodyLoopAt(ts, q, depth);
    if q < |ts| - 1 && r.val.Skipped? {
      var step := if ts[q].kind == CL then 1 else if ts[q].kind == CR then -1 else 0;
      var depth': int := depth + step;
      assert BraceDepth(ts, q, q + 1) == step by {
        assert BraceDepth(ts, q, q) == 0;
      }
      if depth' != 0 {
        SkipBodyLoopStopsAtClosingBrace(ts, q + 1, depth');
        BraceDepthSplit(ts, q, r.pos);
      }
    }
  }

  /** No earlier point of the skip loop has closed the `depth` open levels. */
  lemma {:induction false} SkipBodyLoopStopsAtFirstClose(ts: seq<Token>, q: nat, depth: nat)
    requires WellFormed(ts) && q < |ts| && depth > 0
    ensures var r := SkipBodyLoopAt(ts, q, depth);
      r.val.Skipped? ==> forall k :: q <= k < r.pos ==> BraceDepth(ts, q, k) > -(depth as int)
    decreases |ts| - q
  {
    var r := SkipBodyLoopAt(ts, q, depth);
    if q < |ts| - 1 && r.val.Skipped? {
      var step := if ts[q].kind == CL then 1 else if ts[q].kind == CR then -1 else 0;
      var depth': int := depth + step;
      assert BraceDepth(ts, q, q) == 0;
      assert BraceDepth(ts, q, q + 1) == step;
      if depth' != 0 {
        SkipBodyLoopStopsAtFirstClose(ts, q + 1, depth');
        forall k | q + 1 < k < r.pos
          ensures BraceDepth(ts, q, k) > -(depth as int)
        {
          BraceDepthSplit(ts, q, k);
        }
      }
    }
  }

  lemma {:induction false} BraceDepthSplit(ts: seq<Token>, q: nat, k: nat)
    requires q < k <= |ts|
    ensures BraceDepth(ts, q, k) == BraceDepth(ts, q, q + 1) + BraceDepth(ts, q + 1, k)
    decreases k - q
  {
    if k > q + 1 {
      BraceDepthSplit(ts, q, k - 1);
    }
  }

  /** Every definition's return type is a type keyword, as a parsed header's is. */
  predicate Typed(defs: seq<FunctionDefinition>) {
    forall d :: d in defs ==> IsTokenType(d.proto.fnType)
  }

  /** Number of prototypes named `main`. */
  function MainCount(defs: seq<FunctionDefinition>): (n: nat)
    ensures n <= |defs|
  {
    if defs == [] then 0
    else MainCount(defs[..|defs| - 1]) + (if defs[|defs| - 1].proto.name == "main" then 1 else 0)
  }

  /** A definition appended to a list adds one to the count when it is named `main`. */
  lemma MainCountAppend(defs: seq<FunctionDefinition>, d: FunctionDefinition)
    ensures MainCount(defs + [d]) == MainCount(defs) + if d.proto.name == "main" then 1 else 0
  {
    assert (defs + [d])[..|defs|] == defs;
  }

  /**
   * `parseProgram1`: function headers, each followed by a skipped body, until only
   * line ends and the End sentinel remain; then exactly one `main` is required.
   * The source finishes with `match(Token::End)`, which reads past the sentinel;
   * here the loop stops on seeing End, leaving the cursor on it.
   */
  function Program1At(ts: seq<Token>, strval: string): (r: At<Outcome<seq<FunctionDefinition>>>)
    requires WellFormed(ts)
    ensures r.pos < |ts|
    ensures r.val.Parsed? || r.val.Failed? || r.val.ReadsPastEnd?
  {
    Program1LoopAt(ts, SkipEols(ts, 0), [], strval)
  }

  /** The loop of `parseProgram1`, with the definitions `acc` collected so far. */
  function Program1LoopAt(ts: seq<Token>, p: nat, acc: seq<FunctionDefinition>, strval: string): (r: At<Outcome<seq<FunctionDefinition>>>)
    requires WellFormed(ts) && p < |ts|
    ensures p <= r.pos < |ts|
    ensures r.val.Parsed? || r.val.Failed? || r.val.ReadsPastEnd?
    decreases |ts| - p
  {
    var h := FnHeaderAt(ts, p, strval);
    if !h.val.Parsed? then At(Propagate(h.val), h.pos) else
    var acc' := acc + [h.val.value];
    if ts[h.pos].kind == End then
      (if MainCount(acc') == 1 then At(Parsed(acc'), h.pos) else At(Failed(MainCountError), h.pos))
    else Program1LoopAt(ts, h.pos, acc', strval)
  }

  /**
   * One iteration of `parseProgram1`: a function header, the body skipped after
   * it, and the line ends after that.
   */
  function FnHeaderAt(ts: seq<Token>, p: nat, strval: string): (r: At<Outcome<FunctionDefinition>>)
    requires WellFormed(ts) && p < |ts|
    ensures p <= r.pos < |ts|
    ensures r.val.Parsed? || r.val.Failed? || r.val.ReadsPastEnd?
    ensures r.val.Parsed? ==> p < r.pos && r.val == FnDefAt(ts, p, strval).val
  {
    var def := FnDefAt(ts, p, strval);
    if !def.val.Parsed? then def else
    var body := SkipFnBodyAt(ts, def.pos);
    if body.val.NoBody? then At(Failed(FnBodySkipError), body.pos)
    else if body.val.PastEnd? then At(ReadsPastEnd, body.pos)
    else At(def.val, SkipEols(ts, body.pos))
  }

  /**
   * The first pass collects headers only: every definition it returns has no body
   * and a type keyword as its return type. When it succeeds the cursor is on the
   * End sentinel and exactly one of the headers is named `main`.
   */
  lemma Program1CollectsHeaders(ts: seq<Token>, strval: string)
    requires WellFormed(ts)
    ensures var r := Program1At(ts, strval);
      r.val.Parsed? ==>
        (ts[r.pos].kind == End && |r.val.value| >= 1 && MainCount(r.val.value) == 1 &&
         Typed(r.val.value) && forall d :: d in r.val.value ==> d.body.None?)
  {
    Program1LoopCollectsHeaders(ts, SkipEols(ts, 0), [], strval);
  }

  lemma {:induction false} Program1LoopCollectsHeaders(ts: seq<Token>, p: nat, acc: seq<FunctionDefinition>, strval: string)
    requires WellFormed(ts) && p < |ts|
    requires forall d :: d in acc ==> d.body.None? && IsTokenType(d.proto.fnType)
    ensures var r := Program1LoopAt(ts, p, acc, strval);
      r.val.Parsed? ==>
        (ts[r.pos].kind == End && |r.val.value| >= 1 && MainCount(r.val.value) == 1 &&
         acc <= r.val.value && Typed(r.val.value) && forall d :: d in r.val.value ==> d.body.None?)
    decreases |ts| - p
  {
    var h := FnHeaderAt(ts, p, strval);
    if h.val.Parsed? && ts[h.pos].kind != End {
      Program1LoopCollectsHeaders(ts, h.pos, acc + [h.val.value], strval);
    }
  }

  // ---------------------------------------------------------------- second pass

  /**
   * `skipToFnBody`: steps forward until the current token is `{`. The loop also
   * ends when `getNextTok` returns 0, that is on a Number token; None when the
   * step would leave the End sentinel.
   */
  function SkipToBodyAt(ts: seq<Token>, q: nat): (r: Option<nat>)
    requires WellFormed(ts) && q < |ts|
    ensures r.Some? ==> q <= r.value < |ts| && (ts[r.value].kind == CL || ts[r.value].kind == Number)
    ensures r.Some? ==> forall k :: q <= k < r.value ==> ts[k].kind != CL
    ensures r.None? ==> forall k :: q <= k < |ts| ==> ts[k].kind != CL
    decreases |ts| - q
  {
    if ts[q].kind == CL then Some(q)
    else if q == |ts| - 1 then None
    else if ts[q + 1].kind == Number then Some(q + 1)
    else SkipToBodyAt(ts, q + 1)
  }

  /**
   * One iteration of `parseProgram2`, for the definition `def`: line ends are
   * skipped; when `def`'s return type and then its name are at the cursor, the
   * body is parsed (`parseFnBody`) from the `{` that follows and replaces `def`'s
   * body, null when it does not parse. Otherwise `def` is left as it is.
   */
  function FnBodyAt(ts: seq<Token>, p: nat, def: FunctionDefinition): (r: At<Outcome<FunctionDefinition>>)
    requires WellFormed(ts) && p < |ts| && IsTokenType(def.proto.fnType)
    ensures p <= r.pos < |ts|
    ensures r.val.Parsed? ==> r.val.value.proto == def.proto
    ensures !r.val.NoParse?
  {
    var m := MatchAt(ts, SkipEols(ts, p), def.proto.fnType);
    if !m.val || ts[m.pos].kind != Id || ts[m.pos].text != def.proto.name then At(Parsed(def), m.pos)
    else FoundBodyAt(ts, m.pos, def)
  }

  /**
   * The rest of one `parseProgram2` iteration once `def`'s header is found at
   * `q`: the body's `{` is sought and the block parsed; a block that does not
   * parse leaves the body empty.
   */
  function FoundBodyAt(ts: seq<Token>, q: nat, def: FunctionDefinition): (r: At<Outcome<FunctionDefinition>>)
    requires WellFormed(ts) && q < |ts|
    ensures q <= r.pos < |ts|
    ensures r.val.Parsed? ==> r.val.value.proto == def.proto
    ensures !r.val.NoParse?
  {
    var open := SkipToBodyAt(ts, q);
    if open.None? then At(ReadsPastEnd, |ts| - 1)
    else
      var body := BlockAt(ts, open.value);
      if body.val.Parsed? then At(Parsed(def.(body := Some(body.val.value.stmts))), body.pos)
      else if body.val.NoParse? then At(Parsed(def.(body := None)), body.pos)
      else At(Propagate(body.val), body.pos)
  }

  /**
   * The loop of `parseProgram2` from the `i`-th definition of `defs` on, with
   * `acc` the definitions already given their bodies.
   */
  function Program2LoopAt(ts: seq<Token>, p: nat, defs: seq<FunctionDefinition>, i: nat, acc: seq<FunctionDefinition>): (r: At<Outcome<seq<FunctionDefinition>>>)
    requires WellFormed(ts) && p < |ts| && i <= |defs|
    requires Typed(defs)
    ensures p <= r.pos < |ts|
    decreases |defs| - i
  {
    if i == |defs| then At(Parsed(acc), p)
    else
      var one := FnBodyAt(ts, p, defs[i]);
      if !one.val.Parsed? then At(Propagate(one.val), one.pos)
      else Program2LoopAt(ts, one.pos, defs, i + 1, acc + [one.val.value])
  }

  /**
   * The second pass fills in bodies only: its definitions are the ones it was
   * given, in the same order, with the same prototypes.
   */
  lemma {:induction false} Program2KeepsHeaders(ts: seq<Token>, p: nat, defs: seq<FunctionDefinition>, i: nat, acc: seq<FunctionDefinition>)
    requires WellFormed(ts) && p < |ts| && i <= |defs|
    requires Typed(defs)
    requires |acc| == i && forall k :: 0 <= k < i ==> acc[k].proto == defs[k].proto
    ensures var r := Program2LoopAt(ts, p, defs, i, acc);
      r.val.Parsed? ==>
        (|r.val.value| == |defs| && forall k :: 0 <= k < |defs| ==> r.val.value[k].proto == defs[k].proto)
    decreases |defs| - i
  {
    if i < |defs| {
      var one := FnBodyAt(ts, p, defs[i]);
      if one.val.Parsed? {
        var acc' := acc + [one.val.value];
        assert forall k :: 0 <= k < i + 1 ==> acc'[k].proto == defs[k].proto by {
          assert acc'[i] == one.val.value;
        }
        Program2KeepsHeaders(ts, one.pos, defs, i + 1, acc');
        assert Program2LoopAt(ts, p, defs, i, acc) == Program2LoopAt(ts, one.pos, defs, i + 1, acc');
      }
    }
  }

  /** Two lists of definitions with the same prototypes have the same number of `main`s. */
  lemma {:induction false} MainCountOfSameProtos(a: seq<FunctionDefinition>, b: seq<FunctionDefinition>)
    requires |a| == |b| && forall k :: 0 <= k < |a| ==> a[k].proto == b[k].proto
    ensures MainCount(a) == MainCount(b)
    decreases |a|
  {
    if a != [] {
      MainCountOfSameProtos(a[..|a| - 1], b[..|b| - 1]);
    }
  }

  /**
   * The driver in `main` once the tokens are read: `parseProgram1` from the first
   * token, then, unless it threw, `parseProgram2` from the first token again.
   */
  function ProgramAt(ts: seq<Token>, strval: string): (r: Outcome<seq<FunctionDefinition>>)
    requires WellFormed(ts)
  {
    var headers := Program1At(ts, strval).val;
    if !headers.Parsed? then headers
    else
      Program1CollectsHeaders(ts, strval);
      Program2LoopAt(ts, 0, headers.value, 0, []).val
  }

  /**
   * A program that parses has exactly one function named `main`, and its
   * definitions are, one for one, the headers the first pass collected.
   */
  lemma ParsedProgramHasOneMain(ts: seq<Token>, strval: string)
    requires WellFormed(ts)
    ensures var r := ProgramAt(ts, strval);
      r.Parsed? ==>
        (MainCount(r.value) == 1 &&
         var headers := Program1At(ts, strval).val.value;
         |r.value| == |headers| && forall k :: 0 <= k < |headers| ==> r.value[k].proto == headers[k].proto)
  {
    var headers := Program1At(ts, strval).val;
    if headers.Parsed? {
      Program1CollectsHeaders(ts, strval);
      Program2KeepsHeaders(ts, 0, headers.value, 0, []);
      var r := Program2LoopAt(ts, 0, headers.value, 0, []);
      if r.val.Parsed? {
        MainCountOfSameProtos(r.val.value, headers.value);
      }
    }
  }
}
