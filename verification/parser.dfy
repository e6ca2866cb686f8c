/**
 * The parser of parser.cpp as it runs: a token vector ending in the End
 * sentinel, a cursor (`curTokIdx`, with `curTok` and `curVal` mirroring the
 * token under it) and the list of function definitions the first pass collects.
 *
 * Every parse method is proved to compute what the matching function of
 * `ParserSpec` describes: `F(tokens, tokIdx) == At(result, curTokIdx)`. An
 * exception becomes a `Failed` result that each caller hands back unchanged; a
 * loop of the source that would never end returns `Spins` as soon as it is back
 * in a state it was in before, and a read past the sentinel returns `ReadsPastEnd`
 * instead of reading.
 */
module Parsing {
  import opened Basics
  import opened Tokens
  import opened Ast
  import opened ParserSpec

  class Parser {
    const tokens: seq<Token>
    /** The lexer's last string (`strval`), which names every parsed parameter. */
    const strval: string
    var curTokIdx: int
    var curTok: TokenKind
    var curVal: string
    var fnDefinitions: seq<FunctionDefinition>

    /** The cursor is on a token and `curTok`/`curVal` are that token's kind and text. */
    ghost predicate Valid()
      reads this
    {
      WellFormed(tokens) && 0 <= curTokIdx < |tokens| &&
      curTok == tokens[curTokIdx].kind && curVal == tokens[curTokIdx].text
    }

    /** The driver's set-up: the token vector, and the cursor on its first token. */
    constructor (ts: seq<Token>, lexerString: string)
      requires WellFormed(ts)
      ensures Valid() && tokens == ts && strval == lexerString
      ensures curTokIdx == 0 && fnDefinitions == []
    {
      tokens := ts;
      strval := lexerString;
      curTokIdx := 0;
      curTok := ts[0].kind;
      curVal := ts[0].text;
      fnDefinitions := [];
    }

    // ------------------------------------------------------------ cursor

    /**
     * `getNextTok`: moves to the next token and returns its kind. The source does
     * no bounds check, so a caller must not be on the last token.
     */
    method GetNextTok() returns (tok: TokenKind)
      requires WellFormed(tokens) && -1 <= curTokIdx < |tokens| - 1
      modifies this`curTokIdx, this`curTok, this`curVal
      ensures Valid() && curTokIdx == old(curTokIdx) + 1 && tok == curTok
    {
      curTokIdx := curTokIdx + 1;
      curTok := tokens[curTokIdx].kind;
      curVal := tokens[curTokIdx].text;
      tok := curTok;
    }

    /** `updateTokenIdx`: puts the cursor on `tokIdx` by stepping onto it from the token before. */
    method UpdateTokenIdx(tokIdx: nat)
      requires WellFormed(tokens) && tokIdx < |tokens|
      modifies this`curTokIdx, this`curTok, this`curVal
      ensures Valid() && curTokIdx == tokIdx
    {
      curTokIdx := tokIdx - 1;
      var _ := GetNextTok();
    }

    /**
     * `skipEOLs`: steps over line ends. The source also stops when `getNextTok`
     * returns 0, which happens only on a Number token, where the loop test fails anyway.
     */
    method SkipEOLs()
      requires Valid()
      modifies this`curTokIdx, this`curTok, this`curVal
      ensures Valid() && curTokIdx == SkipEols(tokens, old(curTokIdx))
    {
      while curTok == Eol
        invariant Valid() && SkipEols(tokens, curTokIdx) == SkipEols(tokens, old(curTokIdx))
        decreases |tokens| - curTokIdx
      {
        var tok := GetNextTok();
        OrdinalZero(tok);
        if Ordinal(tok) == 0 {
          break;
        }
      }
    }

    /** `match`: see `ParserSpec.MatchAt`. Matching End itself is excluded; see `ParseProgram1`. */
    method Match(tok: TokenKind) returns (matched: bool)
      requires Valid() && tok != End
      modifies this`curTokIdx, this`curTok, this`curVal
      ensures Valid() && MatchAt(tokens, old(curTokIdx), tok) == At(matched, curTokIdx)
    {
      if tok != Eol {
        SkipEOLs();
      }
      matched := false;
      if tok == curTok {
        var _ := GetNextTok();
        matched := true;
      }
    }

    /** `strict_match`: a match whose failure is the exception it throws. */
    method StrictMatch(tok: TokenKind) returns (err: Option<ParseError>)
      requires Valid() && tok != End
      modifies this`curTokIdx, this`curTok, this`curVal
      ensures Valid() && StrictMatchAt(tokens, old(curTokIdx), tok) == At(err, curTokIdx)
    {
      var matched := Match(tok);
      if matched {
        err := None;
      } else {
        err := Some(StrictMatchError(tokens[curTokIdx].line, tok, curTok));
      }
    }

    // ------------------------------------------------------- expressions

    method ParseTrueExpr(tokIdx: nat) returns (r: Option<Expr>)
      requires WellFormed(tokens) && tokIdx < |tokens|
      modifies this`curTokIdx, this`curTok, this`curVal
      ensures Valid() && TrueAt(tokens, tokIdx) == At(r, curTokIdx)
    {
      UpdateTokenIdx(tokIdx);
      var m := Match(LiteralTrue);
      r := if m then Some(BoolLit(true)) else None;
    }

    method ParseFalseExpr(tokIdx: nat) returns (r: Option<Expr>)
      requires WellFormed(tokens) && tokIdx < |tokens|
      modifies this`curTokIdx, this`curTok, this`curVal
      ensures Valid() && FalseAt(tokens, tokIdx) == At(r, curTokIdx)
    {
      UpdateTokenIdx(tokIdx);
      var m := Match(LiteralFalse);
      r := if m then Some(BoolLit(false)) else None;
    }

    /** `curVal` is read after the match, so the value comes from the next token. */
    method ParseNumberExpr(tokIdx: nat) returns (r: Option<Expr>)
      requires WellFormed(tokens) && tokIdx < |tokens|
      modifies this`curTokIdx, this`curTok, this`curVal
      ensures Valid() && NumberAt(tokens, tokIdx) == At(r, curTokIdx)
    {
      UpdateTokenIdx(tokIdx);
      var m := Match(Number);
      r := if m then Some(Num(Atoi(curVal))) else None;
    }

    method ParseIdentExpr(tokIdx: nat) returns (r: Option<Expr>)
      requires WellFormed(tokens) && tokIdx < |tokens|
      modifies this`curTokIdx, this`curTok, this`curVal
      ensures Valid() && IdentAt(tokens, tokIdx) == At(r, curTokIdx)
    {
      UpdateTokenIdx(tokIdx);
      var m := Match(Id);
      r := if m then Some(Ident(curVal)) else None;
    }

    method ParseInputExpr(tokIdx: nat) returns (r: Option<Expr>)
      requires WellFormed(tokens) && tokIdx < |tokens|
      modifies this`curTokIdx, this`curTok, this`curVal
      ensures Valid() && InputAt(tokens, tokIdx) == At(r, curTokIdx)
    {
      UpdateTokenIdx(tokIdx);
      r := None;
      var kw := Match(KwInput);
      if kw {
        var open := Match(PL);
        if open {
          var close := Match(PR);
          if close {
            r := Some(Input);
          }
        }
      }
    }

    method ParseTernaryExpr(tokIdx: nat) returns (r: Option<Expr>)
      requires WellFormed(tokens) && tokIdx < |tokens|
      modifies this`curTokIdx, this`curTok, this`curVal
      ensures Valid() && TernaryAt(tokens, tokIdx) == At(r, curTokIdx)
      decreases |tokens| - tokIdx, 0
    {
      UpdateTokenIdx(tokIdx);
      r := None;
      var open := Match(PL);
      if open {
        var cond := ParseExpr(curTokIdx);
        if cond.Some? {
          var question := Match(OpQuestion);
          if question {
            var onTrue := ParseExpr(curTokIdx);
            if onTrue.Some? {
              var colon := Match(OpColon);
              if colon {
                var onFalse := ParseExpr(curTokIdx);
                var close := Match(PR);
                if close {
                  r := Some(Ternary(cond.value, onTrue.value, OrNull(onFalse)));
                }
              }
            }
          }
        }
      }
    }

    method ParseSizeofExpr(tokIdx: nat) returns (r: Option<Expr>)
      requires WellFormed(tokens) && tokIdx < |tokens|
      modifies this`curTokIdx, this`curTok, this`curVal
      ensures Valid() && SizeofAt(tokens, tokIdx) == At(r, curTokIdx)
      decreases |tokens| - tokIdx, 0
    {
      UpdateTokenIdx(tokIdx);
      r := None;
      var kw := Match(KwSizeof);
      if kw {
        var open := Match(PL);
        if open {
          var e := ParseExpr(curTokIdx);
          if e.Some? {
            var close := Match(PR);
            if close {
              r := Some(Sizeof(e.value));
            }
          }
        }
      }
    }

    method ParseArrayExpr(tokIdx: nat) returns (r: Option<Expr>)
      requires WellFormed(tokens) && tokIdx < |tokens|
      modifies this`curTokIdx, this`curTok, this`curVal
      ensures Valid() && IndexAt(tokens, tokIdx) == At(r, curTokIdx)
      decreases |tokens| - tokIdx, 0
    {
      UpdateTokenIdx(tokIdx);
      r := None;
      var id := Match(Id);
      if id {
        var name := curVal;
        var open := Match(SL);
        if open {
          var e := ParseExpr(curTokIdx);
          if e.Some? {
            var close := Match(SR);
            if close {
              r := Some(Index(name, e.value));
            }
          }
        }
      }
    }

    method ParseFncallExpr(tokIdx: nat) returns (r: Option<Expr>)
      requires WellFormed(tokens) && tokIdx < |tokens|
      modifies this`curTokIdx, this`curTok, this`curVal
      ensures Valid() && CallAt(tokens, tokIdx) == At(r, curTokIdx)
      decreases |tokens| - tokIdx, 0
    {
      UpdateTokenIdx(tokIdx);
      r := None;
      var id := Match(Id);
      if id {
        var name := curVal;
        if curTok == PL {
          var args := ParseFnArgs(curTokIdx);
          if args.Some? {
            r := Some(Call(name, args.value));
          }
        }
      }
    }

    /** `parseFnArgs`: Some(arguments) exactly when the source returns true. */
    method ParseFnArgs(tokIdx: nat) returns (r: Option<seq<Expr>>)
      requires WellFormed(tokens) && tokIdx < |tokens|
      modifies this`curTokIdx, this`curTok, this`curVal
      ensures Valid() && ArgsAt(tokens, tokIdx) == At(r, curTokIdx)
      decreases |tokens| - tokIdx, 0
    {
      UpdateTokenIdx(tokIdx);
      var open := Match(PL);
      if !open {
        return None;
      }
      ghost var start := curTokIdx;
      var args: seq<Expr> := [];
      var first := true;
      while curTok != PR
        invariant Valid() && tokIdx < curTokIdx
        invariant ArgsLoopAt(tokens, curTokIdx, first, args) == ArgsLoopAt(tokens, start, true, [])
        decreases |tokens| - curTokIdx, if first then 1 else 0
      {
        if !first {
          var comma := Match(Comma);
          if !comma {
            return None;
          }
        }
        var e := ParseExpr(curTokIdx);
        args := args + [OrNull(e)];
        first := false;
      }
      var close := Match(PR);
      r := if close then Some(args) else None;
    }

    method ParseBinopExpr(tokIdx: nat) returns (r: Option<Expr>)
      requires WellFormed(tokens) && tokIdx < |tokens|
      modifies this`curTokIdx, this`curTok, this`curVal
      ensures Valid() && BinopAt(tokens, tokIdx) == At(r, curTokIdx)
      decreases |tokens| - tokIdx, 0
    {
      UpdateTokenIdx(tokIdx);
      r := None;
      var open := Match(PL);
      if open {
        var left := ParseExpr(curTokIdx);
        if IsBinOp(curTok) {
          var op := curTok;
          var consumed := Match(curTok);
          if consumed {
            var right := ParseExpr(curTokIdx);
            if right.Some? {
              var close := Match(PR);
              if close {
                r := Some(Binop(OrNull(left), op, right.value));
              }
            }
          }
        }
      }
    }

    method ParseUnaryopExpr(tokIdx: nat) returns (r: Option<Expr>)
      requires WellFormed(tokens) && tokIdx < |tokens|
      modifies this`curTokIdx, this`curTok, this`curVal
      ensures Valid() && UnaryAt(tokens, tokIdx) == At(r, curTokIdx)
      decreases |tokens| - tokIdx, 0
    {
      UpdateTokenIdx(tokIdx);
      r := None;
      var open := Match(PL);
      if open {
        if IsUnaryOp(curTok) {
          var op := curTok;
          var consumed := Match(curTok);
          if consumed {
            var operand := ParseExpr(curTokIdx);
            if operand.Some? {
              var close := Match(PR);
              if close {
                r := Some(Unary(op, operand.value));
              }
            }
          }
        }
      }
    }

    /** `parseExpr`: the eleven alternatives in order, each from `tokIdx`. */
    method ParseExpr(tokIdx: nat) returns (r: Option<Expr>)
      requires WellFormed(tokens) && tokIdx < |tokens|
      modifies this`curTokIdx, this`curTok, this`curVal
      ensures Valid() && ExprAt(tokens, tokIdx) == At(r, curTokIdx)
      decreases |tokens| - tokIdx, 2
    {
      UpdateTokenIdx(tokIdx);
      assert ExprAt(tokens, tokIdx) == ExprAlternativesAt(tokens, tokIdx);
      r := ParseTrueExpr(tokIdx);
      if r.Some? { return; }
      r := ParseFalseExpr(tokIdx);
      if r.Some? { return; }
      r := ParseNumberExpr(tokIdx);
      if r.Some? { return; }
      r := ParseTernaryExpr(tokIdx);
      if r.Some? { return; }
      r := ParseSizeofExpr(tokIdx);
      if r.Some? { return; }
      r := ParseInputExpr(tokIdx);
      if r.Some? { return; }
      r := ParseArrayExpr(tokIdx);
      if r.Some? { return; }
      r := ParseFncallExpr(tokIdx);
      if r.Some? { return; }
      r := ParseIdentExpr(tokIdx);
      if r.Some? { return; }
      r := ParseBinopExpr(tokIdx);
      if r.Some? { return; }
      r := ParseUnaryopExpr(tokIdx);
      if r.Some? { return; }
      UpdateTokenIdx(tokIdx);
    }

    // -------------------------------------------------------- statements

    method ParseVarDecls(tokIdx: nat) returns (r: Outcome<Stmt>)
      requires WellFormed(tokens) && tokIdx < |tokens|
      modifies this`curTokIdx, this`curTok, this`curVal
      ensures Valid() && VarDeclsAt(tokens, tokIdx) == At(r, curTokIdx)
    {
      UpdateTokenIdx(tokIdx);
      if !IsTokenType(curTok) {
        return NoParse;
      }
      var varType := curTok;
      var decls: seq<VarDeclItem> := [];
      var _ := Match(curTok);
      while curTok == Id
        invariant Valid() && tokIdx < curTokIdx
        invariant VarNamesAt(tokens, curTokIdx, varType, decls) == VarNamesAt(tokens, tokIdx + 1, varType, [])
        decreases |tokens| - curTokIdx
      {
        var varName := curVal;
        var _ := Match(Id);
        decls := decls + [VarDeclItem(varType, varName)];
        if curTok == Comma {
          var _ := Match(Comma);
        }
      }
      var eol := Match(Eol);
      r := if eol && |decls| >= 1 then Parsed(VarDecl(decls)) else NoParse;
    }

    method ParseArrayDecls(tokIdx: nat) returns (r: Outcome<Stmt>)
      requires WellFormed(tokens) && tokIdx < |tokens|
      modifies this`curTokIdx, this`curTok, this`curVal
      ensures Valid() && ArrayDeclsAt(tokens, tokIdx) == At(r, curTokIdx)
    {
      UpdateTokenIdx(tokIdx);
      var kw := Match(TypeArray);
      if !kw {
        return NoParse;
      }
      var _ := Match(TypeArray);
      ghost var start := curTokIdx;
      var decls: seq<ArrayDeclItem> := [];
      var first := true;
      while curTok != Eol
        invariant Valid() && (!first ==> |decls| >= 1)
        invariant ArrayItemsAt(tokens, curTokIdx, first, decls) == ArrayItemsAt(tokens, start, true, [])
        decreases |tokens| - curTokIdx
      {
        var pass := ParseArrayDeclPass(first);
        if !pass.Parsed? {
          return Propagate(pass);
        }
        if pass.value.Some? {
          decls := decls + [pass.value.value];
          first := false;
        }
      }
      var eol := Match(Eol);
      r := if eol && |decls| >= 1 then Parsed(ArrayDecl(decls)) else NoParse;
    }

    /** One pass of the loop of `parseArrayDecls`: see `ParserSpec.ArrayPassAt`. */
    method ParseArrayDeclPass(first: bool) returns (r: Outcome<Option<ArrayDeclItem>>)
      requires Valid()
      modifies this`curTokIdx, this`curTok, this`curVal
      ensures Valid() && ArrayPassAt(tokens, old(curTokIdx), first) == At(r, curTokIdx)
    {
      var passStart := curTokIdx;
      if !first {
        var comma := Match(Comma);
        if !comma {
          return NoParse;
        }
      }
      var item := ParseArrayDeclItem();
      if item.Some? {
        r := Parsed(item);
      } else if curTokIdx == passStart {
        // back in the state this pass started from: the source loops forever
        r := Spins;
      } else {
        r := Parsed(None);
      }
    }

    /** One declaration inside the loop of `parseArrayDecls`: `id [ e ]`. */
    method ParseArrayDeclItem() returns (item: Option<ArrayDeclItem>)
      requires Valid()
      modifies this`curTokIdx, this`curTok, this`curVal
      ensures Valid() && ArrayItemAt(tokens, old(curTokIdx)) == At(item, curTokIdx)
    {
      item := None;
      var varName := curVal;
      var _ := Match(Id);
      var open := Match(SL);
      if open {
        var size := ParseExpr(curTokIdx);
        var close := Match(SR);
        if close {
          item := Some(ArrayDeclItem(varName, OrNull(size)));
        }
      }
    }

    method ParsePrintStmt(tokIdx: nat) returns (r: Outcome<Stmt>)
      requires WellFormed(tokens) && tokIdx < |tokens|
      modifies this`curTokIdx, this`curTok, this`curVal
      ensures Valid() && PrintAt(tokens, tokIdx) == At(r, curTokIdx)
    {
      UpdateTokenIdx(tokIdx);
      var kw := Match(KwPrint);
      if !kw {
        return NoParse;
      }
      var args := ParsePrintArgs();
      r := if args.Some? then Parsed(Print(args.value)) else NoParse;
    }

    /** `parsePrintArgs`, from the cursor: Some(arguments) exactly when the source returns true. */
    method ParsePrintArgs() returns (r: Option<seq<Expr>>)
      requires Valid()
      modifies this`curTokIdx, this`curTok, this`curVal
      ensures Valid() && PrintArgsAt(tokens, old(curTokIdx)) == At(r, curTokIdx)
    {
      var open := Match(PL);
      if !open {
        return None;
      }
      ghost var start := curTokIdx;
      var args: seq<Expr> := [];
      var first := true;
      while true
        invariant Valid()
        invariant PrintArgsLoopAt(tokens, curTokIdx, first, args) == PrintArgsLoopAt(tokens, start, true, [])
        decreases |tokens| - curTokIdx
      {
        var close := Match(PR);
        if close {
          break;
        }
        if !first {
          var comma := Match(Comma);
          if !comma {
            return None;
          }
        }
        var arg := ParsePrintArg();
        first := false;
        if arg.None? {
          return None;
        }
        args := args + [arg.value];
      }
      r := if |args| > 0 then Some(args) else None;
    }

    /** One argument inside the loop of `parsePrintArgs`. */
    method ParsePrintArg() returns (arg: Option<Expr>)
      requires Valid()
      modifies this`curTokIdx, this`curTok, this`curVal
      ensures Valid() && PrintArgAt(tokens, old(curTokIdx)) == At(arg, curTokIdx)
    {
      if curTok == LiteralString {
        var _ := Match(curTok);
        arg := Some(Str(curVal));
      } else {
        arg := ParseExpr(curTokIdx);
      }
    }

    method ParseVarAssignment(tokIdx: nat) returns (r: Outcome<Stmt>)
      requires WellFormed(tokens) && tokIdx < |tokens|
      modifies this`curTokIdx, this`curTok, this`curVal
      ensures Valid() && VarAssignAt(tokens, tokIdx) == At(r, curTokIdx)
    {
      UpdateTokenIdx(tokIdx);
      var identName := curVal;
      r := NoParse;
      var id := Match(Id);
      if id {
        var eq := Match(OpEq);
        if eq {
          var rhs := ParseExpr(curTokIdx);
          if rhs.Some? {
            var eol := Match(Eol);
            if eol {
              r := Parsed(VarAssign(identName, rhs.value));
            }
          }
        }
      }
    }

    method ParseArrayAssignment(tokIdx: nat) returns (r: Outcome<Stmt>)
      requires WellFormed(tokens) && tokIdx < |tokens|
      modifies this`curTokIdx, this`curTok, this`curVal
      ensures Valid() && ArrayAssignAt(tokens, tokIdx) == At(r, curTokIdx)
    {
      UpdateTokenIdx(tokIdx);
      var identName := curVal;
      r := NoParse;
      var id := Match(Id);
      if !id { return; }
      var open := Match(SL);
      if !open { return; }
      var index := ParseExpr(curTokIdx);
      if index.None? { return; }
      var close := Match(SR);
      if !close { return; }
      var eq := Match(OpEq);
      if !eq { return; }
      var rhs := ParseExpr(curTokIdx);
      if rhs.None? { return; }
      var eol := Match(Eol);
      if eol {
        r := Parsed(ArrayAssign(identName, index.value, rhs.value));
      }
    }

    /** The expression alternative of `parseStmt`. */
    method ParseExprStmt(tokIdx: nat) returns (r: Outcome<Stmt>)
      requires WellFormed(tokens) && tokIdx < |tokens|
      modifies this`curTokIdx, this`curTok, this`curVal
      ensures Valid() && ExprStmtAt(tokens, tokIdx) == At(r, curTokIdx)
    {
      var e := ParseExpr(tokIdx);
      r := if e.Some? then Parsed(ExprStmt(e.value)) else NoParse;
    }

    method ParseReturnStmt(tokIdx: nat) returns (r: Outcome<Stmt>)
      requires WellFormed(tokens) && tokIdx < |tokens|
      modifies this`curTokIdx, this`curTok, this`curVal
      ensures Valid() && ReturnAt(tokens, tokIdx) == At(r, curTokIdx)
    {
      UpdateTokenIdx(tokIdx);
      r := NoParse;
      var kw := Match(KwReturn);
      if kw {
        var e := ParseExpr(curTokIdx);
        var eol := Match(Eol);
        if eol {
          r := Parsed(Return(OrNull(e)));
        }
      }
    }

    method ParseIfStmt(tokIdx: nat) returns (r: Outcome<Stmt>)
      requires WellFormed(tokens) && tokIdx < |tokens|
      modifies this`curTokIdx, this`curTok, this`curVal
      ensures Valid() && IfAt(tokens, tokIdx) == At(r, curTokIdx)
      decreases |tokens| - tokIdx, 0
    {
      UpdateTokenIdx(tokIdx);
      r := NoParse;
      var kw := Match(KwIf);
      if !kw { return; }
      var open := Match(PL);
      if !open { return; }
      var cond := ParseExpr(curTokIdx);
      var close := Match(PR);
      if !close { return; }
      var body := ParseStmt(curTokIdx);
      if !body.Parsed? {
        return Propagate(body);
      }
      var els := Match(KwElse);
      if !els {
        return Parsed(If(OrNull(cond), body.value, None));
      }
      var other := ParseStmt(curTokIdx);
      if !other.Parsed? {
        return Propagate(other);
      }
      r := Parsed(If(OrNull(cond), body.value, Some(other.value)));
    }

    method ParseWhileStmt(tokIdx: nat) returns (r: Outcome<Stmt>)
      requires WellFormed(tokens) && tokIdx < |tokens|
      modifies this`curTokIdx, this`curTok, this`curVal
      ensures Valid() && WhileAt(tokens, tokIdx) == At(r, curTokIdx)
      decreases |tokens| - tokIdx, 0
    {
      UpdateTokenIdx(tokIdx);
      r := NoParse;
      var kw := Match(KwWhile);
      if !kw { return; }
      var open := Match(PL);
      if !open { return; }
      var cond := ParseExpr(curTokIdx);
      if cond.None? { return; }
      var close := Match(PR);
      if !close { return; }
      var body := ParseStmtBlock(curTokIdx);
      r := if body.Parsed? then Parsed(While(cond.value, body.value)) else Propagate(body);
    }

    method ParseForStmt(tokIdx: nat) returns (r: Outcome<Stmt>)
      requires WellFormed(tokens) && tokIdx < |tokens|
      modifies this`curTokIdx, this`curTok, this`curVal
      ensures Valid() && ForAt(tokens, tokIdx) == At(r, curTokIdx)
      decreases |tokens| - tokIdx, 0
    {
      UpdateTokenIdx(tokIdx);
      r := NoParse;
      var kw := Match(KwFor);
      if !kw { return; }
      var open := Match(PL);
      if !open { return; }
      var id := ParseExpr(curTokIdx);
      if id.None? { return; }
      var colon := Match(OpColon);
      if !colon { return; }
      var container := ParseExpr(curTokIdx);
      if container.None? { return; }
      var close := Match(PR);
      if !close { return; }
      var body := ParseStmt(curTokIdx);
      r := if body.Parsed? then Parsed(For(id.value, container.value, body.value)) else Propagate(body);
    }

    /** `parseStmtBlock`. A statement never comes back null: `parseStmt` throws instead. */
    method ParseStmtBlock(tokIdx: nat) returns (r: Outcome<Stmt>)
      requires WellFormed(tokens) && tokIdx < |tokens|
      modifies this`curTokIdx, this`curTok, this`curVal
      ensures Valid() && BlockAt(tokens, tokIdx) == At(r, curTokIdx)
      decreases |tokens| - tokIdx, 0
    {
      UpdateTokenIdx(tokIdx);
      var items: Outcome<seq<Stmt>> := NoParse;
      var open := Match(CL);
      if open {
        var eol := Match(Eol);
        if eol {
          SkipEOLs();
          items := ParseBlockItems();
        }
      }
      if items.Failed? || items.Spins? || items.ReadsPastEnd? {
        return Propagate(items);
      }
      var close := Match(CR);
      r := if close && items.Parsed? then Parsed(Block(items.value)) else NoParse;
    }

    /** The loop of `parseStmtBlock`: statements up to the closing brace. */
    method ParseBlockItems() returns (r: Outcome<seq<Stmt>>)
      requires Valid()
      modifies this`curTokIdx, this`curTok, this`curVal
      ensures Valid() && BlockItemsAt(tokens, old(curTokIdx), []) == At(r, curTokIdx)
      decreases |tokens| - curTokIdx, 3
    {
      ghost var start := curTokIdx;
      var stmts: seq<Stmt> := [];
      while curTok != CR
        invariant Valid() && start <= curTokIdx
        invariant BlockItemsAt(tokens, curTokIdx, stmts) == BlockItemsAt(tokens, start, [])
        decreases |tokens| - curTokIdx
      {
        var stmt := ParseStmt(curTokIdx);
        if !stmt.Parsed? {
          return Propagate(stmt);
        }
        stmts := stmts + [stmt.value];
        SkipEOLs();
      }
      r := Parsed(stmts);
    }

    /** `parseStmt`: the eleven alternatives in order, each from `tokIdx`. */
    method ParseStmt(tokIdx: nat) returns (r: Outcome<Stmt>)
      requires WellFormed(tokens) && tokIdx < |tokens|
      modifies this`curTokIdx, this`curTok, this`curVal
      ensures Valid() && StmtAt(tokens, tokIdx) == At(r, curTokIdx)
      decreases |tokens| - tokIdx, 2
    {
      UpdateTokenIdx(tokIdx);
      assert StmtAt(tokens, tokIdx) == StmtAlternativesAt(tokens, tokIdx);
      r := ParseStmtBlock(tokIdx);
      if !r.NoParse? { return; }
      r := ParseVarDecls(tokIdx);
      if !r.NoParse? { return; }
      r := ParseArrayDecls(tokIdx);
      if !r.NoParse? { return; }
      r := ParsePrintStmt(tokIdx);
      if !r.NoParse? { return; }
      r := ParseIfStmt(tokIdx);
      if !r.NoParse? { return; }
      r := ParseWhileStmt(tokIdx);
      if !r.NoParse? { return; }
      r := ParseForStmt(tokIdx);
      if !r.NoParse? { return; }
      r := ParseVarAssignment(tokIdx);
      if !r.NoParse? { return; }
      r := ParseArrayAssignment(tokIdx);
      if !r.NoParse? { return; }
      r := ParseExprStmt(tokIdx);
      if !r.NoParse? { return; }
      r := ParseReturnStmt(tokIdx);
      if !r.NoParse? { return; }
      r := Failed(StmtError(tokens[curTokIdx].line, tokens[curTokIdx].text));
    }

    // ------------------------------------------------- first pass (headers)

    /** `parseFnParams`: see `ParserSpec.ParamsAt`. */
    method ParseFnParams() returns (params: Option<seq<FnParam>>)
      requires Valid()
      modifies this`curTokIdx, this`curTok, this`curVal
      ensures Valid() && ParamsAt(tokens, old(curTokIdx), strval) == At(params, curTokIdx)
    {
      var open := Match(PL);
      if !open {
        return None;
      }
      ghost var start := curTokIdx;
      var first := true;
      var args: seq<FnParam> := [];
      while curTok != PR
        invariant Valid()
        invariant ParamsLoopAt(tokens, curTokIdx, first, args, strval) == ParamsLoopAt(tokens, start, true, [], strval)
        decreases |tokens| - curTokIdx
      {
        var param := ParseFnParam(first);
        if param.None? {
          return None;
        }
        args := args + [param.value];
        first := false;
      }
      var _ := Match(PR);
      params := Some(args);
    }

    /** One iteration of `parseFnParams`' loop: see `ParserSpec.ParamAt`. */
    method ParseFnParam(first: bool) returns (param: Option<FnParam>)
      requires Valid()
      modifies this`curTokIdx, this`curTok, this`curVal
      ensures Valid() && ParamAt(tokens, old(curTokIdx), first, strval) == At(param, curTokIdx)
    {
      if !first {
        var comma := Match(Comma);
        if !comma {
          return None;
        }
      }
      if !IsTokenType(curTok) {
        return None;
      }
      var paramType := curTok;
      var next := GetNextTok();
      if next != Id {
        return None;
      }
      param := Some(FnParam(paramType, strval));
      var _ := GetNextTok();
    }

    /** `parseFnDef`: see `ParserSpec.FnDefAt`. */
    method ParseFnDef() returns (r: Outcome<FunctionDefinition>)
      requires Valid()
      modifies this`curTokIdx, this`curTok, this`curVal
      ensures Valid() && FnDefAt(tokens, old(curTokIdx), strval) == At(r, curTokIdx)
    {
      var fnName := "";
      var fnType := curTok;
      if !IsTokenType(fnType) {
        return Failed(FnHeaderError(fnName));
      }
      var nameTok := GetNextTok();
      if nameTok != Id || curVal == "" {
        return Failed(FnHeaderError(fnName));
      }
      fnName := curVal;
      var _ := GetNextTok();
      r := ParseFnDefTail(fnType, fnName);
    }

    /**
     * The rest of `parseFnDef`, on the token after the name. The test of
     * `getNextTok()` for non-zero is kept as written.
     */
    method ParseFnDefTail(fnType: TokenKind, fnName: string) returns (r: Outcome<FunctionDefinition>)
      requires Valid()
      modifies this`curTokIdx, this`curTok, this`curVal
      ensures Valid() && FnDefTailAt(tokens, old(curTokIdx), fnType, fnName, strval) == At(r, curTokIdx)
    {
      if Ordinal(curTok) == 0 {
        OrdinalZero(curTok);
        assert MatchAt(tokens, curTokIdx, PL) == At(false, curTokIdx);
        return Failed(FnHeaderError(fnName));
      }
      var params := ParseFnParams();
      if params.None? {
        return Failed(FnHeaderError(fnName));
      }
      r := Parsed(FunctionDefinition(FunctionPrototype(fnType, fnName, params.value), None));
    }

    /** `skipFnBody`: see `ParserSpec.SkipFnBodyAt`. */
    method SkipFnBody() returns (r: BodySkip)
      requires Valid()
      modifies this`curTokIdx, this`curTok, this`curVal
      ensures Valid() && SkipFnBodyAt(tokens, old(curTokIdx)) == At(r, curTokIdx)
    {
      var open := Match(CL);
      if !open {
        return NoBody;
      }
      ghost var start := curTokIdx;
      var depth: nat := 1;
      while depth > 0
        invariant Valid()
        invariant SkipBodyLoopAt(tokens, curTokIdx, depth) == SkipBodyLoopAt(tokens, start, 1)
        decreases |tokens| - curTokIdx
      {
        if curTok == CL {
          depth := depth + 1;
        } else if curTok == CR {
          depth := depth - 1;
        }
        if curTokIdx == |tokens| - 1 {
          // the source's `getNextTok` would read past the last token here
          return PastEnd;
        }
        var _ := GetNextTok();
      }
      r := Skipped;
    }

    /**
     * One iteration of `parseProgram1`: `parseFnDef`, the header appended to
     * `fnDefinitions`, `skipFnBody` and `skipEOLs`.
     */
    method ParseFnHeader() returns (r: Outcome<FunctionDefinition>)
      requires Valid()
      modifies this`curTokIdx, this`curTok, this`curVal, this`fnDefinitions
      ensures Valid() && FnHeaderAt(tokens, old(curTokIdx), strval) == At(r, curTokIdx)
      ensures var def := FnDefAt(tokens, old(curTokIdx), strval).val;
        fnDefinitions == old(fnDefinitions) + (if def.Parsed? then [def.value] else [])
      ensures r.Parsed? ==> fnDefinitions == old(fnDefinitions) + [r.value]
    {
      var fnDef := ParseFnDef();
      if !fnDef.Parsed? {
        return fnDef;
      }
      fnDefinitions := fnDefinitions + [fnDef.value];
      var skipped := SkipFnBody();
      if skipped.NoBody? {
        return Failed(FnBodySkipError);
      } else if skipped.PastEnd? {
        return ReadsPastEnd;
      }
      SkipEOLs();
      r := fnDef;
    }

    /**
     * Where `parseProgram1`'s loop stands: the headers `defs` read so far (of which
     * `mainFns` are named `main`) appended to the `before` list, and the rest of
     * the pass, still to come from the cursor, ending in `goal`.
     */
    ghost predicate CollectingHeaders(defs: seq<FunctionDefinition>, mainFns: nat, before: seq<FunctionDefinition>, goal: At<Outcome<seq<FunctionDefinition>>>)
      reads this
    {
      Valid() && Program1LoopAt(tokens, curTokIdx, defs, strval) == goal &&
      mainFns == MainCount(defs) && fnDefinitions == before + defs
    }

    /**
     * The body of `parseProgram1`'s loop: one header, counted when it is named
     * `main`; when it is followed by the End sentinel the pass is over.
     */
    method NextHeader(ghost defs: seq<FunctionDefinition>, mainFns: nat, ghost before: seq<FunctionDefinition>,
                      ghost goal: At<Outcome<seq<FunctionDefinition>>>)
      returns (r: Outcome<FunctionDefinition>, count: nat)
      requires CollectingHeaders(defs, mainFns, before, goal)
      modifies this`curTokIdx, this`curTok, this`curVal, this`fnDefinitions
      ensures Valid() && before <= fnDefinitions
      ensures !r.Parsed? ==> goal == At(Propagate(r), curTokIdx)
      ensures r.Parsed? ==> old(curTokIdx) < curTokIdx && count == MainCount(defs + [r.value])
      ensures r.Parsed? && curTok != End ==> CollectingHeaders(defs + [r.value], count, before, goal)
      ensures r.Parsed? && curTok == End ==>
        fnDefinitions == before + (defs + [r.value]) &&
        goal ==
          if count == 1 then At(Parsed(defs + [r.value]), curTokIdx) else At(Failed(MainCountError), curTokIdx)
    {
      r := ParseFnHeader();
      count := mainFns;
      if !r.Parsed? {
        return;
      }
      if r.value.proto.name == "main" {
        count := count + 1;
      }
      MainCountAppend(defs, r.value);
      AppendAfterConcat(before, defs, r.value);
    }

    /**
     * `parseProgram1`, run by the driver with the cursor on the first token:
     * every header it reads is appended to `fnDefinitions`. The loop ends on
     * the End sentinel instead of matching it (see `ParserSpec.MatchEndReadsPastSentinel`).
     */
    method ParseProgram1() returns (r: Outcome<seq<FunctionDefinition>>)
      requires Valid() && curTokIdx == 0
      modifies this`curTokIdx, this`curTok, this`curVal, this`fnDefinitions
      ensures Valid() && Program1At(tokens, strval) == At(r, curTokIdx)
      ensures old(fnDefinitions) <= fnDefinitions
      ensures r.Parsed? ==> fnDefinitions == old(fnDefinitions) + r.value
    {
      SkipEOLs();
      var mainFns := 0;
      var defs: seq<FunctionDefinition> := [];
      while true
        invariant CollectingHeaders(defs, mainFns, old(fnDefinitions), Program1At(tokens, strval))
        decreases |tokens| - curTokIdx
      {
        var fnDef;
        fnDef, mainFns := NextHeader(defs, mainFns, old(fnDefinitions), Program1At(tokens, strval));
        if !fnDef.Parsed? {
          return Propagate(fnDef);
        }
        defs := defs + [fnDef.value];
        if curTok == End {
          break;
        }
      }
      if mainFns != 1 {
        return Failed(MainCountError);
      }
      r := Parsed(defs);
    }

    /** `skipToFnBody`: see `ParserSpec.SkipToBodyAt`; false where that is None. */
    method SkipToFnBody() returns (found: bool)
      requires Valid()
      modifies this`curTokIdx, this`curTok, this`curVal
      ensures Valid()
      ensures found <==> SkipToBodyAt(tokens, old(curTokIdx)).Some?
      ensures found ==> curTokIdx == SkipToBodyAt(tokens, old(curTokIdx)).value
      ensures !found ==> curTokIdx == |tokens| - 1
    {
      while curTok != CL
        invariant Valid() && SkipToBodyAt(tokens, curTokIdx) == SkipToBodyAt(tokens, old(curTokIdx))
        decreases |tokens| - curTokIdx
      {
        if curTokIdx == |tokens| - 1 {
          // the source's `getNextTok` would read past the last token here
          return false;
        }
        var tok := GetNextTok();
        OrdinalZero(tok);
        if Ordinal(tok) == 0 {
          break;
        }
      }
      found := true;
    }

    /**
     * One iteration of `parseProgram2`, for `def`; `parseFnBody` is
     * `parseStmtBlock` from the cursor.
     */
    method ParseFnBodyOf(def: FunctionDefinition) returns (r: Outcome<FunctionDefinition>)
      requires Valid() && IsTokenType(def.proto.fnType)
      modifies this`curTokIdx, this`curTok, this`curVal
      ensures Valid() && FnBodyAt(tokens, old(curTokIdx), def) == At(r, curTokIdx)
    {
      SkipEOLs();
      var typed := Match(def.proto.fnType);
      if !typed || curTok != Id || curVal != def.proto.name {
        return Parsed(def);
      }
      r := ParseFoundBody(def);
    }

    /** The rest of `parseProgram2`'s iteration once the header of `def` is at the cursor. */
    method ParseFoundBody(def: FunctionDefinition) returns (r: Outcome<FunctionDefinition>)
      requires Valid()
      modifies this`curTokIdx, this`curTok, this`curVal
      ensures Valid() && FoundBodyAt(tokens, old(curTokIdx), def) == At(r, curTokIdx)
    {
      var found := SkipToFnBody();
      if !found {
        return ReadsPastEnd;
      }
      var body := ParseStmtBlock(curTokIdx);
      if body.Parsed? {
        r := Parsed(def.(body := Some(body.value.stmts)));
      } else if body.NoParse? {
        r := Parsed(def.(body := None));
      } else {
        r := Propagate(body);
      }
    }

    /**
     * Where `parseProgram2`'s loop stands: of the list `defs` it started from (at
     * token `start`), the first `i` have their bodies in `fnDefinitions`, the others
     * are untouched, and the rest of the pass is still to come from the cursor.
     */
    ghost predicate FillingBodies(i: nat, defs: seq<FunctionDefinition>, start: nat)
      reads this
    {
      Valid() && start < |tokens| && i <= |defs| == |fnDefinitions| && Typed(defs) &&
      (forall k :: i <= k < |defs| ==> fnDefinitions[k] == defs[k]) &&
      Program2LoopAt(tokens, curTokIdx, defs, i, fnDefinitions[..i]) == Program2LoopAt(tokens, start, defs, 0, [])
    }

    /** The body of `parseProgram2`'s loop: the `i`-th definition gets its body, stored in place. */
    method FillBody(i: nat, ghost defs: seq<FunctionDefinition>, ghost start: nat) returns (r: Outcome<FunctionDefinition>)
      requires FillingBodies(i, defs, start) && i < |defs|
      modifies this`curTokIdx, this`curTok, this`curVal, this`fnDefinitions
      ensures Valid() && FnBodyAt(tokens, old(curTokIdx), defs[i]) == At(r, curTokIdx)
      ensures fnDefinitions == if r.Parsed? then old(fnDefinitions)[i := r.value] else old(fnDefinitions)
      ensures r.Parsed? ==> FillingBodies(i + 1, defs, start)
      ensures !r.Parsed? ==> Program2LoopAt(tokens, start, defs, 0, []) == At(Propagate(r), curTokIdx)
    {
      ghost var done := fnDefinitions[..i];
      r := ParseFnBodyOf(fnDefinitions[i]);
      if r.Parsed? {
        UpdatedPrefix(fnDefinitions, i, r.value);
        fnDefinitions := fnDefinitions[i := r.value];
      }
    }

    /**
     * `parseProgram2`: each collected definition in turn gets its body, stored in
     * place in `fnDefinitions`. The listing it prints first is not modelled.
     */
    method ParseProgram2() returns (r: Outcome<seq<FunctionDefinition>>)
      requires Valid() && Typed(fnDefinitions)
      modifies this`curTokIdx, this`curTok, this`curVal, this`fnDefinitions
      ensures Valid() && Program2LoopAt(tokens, old(curTokIdx), old(fnDefinitions), 0, []) == At(r, curTokIdx)
      ensures r.Parsed? ==> fnDefinitions == r.value
    {
      ghost var defs := fnDefinitions;
      ghost var start := curTokIdx;
      var i := 0;
      assert fnDefinitions[..0] == [];
      while i < |fnDefinitions|
        invariant FillingBodies(i, defs, start)
        decreases |fnDefinitions| - i
      {
        var def := FillBody(i, defs, start);
        if !def.Parsed? {
          return Propagate(def);
        }
        i := i + 1;
      }
      assert fnDefinitions[..i] == fnDefinitions;
      r := Parsed(fnDefinitions);
    }

    /**
     * The driver in `main` once the lexer has filled the token vector: both passes,
     * each from the first token; an exception of either ends the run.
     */
    method ParseProgram() returns (r: Outcome<seq<FunctionDefinition>>)
      requires Valid() && fnDefinitions == []
      modifies this`curTokIdx, this`curTok, this`curVal, this`fnDefinitions
      ensures Valid() && r == ProgramAt(tokens, strval)
      ensures r.Parsed? ==> fnDefinitions == r.value
    {
      UpdateTokenIdx(0);
      var headers := ParseProgram1();
      if !headers.Parsed? {
        return headers;
      }
      Program1CollectsHeaders(tokens, strval);
      assert fnDefinitions == headers.value;
      UpdateTokenIdx(0);
      r := ParseProgram2();
    }
  }
}
