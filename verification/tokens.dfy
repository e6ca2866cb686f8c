/**
 * The lexer's token kinds and the parser's three token classifiers
 * (parser.cpp `isBinOp`, `isUnaryOp`, `isTokenType`).
 */
module Tokens {
  import opened Basics


  datatype TokenKind =
    | Number | Id
    | TypeArray | TypeInt | TypeBool | TypeVoid
    | LiteralTrue | LiteralFalse
    | Eol
    | OpAdd | OpMinus | OpMult | OpDivide
    | PL   // (
    | PR   // )
    | CL   // {
    | CR   // }
    | SL   // [
    | SR   // ]
    | LiteralString
    | OpExp | OpMod | OpAnd | OpOr | OpEqEq | OpNeq | OpGt | OpGte | OpLt | OpLte
    | OpBang | OpEq | OpQuestion | OpColon
    | Comma
    | KwPrint | KwInput | KwIf | KwElse | KwWhile | KwFor | KwReturn | KwSizeof
    | End  // sentinel the driver appends after the last lexed token

  /** A lexed token: its line, its text (`curVal`) and its kind (`curTok`). */
  datatype Token = Token(line: int, text: string, kind: TokenKind)

  /**
   * The integer a kind converts to (`static_cast<int>`), which the AST printer
   * writes out. The first nineteen follow the order of consts.hpp; the others
   * continue in declaration order.
   */
  function Ordinal(k: TokenKind): (n: nat)
  {
    match k
    case Number => 0
    case Id => 1
    case TypeArray => 2
    case TypeInt => 3
    case TypeBool => 4
    case TypeVoid => 5
    case LiteralTrue => 6
    case LiteralFalse => 7
    case Eol => 8
    case OpAdd => 9
    case OpMinus => 10
    case OpMult => 11
    case OpDivide => 12
    case PL => 13
    case PR => 14
    case CL => 15
    case CR => 16
    case SL => 17
    case SR => 18
    case LiteralString => 19
    case OpExp => 20
    case OpMod => 21
    case OpAnd => 22
    case OpOr => 23
    case OpEqEq => 24
    case OpNeq => 25
    case OpGt => 26
    case OpGte => 27
    case OpLt => 28
    case OpLte => 29
    case OpBang => 30
    case OpEq => 31
    case OpQuestion => 32
    case OpColon => 33
    case Comma => 34
    case KwPrint => 35
    case KwInput => 36
    case KwIf => 37
    case KwElse => 38
    case KwWhile => 39
    case KwFor => 40
    case KwReturn => 41
    case KwSizeof => 42
    case End => 43
  }

  /** The token kind with ordinal `n`, if any. */
  function KindWithOrdinal(n: nat): Option<TokenKind> {
    match n
    case 0 => Some(Number)
    case 1 => Some(Id)
    case 2 => Some(TypeArray)
    case 3 => Some(TypeInt)
    case 4 => Some(TypeBool)
    case 5 => Some(TypeVoid)
    case 6 => Some(LiteralTrue)
    case 7 => Some(LiteralFalse)
    case 8 => Some(Eol)
    case 9 => Some(OpAdd)
    case 10 => Some(OpMinus)
    case 11 => Some(OpMult)
    case 12 => Some(OpDivide)
    case 13 => Some(PL)
    case 14 => Some(PR)
    case 15 => Some(CL)
    case 16 => Some(CR)
    case 17 => Some(SL)
    case 18 => Some(SR)
    case 19 => Some(LiteralString)
    case 20 => Some(OpExp)
    case 21 => Some(OpMod)
    case 22 => Some(OpAnd)
    case 23 => Some(OpOr)
    case 24 => Some(OpEqEq)
    case 25 => Some(OpNeq)
    case 26 => Some(OpGt)
    case 27 => Some(OpGte)
    case 28 => Some(OpLt)
    case 29 => Some(OpLte)
    case 30 => Some(OpBang)
    case 31 => Some(OpEq)
    case 32 => Some(OpQuestion)
    case 33 => Some(OpColon)
    case 34 => Some(Comma)
    case 35 => Some(KwPrint)
    case 36 => Some(KwInput)
    case 37 => Some(KwIf)
    case 38 => Some(KwElse)
    case 39 => Some(KwWhile)
    case 40 => Some(KwFor)
    case 41 => Some(KwReturn)
    case 42 => Some(KwSizeof)
    case 43 => Some(End)
    case _ => None
  }

  /** Each kind is recovered from its ordinal. */
  lemma OrdinalRoundTrip(k: TokenKind)
    ensures KindWithOrdinal(Ordinal(k)) == Some(k)
  {
  }

  /** Distinct kinds print distinct ordinals. */
  lemma OrdinalInjective(a: TokenKind, b: TokenKind)
    ensures Ordinal(a) == Ordinal(b) <==> a == b
  {
    OrdinalRoundTrip(a);
    OrdinalRoundTrip(b);
  }

  /** Only a Number token has ordinal 0, the value that reads as false in C. */
  lemma OrdinalZero(k: TokenKind)
    ensures Ordinal(k) == 0 <==> k == Number
  {
  }

  /** The fourteen binary operator tokens. */
  predicate IsBinOp(k: TokenKind) {
    k in {OpAdd, OpMinus, OpMult, OpDivide, OpExp, OpMod, OpAnd, OpOr,
          OpEqEq, OpNeq, OpGt, OpGte, OpLt, OpLte}
  }

  /** The two prefix operator tokens. */
  predicate IsUnaryOp(k: TokenKind) {
    k == OpBang || k == OpMinus
  }

  /** The four type keywords. */
  predicate IsTokenType(k: TokenKind) {
    k == TypeArray || k == TypeInt || k == TypeBool || k == TypeVoid
  }

  /** Minus is the only token that is both a binary and a unary operator. */
  lemma OperatorClassesOverlapAtMinus(k: TokenKind)
    ensures IsBinOp(k) && IsUnaryOp(k) <==> k == OpMinus
  {
  }

  /** No classifier accepts a line end or the sentinel, and type keywords are not operators. */
  lemma ClassifiersDisjointFromLayout(k: TokenKind)
    ensures (k == Eol || k == End) ==> !IsBinOp(k) && !IsUnaryOp(k) && !IsTokenType(k)
    ensures IsTokenType(k) ==> !IsBinOp(k) && !IsUnaryOp(k)
  {
  }
}
