/**
 * The abstract syntax tree the parser builds and the code generator and the
 * AST printer walk (baseast.hpp and the node classes the visitors name).
 * A child pointer that the parser may leave null is an `Expr` and is `Null`
 * when absent.
 */
module Ast {
  import opened Basics
  import opened Tokens

  datatype Expr =
    | Null                                              // a null child pointer
    | BoolLit(b: bool)                                  // true / false
    | Num(n: int)                                       // number literal
    | Str(s: string)                                    // string literal (print arguments)
    | Ident(name: string)                               // IdExpr
    | Index(arrayName: string, index: Expr)              // ArrayExpr: a[e]
    | Call(callee: string, args: seq<Expr>)             // FnCallExpr
    | Ternary(cond: Expr, onTrue: Expr, onFalse: Expr)  // (c ? t : f)
    | Binop(left: Expr, op: TokenKind, right: Expr)     // (l op r)
    | Unary(op: TokenKind, operand: Expr)               // (op e)
    | Sizeof(arg: Expr)                                 // sizeof(e)
    | Input                                             // input()

  /** One declared variable of a `var` statement: its type keyword and name. */
  datatype VarDeclItem = VarDeclItem(varType: TokenKind, name: string)

  /** One declared array of an `array` statement: its name and size expression. */
  datatype ArrayDeclItem = ArrayDeclItem(name: string, size: Expr)

  datatype Stmt =
    | Block(stmts: seq<Stmt>)
    | VarDecl(vars: seq<VarDeclItem>)
    | ArrayDecl(arrays: seq<ArrayDeclItem>)
    | Print(args: seq<Expr>)
    | If(cond: Expr, thenStmt: Stmt, elseStmt: Option<Stmt>)
    | While(cond: Expr, body: Stmt)
    | For(ident: Expr, container: Expr, body: Stmt)
    | Return(value: Expr)                               // Null when there is no value
    | Abort
    | ArrayAssign(target: string, index: Expr, value: Expr)
    | VarAssign(name: string, value: Expr)
    | ExprStmt(expr: Expr)

  datatype FnParam = FnParam(paramType: TokenKind, name: string)

  datatype FunctionPrototype = FunctionPrototype(fnType: TokenKind, name: string, params: seq<FnParam>)

  /** A function: its prototype and, once the second parser pass has run, its body's statements. */
  datatype FunctionDefinition = FunctionDefinition(proto: FunctionPrototype, body: Option<seq<Stmt>>)

  /** The node a possibly-null parse result stores. */
  function OrNull(e: Option<Expr>): (r: Expr)
    ensures r == Null <==> e.None? || e.value == Null
  {
    if e.Some? then e.value else Null
  }
}
