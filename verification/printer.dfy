/**
 * The AST printer (visitor.cpp `PrintASTVisitor`): a visitor that writes one
 * line per node, indented by one tab per level of its current depth. The
 * standard output is modelled as the sequence of lines written so far.
 */
module Printer {
  import opened Basics
  import opened Tokens
  import opened Ast

  /** `n` tab characters. */
  function Tabs(n: nat): (t: string)
    ensures |t| == n && forall k :: 0 <= k < n ==> t[k] == '\t'
  {
    if n == 0 then "" else Tabs(n - 1) + "\t"
  }

  /**
   * One item `print` writes: a string, or a token kind converted to its
   * ordinal and then to decimal text (`std::to_string(static_cast<int>(k))`).
   */
  datatype Part = Txt(text: string) | Ord(kind: TokenKind)

  function PartText(p: Part): string {
    match p
    case Txt(t) => t
    case Ord(k) => NatToString(Ordinal(k))
  }

  /** The parts of a line written one after the other. */
  function Concat(parts: seq<Part>): string {
    if parts == [] then "" else Concat(parts[..|parts| - 1]) + PartText(parts[|parts| - 1])
  }

  /**
   * A line of output: one written by `print` at some depth, or one written
   * straight to the stream with no indentation. `NullDeref` is not a line:
   * it marks the point where the process dies dereferencing a null child,
   * after which nothing more is written.
   */
  datatype OutLine = Indented(depth: int, parts: seq<Part>) | Unindented(items: seq<Part>) | NullDeref

  /** The characters of a line: for `print`, a tab per level (none when the depth is negative), then the parts. */
  function Text(l: OutLine): (t: string)
    ensures l.Indented? && l.depth >= 0 ==>
      |t| == l.depth + |Concat(l.parts)| && (forall k :: 0 <= k < l.depth ==> t[k] == '\t') && t[l.depth..] == Concat(l.parts)
    ensures l.Indented? && l.depth < 0 ==> t == Concat(l.parts)
    ensures l.Unindented? ==> t == Concat(l.items)
    ensures l.NullDeref? ==> t == ""
  {
    match l
    case Indented(d, parts) => Tabs(if d > 0 then d else 0) + Concat(parts)
    case Unindented(items) => Concat(items)
    case NullDeref => ""
  }

  lemma TextAssoc(x: string, y: string, z: string)
    ensures x + y + z == x + (y + z)
  {
  }

  lemma DropLastOfAppend(a: seq<Part>, b: seq<Part>)
    requires b != []
    ensures (a + b)[..|a + b| - 1] == a + b[..|b| - 1] && (a + b)[|a + b| - 1] == b[|b| - 1]
  {
  }

  /** The text of parts written one after another is the texts of the two groups joined, in order. */
  lemma {:induction false} ConcatAppend(a: seq<Part>, b: seq<Part>)
    ensures Concat(a + b) == Concat(a) + Concat(b)
    decreases |b|
  {
    if b == [] {
      assert a + b == a;
    } else {
      var b', p := b[..|b| - 1], b[|b| - 1];
      ConcatAppend(a, b');
      DropLastOfAppend(a, b);
      TextAssoc(Concat(a), Concat(b'), PartText(p));
    }
  }

  // ------------------------------------------------------------ well-formed trees

  /** An expression the printer walks without a null dereference: no child it visits is null. */
  predicate Printable(e: Expr)
    decreases e
  {
    match e
    case Null => false
    case Index(_, ix) => Printable(ix)
    case Call(_, args) => forall k :: 0 <= k < |args| ==> Printable(args[k])
    case Ternary(c, t, f) => Printable(c) && Printable(t) && Printable(f)
    case Binop(l, _, r) => Printable(l) && Printable(r)
    case Unary(_, x) => Printable(x)
    case Sizeof(a) => Printable(a)
    case _ => true
  }

  /** A statement the printer walks without a null dereference: only a return value and an else branch may be absent. */
  predicate PrintableStmt(s: Stmt)
    decreases s
  {
    match s
    case Block(ss) => forall k :: 0 <= k < |ss| ==> PrintableStmt(ss[k])
    case VarDecl(_) => true
    case ArrayDecl(items) => forall k :: 0 <= k < |items| ==> Printable(items[k].size)
    case Print(args) => forall k :: 0 <= k < |args| ==> Printable(args[k])
    case If(c, t, e) => Printable(c) && PrintableStmt(t) && (e.Some? ==> PrintableStmt(e.value))
    case While(c, b) => Printable(c) && PrintableStmt(b)
    case For(i, c, b) => Printable(i) && Printable(c) && PrintableStmt(b)
    case Return(v) => v == Null || Printable(v)
    case Abort => true
    case ArrayAssign(_, ix, v) => Printable(ix) && Printable(v)
    case VarAssign(_, v) => Printable(v)
    case ExprStmt(e) => Printable(e)
  }

  /** Every statement of a list is printable. */
  predicate PrintableStmts(ss: seq<Stmt>) {
    forall k :: 0 <= k < |ss| ==> PrintableStmt(ss[k])
  }

  // ------------------------------------------------------------ what is printed

  /**
   * The lines printed for expression `e` visited at depth `d`; `valueText`
   * is the text of a literal's value (`result->getVal()`). Each compound node
   * kind has its own function, as each has its own `visit`.
   */
  function ExprLines(e: Expr, d: int, valueText: Expr -> string): seq<OutLine>
    decreases e, 1
  {
    match e
    case Null => [NullDeref]
    case BoolLit(_) => [Indented(d, [Txt(valueText(e))])]
    case Num(_) => [Indented(d, [Txt(valueText(e))])]
    case Str(s) => [Indented(d, [Txt(s), Txt(" : string")])]
    case Ident(n) => [Indented(d, [Txt(n), Txt(":ID")])]
    case Index(_, _) => ArrayExprLines(e, d, valueText)
    case Call(_, _) => FnCallLines(e, d, valueText)
    case Ternary(_, _, _) => TernaryLines(e, d, valueText)
    case Binop(_, _, _) => BinopLines(e, d, valueText)
    case Unary(_, _) => UnaryLines(e, d, valueText)
    case Sizeof(_) => SizeofLines(e, d, valueText)
    case Input => [Indented(d, [Txt("input expr")])]
  }

  function ArrayExprLines(e: Expr, d: int, valueText: Expr -> string): seq<OutLine>
    requires e.Index?
    decreases e, 0
  {
    [Indented(d, [Txt("array expression : ident[expr]")]), Indented(d, [Txt("ident:"), Txt(e.arrayName)]), Indented(d, [Txt("expr:")])] +
    ExprLines(e.index, d + 1, valueText)
  }

  function FnCallLines(e: Expr, d: int, valueText: Expr -> string): seq<OutLine>
    requires e.Call?
    decreases e, 0
  {
    [Indented(d, [Txt("fn call expression: name(a, b, ...)")]), Indented(d, [Txt("fn_name:"), Txt(e.callee)]), Indented(d, [Txt("fn args:")])] +
    ArgLines(e.args, d, valueText)
  }

  function TernaryLines(e: Expr, d: int, valueText: Expr -> string): seq<OutLine>
    requires e.Ternary?
    decreases e, 0
  {
    [Indented(d, [Txt("(condE?trueE:falseE)")]), Indented(d, [Txt("condE")])] + ExprLines(e.cond, d + 1, valueText) +
    [Indented(d, [Txt("trueE")])] + ExprLines(e.onTrue, d + 1, valueText) +
    [Indented(d, [Txt("falseE")])] + ExprLines(e.onFalse, d + 1, valueText)
  }

  function BinopLines(e: Expr, d: int, valueText: Expr -> string): seq<OutLine>
    requires e.Binop?
    decreases e, 0
  {
    [Indented(d, [Txt("(expr1 binop expr2)")]), Indented(d, [Txt("expr1")])] + ExprLines(e.left, d + 1, valueText) +
    [Indented(d, [Ord(e.op), Txt(":binOp")]), Indented(d, [Txt("expr2")])] + ExprLines(e.right, d + 1, valueText)
  }

  function UnaryLines(e: Expr, d: int, valueText: Expr -> string): seq<OutLine>
    requires e.Unary?
    decreases e, 0
  {
    [Indented(d, [Txt("(unaryop expr)")]), Indented(d, [Ord(e.op), Txt(":unaryop")])] +
    ExprLines(e.operand, d + 1, valueText)
  }

  function SizeofLines(e: Expr, d: int, valueText: Expr -> string): seq<OutLine>
    requires e.Sizeof?
    decreases e, 0
  {
    [Indented(d, [Txt("sizeof expr")]), Indented(d, [Txt("expr: ")])] + ExprLines(e.arg, d + 1, valueText)
  }

  /** The lines for a call's arguments: `argexpr:` and then the argument one level deeper, for each. */
  function ArgLines(args: seq<Expr>, d: int, valueText: Expr -> string): seq<OutLine>
    decreases args, 2
  {
    if args == [] then []
    else ArgLines(args[..|args| - 1], d, valueText) + ([Indented(d, [Txt("argexpr:")])] + ExprLines(args[|args| - 1], d + 1, valueText))
  }

  /** The lines for a list of expressions, each visited at depth `d`. */
  function ExprListLines(es: seq<Expr>, d: int, valueText: Expr -> string): seq<OutLine>
  {
    if es == [] then []
    else ExprListLines(es[..|es| - 1], d, valueText) + ExprLines(es[|es| - 1], d, valueText)
  }

  /** The lines for the variables of a `var` statement: name, `:` and the type token's ordinal. */
  function VarDeclLines(vars: seq<VarDeclItem>, d: int): seq<OutLine> {
    if vars == [] then []
    else
      var v := vars[|vars| - 1];
      VarDeclLines(vars[..|vars| - 1], d) + [Indented(d, [Txt(v.name), Txt(":"), Ord(v.varType)])]
  }

  /** The lines for the arrays of an `array` statement: the name, then the size expression one level deeper. */
  function ArrayDeclLines(items: seq<ArrayDeclItem>, d: int, valueText: Expr -> string): seq<OutLine>
  {
    if items == [] then []
    else
      var a := items[|items| - 1];
      ArrayDeclLines(items[..|items| - 1], d, valueText) + ([Indented(d, [Txt(a.name)])] + ExprLines(a.size, d + 1, valueText))
  }

  /** The line a node without a visit of its own prints, through the base-statement overload: no indentation. */
  const BaseStmtLine: OutLine := Unindented([Txt("PrintASTVistoor")])

  /** The lines printed for statement `s` visited at depth `d`. */
  function StmtLines(s: Stmt, d: int, valueText: Expr -> string): seq<OutLine>
    decreases s, 1
  {
    match s
    case Block(ss) => StmtsLines(ss, d + 1, valueText)
    case VarDecl(vars) => VarDeclStmtLines(vars, d)
    case ArrayDecl(items) => ArrayDeclStmtLines(items, d, valueText)
    case Print(args) => PrintStmtLines(args, d, valueText)
    case If(_, _, _) => IfLines(s, d, valueText)
    case While(_, _) => WhileLines(s, d, valueText)
    case For(_, _, _) => ForLines(s, d, valueText)
    case Return(v) => ReturnLines(v, d, valueText)
    case Abort => [BaseStmtLine]
    case ArrayAssign(a, ix, v) => ArrayAssignLines(a, ix, v, d, valueText)
    case VarAssign(n, v) => VarAssignLines(n, v, d, valueText)
    case ExprStmt(e) => ExprLines(e, d, valueText)
  }

  function VarDeclStmtLines(vars: seq<VarDeclItem>, d: int): seq<OutLine> {
    [Indented(d, [Txt("var declare")])] + VarDeclLines(vars, d + 1)
  }

  function ArrayDeclStmtLines(items: seq<ArrayDeclItem>, d: int, valueText: Expr -> string): seq<OutLine>
  {
    [Indented(d, [Txt("array declare")])] + ArrayDeclLines(items, d + 1, valueText)
  }

  function PrintStmtLines(args: seq<Expr>, d: int, valueText: Expr -> string): seq<OutLine>
  {
    [Indented(d, [Txt("print: ")])] + ExprListLines(args, d + 1, valueText)
  }

  /** The else branch, when there is one, is visited one level shallower than the `if`. */
  function IfLines(s: Stmt, d: int, valueText: Expr -> string): seq<OutLine>
    requires s.If?
    decreases s, 0
  {
    [Indented(d, [Txt("If(condE) {trueE} [else { falseE}]")]), Indented(d, [Txt("condE: ")])] + ExprLines(s.cond, d + 1, valueText) +
    [Indented(d, [Txt("trueE: ")])] + StmtLines(s.thenStmt, d + 1, valueText) +
    (if s.elseStmt.Some? then [Indented(d, [Txt("falseE: ")])] + StmtLines(s.elseStmt.value, d - 1, valueText) else [])
  }

  function WhileLines(s: Stmt, d: int, valueText: Expr -> string): seq<OutLine>
    requires s.While?
    decreases s, 0
  {
    [Indented(d, [Txt("while (cond) body")]), Indented(d, [Txt("cond")])] + ExprLines(s.cond, d + 1, valueText) +
    [Indented(d, [Txt("body")])] + StmtLines(s.body, d + 1, valueText)
  }

  function ForLines(s: Stmt, d: int, valueText: Expr -> string): seq<OutLine>
    requires s.For?
    decreases s, 0
  {
    [Indented(d, [Txt("for (ident : container) body")]), Indented(d, [Txt("ident:")])] + ExprLines(s.ident, d + 1, valueText) +
    [Indented(d, [Txt("container:")])] + ExprLines(s.container, d + 1, valueText) +
    [Indented(d, [Txt("body: ")])] + StmtLines(s.body, d + 1, valueText)
  }

  function ReturnLines(v: Expr, d: int, valueText: Expr -> string): seq<OutLine>
  {
    [Indented(d, [Txt("return expr")])] + (if v != Null then [Indented(d, [Txt("expr:")])] + ExprLines(v, d + 1, valueText) else [])
  }

  function ArrayAssignLines(a: string, ix: Expr, v: Expr, d: int, valueText: Expr -> string): seq<OutLine>
  {
    [Indented(d, [Txt("ident[idxExpr] = expr")]), Indented(d, [Txt("ident:"), Txt(a)]), Indented(d, [Txt("idxExpr:")])] + ExprLines(ix, d + 1, valueText) +
    [Indented(d, [Txt("=")]), Indented(d, [Txt("expr:")])] + ExprLines(v, d + 1, valueText)
  }

  /** The lines of an element assignment: the target and index, then `=` and the value. */
  lemma ArrayAssignLinesSplit(a: string, ix: Expr, v: Expr, d: int, valueText: Expr -> string)
    ensures ArrayAssignLines(a, ix, v, d, valueText) ==
      [Indented(d, [Txt("ident[idxExpr] = expr")])] + [Indented(d, [Txt("ident:"), Txt(a)])] +
      ([Indented(d, [Txt("idxExpr:")])] + ExprLines(ix, d + 1, valueText)) +
      ([Indented(d, [Txt("=")])] + ([Indented(d, [Txt("expr:")])] + ExprLines(v, d + 1, valueText)))
  {
  }

  function VarAssignLines(n: string, v: Expr, d: int, valueText: Expr -> string): seq<OutLine>
  {
    [Indented(d, [Txt("name = expr")]), Indented(d, [Txt("name: "), Txt(n)]), Indented(d, [Txt("expr:")])] + ExprLines(v, d + 1, valueText)
  }

  /** The lines for a list of statements, each visited at depth `d`. */
  function StmtsLines(ss: seq<Stmt>, d: int, valueText: Expr -> string): seq<OutLine>
    decreases ss, 2
  {
    if ss == [] then []
    else StmtsLines(ss[..|ss| - 1], d, valueText) + StmtLines(ss[|ss| - 1], d, valueText)
  }

  /** baseast.cpp `FunctionDefinition::print`: written without indentation. */
  function HeaderLines(proto: FunctionPrototype): seq<OutLine> {
    [Unindented([]), Unindented([Txt("-------------------")]), Unindented([Txt("FnName: "), Txt(proto.name)]),
     Unindented([Txt("FnType: "), Ord(proto.fnType)]), Unindented([Txt("Args :")])] +
    ParamLines(proto.params)
  }

  /** One line per parameter: its name, a space and its type token's ordinal. */
  function ParamLines(params: seq<FnParam>): seq<OutLine> {
    if params == [] then []
    else
      var p := params[|params| - 1];
      ParamLines(params[..|params| - 1]) + [Unindented([Txt(p.name), Txt(" "), Ord(p.paramType)])]
  }

  /** A function whose body the second parser pass has filled in, with a printable body. */
  predicate PrintableDef(def: FunctionDefinition) {
    def.body.Some? && PrintableStmts(def.body.value)
  }

  /**
   * One function: its header, then its body block visited at depth `d` (its
   * statements one level deeper); a missing body is a null dereference.
   */
  function FnDefLines(def: FunctionDefinition, d: int, valueText: Expr -> string): seq<OutLine> {
    HeaderLines(def.proto) + (if def.body.Some? then StmtsLines(def.body.value, d + 1, valueText) else [NullDeref])
  }

  /** `visitProgramAST`: each function's header, then its body block visited at depth `d` (its statements one level deeper). */
  function ProgramLines(defs: seq<FunctionDefinition>, d: int, valueText: Expr -> string): seq<OutLine> {
    if defs == [] then []
    else
      var def := defs[|defs| - 1];
      ProgramLines(defs[..|defs| - 1], d, valueText) + FnDefLines(def, d, valueText)
  }

  /** One more function printed: its header and body lines follow those of the functions before it. */
  lemma ProgramLinesStep(defs: seq<FunctionDefinition>, i: nat, d: int, valueText: Expr -> string)
    requires i < |defs|
    ensures ProgramLines(defs[..i + 1], d, valueText) == ProgramLines(defs[..i], d, valueText) + FnDefLines(defs[i], d, valueText)
  {
    assert defs[..i + 1][..i] == defs[..i];
  }

  // ------------------------------------------------------------ running the visitor

  /** No line is a null dereference: the process is still running after writing `lines`. */
  predicate Alive(lines: seq<OutLine>) {
    forall k :: 0 <= k < |lines| ==> !lines[k].NullDeref?
  }

  lemma AliveAppend(a: seq<OutLine>, b: seq<OutLine>)
    ensures Alive(a + b) <==> Alive(a) && Alive(b)
  {
    if Alive(a) && Alive(b) {
      forall k | 0 <= k < |a + b|
        ensures !(a + b)[k].NullDeref?
      {
        if k >= |a| {
          assert (a + b)[k] == b[k - |a|];
        }
      }
    }
    if Alive(a + b) {
      forall k | 0 <= k < |a|
        ensures !a[k].NullDeref?
      {
        assert (a + b)[k] == a[k];
      }
      forall k | 0 <= k < |b|
        ensures !b[k].NullDeref?
      {
        assert (a + b)[|a| + k] == b[k];
      }
    }
  }

  /** `AliveAppend` for every pair of line sequences. */
  lemma AliveConcat()
    ensures forall a: seq<OutLine>, b: seq<OutLine> :: Alive(a + b) <==> Alive(a) && Alive(b)
  {
    forall a: seq<OutLine>, b: seq<OutLine>
      ensures Alive(a + b) <==> Alive(a) && Alive(b)
    {
      AliveAppend(a, b);
    }
  }

  /** `lines` up to and including the first `NullDeref`: what a visit writes before the process dies, if it dies. */
  function Cut(lines: seq<OutLine>): seq<OutLine> {
    if lines == [] then []
    else if lines[0].NullDeref? then [NullDeref]
    else [lines[0]] + Cut(lines[1..])
  }

  /** Cutting keeps a dead process dead and leaves the lines of a live one whole. */
  lemma {:induction false} CutAlive(lines: seq<OutLine>)
    ensures Alive(Cut(lines)) <==> Alive(lines)
    ensures Alive(lines) ==> Cut(lines) == lines
  {
    if lines != [] {
      assert lines == [lines[0]] + lines[1..];
      AliveAppend([lines[0]], lines[1..]);
      CutAlive(lines[1..]);
      if !lines[0].NullDeref? {
        AliveAppend([lines[0]], Cut(lines[1..]));
      } else {
        assert Cut(lines)[0].NullDeref?;
      }
    }
  }

  lemma {:induction false} CutAppend(a: seq<OutLine>, b: seq<OutLine>)
    ensures Cut(a + b) == if Alive(a) then a + Cut(b) else Cut(a)
  {
    if a == [] {
      assert a + b == b;
    } else if !a[0].NullDeref? {
      assert (a + b)[1..] == a[1..] + b;
      assert a == [a[0]] + a[1..];
      AliveAppend([a[0]], a[1..]);
      CutAppend(a[1..], b);
      if Alive(a) {
        assert [a[0]] + (a[1..] + Cut(b)) == a + Cut(b);
      }
    }
  }

  /**
   * The output after a visit that would write `lines`, starting from output
   * `o`: nothing once the process has died, and otherwise the lines up to
   * the first null dereference.
   */
  function Run(o: seq<OutLine>, lines: seq<OutLine>): seq<OutLine> {
    if Alive(o) then o + Cut(lines) else o
  }

  /** Two visits one after the other write what one visit writing both parts in order would. */
  lemma RunAppend(o: seq<OutLine>, a: seq<OutLine>, b: seq<OutLine>)
    ensures Run(Run(o, a), b) == Run(o, a + b)
  {
    CutAppend(a, b);
    if Alive(o) {
      CutAlive(a);
      AliveAppend(o, Cut(a));
      if Alive(a) {
        assert o + a + Cut(b) == o + (a + Cut(b));
      }
    }
  }

  /** On a process still alive, a visit without a null dereference writes all of its lines. */
  lemma RunAlive(o: seq<OutLine>, lines: seq<OutLine>)
    requires Alive(o) && Alive(lines)
    ensures Run(o, lines) == o + lines
  {
    CutAlive(lines);
  }

  // ------------------------------------------------------------ when the printer crashes

  /** The printer dies on an expression exactly when a child it visits is null. */
  lemma {:induction false} ExprCrashes(e: Expr, d: int, valueText: Expr -> string)
    ensures Alive(ExprLines(e, d, valueText)) <==> Printable(e)
    decreases e, 1
  {
    match e
    case Index(_, ix) =>
      ExprCrashes(ix, d + 1, valueText);
      AliveAppend([Indented(d, [Txt("array expression : ident[expr]")]), Indented(d, [Txt("ident:"), Txt(e.arrayName)]), Indented(d, [Txt("expr:")])],
        ExprLines(ix, d + 1, valueText));
    case Call(_, args) =>
      ArgCrashes(args, d, valueText);
      AliveAppend([Indented(d, [Txt("fn call expression: name(a, b, ...)")]), Indented(d, [Txt("fn_name:"), Txt(e.callee)]), Indented(d, [Txt("fn args:")])],
        ArgLines(args, d, valueText));
    case Ternary(_, _, _) =>
      TernaryCrashes(e, d, valueText);
    case Null =>
      assert ExprLines(e, d, valueText)[0].NullDeref?;
    case Binop(_, _, _) =>
      BinopCrashes(e, d, valueText);
    case Unary(_, x) =>
      ExprCrashes(x, d + 1, valueText);
      AliveAppend([Indented(d, [Txt("(unaryop expr)")]), Indented(d, [Ord(e.op), Txt(":unaryop")])], ExprLines(x, d + 1, valueText));
    case Sizeof(a) =>
      ExprCrashes(a, d + 1, valueText);
      AliveAppend([Indented(d, [Txt("sizeof expr")]), Indented(d, [Txt("expr: ")])], ExprLines(a, d + 1, valueText));
    case _ =>
  }

  lemma {:induction false} TernaryCrashes(e: Expr, d: int, valueText: Expr -> string)
    requires e.Ternary?
    ensures Alive(TernaryLines(e, d, valueText)) <==> Printable(e)
    decreases e, 0
  {
    AliveConcat();
    ExprCrashes(e.cond, d + 1, valueText);
    ExprCrashes(e.onTrue, d + 1, valueText);
    ExprCrashes(e.onFalse, d + 1, valueText);
  }

  lemma {:induction false} BinopCrashes(e: Expr, d: int, valueText: Expr -> string)
    requires e.Binop?
    ensures Alive(BinopLines(e, d, valueText)) <==> Printable(e)
    decreases e, 0
  {
    AliveConcat();
    ExprCrashes(e.left, d + 1, valueText);
    ExprCrashes(e.right, d + 1, valueText);
  }

  /** A call's arguments are printed without a crash exactly when none of them holds a null child. */
  lemma {:induction false} ArgCrashes(args: seq<Expr>, d: int, valueText: Expr -> string)
    ensures Alive(ArgLines(args, d, valueText)) <==> forall k :: 0 <= k < |args| ==> Printable(args[k])
    decreases args, 2
  {
    if args != [] {
      var n := |args| - 1;
      ArgCrashes(args[..n], d, valueText);
      ExprCrashes(args[n], d + 1, valueText);
      AliveAppend([Indented(d, [Txt("argexpr:")])], ExprLines(args[n], d + 1, valueText));
      AliveAppend(ArgLines(args[..n], d, valueText), [Indented(d, [Txt("argexpr:")])] + ExprLines(args[n], d + 1, valueText));
      assert forall k :: 0 <= k < n ==> args[..n][k] == args[k];
    }
  }

  lemma {:induction false} ExprListCrashes(es: seq<Expr>, d: int, valueText: Expr -> string)
    ensures Alive(ExprListLines(es, d, valueText)) <==> forall k :: 0 <= k < |es| ==> Printable(es[k])
  {
    if es != [] {
      var n := |es| - 1;
      ExprListCrashes(es[..n], d, valueText);
      ExprCrashes(es[n], d, valueText);
      AliveAppend(ExprListLines(es[..n], d, valueText), ExprLines(es[n], d, valueText));
      assert forall k :: 0 <= k < n ==> es[..n][k] == es[k];
    }
  }

  lemma {:induction false} ArrayDeclCrashes(items: seq<ArrayDeclItem>, d: int, valueText: Expr -> string)
    ensures Alive(ArrayDeclLines(items, d, valueText)) <==> forall k :: 0 <= k < |items| ==> Printable(items[k].size)
  {
    if items != [] {
      var n := |items| - 1;
      ArrayDeclCrashes(items[..n], d, valueText);
      ExprCrashes(items[n].size, d + 1, valueText);
      AliveAppend([Indented(d, [Txt(items[n].name)])], ExprLines(items[n].size, d + 1, valueText));
      AliveAppend(ArrayDeclLines(items[..n], d, valueText), [Indented(d, [Txt(items[n].name)])] + ExprLines(items[n].size, d + 1, valueText));
      assert forall k :: 0 <= k < n ==> items[..n][k] == items[k];
    }
  }

  lemma {:induction false} VarDeclNoCrash(vars: seq<VarDeclItem>, d: int)
    ensures Alive(VarDeclLines(vars, d))
  {
    if vars != [] {
      var v := vars[|vars| - 1];
      VarDeclNoCrash(vars[..|vars| - 1], d);
      AliveAppend(VarDeclLines(vars[..|vars| - 1], d), [Indented(d, [Txt(v.name), Txt(":"), Ord(v.varType)])]);
    }
  }

  /**
   * The printer dies on a statement exactly when an expression it visits
   * holds a null child; a missing return value or else branch is skipped.
   */
  lemma {:induction false} StmtCrashes(s: Stmt, d: int, valueText: Expr -> string)
    ensures Alive(StmtLines(s, d, valueText)) <==> PrintableStmt(s)
    decreases s, 1
  {
    match s
    case Block(ss) =>
      StmtsCrashes(ss, d + 1, valueText);
    case VarDecl(vars) =>
      VarDeclNoCrash(vars, d + 1);
      AliveAppend([Indented(d, [Txt("var declare")])], VarDeclLines(vars, d + 1));
    case ArrayDecl(items) =>
      ArrayDeclCrashes(items, d + 1, valueText);
      AliveAppend([Indented(d, [Txt("array declare")])], ArrayDeclLines(items, d + 1, valueText));
    case Print(args) =>
      ExprListCrashes(args, d + 1, valueText);
      AliveAppend([Indented(d, [Txt("print: ")])], ExprListLines(args, d + 1, valueText));
    case If(_, _, _) =>
      IfCrashes(s, d, valueText);
    case While(_, _) =>
      WhileCrashes(s, d, valueText);
    case For(_, _, _) =>
      ForCrashes(s, d, valueText);
    case Return(v) =>
      ReturnCrashes(v, d, valueText);
    case Abort =>
    case ArrayAssign(a, ix, v) =>
      ArrayAssignCrashes(a, ix, v, d, valueText);
    case VarAssign(n, v) =>
      ExprCrashes(v, d + 1, valueText);
      AliveAppend([Indented(d, [Txt("name = expr")]), Indented(d, [Txt("name: "), Txt(n)]), Indented(d, [Txt("expr:")])], ExprLines(v, d + 1, valueText));
    case ExprStmt(e) =>
      ExprCrashes(e, d, valueText);
  }

  lemma {:induction false} IfCrashes(s: Stmt, d: int, valueText: Expr -> string)
    requires s.If?
    ensures Alive(IfLines(s, d, valueText)) <==> PrintableStmt(s)
    decreases s, 0
  {
    var head := [Indented(d, [Txt("If(condE) {trueE} [else { falseE}]")]), Indented(d, [Txt("condE: ")])];
    var trueE := [Indented(d, [Txt("trueE: ")])];
    var tail := if s.elseStmt.Some? then [Indented(d, [Txt("falseE: ")])] + StmtLines(s.elseStmt.value, d - 1, valueText) else [];
    ExprCrashes(s.cond, d + 1, valueText);
    StmtCrashes(s.thenStmt, d + 1, valueText);
    AliveAppend(head, ExprLines(s.cond, d + 1, valueText));
    AliveAppend(head + ExprLines(s.cond, d + 1, valueText), trueE);
    AliveAppend(head + ExprLines(s.cond, d + 1, valueText) + trueE, StmtLines(s.thenStmt, d + 1, valueText));
    AliveAppend(head + ExprLines(s.cond, d + 1, valueText) + trueE + StmtLines(s.thenStmt, d + 1, valueText), tail);
    if s.elseStmt.Some? {
      StmtCrashes(s.elseStmt.value, d - 1, valueText);
      AliveAppend([Indented(d, [Txt("falseE: ")])], StmtLines(s.elseStmt.value, d - 1, valueText));
    }
  }

  lemma {:induction false} WhileCrashes(s: Stmt, d: int, valueText: Expr -> string)
    requires s.While?
    ensures Alive(WhileLines(s, d, valueText)) <==> PrintableStmt(s)
    decreases s, 0
  {
    AliveConcat();
    ExprCrashes(s.cond, d + 1, valueText);
    StmtCrashes(s.body, d + 1, valueText);
  }

  lemma {:induction false} ForCrashes(s: Stmt, d: int, valueText: Expr -> string)
    requires s.For?
    ensures Alive(ForLines(s, d, valueText)) <==> PrintableStmt(s)
    decreases s, 0
  {
    AliveConcat();
    ExprCrashes(s.ident, d + 1, valueText);
    ExprCrashes(s.container, d + 1, valueText);
    StmtCrashes(s.body, d + 1, valueText);
  }

  lemma {:induction false} ReturnCrashes(v: Expr, d: int, valueText: Expr -> string)
    ensures Alive(ReturnLines(v, d, valueText)) <==> v == Null || Printable(v)
  {
    if v != Null {
      AliveConcat();
      ExprCrashes(v, d + 1, valueText);
    } else {
      assert ReturnLines(v, d, valueText) == [Indented(d, [Txt("return expr")])];
    }
  }

  lemma {:induction false} ArrayAssignCrashes(a: string, ix: Expr, v: Expr, d: int, valueText: Expr -> string)
    ensures Alive(ArrayAssignLines(a, ix, v, d, valueText)) <==> Printable(ix) && Printable(v)
  {
    AliveConcat();
    ExprCrashes(ix, d + 1, valueText);
    ExprCrashes(v, d + 1, valueText);
  }

  lemma {:induction false} StmtsCrashes(ss: seq<Stmt>, d: int, valueText: Expr -> string)
    ensures Alive(StmtsLines(ss, d, valueText)) <==> PrintableStmts(ss)
    decreases ss, 2
  {
    if ss != [] {
      var n := |ss| - 1;
      StmtsCrashes(ss[..n], d, valueText);
      StmtCrashes(ss[n], d, valueText);
      AliveAppend(StmtsLines(ss[..n], d, valueText), StmtLines(ss[n], d, valueText));
      assert forall k :: 0 <= k < n ==> ss[..n][k] == ss[k];
    }
  }

  lemma {:induction false} ParamLinesNoCrash(params: seq<FnParam>)
    ensures Alive(ParamLines(params))
  {
    if params != [] {
      var p := params[|params| - 1];
      ParamLinesNoCrash(params[..|params| - 1]);
      AliveAppend(ParamLines(params[..|params| - 1]), [Unindented([Txt(p.name), Txt(" "), Ord(p.paramType)])]);
    }
  }

  /** The printer gets through a function exactly when it has a body with no null child; the header never crashes it. */
  lemma FnDefCrashes(def: FunctionDefinition, d: int, valueText: Expr -> string)
    ensures Alive(FnDefLines(def, d, valueText)) <==> PrintableDef(def)
  {
    var head := [Unindented([]), Unindented([Txt("-------------------")]), Unindented([Txt("FnName: "), Txt(def.proto.name)]),
                 Unindented([Txt("FnType: "), Ord(def.proto.fnType)]), Unindented([Txt("Args :")])];
    ParamLinesNoCrash(def.proto.params);
    AliveAppend(head, ParamLines(def.proto.params));
    if def.body.Some? {
      StmtsCrashes(def.body.value, d + 1, valueText);
      AliveAppend(HeaderLines(def.proto), StmtsLines(def.body.value, d + 1, valueText));
    } else {
      AliveAppend(HeaderLines(def.proto), [NullDeref]);
      assert [NullDeref][0].NullDeref?;
    }
  }

  /** The printer gets through a whole program exactly when every function has a body and no body holds a null child. */
  lemma {:induction false} ProgramCrashes(defs: seq<FunctionDefinition>, d: int, valueText: Expr -> string)
    ensures Alive(ProgramLines(defs, d, valueText)) <==> forall k :: 0 <= k < |defs| ==> PrintableDef(defs[k])
  {
    if defs != [] {
      var n := |defs| - 1;
      ProgramCrashes(defs[..n], d, valueText);
      FnDefCrashes(defs[n], d, valueText);
      AliveAppend(ProgramLines(defs[..n], d, valueText), FnDefLines(defs[n], d, valueText));
      assert forall k :: 0 <= k < n ==> defs[..n][k] == defs[k];
    }
  }

  // ------------------------------------------------------------ properties of the output

  /** Every line is written by `print` at depth `d` or deeper. */
  predicate AtLeast(lines: seq<OutLine>, d: int) {
    forall k :: 0 <= k < |lines| ==> lines[k].Indented? && lines[k].depth >= d
  }

  lemma AtLeastJoin(a: seq<OutLine>, b: seq<OutLine>, d: int)
    requires AtLeast(a, d) && AtLeast(b, d)
    ensures AtLeast(a + b, d)
  {
  }

  lemma AtLeastDeeper(lines: seq<OutLine>, d: int)
    requires AtLeast(lines, d + 1)
    ensures AtLeast(lines, d)
  {
  }

  /**
   * An expression visited at depth `d` prints its first line at `d` and
   * every other line at `d` or deeper.
   */
  lemma {:induction false} ExprLinesAtLeast(e: Expr, d: int, valueText: Expr -> string)
    requires Printable(e)
    ensures |ExprLines(e, d, valueText)| > 0 && ExprLines(e, d, valueText)[0].Indented? && ExprLines(e, d, valueText)[0].depth == d
    ensures AtLeast(ExprLines(e, d, valueText), d)
    decreases e, 1
  {
    match e
    case Index(_, ix) =>
      ExprLinesAtLeast(ix, d + 1, valueText);
    case Call(_, args) =>
      ArgLinesAtLeast(args, d, valueText);
    case Ternary(_, _, _) =>
      TernaryLinesAtLeast(e, d, valueText);
    case Binop(_, _, _) =>
      BinopLinesAtLeast(e, d, valueText);
    case Unary(_, x) =>
      ExprLinesAtLeast(x, d + 1, valueText);
    case Sizeof(a) =>
      ExprLinesAtLeast(a, d + 1, valueText);
    case _ =>
  }

  lemma {:induction false} TernaryLinesAtLeast(e: Expr, d: int, valueText: Expr -> string)
    requires e.Ternary? && Printable(e)
    ensures AtLeast(TernaryLines(e, d, valueText), d)
    decreases e, 0
  {
    ExprLinesAtLeast(e.cond, d + 1, valueText);
    ExprLinesAtLeast(e.onTrue, d + 1, valueText);
    ExprLinesAtLeast(e.onFalse, d + 1, valueText);
  }

  lemma {:induction false} BinopLinesAtLeast(e: Expr, d: int, valueText: Expr -> string)
    requires e.Binop? && Printable(e)
    ensures AtLeast(BinopLines(e, d, valueText), d)
    decreases e, 0
  {
    ExprLinesAtLeast(e.left, d + 1, valueText);
    ExprLinesAtLeast(e.right, d + 1, valueText);
  }

  /** A call's argument sections are printed at the call's depth or deeper. */
  lemma {:induction false} ArgLinesAtLeast(args: seq<Expr>, d: int, valueText: Expr -> string)
    requires forall k :: 0 <= k < |args| ==> Printable(args[k])
    ensures AtLeast(ArgLines(args, d, valueText), d)
    decreases args, 2
  {
    if args != [] {
      ArgLinesAtLeast(args[..|args| - 1], d, valueText);
      ExprLinesAtLeast(args[|args| - 1], d + 1, valueText);
    }
  }

  /** How many of `lines` are exactly `l`. */
  function Occurrences(lines: seq<OutLine>, l: OutLine): nat {
    if lines == [] then 0
    else Occurrences(lines[..|lines| - 1], l) + (if lines[|lines| - 1] == l then 1 else 0)
  }

  lemma {:induction false} OccurrencesAppend(a: seq<OutLine>, b: seq<OutLine>, l: OutLine)
    ensures Occurrences(a + b, l) == Occurrences(a, l) + Occurrences(b, l)
    decreases |b|
  {
    if b == [] {
      assert a + b == a;
    } else {
      assert (a + b)[..|a + b| - 1] == a + b[..|b| - 1];
      OccurrencesAppend(a, b[..|b| - 1], l);
    }
  }

  /** Lines all printed deeper than `l` do not contain it. */
  lemma {:induction false} NoOccurrenceDeeper(lines: seq<OutLine>, l: OutLine)
    requires l.Indented? && AtLeast(lines, l.depth + 1)
    ensures Occurrences(lines, l) == 0
    decreases |lines|
  {
    if lines != [] {
      NoOccurrenceDeeper(lines[..|lines| - 1], l);
    }
  }

  /**
   * A call prints one `argexpr:` section per argument at its own depth: the
   * arguments themselves, one level deeper, add no such line.
   */
  lemma {:induction false} OneSectionPerArgument(args: seq<Expr>, d: int, valueText: Expr -> string)
    requires forall k :: 0 <= k < |args| ==> Printable(args[k])
    ensures Occurrences(ArgLines(args, d, valueText), Indented(d, [Txt("argexpr:")])) == |args|
    decreases |args|
  {
    if args != [] {
      var l := Indented(d, [Txt("argexpr:")]);
      var last := args[|args| - 1];
      OneSectionPerArgument(args[..|args| - 1], d, valueText);
      ExprLinesAtLeast(last, d + 1, valueText);
      NoOccurrenceDeeper(ExprLines(last, d + 1, valueText), l);
      OccurrencesAppend([l], ExprLines(last, d + 1, valueText), l);
      assert Occurrences([l], l) == 1 by {
        assert [l][..0] == [];
      }
      OccurrencesAppend(ArgLines(args[..|args| - 1], d, valueText), [l] + ExprLines(last, d + 1, valueText), l);
    }
  }

  /** A statement tree with no else branch and no `abort`. */
  predicate ElseFree(s: Stmt)
    decreases s
  {
    match s
    case Block(ss) => forall k :: 0 <= k < |ss| ==> ElseFree(ss[k])
    case If(_, t, e) => e.None? && ElseFree(t)
    case While(_, b) => ElseFree(b)
    case For(_, _, b) => ElseFree(b)
    case Abort => false
    case _ => true
  }

  /**
   * Without else branches (printed shallower) and `abort` (printed without
   * indentation), a statement visited at depth `d` prints nothing shallower
   * than `d`: nested statements and expressions are printed deeper.
   */
  lemma {:induction false} StmtLinesAtLeast(s: Stmt, d: int, valueText: Expr -> string)
    requires PrintableStmt(s) && ElseFree(s)
    ensures AtLeast(StmtLines(s, d, valueText), d)
    decreases s, 1
  {
    match s
    case Block(ss) =>
      StmtsLinesAtLeast(ss, d + 1, valueText);
      AtLeastDeeper(StmtsLines(ss, d + 1, valueText), d);
    case VarDecl(vars) =>
      VarDeclLinesAtLeast(vars, d + 1);
      AtLeastDeeper(VarDeclLines(vars, d + 1), d);
      AtLeastJoin([Indented(d, [Txt("var declare")])], VarDeclLines(vars, d + 1), d);
    case ArrayDecl(items) =>
      ArrayDeclLinesAtLeast(items, d + 1, valueText);
      AtLeastDeeper(ArrayDeclLines(items, d + 1, valueText), d);
      AtLeastJoin([Indented(d, [Txt("array declare")])], ArrayDeclLines(items, d + 1, valueText), d);
    case Print(args) =>
      ExprListLinesAtLeast(args, d + 1, valueText);
      AtLeastDeeper(ExprListLines(args, d + 1, valueText), d);
      AtLeastJoin([Indented(d, [Txt("print: ")])], ExprListLines(args, d + 1, valueText), d);
    case If(_, _, _) =>
      IfLinesAtLeast(s, d, valueText);
    case While(_, _) =>
      WhileLinesAtLeast(s, d, valueText);
    case For(_, _, _) =>
      ForLinesAtLeast(s, d, valueText);
    case Return(v) =>
      ReturnLinesAtLeast(v, d, valueText);
    case ArrayAssign(a, ix, v) =>
      ArrayAssignLinesAtLeast(a, ix, v, d, valueText);
    case VarAssign(n, v) =>
      ExprLinesAtLeast(v, d + 1, valueText);
      AtLeastDeeper(ExprLines(v, d + 1, valueText), d);
    case ExprStmt(e) =>
      ExprLinesAtLeast(e, d, valueText);
  }

  lemma {:induction false} ReturnLinesAtLeast(v: Expr, d: int, valueText: Expr -> string)
    requires v == Null || Printable(v)
    ensures AtLeast(ReturnLines(v, d, valueText), d)
  {
    if v != Null {
      ExprLinesAtLeast(v, d + 1, valueText);
    }
  }

  lemma {:induction false} ArrayAssignLinesAtLeast(a: string, ix: Expr, v: Expr, d: int, valueText: Expr -> string)
    requires Printable(ix) && Printable(v)
    ensures AtLeast(ArrayAssignLines(a, ix, v, d, valueText), d)
  {
    ExprLinesAtLeast(ix, d + 1, valueText);
    ExprLinesAtLeast(v, d + 1, valueText);
  }

  lemma {:induction false} IfLinesAtLeast(s: Stmt, d: int, valueText: Expr -> string)
    requires s.If? && PrintableStmt(s) && ElseFree(s)
    ensures AtLeast(IfLines(s, d, valueText), d)
    decreases s, 0
  {
    ExprLinesAtLeast(s.cond, d + 1, valueText);
    StmtLinesAtLeast(s.thenStmt, d + 1, valueText);
  }

  lemma {:induction false} WhileLinesAtLeast(s: Stmt, d: int, valueText: Expr -> string)
    requires s.While? && PrintableStmt(s) && ElseFree(s)
    ensures AtLeast(WhileLines(s, d, valueText), d)
    decreases s, 0
  {
    ExprLinesAtLeast(s.cond, d + 1, valueText);
    StmtLinesAtLeast(s.body, d + 1, valueText);
  }

  lemma {:induction false} ForLinesAtLeast(s: Stmt, d: int, valueText: Expr -> string)
    requires s.For? && PrintableStmt(s) && ElseFree(s)
    ensures AtLeast(ForLines(s, d, valueText), d)
    decreases s, 0
  {
    ExprLinesAtLeast(s.ident, d + 1, valueText);
    ExprLinesAtLeast(s.container, d + 1, valueText);
    StmtLinesAtLeast(s.body, d + 1, valueText);
  }

  lemma {:induction false} StmtsLinesAtLeast(ss: seq<Stmt>, d: int, valueText: Expr -> string)
    requires PrintableStmts(ss) && forall k :: 0 <= k < |ss| ==> ElseFree(ss[k])
    ensures AtLeast(StmtsLines(ss, d, valueText), d)
    decreases ss, 2
  {
    if ss != [] {
      StmtsLinesAtLeast(ss[..|ss| - 1], d, valueText);
      StmtLinesAtLeast(ss[|ss| - 1], d, valueText);
    }
  }

  lemma {:induction false} VarDeclLinesAtLeast(vars: seq<VarDeclItem>, d: int)
    ensures AtLeast(VarDeclLines(vars, d), d)
  {
    if vars != [] {
      VarDeclLinesAtLeast(vars[..|vars| - 1], d);
    }
  }

  lemma {:induction false} ArrayDeclLinesAtLeast(items: seq<ArrayDeclItem>, d: int, valueText: Expr -> string)
    requires forall k :: 0 <= k < |items| ==> Printable(items[k].size)
    ensures AtLeast(ArrayDeclLines(items, d, valueText), d)
  {
    if items != [] {
      ArrayDeclLinesAtLeast(items[..|items| - 1], d, valueText);
      ExprLinesAtLeast(items[|items| - 1].size, d + 1, valueText);
    }
  }

  lemma {:induction false} ExprListLinesAtLeast(es: seq<Expr>, d: int, valueText: Expr -> string)
    requires forall k :: 0 <= k < |es| ==> Printable(es[k])
    ensures AtLeast(ExprListLines(es, d, valueText), d)
  {
    if es != [] {
      ExprListLinesAtLeast(es[..|es| - 1], d, valueText);
      ExprLinesAtLeast(es[|es| - 1], d, valueText);
    }
  }

  /**
   * An else branch is printed one level shallower than its `if`: the lines
   * of an `if` with an else branch are those of the same `if` without one,
   * then `falseE: ` at the `if`'s depth, then the else branch at depth
   * `d - 1`. Without else branches and `abort` below it, nothing of the `if`
   * is printed shallower than `d - 1`, and only the else branch goes below `d`.
   */
  lemma ElsePrintedShallower(c: Expr, t: Stmt, e: Stmt, d: int, valueText: Expr -> string)
    ensures StmtLines(If(c, t, Some(e)), d, valueText) ==
      StmtLines(If(c, t, None), d, valueText) + [Indented(d, [Txt("falseE: ")])] + StmtLines(e, d - 1, valueText)
    ensures PrintableStmt(If(c, t, None)) && ElseFree(t) ==> AtLeast(StmtLines(If(c, t, None), d, valueText), d)
    ensures PrintableStmt(e) && ElseFree(e) ==> AtLeast(StmtLines(e, d - 1, valueText), d - 1)
  {
    var s, s0 := If(c, t, Some(e)), If(c, t, None);
    assert StmtLines(s, d, valueText) == IfLines(s, d, valueText);
    assert StmtLines(s0, d, valueText) == IfLines(s0, d, valueText);
    if PrintableStmt(s0) && ElseFree(t) {
      IfLinesAtLeast(s0, d, valueText);
    }
    if PrintableStmt(e) && ElseFree(e) {
      StmtLinesAtLeast(e, d - 1, valueText);
    }
  }

  /** `expr:` and the returned expression are printed exactly when there is a returned expression. */
  lemma ReturnPrintsValueIffPresent(v: Expr, d: int, valueText: Expr -> string)
    requires v == Null || Printable(v)
    ensures |ReturnLines(v, d, valueText)| == 1 <==> v == Null
    ensures v != Null ==> ReturnLines(v, d, valueText)[1] == Indented(d, [Txt("expr:")])
  {
    if v != Null {
      ExprLinesAtLeast(v, d + 1, valueText);
    }
  }

  /** Statements of a list are printed in list order: the lines of a joined list are the joined lines. */
  lemma {:induction false} StmtsLinesAppend(a: seq<Stmt>, b: seq<Stmt>, d: int, valueText: Expr -> string)
    ensures StmtsLines(a + b, d, valueText) == StmtsLines(a, d, valueText) + StmtsLines(b, d, valueText)
    decreases |b|
  {
    if b == [] {
      assert a + b == a;
    } else {
      var b' := b[..|b| - 1];
      assert (a + b)[..|a + b| - 1] == a + b';
      StmtsLinesAppend(a, b', d, valueText);
    }
  }

  /** Functions are printed in declaration order: the lines of a joined list are the joined lines. */
  lemma {:induction false} ProgramLinesAppend(a: seq<FunctionDefinition>, b: seq<FunctionDefinition>, d: int, valueText: Expr -> string)
    ensures ProgramLines(a + b, d, valueText) == ProgramLines(a, d, valueText) + ProgramLines(b, d, valueText)
    decreases |b|
  {
    if b == [] {
      assert a + b == a;
    } else {
      var b', f := b[..|b| - 1], FnDefLines(b[|b| - 1], d, valueText);
      assert (a + b)[..|a + b| - 1] == a + b';
      assert (a + b)[|a + b| - 1] == b[|b| - 1];
      ProgramLinesAppend(a, b', d, valueText);
      calc {
        ProgramLines(a + b, d, valueText);
        ProgramLines(a + b', d, valueText) + f;
        ProgramLines(a, d, valueText) + ProgramLines(b', d, valueText) + f;
        ProgramLines(a, d, valueText) + (ProgramLines(b', d, valueText) + f);
      }
    }
  }

  // ------------------------------------------------------------ the visitor

  /**
   * The visitor over a process that dies at a null dereference: `output`
   * holds `NullDeref` once it has died, and from then on no method writes
   * anything. Each visit is specified by `Run` over the lines it would write.
   */
  class PrintASTVisitor {
    /** `_depth`: the current indentation level. */
    var depth: int
    /** The lines written to standard output so far. */
    var output: seq<OutLine>
    /** The text of a literal's value, which the lexer's value objects supply. */
    const valueText: Expr -> string

    constructor (valueText: Expr -> string)
      ensures depth == 0 && output == [] && this.valueText == valueText
    {
      depth := 0;
      output := [];
      this.valueText := valueText;
    }

    /** `print`: one line at the current depth holding the parts. */
    method PrintLine(parts: seq<Part>)
      modifies this
      ensures depth == old(depth) && output == Run(old(output), [Indented(depth, parts)])
    {
      CutAlive([Indented(depth, parts)]);
      if Alive(output) {
        output := output + [Indented(depth, parts)];
      }
    }

    /** `accept` on a null child: the process dies. */
    method Crash()
      modifies this
      ensures depth == old(depth) && output == Run(old(output), [NullDeref])
      ensures !Alive(output)
    {
      if Alive(output) {
        output := output + [NullDeref];
        assert output[|output| - 1].NullDeref?;
      }
    }

    /** `accept` on an expression: the visit for its node kind. */
    method AcceptExpr(e: Expr)
      modifies this
      ensures depth == old(depth) && output == Run(old(output), ExprLines(e, old(depth), valueText))
      decreases e, 1
    {
      match e
      case Null => Crash();
      case BoolLit(_) => PrintLine([Txt(valueText(e))]);
      case Num(_) => PrintLine([Txt(valueText(e))]);
      case Str(s) => PrintLine([Txt(s), Txt(" : string")]);
      case Ident(n) => PrintLine([Txt(n), Txt(":ID")]);
      case Index(_, _) => VisitArrayExpr(e);
      case Call(_, _) => VisitFnCall(e);
      case Ternary(_, _, _) => VisitTernary(e);
      case Binop(_, _, _) => VisitBinop(e);
      case Unary(_, _) => VisitUnary(e);
      case Sizeof(_) => VisitSizeof(e);
      case Input => PrintLine([Txt("input expr")]);
    }

    /** Visits `e` one level deeper than the current depth. */
    method AcceptNested(e: Expr)
      modifies this
      ensures depth == old(depth) && output == Run(old(output), ExprLines(e, old(depth) + 1, valueText))
      decreases e, 2
    {
      depth := depth + 1;
      AcceptExpr(e);
      depth := depth - 1;
    }

    /** A heading line, then `e` one level deeper. */
    method LabelNested(heading: seq<Part>, e: Expr)
      modifies this
      ensures depth == old(depth)
      ensures output == Run(old(output), [Indented(old(depth), heading)] + ExprLines(e, old(depth) + 1, valueText))
      decreases e, 3
    {
      ghost var o := output;
      PrintLine(heading);
      AcceptNested(e);
      RunAppend(o, [Indented(depth, heading)], ExprLines(e, depth + 1, valueText));
    }

    method VisitArrayExpr(e: Expr)
      requires e.Index?
      modifies this
      ensures depth == old(depth) && output == Run(old(output), ArrayExprLines(e, old(depth), valueText))
      decreases e, 0
    {
      ghost var o, d := output, depth;
      ghost var l1, l2 := Indented(d, [Txt("array expression : ident[expr]")]), Indented(d, [Txt("ident:"), Txt(e.arrayName)]);
      PrintLine([Txt("array expression : ident[expr]")]);
      PrintLine([Txt("ident:"), Txt(e.arrayName)]);
      RunAppend(o, [l1], [l2]);
      LabelNested([Txt("expr:")], e.index);
      RunAppend(o, [l1] + [l2], [Indented(d, [Txt("expr:")])] + ExprLines(e.index, d + 1, valueText));
      assert [l1] + [l2] + ([Indented(d, [Txt("expr:")])] + ExprLines(e.index, d + 1, valueText)) == ArrayExprLines(e, d, valueText);
    }

    method VisitFnCall(e: Expr)
      requires e.Call?
      modifies this
      ensures depth == old(depth) && output == Run(old(output), FnCallLines(e, old(depth), valueText))
      decreases e, 0
    {
      ghost var o, d := output, depth;
      ghost var l1, l2, l3 := Indented(d, [Txt("fn call expression: name(a, b, ...)")]), Indented(d, [Txt("fn_name:"), Txt(e.callee)]), Indented(d, [Txt("fn args:")]);
      PrintLine([Txt("fn call expression: name(a, b, ...)")]);
      PrintLine([Txt("fn_name:"), Txt(e.callee)]);
      RunAppend(o, [l1], [l2]);
      PrintLine([Txt("fn args:")]);
      RunAppend(o, [l1] + [l2], [l3]);
      VisitFnArgs(e.args);
      RunAppend(o, [l1] + [l2] + [l3], ArgLines(e.args, d, valueText));
      assert [l1] + [l2] + [l3] + ArgLines(e.args, d, valueText) == FnCallLines(e, d, valueText);
    }

    /** The arguments of a call, in order: `argexpr:` at the current depth, then the argument one level deeper. */
    method VisitFnArgs(args: seq<Expr>)
      modifies this
      ensures depth == old(depth) && output == Run(old(output), ArgLines(args, depth, valueText))
      decreases args, 0
    {
      ghost var o := output;
      var i := 0;
      while i < |args|
        invariant 0 <= i <= |args| && depth == old(depth)
        invariant output == Run(o, ArgLines(args[..i], depth, valueText))
      {
        ghost var x := [Indented(depth, [Txt("argexpr:")])] + ExprLines(args[i], depth + 1, valueText);
        assert args[..i + 1][..i] == args[..i];
        assert ArgLines(args[..i + 1], depth, valueText) == ArgLines(args[..i], depth, valueText) + x;
        LabelNested([Txt("argexpr:")], args[i]);
        RunAppend(o, ArgLines(args[..i], depth, valueText), x);
        i := i + 1;
      }
      assert args[..|args|] == args;
    }

    method VisitTernary(e: Expr)
      requires e.Ternary?
      modifies this
      ensures depth == old(depth) && output == Run(old(output), TernaryLines(e, old(depth), valueText))
      decreases e, 0
    {
      ghost var o, d := output, depth;
      ghost var l1 := Indented(d, [Txt("(condE?trueE:falseE)")]);
      ghost var x1 := [Indented(d, [Txt("condE")])] + ExprLines(e.cond, d + 1, valueText);
      ghost var x2 := [Indented(d, [Txt("trueE")])] + ExprLines(e.onTrue, d + 1, valueText);
      ghost var x3 := [Indented(d, [Txt("falseE")])] + ExprLines(e.onFalse, d + 1, valueText);
      PrintLine([Txt("(condE?trueE:falseE)")]);
      LabelNested([Txt("condE")], e.cond);
      RunAppend(o, [l1], x1);
      LabelNested([Txt("trueE")], e.onTrue);
      RunAppend(o, [l1] + x1, x2);
      LabelNested([Txt("falseE")], e.onFalse);
      RunAppend(o, [l1] + x1 + x2, x3);
      assert [l1] + x1 + x2 + x3 == TernaryLines(e, d, valueText);
    }

    method VisitBinop(e: Expr)
      requires e.Binop?
      modifies this
      ensures depth == old(depth) && output == Run(old(output), BinopLines(e, old(depth), valueText))
      decreases e, 0
    {
      ghost var o, d := output, depth;
      ghost var l1, l2 := Indented(d, [Txt("(expr1 binop expr2)")]), Indented(d, [Ord(e.op), Txt(":binOp")]);
      ghost var x1 := [Indented(d, [Txt("expr1")])] + ExprLines(e.left, d + 1, valueText);
      ghost var x2 := [Indented(d, [Txt("expr2")])] + ExprLines(e.right, d + 1, valueText);
      PrintLine([Txt("(expr1 binop expr2)")]);
      LabelNested([Txt("expr1")], e.left);
      RunAppend(o, [l1], x1);
      PrintLine([Ord(e.op), Txt(":binOp")]);
      RunAppend(o, [l1] + x1, [l2]);
      LabelNested([Txt("expr2")], e.right);
      RunAppend(o, [l1] + x1 + [l2], x2);
      assert [l1] + x1 + [l2] + x2 == BinopLines(e, d, valueText);
    }

    method VisitUnary(e: Expr)
      requires e.Unary?
      modifies this
      ensures depth == old(depth) && output == Run(old(output), UnaryLines(e, old(depth), valueText))
      decreases e, 0
    {
      ghost var o, d := output, depth;
      ghost var l1, l2 := Indented(d, [Txt("(unaryop expr)")]), Indented(d, [Ord(e.op), Txt(":unaryop")]);
      PrintLine([Txt("(unaryop expr)")]);
      PrintLine([Ord(e.op), Txt(":unaryop")]);
      RunAppend(o, [l1], [l2]);
      AcceptNested(e.operand);
      RunAppend(o, [l1] + [l2], ExprLines(e.operand, d + 1, valueText));
      assert [l1] + [l2] + ExprLines(e.operand, d + 1, valueText) == UnaryLines(e, d, valueText);
    }

    method VisitSizeof(e: Expr)
      requires e.Sizeof?
      modifies this
      ensures depth == old(depth) && output == Run(old(output), SizeofLines(e, old(depth), valueText))
      decreases e, 0
    {
      ghost var o, d := output, depth;
      ghost var x := [Indented(d, [Txt("expr: ")])] + ExprLines(e.arg, d + 1, valueText);
      PrintLine([Txt("sizeof expr")]);
      LabelNested([Txt("expr: ")], e.arg);
      RunAppend(o, [Indented(d, [Txt("sizeof expr")])], x);
      assert [Indented(d, [Txt("sizeof expr")])] + x == SizeofLines(e, d, valueText);
    }

    // ---------------------------------------------------------- statements

    /** `accept` on a statement: the visit for its node kind. */
    method AcceptStmt(s: Stmt)
      modifies this
      ensures depth == old(depth) && output == Run(old(output), StmtLines(s, old(depth), valueText))
      decreases s, 1
    {
      match s
      case Block(ss) => VisitStmtBlock(ss);
      case VarDecl(vars) => VisitVarDecl(vars);
      case ArrayDecl(items) => VisitArrayDecl(items);
      case Print(args) => VisitPrint(args);
      case If(_, _, _) => VisitIf(s);
      case While(_, _) => VisitWhile(s);
      case For(_, _, _) => VisitFor(s);
      case Return(v) => VisitReturn(v);
      case Abort =>
        CutAlive([BaseStmtLine]);
        if Alive(output) {
          output := output + [BaseStmtLine];
        }
      case ArrayAssign(a, ix, v) => VisitArrayAssignment(a, ix, v);
      case VarAssign(n, v) => VisitVarAssignment(n, v);
      case ExprStmt(e) => AcceptExpr(e);
    }

    /** A heading line, then `s` visited at depth `d`, restoring the depth afterwards. */
    method LabelStmtAt(heading: seq<Part>, s: Stmt, d: int)
      modifies this
      ensures depth == old(depth)
      ensures output == Run(old(output), [Indented(old(depth), heading)] + StmtLines(s, d, valueText))
      decreases s, 2
    {
      ghost var o := output;
      PrintLine(heading);
      var saved := depth;
      depth := d;
      AcceptStmt(s);
      depth := saved;
      RunAppend(o, [Indented(depth, heading)], StmtLines(s, d, valueText));
    }

    /** A block's statements, one level deeper. */
    method VisitStmtBlock(ss: seq<Stmt>)
      modifies this
      ensures depth == old(depth) && output == Run(old(output), StmtsLines(ss, old(depth) + 1, valueText))
      decreases ss, 0
    {
      ghost var o := output;
      depth := depth + 1;
      var i := 0;
      while i < |ss|
        invariant 0 <= i <= |ss| && depth == old(depth) + 1
        invariant output == Run(o, StmtsLines(ss[..i], depth, valueText))
      {
        assert ss[..i + 1][..i] == ss[..i];
        AcceptStmt(ss[i]);
        RunAppend(o, StmtsLines(ss[..i], depth, valueText), StmtLines(ss[i], depth, valueText));
        i := i + 1;
      }
      assert ss[..|ss|] == ss;
      depth := depth - 1;
    }

    method VisitVarDecl(vars: seq<VarDeclItem>)
      modifies this
      ensures depth == old(depth) && output == Run(old(output), VarDeclStmtLines(vars, old(depth)))
    {
      ghost var o := output;
      PrintLine([Txt("var declare")]);
      depth := depth + 1;
      VisitVarDeclItems(vars);
      depth := depth - 1;
      RunAppend(o, [Indented(depth, [Txt("var declare")])], VarDeclLines(vars, depth + 1));
    }

    /** The variables of a `var` statement, in order, at the current depth. */
    method VisitVarDeclItems(vars: seq<VarDeclItem>)
      modifies this
      ensures depth == old(depth) && output == Run(old(output), VarDeclLines(vars, depth))
    {
      ghost var o := output;
      var i := 0;
      while i < |vars|
        invariant 0 <= i <= |vars| && depth == old(depth)
        invariant output == Run(o, VarDeclLines(vars[..i], depth))
      {
        ghost var l := Indented(depth, [Txt(vars[i].name), Txt(":"), Ord(vars[i].varType)]);
        assert vars[..i + 1][..i] == vars[..i];
        assert VarDeclLines(vars[..i + 1], depth) == VarDeclLines(vars[..i], depth) + [l];
        PrintLine([Txt(vars[i].name), Txt(":"), Ord(vars[i].varType)]);
        RunAppend(o, VarDeclLines(vars[..i], depth), [l]);
        i := i + 1;
      }
      assert vars[..|vars|] == vars;
    }

    method VisitArrayDecl(items: seq<ArrayDeclItem>)
      modifies this
      ensures depth == old(depth) && output == Run(old(output), ArrayDeclStmtLines(items, old(depth), valueText))
    {
      ghost var o := output;
      PrintLine([Txt("array declare")]);
      depth := depth + 1;
      VisitArrayDeclItems(items);
      depth := depth - 1;
      RunAppend(o, [Indented(depth, [Txt("array declare")])], ArrayDeclLines(items, depth + 1, valueText));
    }

    /** The arrays of an `array` statement, in order, at the current depth: each name, then its size one level deeper. */
    method VisitArrayDeclItems(items: seq<ArrayDeclItem>)
      modifies this
      ensures depth == old(depth) && output == Run(old(output), ArrayDeclLines(items, depth, valueText))
    {
      ghost var o := output;
      var i := 0;
      while i < |items|
        invariant 0 <= i <= |items| && depth == old(depth)
        invariant output == Run(o, ArrayDeclLines(items[..i], depth, valueText))
      {
        ghost var x := [Indented(depth, [Txt(items[i].name)])] + ExprLines(items[i].size, depth + 1, valueText);
        assert items[..i + 1][..i] == items[..i];
        assert ArrayDeclLines(items[..i + 1], depth, valueText) == ArrayDeclLines(items[..i], depth, valueText) + x;
        LabelNested([Txt(items[i].name)], items[i].size);
        RunAppend(o, ArrayDeclLines(items[..i], depth, valueText), x);
        i := i + 1;
      }
      assert items[..|items|] == items;
    }

    method VisitPrint(args: seq<Expr>)
      modifies this
      ensures depth == old(depth) && output == Run(old(output), PrintStmtLines(args, old(depth), valueText))
    {
      ghost var o := output;
      PrintLine([Txt("print: ")]);
      depth := depth + 1;
      VisitPrintArgs(args);
      depth := depth - 1;
      RunAppend(o, [Indented(depth, [Txt("print: ")])], ExprListLines(args, depth + 1, valueText));
    }

    /** The arguments of a `print` statement, in order, at the current depth. */
    method VisitPrintArgs(args: seq<Expr>)
      modifies this
      ensures depth == old(depth) && output == Run(old(output), ExprListLines(args, depth, valueText))
    {
      ghost var o := output;
      var i := 0;
      while i < |args|
        invariant 0 <= i <= |args| && depth == old(depth)
        invariant output == Run(o, ExprListLines(args[..i], depth, valueText))
      {
        assert args[..i + 1][..i] == args[..i];
        AcceptExpr(args[i]);
        RunAppend(o, ExprListLines(args[..i], depth, valueText), ExprLines(args[i], depth, valueText));
        i := i + 1;
      }
      assert args[..|args|] == args;
    }

    /** The else branch is visited after lowering the depth, as the source does. */
    method VisitIf(s: Stmt)
      requires s.If?
      modifies this
      ensures depth == old(depth) && output == Run(old(output), IfLines(s, old(depth), valueText))
      decreases s, 0
    {
      ghost var o, d := output, depth;
      PrintLine([Txt("If(condE) {trueE} [else { falseE}]")]);
      LabelNested([Txt("condE: ")], s.cond);
      ghost var part1 := [Indented(d, [Txt("If(condE) {trueE} [else { falseE}]")])] + ([Indented(d, [Txt("condE: ")])] + ExprLines(s.cond, d + 1, valueText));
      RunAppend(o, [Indented(d, [Txt("If(condE) {trueE} [else { falseE}]")])], [Indented(d, [Txt("condE: ")])] + ExprLines(s.cond, d + 1, valueText));
      LabelStmtAt([Txt("trueE: ")], s.thenStmt, depth + 1);
      ghost var part2 := [Indented(d, [Txt("trueE: ")])] + StmtLines(s.thenStmt, d + 1, valueText);
      RunAppend(o, part1, part2);
      ghost var part3: seq<OutLine> := [];
      if s.elseStmt.Some? {
        LabelStmtAt([Txt("falseE: ")], s.elseStmt.value, depth - 1);
        part3 := [Indented(d, [Txt("falseE: ")])] + StmtLines(s.elseStmt.value, d - 1, valueText);
        RunAppend(o, part1 + part2, part3);
      } else {
        assert part1 + part2 + part3 == part1 + part2;
      }
      assert IfLines(s, d, valueText) == part1 + part2 + part3;
    }

    method VisitWhile(s: Stmt)
      requires s.While?
      modifies this
      ensures depth == old(depth) && output == Run(old(output), WhileLines(s, old(depth), valueText))
      decreases s, 0
    {
      ghost var o, d := output, depth;
      PrintLine([Txt("while (cond) body")]);
      LabelNested([Txt("cond")], s.cond);
      ghost var part1 := [Indented(d, [Txt("while (cond) body")])] + ([Indented(d, [Txt("cond")])] + ExprLines(s.cond, d + 1, valueText));
      RunAppend(o, [Indented(d, [Txt("while (cond) body")])], [Indented(d, [Txt("cond")])] + ExprLines(s.cond, d + 1, valueText));
      LabelStmtAt([Txt("body")], s.body, depth + 1);
      ghost var part2 := [Indented(d, [Txt("body")])] + StmtLines(s.body, d + 1, valueText);
      RunAppend(o, part1, part2);
      assert WhileLines(s, d, valueText) == part1 + part2;
    }

    method VisitFor(s: Stmt)
      requires s.For?
      modifies this
      ensures depth == old(depth) && output == Run(old(output), ForLines(s, old(depth), valueText))
      decreases s, 0
    {
      ghost var o, d := output, depth;
      PrintLine([Txt("for (ident : container) body")]);
      LabelNested([Txt("ident:")], s.ident);
      ghost var part1 := [Indented(d, [Txt("for (ident : container) body")])] + ([Indented(d, [Txt("ident:")])] + ExprLines(s.ident, d + 1, valueText));
      RunAppend(o, [Indented(d, [Txt("for (ident : container) body")])], [Indented(d, [Txt("ident:")])] + ExprLines(s.ident, d + 1, valueText));
      LabelNested([Txt("container:")], s.container);
      ghost var part2 := [Indented(d, [Txt("container:")])] + ExprLines(s.container, d + 1, valueText);
      RunAppend(o, part1, part2);
      LabelStmtAt([Txt("body: ")], s.body, depth + 1);
      ghost var part3 := [Indented(d, [Txt("body: ")])] + StmtLines(s.body, d + 1, valueText);
      RunAppend(o, part1 + part2, part3);
      assert ForLines(s, d, valueText) == part1 + part2 + part3;
    }

    /** A missing return value is skipped; any other is visited. */
    method VisitReturn(v: Expr)
      modifies this
      ensures depth == old(depth) && output == Run(old(output), ReturnLines(v, old(depth), valueText))
    {
      ghost var o := output;
      PrintLine([Txt("return expr")]);
      if v != Null {
        LabelNested([Txt("expr:")], v);
        RunAppend(o, [Indented(depth, [Txt("return expr")])], [Indented(depth, [Txt("expr:")])] + ExprLines(v, depth + 1, valueText));
      } else {
        assert ReturnLines(v, depth, valueText) == [Indented(depth, [Txt("return expr")])];
      }
    }

    method VisitArrayAssignment(a: string, ix: Expr, v: Expr)
      modifies this
      ensures depth == old(depth) && output == Run(old(output), ArrayAssignLines(a, ix, v, old(depth), valueText))
    {
      ghost var o, d := output, depth;
      PrintLine([Txt("ident[idxExpr] = expr")]);
      PrintLine([Txt("ident:"), Txt(a)]);
      RunAppend(o, [Indented(d, [Txt("ident[idxExpr] = expr")])], [Indented(d, [Txt("ident:"), Txt(a)])]);
      LabelNested([Txt("idxExpr:")], ix);
      ghost var head := [Indented(d, [Txt("ident[idxExpr] = expr")])] + [Indented(d, [Txt("ident:"), Txt(a)])];
      ghost var x1 := [Indented(d, [Txt("idxExpr:")])] + ExprLines(ix, d + 1, valueText);
      RunAppend(o, head, x1);
      ghost var mid := output;
      PrintLine([Txt("=")]);
      LabelNested([Txt("expr:")], v);
      ghost var x2 := [Indented(d, [Txt("expr:")])] + ExprLines(v, d + 1, valueText);
      RunAppend(mid, [Indented(d, [Txt("=")])], x2);
      RunAppend(o, head + x1, [Indented(d, [Txt("=")])] + x2);
      ArrayAssignLinesSplit(a, ix, v, d, valueText);
    }

    method VisitVarAssignment(n: string, v: Expr)
      modifies this
      ensures depth == old(depth) && output == Run(old(output), VarAssignLines(n, v, old(depth), valueText))
    {
      ghost var o, d := output, depth;
      ghost var l1, l2 := Indented(d, [Txt("name = expr")]), Indented(d, [Txt("name: "), Txt(n)]);
      ghost var x := [Indented(d, [Txt("expr:")])] + ExprLines(v, d + 1, valueText);
      PrintLine([Txt("name = expr")]);
      PrintLine([Txt("name: "), Txt(n)]);
      RunAppend(o, [l1], [l2]);
      LabelNested([Txt("expr:")], v);
      RunAppend(o, [l1] + [l2], x);
      assert [l1] + [l2] + x == VarAssignLines(n, v, d, valueText);
    }

    // ---------------------------------------------------------- program

    /** `FunctionDefinition::print`, straight to the stream; a process that has died writes nothing. */
    method PrintFnHeader(proto: FunctionPrototype)
      modifies this
      ensures depth == old(depth) && output == Run(old(output), HeaderLines(proto))
    {
      if !Alive(output) {
        return;
      }
      ghost var o := output;
      output := output + [Unindented([]), Unindented([Txt("-------------------")]), Unindented([Txt("FnName: "), Txt(proto.name)]),
                          Unindented([Txt("FnType: "), Ord(proto.fnType)]), Unindented([Txt("Args :")])];
      ghost var start := output;
      var params := proto.params;
      var i := 0;
      while i < |params|
        invariant 0 <= i <= |params| && depth == old(depth)
        invariant output == start + ParamLines(params[..i])
      {
        assert params[..i + 1][..i] == params[..i];
        var line := Unindented([Txt(params[i].name), Txt(" "), Ord(params[i].paramType)]);
        assert ParamLines(params[..i + 1]) == ParamLines(params[..i]) + [line];
        output := output + [line];
        i := i + 1;
      }
      assert params[..|params|] == params;
      assert output == o + HeaderLines(proto);
      ParamLinesNoCrash(params);
      RunAlive(o, HeaderLines(proto));
    }

    /** One function of `visitProgramAST`: its header, then its body block; a missing body is a null dereference. */
    method VisitFnDef(def: FunctionDefinition)
      modifies this
      ensures depth == old(depth) && output == Run(old(output), FnDefLines(def, old(depth), valueText))
    {
      ghost var o := output;
      PrintFnHeader(def.proto);
      if def.body.Some? {
        VisitStmtBlock(def.body.value);
        RunAppend(o, HeaderLines(def.proto), StmtsLines(def.body.value, depth + 1, valueText));
      } else {
        Crash();
        RunAppend(o, HeaderLines(def.proto), [NullDeref]);
      }
    }

    /** `visitProgramAST`: each function's header, then its body block. */
    method VisitProgramAST(defs: seq<FunctionDefinition>)
      modifies this
      ensures depth == old(depth) && output == Run(old(output), ProgramLines(defs, old(depth), valueText))
    {
      ghost var o, d := output, depth;
      var i := 0;
      while i < |defs|
        invariant 0 <= i <= |defs| && depth == d
        invariant output == Run(o, ProgramLines(defs[..i], d, valueText))
      {
        ProgramLinesStep(defs, i, d, valueText);
        VisitFnDef(defs[i]);
        RunAppend(o, ProgramLines(defs[..i], d, valueText), FnDefLines(defs[i], d, valueText));
        i := i + 1;
      }
      assert defs[..|defs|] == defs;
    }
  }
}
