/**
 * The code generator (src/codegenvisitor.cpp): a visitor that walks the AST
 * and appends instructions and basic blocks through an IR builder. LLVM is
 * replaced by the abstract IR of module Ir; the builder is a class of its
 * own, as `IRBuilder` is, and the visitor keeps the scope stack, the
 * array-cleanup stack and the named values the source keeps.
 */
module Codegen {
  import opened Basics
  import opened Tokens
  import opened Ast
  import opened Ir

  /**
   * How a lowering step ended: normally, by throwing the compiler's
   * `Exception` (or a library exception) with a message, or by an LLVM call
   * on a null pointer, which the source does not guard against.
   */
  datatype Status = Ok | Threw(msg: string) | Crashed(why: string)

  /** A function's type in the module: its return type and parameter types. */
  datatype FnSig = FnSig(ret: Ty, params: seq<Ty>)

  /** One `_arrayDecls` entry: the block that declared the array and its `llvm.stacksave` value. */
  datatype Cleanup = Cleanup(scope: nat, saved: Value)

  /**
   * What a `return` left for its block to return: nothing, a value, or the
   * null value `UpdateToIntWidth` gives for a value of the non-integer type
   * `ty`.
   */
  datatype RetPlan = NoValue | RetValue(v: Value) | NullValue(ty: Ty)

  /** A value to return is an integer; a null value stands for one that is not. */
  predicate PlanTyped(p: RetPlan) {
    (p.RetValue? ==> p.v.ty.IntTy?) && (p.NullValue? ==> !p.ty.IntTy?)
  }

  // ------------------------------------------------------------ run-time functions

  const PrintString: string := "__l_print_string"
  const PrintInt: string := "__l_print_int"
  const AbortFn: string := "__l_abort"
  const PowFn: string := "__l_pow"
  const InputFn: string := "__l_input"
  const StackSaveFn: string := "llvm.stacksave"
  const StackRestoreFn: string := "llvm.stackrestore"
  const MemsetFn: string := "llvm.memset.p0i8.i64"

  /**
   * The functions `declareRuntimeFns` puts in the module before any of the
   * program's own, with integers of width `w` where the source uses the
   * `int` type.
   */
  function RuntimeFns(w: nat): (fns: map<string, FnSig>)
    ensures fns.Keys == {PrintString, PrintInt, AbortFn, PowFn, InputFn, StackSaveFn, StackRestoreFn, MemsetFn}
    ensures fns[PowFn] == FnSig(IntTy(w), [IntTy(w), IntTy(w)])
    ensures fns[PrintInt] == FnSig(VoidTy, [IntTy(64)]) && fns[InputFn] == FnSig(IntTy(64), [])
  {
    map[PrintString := FnSig(VoidTy, [BytePtr]),
        PrintInt := FnSig(VoidTy, [IntTy(64)]),
        InputFn := FnSig(IntTy(64), []),
        PowFn := FnSig(IntTy(w), [IntTy(w), IntTy(w)]),
        AbortFn := FnSig(VoidTy, []),
        StackSaveFn := FnSig(BytePtr, []),
        StackRestoreFn := FnSig(VoidTy, [BytePtr]),
        MemsetFn := FnSig(VoidTy, [BytePtr, IntTy(8), IntTy(64), IntTy(1)])]
  }

  // ------------------------------------------------------------ block growth

  /** The block with more instructions at its end. */
  function Appended(blk: BasicBlock, insts: seq<Inst>): BasicBlock {
    BasicBlock(blk.labelId, blk.name, blk.insts + insts)
  }

  /** The last instruction of a non-empty block. */
  function LastInst(blk: BasicBlock): Inst
    requires |blk.insts| > 0
  {
    blk.insts[|blk.insts| - 1]
  }

  /** Whether `tail` ends `insts`. */
  predicate EndsWith(insts: seq<Inst>, tail: seq<Inst>) {
    |tail| <= |insts| && insts[|insts| - |tail|..] == tail
  }

  /**
   * How lowering changes a function's blocks: blocks are only added at the
   * end, the block the builder started in only gains instructions at its
   * end, every other existing block is left alone, and the builder ends in
   * the block it started in or in a block added since.
   */
  predicate Grows(b0: seq<BasicBlock>, c0: nat, b1: seq<BasicBlock>, c1: nat) {
    c0 < |b0| <= |b1| && c1 < |b1| && (c1 == c0 || |b0| <= c1) &&
    (forall i {:trigger b0[i]} :: 0 <= i < |b0| && i != c0 ==> b1[i] == b0[i]) &&
    b1[c0].labelId == b0[c0].labelId && b1[c0].name == b0[c0].name && b0[c0].insts <= b1[c0].insts
  }

  /** An instruction position: a block's index in the function and the instruction's index in the block. */
  type InstPos = (nat, nat)

  /** `p` names an instruction of `blocks`. */
  predicate InFunction(blocks: seq<BasicBlock>, p: InstPos) {
    p.0 < |blocks| && p.1 < |blocks[p.0].insts|
  }

  /** `p` comes before `q`: in an earlier block, or earlier in the same block. */
  predicate Before(p: InstPos, q: InstPos) {
    p.0 < q.0 || (p.0 == q.0 && p.1 < q.1)
  }

  /**
   * The instruction at `p` is the print call for argument `a`: a string
   * literal's text to `__l_print_string`, any other value to `__l_print_int`.
   */
  predicate PrintCallAt(blocks: seq<BasicBlock>, p: InstPos, a: Expr) {
    InFunction(blocks, p) && blocks[p.0].insts[p.1].Call? && |blocks[p.0].insts[p.1].args| == 1 &&
    (a.Str? ==> blocks[p.0].insts[p.1].callee == PrintString && blocks[p.0].insts[p.1].args == [Value(BytePtr, GlobalStr(a.s))]) &&
    (!a.Str? ==> blocks[p.0].insts[p.1].callee == PrintInt)
  }

  /** Growing keeps every instruction already emitted where it is. */
  lemma GrowsKeepsInst(b0: seq<BasicBlock>, c0: nat, b1: seq<BasicBlock>, c1: nat, p: InstPos)
    requires Grows(b0, c0, b1, c1) && InFunction(b0, p)
    ensures InFunction(b1, p) && b1[p.0].insts[p.1] == b0[p.0].insts[p.1]
  {
    if p.0 == c0 {
      assert b0[c0].insts <= b1[c0].insts;
    }
  }

  lemma GrowsTrans(b0: seq<BasicBlock>, c0: nat, b1: seq<BasicBlock>, c1: nat, b2: seq<BasicBlock>, c2: nat)
    requires Grows(b0, c0, b1, c1) && Grows(b1, c1, b2, c2)
    ensures Grows(b0, c0, b2, c2)
  {
    if c1 != c0 {
      assert b2[c0] == b1[c0];
    }
  }

  // ------------------------------------------------------------ the builder

  /**
   * The IR builder of the function being lowered: its blocks in layout
   * order, the insertion block `cur`, and counters for fresh registers and
   * labels. `entryFront` holds what `CreateEntryBlockAlloca` inserts at the
   * start of the entry block, newest first.
   */
  class Builder {
    var blocks: seq<BasicBlock>
    var cur: nat
    var nextReg: nat
    var nextLabel: nat
    var entryFront: seq<Inst>

    predicate Valid()
      reads this
    {
      cur < |blocks|
    }

    constructor ()
      ensures blocks == [BasicBlock(0, "entry", [])] && cur == 0 && entryFront == []
      ensures nextReg == 0 && nextLabel == 1
    {
      blocks := [BasicBlock(0, "entry", [])];
      cur := 0;
      nextReg := 0;
      nextLabel := 1;
      entryFront := [];
    }

    /** A new function: its entry block is the only block and the insertion point. */
    method StartFunction()
      modifies this
      ensures blocks == [BasicBlock(old(nextLabel), "entry", [])] && cur == 0 && entryFront == []
      ensures nextReg == old(nextReg) && nextLabel == old(nextLabel) + 1
    {
      blocks := [BasicBlock(nextLabel, "entry", [])];
      cur := 0;
      nextLabel := nextLabel + 1;
      entryFront := [];
    }

    /** Appends instructions at the insertion point. */
    method Emit(insts: seq<Inst>)
      requires Valid()
      modifies this
      ensures blocks == old(blocks)[old(cur) := Appended(old(blocks)[old(cur)], insts)]
      ensures cur == old(cur) && nextReg == old(nextReg) && nextLabel == old(nextLabel)
      ensures entryFront == old(entryFront)
      ensures Valid() && Grows(old(blocks), old(cur), blocks, cur)
    {
      blocks := blocks[cur := Appended(blocks[cur], insts)];
    }

    /** Reserves `k` fresh registers, numbered from the result on. */
    method Reserve(k: nat) returns (r: nat)
      modifies this
      ensures r == old(nextReg) && nextReg == r + k
      ensures blocks == old(blocks) && cur == old(cur) && nextLabel == old(nextLabel) && entryFront == old(entryFront)
    {
      r := nextReg;
      nextReg := nextReg + k;
    }

    /** `BasicBlock::Create` without a parent: a label for a block added later. */
    method NewLabel() returns (l: nat)
      modifies this
      ensures l == old(nextLabel) && nextLabel == l + 1
      ensures blocks == old(blocks) && cur == old(cur) && nextReg == old(nextReg) && entryFront == old(entryFront)
    {
      l := nextLabel;
      nextLabel := nextLabel + 1;
    }

    /** Adds an empty block with label `l` at the end of the function. */
    method AppendBlock(l: nat, name: string) returns (pos: nat)
      requires Valid()
      modifies this
      ensures blocks == old(blocks) + [BasicBlock(l, name, [])] && pos == |old(blocks)|
      ensures cur == old(cur) && nextReg == old(nextReg) && nextLabel == old(nextLabel) && entryFront == old(entryFront)
      ensures Valid() && Grows(old(blocks), old(cur), blocks, cur)
    {
      pos := |blocks|;
      blocks := blocks + [BasicBlock(l, name, [])];
    }

    /** `BasicBlock::Create(..., func)`: a new empty block at the end of the function. */
    method CreateBlock(name: string) returns (pos: nat, l: nat)
      requires Valid()
      modifies this
      ensures l == old(nextLabel) && nextLabel == l + 1
      ensures blocks == old(blocks) + [BasicBlock(l, name, [])] && pos == |old(blocks)|
      ensures cur == old(cur) && nextReg == old(nextReg) && entryFront == old(entryFront)
      ensures Valid() && Grows(old(blocks), old(cur), blocks, cur)
    {
      l := NewLabel();
      pos := AppendBlock(l, name);
    }

    /**
     * The array access both `ArrayExpr` and `ArrayAssignment` make at the
     * insertion point: loads of the array record's size and data pointer and
     * the first test, the blocks `gt0checkbb`, `failbb` and `fullypassbb`, and
     * the insertion point moved to `fullypassbb`.
     */
    method EmitBoundsCheck(arr: Value, idx: Value, w: nat) returns (data: Value, r: nat)
      requires Valid()
      modifies this
      ensures r == old(nextReg) && nextReg == r + 7 && nextLabel == old(nextLabel) + 3
      ensures data == Value(PtrTy(IntPtr(w)), Reg(r + 3))
      ensures blocks == WithCheck(old(blocks), old(cur), arr, idx, w, r, old(nextLabel))
      ensures cur == |old(blocks)| + 2 && entryFront == old(entryFront)
      ensures Valid() && Grows(old(blocks), old(cur), blocks, cur)
      ensures BoundsDiamond(blocks, old(cur), |old(blocks)|, |old(blocks)| + 1, |old(blocks)| + 2, idx, Value(IntTy(w), Reg(r + 1)))
    {
      CheckBlocksMakeDiamond(blocks, cur, arr, idx, w, nextReg, nextLabel);
      r := nextReg;
      blocks := WithCheck(blocks, cur, arr, idx, w, r, nextLabel);
      cur := |blocks| - 1;
      nextReg := r + 7;
      nextLabel := nextLabel + 3;
      data := Value(PtrTy(IntPtr(w)), Reg(r + 3));
    }

    /**
     * The address both array accesses compute: the bounds check, then in
     * `fullypassbb` the element's address from the data pointer and the index.
     */
    method EmitCheckedAddr(arr: Value, idx: Value, w: nat) returns (ptr: Value)
      requires Valid()
      modifies this
      ensures Valid() && Grows(old(blocks), old(cur), blocks, cur)
      ensures cur == |old(blocks)| + 2 && |blocks| == cur + 1 && entryFront == old(entryFront)
      ensures blocks[cur].name == "fullypassbb" && |blocks[cur].insts| == 1
      ensures blocks[cur].insts[0].ElemAddr? && blocks[cur].insts[0].index == idx
      ensures ptr == Value(IntPtr(w), Reg(blocks[cur].insts[0].dst))
    {
      ghost var b0, c0 := blocks, cur;
      var data, r := EmitBoundsCheck(arr, idx, w);
      ghost var b1, c1 := blocks, cur;
      var q := Reserve(1);
      Emit([ElemAddr(q, data, idx)]);
      GrowsTrans(b0, c0, b1, c1, blocks, cur);
      ptr := Value(IntPtr(w), Reg(q));
    }

    /** The load `ArrayExpr` makes: the checked address, then a load through it in `fullypassbb`. */
    method EmitCheckedLoad(arr: Value, idx: Value, w: nat) returns (v: Value)
      requires Valid()
      modifies this
      ensures Valid() && Grows(old(blocks), old(cur), blocks, cur)
      ensures cur == |old(blocks)| + 2 && |blocks| == cur + 1 && entryFront == old(entryFront)
      ensures GuardedAccess(blocks[cur].insts, idx, w, v) && blocks[cur].name == "fullypassbb"
    {
      ghost var b0, c0 := blocks, cur;
      var ptr := EmitCheckedAddr(arr, idx, w);
      ghost var b1 := blocks;
      var q := Reserve(1);
      Emit([Load(q, ptr)]);
      GrowsTrans(b0, c0, b1, cur, blocks, cur);
      v := Value(IntTy(w), Reg(q));
    }

    /**
     * The start of a `while` loop: its three blocks added empty, a branch to
     * the header ending the insertion block, and the header as the
     * insertion point.
     */
    method StartLoop(hdrName: string, bodyName: string, afterName: string) returns (hp: nat)
      requires Valid()
      modifies this
      ensures hp == |old(blocks)| && cur == hp && |blocks| == hp + 3 && nextLabel == old(nextLabel) + 3
      ensures blocks[old(cur)] == Appended(old(blocks)[old(cur)], [Br(old(nextLabel))])
      ensures blocks[hp] == BasicBlock(old(nextLabel), hdrName, []) && blocks[hp + 1] == BasicBlock(old(nextLabel) + 1, bodyName, []) &&
        blocks[hp + 2] == BasicBlock(old(nextLabel) + 2, afterName, [])
      ensures nextReg == old(nextReg) && entryFront == old(entryFront)
      ensures Valid() && Grows(old(blocks), old(cur), blocks, cur)
    {
      hp := |blocks|;
      var l := nextLabel;
      blocks := blocks[cur := Appended(blocks[cur], [Br(l)])] +
        [BasicBlock(l, hdrName, []), BasicBlock(l + 1, bodyName, []), BasicBlock(l + 2, afterName, [])];
      cur := hp;
      nextLabel := l + 3;
    }

    /**
     * The start of a `for` loop over the array record `arr`, with the
     * registers from `r`: `ForInit` ending the insertion block, a header
     * holding `ForHeader`, a body entered by `ForEntry` as the new insertion
     * point, and an empty block after the loop.
     */
    method StartForLoop(arr: Value, ident: string, w: nat, r: nat) returns (hp: nat)
      requires Valid()
      modifies this
      ensures hp == |old(blocks)| && cur == hp + 1 && |blocks| == hp + 3 && nextLabel == old(nextLabel) + 3
      ensures blocks[old(cur)] == Appended(old(blocks)[old(cur)], ForInit(arr, ident, w, r, old(nextLabel)))
      ensures blocks[hp] == BasicBlock(old(nextLabel), "forloop.header", ForHeader(w, r, old(nextLabel) + 1, old(nextLabel) + 2))
      ensures blocks[hp + 1] == BasicBlock(old(nextLabel) + 1, "forloop.body", ForEntry(w, r))
      ensures blocks[hp + 2] == BasicBlock(old(nextLabel) + 2, "forloop.after", [])
      ensures nextReg == old(nextReg) && entryFront == old(entryFront)
      ensures Valid() && Grows(old(blocks), old(cur), blocks, cur)
    {
      hp := |blocks|;
      var l := nextLabel;
      blocks := blocks[cur := Appended(blocks[cur], ForInit(arr, ident, w, r, l))] +
        [BasicBlock(l, "forloop.header", ForHeader(w, r, l + 1, l + 2)), BasicBlock(l + 1, "forloop.body", ForEntry(w, r)),
         BasicBlock(l + 2, "forloop.after", [])];
      cur := hp + 1;
      nextLabel := l + 3;
    }

    /**
     * The start of an `if`: a `then` block added to the function, labels
     * drawn for `else` and `ifcont`, a conditional branch to `then` and to
     * `else` (or to `ifcont` when there is no else branch) ending the
     * insertion block, and `then` as the insertion point.
     */
    method StartIf(cv: Value, hasElse: bool) returns (tp: nat)
      requires Valid()
      modifies this
      ensures tp == |old(blocks)| && cur == tp && |blocks| == tp + 1 && nextLabel == old(nextLabel) + 3
      ensures blocks[old(cur)] == Appended(old(blocks)[old(cur)], [CondBr(cv, old(nextLabel), if hasElse then old(nextLabel) + 1 else old(nextLabel) + 2)])
      ensures blocks[tp] == BasicBlock(old(nextLabel), "then", [])
      ensures nextReg == old(nextReg) && entryFront == old(entryFront)
      ensures Valid() && Grows(old(blocks), old(cur), blocks, cur)
    {
      tp := |blocks|;
      var l := nextLabel;
      blocks := blocks[cur := Appended(blocks[cur], [CondBr(cv, l, if hasElse then l + 1 else l + 2)])] + [BasicBlock(l, "then", [])];
      cur := tp;
      nextLabel := l + 3;
    }

    /**
     * The instructions of one array declaration: a `stacksave` into a fresh
     * register `r`, then the record of `CreateAllocaArray`, in the insertion block.
     */
    method EmitArrayAlloca(name: string, size: Value, w: nat) returns (r: nat)
      requires Valid()
      modifies this
      ensures r == old(nextReg) && nextReg == r + 6 && nextLabel == old(nextLabel) && entryFront == old(entryFront)
      ensures Valid() && cur == old(cur) && Grows(old(blocks), old(cur), blocks, cur)
      ensures EndsWith(blocks[cur].insts, [StackSave(r)] + AllocaArrayInsts(name, size, w, r + 1))
    {
      r := nextReg;
      nextReg := nextReg + 6;
      var insts := [StackSave(r)] + AllocaArrayInsts(name, size, w, r + 1);
      blocks := blocks[cur := Appended(blocks[cur], insts)];
      assert blocks[cur].insts == old(blocks)[cur].insts + insts;
    }

    /**
     * The parameters' slots, in parameter order: `CreateEntryBlockAlloca` for
     * each in front of the entry block, and the store of each argument into
     * its slot at the insertion point. The loop collects both and adds them to
     * the function at the end, which leaves the same instructions in the same
     * places.
     */
    method AllocaParams(names: seq<string>, tys: seq<Ty>, w: nat) returns (r0: nat)
      requires Valid() && |names| == |tys|
      modifies this
      ensures r0 == old(nextReg) && nextReg == r0 + |names| && nextLabel == old(nextLabel)
      ensures Valid() && cur == old(cur)
      ensures blocks == old(blocks)[old(cur) := Appended(old(blocks)[old(cur)], ParamStores(tys, r0))]
      ensures entryFront == ParamAllocas(names, tys, r0, w) + old(entryFront)
    {
      r0 := nextReg;
      var allocas: seq<Inst> := [];
      var stores: seq<Inst> := [];
      var i := 0;
      while i < |names|
        modifies {}
        invariant 0 <= i <= |names|
        invariant allocas == ParamAllocas(names[..i], tys[..i], r0, w)
        invariant stores == ParamStores(tys[..i], r0)
      {
        ParamPrefixStep(names, tys, r0, w, i);
        allocas := EntryAllocaInsts(tys[i], r0 + i, names[i], w) + allocas;
        stores := stores + [Store(Value(tys[i], Param(i)), Value(PtrTy(tys[i]), Reg(r0 + i)))];
        i := i + 1;
      }
      assert names[..i] == names && tys[..i] == tys;
      nextReg := r0 + |names|;
      entryFront := allocas + entryFront;
      blocks := blocks[cur := Appended(blocks[cur], stores)];
    }

    /** Adds an empty block with label `l` at the end of the function and makes it the insertion point. */
    method AppendAndMove(l: nat, name: string) returns (pos: nat)
      requires Valid()
      modifies this
      ensures blocks == old(blocks) + [BasicBlock(l, name, [])] && pos == |old(blocks)| && cur == pos
      ensures nextReg == old(nextReg) && nextLabel == old(nextLabel) && entryFront == old(entryFront)
      ensures Valid() && Grows(old(blocks), old(cur), blocks, cur)
    {
      pos := |blocks|;
      blocks := blocks + [BasicBlock(l, name, [])];
      cur := pos;
    }

    /** Ends the insertion block with `insts` and moves the insertion point to the block at `pos`. */
    method EmitAndMove(insts: seq<Inst>, pos: nat)
      requires Valid() && pos < |blocks|
      modifies this
      ensures blocks == old(blocks)[old(cur) := Appended(old(blocks)[old(cur)], insts)] && cur == pos
      ensures nextReg == old(nextReg) && nextLabel == old(nextLabel) && entryFront == old(entryFront)
      ensures Valid()
    {
      blocks := blocks[cur := Appended(blocks[cur], insts)];
      cur := pos;
    }

    /** `SetInsertPoint`: later instructions go to the block at `pos`. */
    method SetInsertPoint(pos: nat)
      requires pos < |blocks|
      modifies this
      ensures cur == pos && blocks == old(blocks)
      ensures nextReg == old(nextReg) && nextLabel == old(nextLabel) && entryFront == old(entryFront)
    {
      cur := pos;
    }

    /** Inserts instructions before everything else in the entry block. */
    method InsertAtEntry(insts: seq<Inst>)
      modifies this
      ensures entryFront == insts + old(entryFront)
      ensures blocks == old(blocks) && cur == old(cur) && nextReg == old(nextReg) && nextLabel == old(nextLabel)
    {
      entryFront := insts + entryFront;
    }

    /** `GetInsertBlock()->getTerminator()`: whether the insertion block is already terminated. */
    predicate Terminated()
      reads this
      requires Valid()
    {
      HasTerminator(blocks[cur])
    }
  }

  // ------------------------------------------------------------ width coercion

  /** The instructions `UpdateToIntWidth` emits for an integer value: one `sext` or `trunc`, or none. */
  function CoercionInsts(v: Value, toWidth: nat, dst: nat): seq<Inst>
    requires v.ty.IntTy?
  {
    match CoercionFor(v.ty.width, toWidth)
    case Keep => []
    case Widen => [SExt(dst, v, toWidth)]
    case Narrow => [Trunc(dst, v, toWidth)]
  }

  /** The value `UpdateToIntWidth` returns for an integer value. */
  function CoercedValue(v: Value, toWidth: nat, dst: nat): (r: Value)
    requires v.ty.IntTy?
    ensures r.ty == (if v.ty.width == 1 then IntTy(1) else IntTy(toWidth))
    ensures r == v <==> CoercionInsts(v, toWidth, dst) == []
  {
    if CoercionFor(v.ty.width, toWidth) == Keep then v else Value(IntTy(toWidth), Reg(dst))
  }

  // ------------------------------------------------------------ binary and unary operators

  /** What a binary operator lowers to: an arithmetic instruction, a comparison, or a call of `__l_pow`. */
  datatype BinCode = ArithCode(op: ArithOp) | CmpCode(pred: Pred) | PowCall

  /** The switch of the binop visitor; None where it throws "codegen: binop not handled". */
  function BinopCode(k: TokenKind): (c: Option<BinCode>)
    ensures c.Some? <==> IsBinOp(k)
    ensures c == Some(PowCall) <==> k == OpExp
    ensures c.Some? && c.value.CmpCode? <==> k in {OpEqEq, OpNeq, OpGt, OpGte, OpLt, OpLte}
  {
    match k
    case OpAnd => Some(ArithCode(And))
    case OpOr => Some(ArithCode(Or))
    case OpNeq => Some(CmpCode(NE))
    case OpEqEq => Some(CmpCode(EQ))
    case OpGt => Some(CmpCode(SGT))
    case OpGte => Some(CmpCode(SGE))
    case OpLt => Some(CmpCode(SLT))
    case OpLte => Some(CmpCode(SLE))
    case OpAdd => Some(ArithCode(Add))
    case OpMinus => Some(ArithCode(Sub))
    case OpMult => Some(ArithCode(Mul))
    case OpDivide => Some(ArithCode(SDiv))
    case OpMod => Some(ArithCode(SRem))
    case OpExp => Some(PowCall)
    case _ => None
  }

  /** The instruction a binary operator lowers to, defining register `dst`. */
  function BinopInst(c: BinCode, dst: nat, l: Value, r: Value): Inst {
    match c
    case ArithCode(op) => Arith(dst, op, l, r)
    case CmpCode(p) => ICmp(dst, p, l, r)
    case PowCall => Inst.Call(dst, PowFn, [l, r])
  }

  /** The type of its result: comparisons give `i1`, `**` the `int` type, the rest the left operand's type. */
  function BinopTy(c: BinCode, l: Value, w: nat): Ty {
    match c
    case ArithCode(_) => l.ty
    case CmpCode(_) => IntTy(1)
    case PowCall => IntTy(w)
  }

  /** The instruction a unary operator lowers to; None where the visitor throws. */
  function UnaryInst(k: TokenKind, dst: nat, operand: Value): (i: Option<Inst>)
    ensures i.Some? <==> IsUnaryOp(k)
  {
    match k
    case OpBang => Some(Not(dst, operand))
    case OpMinus => Some(Neg(dst, operand))
    case _ => None
  }

  // ------------------------------------------------------------ array access

  /** The `int` type of width `w` and pointers to it. */
  function IntPtr(w: nat): Ty {
    PtrTy(IntTy(w))
  }

  /** `ConstantInt::get(CreateLLVMType(Type_int), c)`. */
  function IntVal(w: nat, c: int): Value {
    Value(IntTy(w), IntConst(c))
  }

  /**
   * What an array access emits in the block it starts in, with registers
   * numbered from `r`: the address and load of the size field (field 0) and
   * of the data field (field 1), the test `idx < size`, and the branch to the
   * second test or to the failure block.
   */
  function CheckHead(arr: Value, idx: Value, w: nat, r: nat, gt0Label: nat, failLabel: nat): seq<Inst> {
    [FieldAddr(r, arr, 0), Load(r + 1, Value(IntPtr(w), Reg(r))),
     FieldAddr(r + 2, arr, 1), Load(r + 3, Value(PtrTy(IntPtr(w)), Reg(r + 2))),
     ICmp(r + 4, SLT, idx, Value(IntTy(w), Reg(r + 1))),
     CondBr(Value(IntTy(1), Reg(r + 4)), gt0Label, failLabel)]
  }

  /** The second test, `idx >= 0`, in block `gt0checkbb`. */
  function GtZeroCheck(idx: Value, w: nat, r: nat, passLabel: nat, failLabel: nat): seq<Inst> {
    [ICmp(r, SGE, idx, IntVal(w, 0)), CondBr(Value(IntTy(1), Reg(r)), passLabel, failLabel)]
  }

  /** Block `failbb`: a call of `__l_abort` and `unreachable`. */
  function FailInsts(r: nat): seq<Inst> {
    [Inst.Call(r, AbortFn, []), Unreachable]
  }

  /**
   * The bounds-check diamond: the head's tail tests `idx < size` and goes to
   * `check` or `fail`, `check` tests `idx >= 0` and goes to `pass` or `fail`,
   * and `fail` aborts.
   */
  predicate BoundsDiamond(blocks: seq<BasicBlock>, head: nat, check: nat, fail: nat, pass: nat, idx: Value, size: Value) {
    head < |blocks| && check < |blocks| && fail < |blocks| && pass < |blocks| &&
    var hs := blocks[head].insts;
    var cs := blocks[check].insts;
    |hs| >= 2 && |cs| == 2 &&
    hs[|hs| - 2].ICmp? && hs[|hs| - 2].pred == SLT && hs[|hs| - 2].lhs == idx && hs[|hs| - 2].rhs == size &&
    hs[|hs| - 1] == CondBr(Value(IntTy(1), Reg(hs[|hs| - 2].dst)), blocks[check].labelId, blocks[fail].labelId) &&
    cs[0].ICmp? && cs[0].pred == SGE && cs[0].lhs == idx && cs[0].rhs == Value(size.ty, IntConst(0)) &&
    cs[1] == CondBr(Value(IntTy(1), Reg(cs[0].dst)), blocks[pass].labelId, blocks[fail].labelId) &&
    |blocks[fail].insts| == 2 && blocks[fail].insts[0].Call? && blocks[fail].insts[0].callee == AbortFn &&
    blocks[fail].insts[1] == Unreachable
  }

  /**
   * Whatever the registers hold, the head's test branches to the second test
   * exactly when the index is below the size, the second test branches to the
   * pass block exactly when the index is not negative, and every other edge
   * goes to the failure block, which ends in `unreachable`: the pass block is
   * reached exactly when `0 <= idx < size`.
   */
  lemma BoundsCheckGuards(blocks: seq<BasicBlock>, head: nat, check: nat, fail: nat, pass: nat,
                          idx: Value, size: Value, regs: map<nat, int>, i: int, s: int)
    requires BoundsDiamond(blocks, head, check, fail, pass, idx, size)
    requires OperandValue(idx, regs) == Some(i) && OperandValue(size, regs) == Some(s)
    ensures BranchTarget(blocks[head].insts[|blocks[head].insts| - 2..], regs) ==
            Some(if i < s then blocks[check].labelId else blocks[fail].labelId)
    ensures BranchTarget(blocks[check].insts, regs) ==
            Some(if 0 <= i then blocks[pass].labelId else blocks[fail].labelId)
    ensures BranchTarget(blocks[fail].insts, regs) == None && IsTerminator(blocks[fail].insts[1])
  {
    var tail := blocks[head].insts[|blocks[head].insts| - 2..];
    assert tail[1..] == [tail[1]];
    assert blocks[check].insts[1..] == [blocks[check].insts[1]];
  }

  /** The three blocks of a bounds check, labelled from `l`: `gt0checkbb`, `failbb` and `fullypassbb`. */
  function CheckBlocks(idx: Value, w: nat, r: nat, l: nat): seq<BasicBlock> {
    [BasicBlock(l, "gt0checkbb", GtZeroCheck(idx, w, r + 6, l + 2, l + 1)),
     BasicBlock(l + 1, "failbb", FailInsts(r + 5)),
     BasicBlock(l + 2, "fullypassbb", [])]
  }

  /** The function after a bounds check at block `c`: the first test ends `c`, the three blocks follow. */
  function WithCheck(blocks: seq<BasicBlock>, c: nat, arr: Value, idx: Value, w: nat, r: nat, l: nat): seq<BasicBlock>
    requires c < |blocks|
  {
    blocks[c := Appended(blocks[c], CheckHead(arr, idx, w, r, l, l + 1))] + CheckBlocks(idx, w, r, l)
  }

  /** A bounds check grows the function, and its blocks make the diamond `BoundsCheckGuards` is about. */
  lemma CheckBlocksMakeDiamond(blocks: seq<BasicBlock>, c: nat, arr: Value, idx: Value, w: nat, r: nat, l: nat)
    requires c < |blocks|
    ensures Grows(blocks, c, WithCheck(blocks, c, arr, idx, w, r, l), |blocks| + 2)
    ensures BoundsDiamond(WithCheck(blocks, c, arr, idx, w, r, l), c, |blocks|, |blocks| + 1, |blocks| + 2, idx, Value(IntTy(w), Reg(r + 1)))
  {
    var nb := WithCheck(blocks, c, arr, idx, w, r, l);
    var hs := nb[c].insts;
    assert hs == blocks[c].insts + CheckHead(arr, idx, w, r, l, l + 1);
    assert hs[|hs| - 2] == CheckHead(arr, idx, w, r, l, l + 1)[4];
    assert hs[|hs| - 1] == CheckHead(arr, idx, w, r, l, l + 1)[5];
    assert nb[|blocks|..] == CheckBlocks(idx, w, r, l);
  }

  /**
   * The pass block of an array read: the element's address from the data
   * pointer and the index, and the load of the `w`-bit element into `v`.
   */
  predicate GuardedAccess(insts: seq<Inst>, idx: Value, w: nat, v: Value) {
    |insts| == 2 && insts[0].ElemAddr? && insts[0].index == idx &&
    v.ty == IntTy(w) && v.ref.Reg? &&
    insts[1] == Load(v.ref.id, Value(IntPtr(w), Reg(insts[0].dst)))
  }

  /** The type a load through a pointer of type `t` yields. */
  function LoadedTy(t: Ty): Ty {
    if t.PtrTy? then t.pointee else t
  }

  /** Moving the insertion point to a block added since keeps the growth relation. */
  lemma GrowsMoveToNew(b0: seq<BasicBlock>, c0: nat, b1: seq<BasicBlock>, c1: nat, c2: nat)
    requires Grows(b0, c0, b1, c1) && |b0| <= c2 < |b1|
    ensures Grows(b0, c0, b1, c2)
  {
  }

  // ------------------------------------------------------------ storage of declared variables

  /**
   * `getTypeSizeInBits` of a sized type: an integer has its own width; an
   * array record `{iW, iW*}` is taken as the integer field padded to 8 bytes
   * followed by a 64-bit pointer. `void` is not sized.
   */
  function SizeInBits(t: Ty): Option<nat> {
    match t
    case IntTy(w) => Some(w)
    case ArrayTy(w) => Some(8 * (RoundUp((w + 7) / 8, 8) + 8))
    case PtrTy(_) => Some(64)
    case VoidTy => None
  }

  /** `n` rounded up to a multiple of `m`. */
  function RoundUp(n: nat, m: nat): nat
    requires m > 0
  {
    (n + m - 1) / m * m
  }

  /**
   * The byte count of the zero fill as written, `bitsSize / 8`: it rounds
   * down, so a value whose width is not a whole number of bytes is not
   * completely cleared.
   */
  function ZeroFillBytesAsWritten(bits: nat): nat {
    bits / 8
  }

  /**
   * The written fill never covers more than the value's bits, and it misses
   * some of them exactly when the width is not a whole number of bytes; a
   * width below one byte, a `bool` (`i1`) among them, gets no fill at all.
   */
  lemma AsWrittenFillMissesBits(bits: nat)
    ensures 8 * ZeroFillBytesAsWritten(bits) <= bits
    ensures 8 * ZeroFillBytesAsWritten(bits) < bits <==> bits % 8 != 0
    ensures ZeroFillBytesAsWritten(bits) == 0 <==> bits < 8
  {
  }

  /** The byte count of the zero fill: the bytes the value is stored in, `(bits + 7) / 8`. */
  function ZeroFillBytes(bits: nat): (n: nat)
    ensures bits <= 8 * n < bits + 8
  {
    (bits + 7) / 8
  }

  /** The corrected fill agrees with the written one exactly on widths that are whole bytes. */
  lemma ZeroFillAgreesOnWholeBytes(bits: nat)
    ensures ZeroFillBytes(bits) == ZeroFillBytesAsWritten(bits) <==> bits % 8 == 0
  {
  }

  /**
   * `CreateEntryBlockAlloca`: the slot, then for a sized type a zero fill of
   * `bitsSize / 8` bytes, as written; both go in front of the entry block.
   */
  function EntryAllocaInsts(t: Ty, r: nat, name: string, w: nat): (insts: seq<Inst>)
    ensures |insts| >= 1 && insts[0] == Alloca(r, t, None, name)
    ensures |insts| == 2 <==> SizeInBits(t).Some?
    ensures |insts| == 2 ==> insts[1] == Memset(Value(PtrTy(t), Reg(r)), IntVal(w, ZeroFillBytesAsWritten(SizeInBits(t).value)))
    ensures |insts| <= 2
  {
    [Alloca(r, t, None, name)] +
    (match SizeInBits(t)
     case Some(bits) => [Memset(Value(PtrTy(t), Reg(r)), IntVal(w, ZeroFillBytesAsWritten(bits)))]
     case None => [])
  }

  /**
   * `CreateAllocaArray` with registers from `r`: a buffer of `size` integers,
   * the array record, the size stored in field 0, a zero fill of
   * `size * (bits(int) / 8)` bytes of the buffer, as written, and the buffer
   * stored in field 1.
   */
  function AllocaArrayInsts(name: string, size: Value, w: nat, r: nat): seq<Inst> {
    var rec := Value(PtrTy(ArrayTy(w)), Reg(r + 1));
    var buf := Value(IntPtr(w), Reg(r));
    [Alloca(r, IntTy(w), Some(size), name),
     Alloca(r + 1, ArrayTy(w), None, ""),
     FieldAddr(r + 2, rec, 0),
     Store(size, Value(IntPtr(w), Reg(r + 2))),
     FieldAddr(r + 3, rec, 1),
     Arith(r + 4, Mul, IntVal(w, ZeroFillBytesAsWritten(w)), size),
     Memset(buf, Value(IntTy(w), Reg(r + 4))),
     Store(buf, Value(PtrTy(IntPtr(w)), Reg(r + 3)))]
  }

  /**
   * The array record is complete: its size field receives `size`, its data
   * field the buffer, and the fill over the buffer is `size` times `w / 8`
   * bytes, which by `AsWrittenFillMissesBits` leaves part of every element
   * unfilled when `w` is not a whole number of bytes.
   */
  lemma AllocaArrayFillsRecord(name: string, size: Value, w: nat, r: nat)
    ensures var insts := AllocaArrayInsts(name, size, w, r);
      insts[0].Alloca? && insts[0].count == Some(size) && insts[1].allocTy == ArrayTy(w) &&
      insts[2] == FieldAddr(r + 2, Value(PtrTy(ArrayTy(w)), Reg(r + 1)), 0) && insts[3].val == size && insts[3].ptr.ref == Reg(r + 2) &&
      insts[4] == FieldAddr(r + 3, Value(PtrTy(ArrayTy(w)), Reg(r + 1)), 1) && insts[7].val.ref == Reg(r) && insts[7].ptr.ref == Reg(r + 3) &&
      insts[5].op == Mul && insts[5].rhs == size && insts[5].lhs == IntVal(w, w / 8) &&
      insts[6] == Memset(Value(IntPtr(w), Reg(r)), Value(IntTy(w), Reg(insts[5].dst)))
  {
  }

  // ------------------------------------------------------------ block cleanup

  /** The innermost block being lowered: the top of `_scope`. */
  function Top(scopes: seq<nat>): nat
    requires |scopes| > 0
  {
    scopes[|scopes| - 1]
  }

  /** `a1` is `a0` with entries pushed on top, every one of them tagged `t`. */
  predicate Pushed(a0: seq<Cleanup>, a1: seq<Cleanup>, t: nat) {
    |a0| <= |a1| && a1[..|a0|] == a0 && forall k :: |a0| <= k < |a1| ==> a1[k].scope == t
  }

  lemma PushedTrans(a0: seq<Cleanup>, a1: seq<Cleanup>, a2: seq<Cleanup>, t: nat)
    requires Pushed(a0, a1, t) && Pushed(a1, a2, t)
    ensures Pushed(a0, a2, t)
  {
    assert a2[..|a0|] == a2[..|a1|][..|a0|];
  }

  /**
   * How many entries at the top of `ds` are tagged `s`: the entries the
   * block-exit loop pops before it meets one of another block.
   */
  function TopRun(ds: seq<Cleanup>, s: nat): (n: nat)
    ensures n <= |ds|
    ensures forall k :: |ds| - n <= k < |ds| ==> ds[k].scope == s
    ensures n < |ds| ==> ds[|ds| - n - 1].scope != s
  {
    if |ds| > 0 && ds[|ds| - 1].scope == s then TopRun(ds[..|ds| - 1], s) + 1 else 0
  }

  /**
   * When a block's number tags none of the entries below what it pushed, the
   * block-exit loop pops exactly what it pushed: the enclosing blocks'
   * entries stay.
   */
  lemma PopsWhatWasPushed(a0: seq<Cleanup>, a1: seq<Cleanup>, s: nat)
    requires Pushed(a0, a1, s)
    requires forall k :: 0 <= k < |a0| ==> a0[k].scope != s
    ensures TopRun(a1, s) == |a1| - |a0|
  {
  }

  /** The `llvm.stackrestore` calls for the entries `es`, the top (last) one first. */
  function RestoresLifo(es: seq<Cleanup>): (r: seq<Inst>)
    ensures |r| == |es|
    ensures forall k :: 0 <= k < |es| ==> r[k] == StackRestore(es[|es| - 1 - k].saved)
  {
    if es == [] then [] else RestoresLifo(es[1..]) + [StackRestore(es[0].saved)]
  }

  // ------------------------------------------------------------ returns

  /** The position of the first `return` among a block's statements, or their count. */
  function FirstReturn(ss: seq<Stmt>): (r: nat)
    ensures r <= |ss| && (r < |ss| ==> ss[r].Return?)
    ensures forall k :: 0 <= k < r ==> !ss[k].Return?
  {
    if ss == [] then 0
    else if ss[0].Return? then 0
    else 1 + FirstReturn(ss[1..])
  }

  /** How many of a block's statements are lowered: up to and including the first `return`. */
  function Lowered(ss: seq<Stmt>): nat {
    if FirstReturn(ss) < |ss| then FirstReturn(ss) + 1 else |ss|
  }

  // ------------------------------------------------------------ for loops

  /**
   * The code before a `for` loop, with the eleven registers from `r` that
   * the loop uses: the loop variable's
   * slot, the array's data and size, a counter slot set to 0, and the jump
   * to the header.
   */
  function ForInit(arr: Value, ident: string, w: nat, r: nat, hdrLabel: nat): seq<Inst> {
    [Alloca(r, IntTy(w), None, ident),
     FieldAddr(r + 1, arr, 0),
     FieldAddr(r + 2, arr, 1),
     Load(r + 3, Value(PtrTy(IntPtr(w)), Reg(r + 2))),
     Load(r + 4, Value(IntPtr(w), Reg(r + 1))),
     Alloca(r + 5, IntTy(w), None, ""),
     Store(IntVal(w, 0), Value(IntPtr(w), Reg(r + 5))),
     Br(hdrLabel)]
  }

  /** The loop header: load the counter, compare it with the size, enter the body or leave. */
  function ForHeader(w: nat, r: nat, bodyLabel: nat, afterLabel: nat): seq<Inst> {
    [Load(r + 6, Value(IntPtr(w), Reg(r + 5))),
     ICmp(r + 7, SLT, Value(IntTy(w), Reg(r + 6)), Value(IntTy(w), Reg(r + 4))),
     CondBr(Value(IntTy(1), Reg(r + 7)), bodyLabel, afterLabel)]
  }

  /** The body's entry: the element at the counter is loaded into the loop variable. */
  function ForEntry(w: nat, r: nat): seq<Inst> {
    [ElemAddr(r + 8, Value(PtrTy(IntPtr(w)), Reg(r + 3)), Value(IntTy(w), Reg(r + 6))),
     Load(r + 9, Value(IntPtr(w), Reg(r + 8))),
     Store(Value(IntTy(w), Reg(r + 9)), Value(IntPtr(w), Reg(r)))]
  }

  /** After the body: the counter plus one is stored back, and the back edge. */
  function ForLatch(w: nat, r: nat, hdrLabel: nat): seq<Inst> {
    [Arith(r + 10, Add, Value(IntTy(w), Reg(r + 6)), IntVal(w, 1)),
     Store(Value(IntTy(w), Reg(r + 10)), Value(IntPtr(w), Reg(r + 5))),
     Br(hdrLabel)]
  }

  /** The header enters the body exactly while the counter is below the size. */
  lemma ForHeaderBranches(w: nat, r: nat, bodyLabel: nat, afterLabel: nat, regs: map<nat, int>)
    requires r + 6 in regs && r + 4 in regs
    ensures BranchTarget(ForHeader(w, r, bodyLabel, afterLabel)[1..], regs) ==
      Some(if regs[r + 6] < regs[r + 4] then bodyLabel else afterLabel)
  {
    var tail := ForHeader(w, r, bodyLabel, afterLabel)[1..];
    assert tail[1..] == [tail[1]];
  }

  /**
   * The counter's `add` never wraps: it runs from 0 while below a size that
   * fits the `int` width, so the incremented value fits too.
   */
  lemma ForCounterNoWrap(k: int, size: int, w: nat)
    requires w >= 1 && InRange(size, w) && 0 <= k < size
    ensures Wrap(k + 1, w) == k + 1
  {
    TruncKeepsFittingValue(k + 1, w);
  }

  // ------------------------------------------------------------ functions and the program

  const VoidParamMsg: string := "void type in fn param not allowed"

  /** The message of the declaration pass for a name the module already has. */
  function AlreadyDeclaredMsg(name: string): string {
    "Function name " + name + " already exist in llvm module"
  }

  /** Whether some parameter is declared `void`. */
  predicate HasVoidParam(ps: seq<FnParam>) {
    exists i :: 0 <= i < |ps| && ps[i].paramType == TypeVoid
  }

  /** The types of the parameters in order, or None when one of them has no LLVM type (a null type). */
  function ParamTys(ps: seq<FnParam>, w: nat): (r: Option<seq<Ty>>)
    ensures r.Some? ==> |r.value| == |ps|
  {
    if ps == [] then Some([])
    else
      var front := ParamTys(ps[..|ps| - 1], w);
      var last := LlvmType(ps[|ps| - 1].paramType, w);
      if front.Some? && last.Some? then Some(front.value + [last.value]) else None
  }

  /** Parameter types are found exactly when every parameter has one, each the type of its keyword. */
  lemma {:induction false} ParamTysAgree(ps: seq<FnParam>, w: nat)
    ensures ParamTys(ps, w).Some? <==> forall i :: 0 <= i < |ps| ==> LlvmType(ps[i].paramType, w).Some?
    ensures ParamTys(ps, w).Some? ==> forall i :: 0 <= i < |ps| ==> ParamTys(ps, w).value[i] == LlvmType(ps[i].paramType, w).value
  {
    if ps != [] {
      var ps' := ps[..|ps| - 1];
      ParamTysAgree(ps', w);
      assert forall i :: 0 <= i < |ps'| ==> ps'[i] == ps[i];
    }
  }

  /** What declaring one prototype gives: its function type, or why there is none. */
  datatype SigOutcome = SigOk(sig: FnSig) | SigFailed(st: Status)

  /**
   * The function type of a prototype: a `void` parameter throws; otherwise a
   * return or parameter type keyword with no LLVM type reaches
   * `FunctionType::get` as a null type.
   */
  function SigOf(proto: FunctionPrototype, w: nat): SigOutcome {
    if HasVoidParam(proto.params) then SigFailed(Threw(VoidParamMsg))
    else
      var ret := LlvmType(proto.fnType, w);
      var tys := ParamTys(proto.params, w);
      if ret.Some? && tys.Some? then SigOk(FnSig(ret.value, tys.value))
      else SigFailed(Crashed("function type with a null type"))
  }

  /** What the declaration pass gives: the module's functions, or the failure that ended it. */
  datatype DeclOutcome = Declared(fns: map<string, FnSig>) | DeclFailed(st: Status)

  /**
   * The first pass of `Program`: each function in order is added to the
   * module's functions `fns`; a name the module already has (one of the
   * program's or a run-time function) throws.
   */
  function Declare(defs: seq<FunctionDefinition>, fns: map<string, FnSig>, w: nat): DeclOutcome
    decreases |defs|
  {
    if defs == [] then Declared(fns)
    else
      var p := defs[0].proto;
      if p.name in fns then DeclFailed(Threw(AlreadyDeclaredMsg(p.name)))
      else
        match SigOf(p, w)
        case SigFailed(st) => DeclFailed(st)
        case SigOk(sig) => Declare(defs[1..], fns[p.name := sig], w)
  }

  /** Whether the functions' names are pairwise distinct and none is in `fns` already. */
  predicate FreshNames(defs: seq<FunctionDefinition>, fns: map<string, FnSig>) {
    (forall i :: 0 <= i < |defs| ==> defs[i].proto.name !in fns) &&
    (forall i, j :: 0 <= i < j < |defs| ==> defs[i].proto.name != defs[j].proto.name)
  }

  /** Whether every prototype has a function type. */
  predicate AllTyped(defs: seq<FunctionDefinition>, w: nat) {
    forall i :: 0 <= i < |defs| ==> SigOf(defs[i].proto, w).SigOk?
  }

  /** The declaration pass succeeds exactly when the names are fresh and distinct and every prototype has a type. */
  lemma {:induction false} DeclareSucceedsIff(defs: seq<FunctionDefinition>, fns: map<string, FnSig>, w: nat)
    ensures Declare(defs, fns, w).Declared? <==> FreshNames(defs, fns) && AllTyped(defs, w)
    decreases |defs|
  {
    if defs != [] {
      var p := defs[0].proto;
      var rest := defs[1..];
      assert forall i :: 0 <= i < |rest| ==> rest[i] == defs[i + 1];
      if p.name !in fns && SigOf(p, w).SigOk? {
        var fns' := fns[p.name := SigOf(p, w).sig];
        DeclareSucceedsIff(rest, fns', w);
        if FreshNames(rest, fns') && AllTyped(rest, w) {
          forall i, j | 0 <= i < j < |defs|
            ensures defs[i].proto.name != defs[j].proto.name
          {
            if i > 0 {
              assert defs[i] == rest[i - 1] && defs[j] == rest[j - 1];
            } else {
              assert defs[j] == rest[j - 1];
            }
          }
          forall i | 0 <= i < |defs|
            ensures defs[i].proto.name !in fns
          {
            if i > 0 {
              assert defs[i] == rest[i - 1];
            }
          }
        }
        if FreshNames(defs, fns) && AllTyped(defs, w) {
          forall i | 0 <= i < |rest|
            ensures rest[i].proto.name != p.name
          {
            assert defs[0].proto.name != defs[i + 1].proto.name;
          }
        }
      } else if p.name in fns {
        assert !FreshNames(defs, fns);
      } else {
        assert !AllTyped(defs, w);
      }
    }
  }

  /**
   * After a successful declaration pass every function is declared with its
   * own prototype's type, and what the module had before is kept.
   */
  lemma {:induction false} DeclaredSignatures(defs: seq<FunctionDefinition>, fns: map<string, FnSig>, w: nat)
    requires Declare(defs, fns, w).Declared?
    ensures forall k :: k in fns ==> k in Declare(defs, fns, w).fns && Declare(defs, fns, w).fns[k] == fns[k]
    ensures forall i :: 0 <= i < |defs| ==>
      defs[i].proto.name in Declare(defs, fns, w).fns && SigOf(defs[i].proto, w).SigOk? &&
      Declare(defs, fns, w).fns[defs[i].proto.name] == SigOf(defs[i].proto, w).sig
    ensures forall k :: k in Declare(defs, fns, w).fns ==> k in fns || exists i :: 0 <= i < |defs| && defs[i].proto.name == k
    decreases |defs|
  {
    if defs != [] {
      var p := defs[0].proto;
      var rest := defs[1..];
      var fns' := fns[p.name := SigOf(p, w).sig];
      DeclaredSignatures(rest, fns', w);
      DeclareSucceedsIff(defs, fns, w);
      forall i | 0 <= i < |defs|
        ensures defs[i].proto.name in Declare(defs, fns, w).fns &&
          Declare(defs, fns, w).fns[defs[i].proto.name] == SigOf(defs[i].proto, w).sig
      {
        if i > 0 {
          assert defs[i] == rest[i - 1];
        }
      }
      forall k | k in Declare(defs, fns, w).fns
        ensures k in fns || exists i :: 0 <= i < |defs| && defs[i].proto.name == k
      {
        if k !in fns' {
          var i :| 0 <= i < |rest| && rest[i].proto.name == k;
          assert defs[i + 1] == rest[i];
        } else if k !in fns {
          assert defs[0].proto.name == k;
        }
      }
    }
  }

  /** Two functions of one name never both make it into the module. */
  lemma DuplicateNameRejected(defs: seq<FunctionDefinition>, fns: map<string, FnSig>, w: nat, i: nat, j: nat)
    requires i < j < |defs| && defs[i].proto.name == defs[j].proto.name
    ensures Declare(defs, fns, w).DeclFailed?
  {
    DeclareSucceedsIff(defs, fns, w);
  }

  /** A program function named like one of the run-time functions is rejected. */
  lemma RuntimeNameRejected(defs: seq<FunctionDefinition>, w: nat, i: nat)
    requires i < |defs| && defs[i].proto.name in RuntimeFns(w)
    ensures Declare(defs, RuntimeFns(w), w).DeclFailed?
  {
    DeclareSucceedsIff(defs, RuntimeFns(w), w);
  }

  /** The stores of the arguments into their slots, registers `r0`, `r0 + 1`, ..., in parameter order. */
  function ParamStores(tys: seq<Ty>, r0: nat): seq<Inst> {
    if tys == [] then []
    else
      var n := |tys| - 1;
      ParamStores(tys[..n], r0) + [Store(Value(tys[n], Param(n)), Value(PtrTy(tys[n]), Reg(r0 + n)))]
  }

  /** Argument `i` is stored, with its type, into the slot in register `r0 + i`. */
  lemma {:induction false} ParamStoresStoreEachArg(tys: seq<Ty>, r0: nat)
    ensures |ParamStores(tys, r0)| == |tys|
    ensures forall i :: 0 <= i < |tys| ==> ParamStores(tys, r0)[i] == Store(Value(tys[i], Param(i)), Value(PtrTy(tys[i]), Reg(r0 + i)))
  {
    if tys != [] {
      var n := |tys| - 1;
      ParamStoresStoreEachArg(tys[..n], r0);
    }
  }

  /** The slots `CreateEntryBlockAlloca` puts in front of the entry block for the parameters, named `names`, the last parameter's first. */
  function ParamAllocas(names: seq<string>, tys: seq<Ty>, r0: nat, w: nat): seq<Inst>
    requires |names| == |tys|
  {
    if names == [] then []
    else
      var n := |names| - 1;
      EntryAllocaInsts(tys[n], r0 + n, names[n], w) + ParamAllocas(names[..n], tys[..n], r0, w)
  }

  /** The slots and stores of the first `i + 1` parameters: those of the first `i`, and the `i`-th's. */
  lemma ParamPrefixStep(names: seq<string>, tys: seq<Ty>, r0: nat, w: nat, i: nat)
    requires |names| == |tys| && i < |names|
    ensures ParamAllocas(names[..i + 1], tys[..i + 1], r0, w) ==
      EntryAllocaInsts(tys[i], r0 + i, names[i], w) + ParamAllocas(names[..i], tys[..i], r0, w)
    ensures ParamStores(tys[..i + 1], r0) ==
      ParamStores(tys[..i], r0) + [Store(Value(tys[i], Param(i)), Value(PtrTy(tys[i]), Reg(r0 + i)))]
  {
    assert names[..i + 1][..i] == names[..i] && tys[..i + 1][..i] == tys[..i];
  }

  // ------------------------------------------------------------ argument names

  /** The names a prototype gives its parameters. */
  function ParamNames(ps: seq<FnParam>): (names: seq<string>)
    ensures |names| == |ps| && forall i :: 0 <= i < |ps| ==> names[i] == ps[i].name
  {
    seq(|ps|, i requires 0 <= i < |ps| => ps[i].name)
  }

  /**
   * A function's table of local value names as LLVM keeps it: the names in
   * use and the counter `makeUniqueName` draws numeric suffixes from.
   */
  datatype NameTable = NameTable(taken: set<string>, last: nat)

  /** Distinct numbers give distinct suffixed names. */
  lemma SuffixesDiffer(base: string, a: nat, b: nat)
    requires a != b
    ensures base + NatToString(a) != base + NatToString(b)
  {
    if base + NatToString(a) == base + NatToString(b) {
      assert (base + NatToString(a))[|base|..] == NatToString(a);
      assert (base + NatToString(b))[|base|..] == NatToString(b);
      ParseDecimalRoundTrip(a);
      ParseDecimalRoundTrip(b);
    }
  }

  /**
   * `makeUniqueName` for a local value: `base` followed by the next value of
   * the counter, tried until the name is free. Each tried name is dropped
   * from `taken` on the way down; as later tries carry larger numbers
   * (`SuffixesDiffer`), this changes none of their outcomes, and it bounds
   * the search by the size of the table.
   */
  function NextFreeName(base: string, taken: set<string>, last: nat): (r: (string, nat))
    ensures r.1 > last && r.0 == base + NatToString(r.1) && r.0 !in taken
    ensures forall k :: last < k < r.1 ==> base + NatToString(k) in taken
    decreases |taken|
  {
    var cand := base + NatToString(last + 1);
    if cand !in taken then (cand, last + 1)
    else
      var r := NextFreeName(base, taken - {cand}, last + 1);
      SuffixesDiffer(base, r.1, last + 1);
      r
  }

  /**
   * `Value::setName` on an unnamed argument: an empty name leaves it
   * unnamed; a name not yet in use is taken as it is; a name in use is made
   * unique with the counter's next free suffix.
   */
  function SetName(name: string, t: NameTable): (r: (string, NameTable))
    ensures r.0 == "" <==> name == ""
    ensures name == "" ==> r.1 == t
    ensures name != "" ==> r.0 !in t.taken && r.1.taken == t.taken + {r.0}
    ensures r.0 == name <==> name == "" || name !in t.taken
    ensures name <= r.0 && AllDigits(r.0[|name|..])
  {
    if name == "" then ("", t)
    else if name !in t.taken then (name, NameTable(t.taken + {name}, t.last))
    else
      var (u, l) := NextFreeName(name, t.taken, t.last);
      assert u[..|name|] == name && u[|name|..] == NatToString(l);
      (u, NameTable(t.taken + {u}, l))
  }

  /**
   * The names the arguments of a freshly created function carry after the
   * first pass of `Program` gives each its parameter's name in order, with
   * the function's name table after it. The table holds nothing else then,
   * so the names depend on the prototype alone.
   */
  function ArgNames(names: seq<string>): (r: (seq<string>, NameTable))
    ensures |r.0| == |names|
  {
    if names == [] then ([], NameTable({}, 0))
    else
      var n := |names| - 1;
      var p := ArgNames(names[..n]);
      var (u, t) := SetName(names[n], p.1);
      (p.0 + [u], t)
  }

  /** The table holds exactly the non-empty argument names. */
  lemma {:induction false} ArgNamesTable(names: seq<string>)
    ensures forall x :: x in ArgNames(names).1.taken <==> x != "" && x in ArgNames(names).0
  {
    if names != [] {
      var n := |names| - 1;
      ArgNamesTable(names[..n]);
    }
  }

  /** The arguments' non-empty names are pairwise distinct. */
  lemma {:induction false} ArgNamesDistinct(names: seq<string>)
    ensures forall i, j :: 0 <= i < j < |names| && ArgNames(names).0[j] != "" ==> ArgNames(names).0[i] != ArgNames(names).0[j]
  {
    if names != [] {
      var n := |names| - 1;
      var p := ArgNames(names[..n]);
      var out := ArgNames(names).0;
      ArgNamesDistinct(names[..n]);
      ArgNamesTable(names[..n]);
      var r := SetName(names[n], p.1);
      assert out == p.0 + [r.0];
      forall i, j | 0 <= i < j < |names| && out[j] != ""
        ensures out[i] != out[j]
      {
        if j == n {
          assert out[n] == r.0 && r.0 !in p.1.taken;
          assert out[i] == p.0[i] && p.0[i] in p.0;
        } else {
          assert out[i] == p.0[i] && out[j] == p.0[j] && |names[..n]| == n;
          assert p.0[i] != p.0[j];
        }
      }
    }
  }

  /**
   * An argument keeps its parameter's name exactly when that name is empty
   * or no earlier argument carries it.
   */
  lemma {:induction false} ArgNamesKeepFreeNames(names: seq<string>)
    ensures forall i :: 0 <= i < |names| ==>
      (ArgNames(names).0[i] == names[i] <==> names[i] == "" || names[i] !in ArgNames(names).0[..i])
  {
    if names != [] {
      var n := |names| - 1;
      var p := ArgNames(names[..n]);
      var out := ArgNames(names).0;
      ArgNamesKeepFreeNames(names[..n]);
      ArgNamesTable(names[..n]);
      assert out == p.0 + [out[n]];
      forall i | 0 <= i < |names|
        ensures out[i] == names[i] <==> names[i] == "" || names[i] !in out[..i]
      {
        if i == n {
          assert out[..n] == p.0;
        } else {
          assert out[..i] == p.0[..i] && out[i] == p.0[i] && names[i] == names[..n][i];
        }
      }
    }
  }

  /** Every argument's name is its parameter's name, possibly followed by decimal digits. */
  lemma {:induction false} ArgNamesSuffixed(names: seq<string>)
    ensures forall i :: 0 <= i < |names| ==> names[i] <= ArgNames(names).0[i] && AllDigits(ArgNames(names).0[i][|names[i]|..])
  {
    if names != [] {
      var n := |names| - 1;
      var p := ArgNames(names[..n]);
      var out := ArgNames(names).0;
      ArgNamesSuffixed(names[..n]);
      assert out == p.0 + [out[n]];
      forall i | 0 <= i < n
        ensures names[i] <= out[i] && AllDigits(out[i][|names[i]|..])
      {
        assert out[i] == p.0[i] && names[i] == names[..n][i];
      }
    }
  }

  /** `name`, then `name1`, `name2`, ...: what `k` arguments all given the same non-empty name are called. */
  function Numbered(name: string, k: nat): (out: seq<string>)
    ensures |out| == k
  {
    if k == 0 then [] else Numbered(name, k - 1) + [if k == 1 then name else name + NatToString(k - 1)]
  }

  /**
   * Parameters that all carry the same non-empty name, as every parameter
   * the parser builds does: the first keeps it and the `i`-th is called
   * `name` followed by `i`.
   */
  lemma {:induction false} SameNamesNumbered(names: seq<string>, name: string)
    requires name != "" && forall i :: 0 <= i < |names| ==> names[i] == name
    ensures ArgNames(names).0 == Numbered(name, |names|)
    ensures names != [] ==> ArgNames(names).1.last == |names| - 1
  {
    if names != [] {
      var n := |names| - 1;
      SameNamesNumbered(names[..n], name);
      var p := ArgNames(names[..n]);
      assert names[n] == name;
      var r := SetName(name, p.1);
      assert ArgNames(names) == (p.0 + [r.0], r.1);
      if n > 0 {
        ArgNamesTable(names[..n]);
        NextNumbered(name, n, p.1);
      }
    }
  }

  /** After `n` arguments named `name`, the next one is called `name` followed by `n`. */
  lemma NextNumbered(name: string, n: nat, t: NameTable)
    requires name != "" && n > 0 && t.last == n - 1
    requires forall x :: x in t.taken <==> x != "" && x in Numbered(name, n)
    ensures SetName(name, t).0 == name + NatToString(n) && SetName(name, t).1.last == n
  {
    var cand := name + NatToString(n);
    NumberedNames(name, n);
    assert Numbered(name, n)[0] == name;
    forall k | 0 <= k < n
      ensures Numbered(name, n)[k] != cand
    {
      if k > 0 {
        SuffixesDiffer(name, k, n);
      } else {
        assert |cand| > |name|;
      }
    }
    assert cand !in t.taken;
    assert NextFreeName(name, t.taken, n - 1) == (cand, n);
  }

  /** The entries of `Numbered`: the plain name first, then the name followed by its position. */
  lemma {:induction false} NumberedNames(name: string, k: nat)
    ensures Numbered(name, k) == [] || Numbered(name, k)[0] == name
    ensures forall i :: 0 < i < k ==> Numbered(name, k)[i] == name + NatToString(i)
  {
    if k > 0 {
      NumberedNames(name, k - 1);
      var out := Numbered(name, k);
      assert out == Numbered(name, k - 1) + [out[k - 1]];
    }
  }

  /** `_NamedValues` after binding the arguments, named `names`, in order: each name to its slot, a later one of the same name winning. */
  function BindAll(m: map<string, Value>, names: seq<string>, tys: seq<Ty>, r0: nat): map<string, Value>
    requires |names| == |tys|
  {
    if names == [] then m
    else
      var n := |names| - 1;
      BindAll(m, names[..n], tys[..n], r0)[names[n] := Value(PtrTy(tys[n]), Reg(r0 + n))]
  }

  /** Binding the arguments adds exactly their names. */
  lemma {:induction false} BindAllNames(m: map<string, Value>, names: seq<string>, tys: seq<Ty>, r0: nat)
    requires |names| == |tys|
    ensures forall k :: k in BindAll(m, names, tys, r0) <==> k in m || k in names
  {
    if names != [] {
      var n := |names| - 1;
      BindAllNames(m, names[..n], tys[..n], r0);
      assert names == names[..n] + [names[n]];
    }
  }

  /** An argument whose name no later argument repeats is bound to its own slot. */
  lemma {:induction false} BindAllSlots(m: map<string, Value>, names: seq<string>, tys: seq<Ty>, r0: nat, i: nat)
    requires |names| == |tys| && i < |names|
    requires forall j :: i < j < |names| ==> names[j] != names[i]
    ensures names[i] in BindAll(m, names, tys, r0) && BindAll(m, names, tys, r0)[names[i]] == Value(PtrTy(tys[i]), Reg(r0 + i))
  {
    var n := |names| - 1;
    if i < n {
      BindAllSlots(m, names[..n], tys[..n], r0, i);
    }
  }

  /**
   * Binding a prototype's arguments: every argument with a name is found
   * under the name LLVM gave it, bound to its own slot; in particular the
   * first argument under its parameter's name.
   */
  lemma ArgsBoundToOwnSlots(m: map<string, Value>, ps: seq<FnParam>, tys: seq<Ty>, r0: nat)
    requires |ps| == |tys|
    ensures var out := ArgNames(ParamNames(ps)).0;
      forall i :: 0 <= i < |ps| && out[i] != "" ==>
        out[i] in BindAll(m, out, tys, r0) && BindAll(m, out, tys, r0)[out[i]] == Value(PtrTy(tys[i]), Reg(r0 + i))
    ensures ps != [] && ps[0].name != "" ==>
      ps[0].name in BindAll(m, ArgNames(ParamNames(ps)).0, tys, r0) &&
      BindAll(m, ArgNames(ParamNames(ps)).0, tys, r0)[ps[0].name] == Value(PtrTy(tys[0]), Reg(r0))
  {
    var out := ArgNames(ParamNames(ps)).0;
    ArgNamesDistinct(ParamNames(ps));
    ArgNamesKeepFreeNames(ParamNames(ps));
    forall i | 0 <= i < |ps| && out[i] != ""
      ensures out[i] in BindAll(m, out, tys, r0) && BindAll(m, out, tys, r0)[out[i]] == Value(PtrTy(tys[i]), Reg(r0 + i))
    {
      BindAllSlots(m, out, tys, r0, i);
    }
    if ps != [] && ps[0].name != "" {
      assert out[0] == ps[0].name;
    }
  }

  /**
   * One lowered function: its name, the allocas `front` in front of its
   * entry block, its blocks (the entry block first) and the block lowering
   * ended in. The entry block's instructions are `front` followed by those
   * of `blocks[0]`.
   */
  datatype FnBody = FnBody(name: string, front: seq<Inst>, blocks: seq<BasicBlock>, exit: nat)

  /** The names a `var` statement declares. */
  function VarNames(vars: seq<VarDeclItem>): set<string> {
    if vars == [] then {} else VarNames(vars[..|vars| - 1]) + {vars[|vars| - 1].name}
  }

  /** A name is declared exactly when some variable of the statement carries it. */
  lemma {:induction false} VarNamesAreTheNames(vars: seq<VarDeclItem>)
    ensures forall x :: x in VarNames(vars) <==> exists k :: 0 <= k < |vars| && vars[k].name == x
  {
    if vars != [] {
      var init := vars[..|vars| - 1];
      VarNamesAreTheNames(init);
      assert forall k :: 0 <= k < |init| ==> init[k] == vars[k];
    }
  }

  /** The names an `array` statement declares. */
  function ArrayNames(arrays: seq<ArrayDeclItem>): set<string> {
    if arrays == [] then {} else ArrayNames(arrays[..|arrays| - 1]) + {arrays[|arrays| - 1].name}
  }

  /** A name is declared exactly when some array of the statement carries it. */
  lemma {:induction false} ArrayNamesAreTheNames(arrays: seq<ArrayDeclItem>)
    ensures forall x :: x in ArrayNames(arrays) <==> exists k :: 0 <= k < |arrays| && arrays[k].name == x
  {
    if arrays != [] {
      var init := arrays[..|arrays| - 1];
      ArrayNamesAreTheNames(init);
      assert forall k :: 0 <= k < |init| ==> init[k] == arrays[k];
    }
  }

  /**
   * `f` is a lowering of `def`: it carries `def`'s name, opens with the
   * `entry` block, and a void function's last block ends in a terminator.
   */
  predicate LoweredFrom(f: FnBody, def: FunctionDefinition) {
    f.name == def.proto.name && f.exit < |f.blocks| && f.blocks[0].name == "entry" &&
    (def.proto.fnType == TypeVoid ==> HasTerminator(f.blocks[f.exit]))
  }

  // ------------------------------------------------------------ the visitor

  /**
   * `CodegenVisitor`: the module's functions `fns`, the variables of the
   * function being lowered (`_NamedValues`, name to its stack slot), the
   * cleanup stack `_arrayDecls`, and the stack `_scope` of the blocks being
   * lowered, each block known by a number drawn from `nextScope`.
   */
  class CodegenVisitor {
    const b: Builder
    /** The width of `int` that the `width` setting selects. */
    const width: nat
    var fns: map<string, FnSig>
    var named: map<string, Value>
    var arrayDecls: seq<Cleanup>
    var scopes: seq<nat>
    var nextScope: nat

    /**
     * Block numbers already drawn lie below `nextScope`: the innermost
     * block's and every cleanup entry's.
     */
    predicate Valid()
      reads this, b
    {
      b.Valid() && width >= 1 &&
      (|scopes| > 0 ==> Top(scopes) < nextScope) &&
      (forall k :: 0 <= k < |arrayDecls| ==> arrayDecls[k].scope < nextScope)
    }

    constructor (w: nat)
      requires w >= 1
      ensures Valid() && fresh(b) && width == w
      ensures fns == map[] && named == map[] && arrayDecls == [] && scopes == []
    {
      b := new Builder();
      width := w;
      fns := map[];
      named := map[];
      arrayDecls := [];
      scopes := [];
      nextScope := 0;
    }

    /**
     * `UpdateToIntWidth`: no value for a non-integer; an `i1` or a value of
     * the target width as it is; otherwise one `sext` to a wider or one
     * `trunc` to a narrower width.
     */
    method UpdateToIntWidth(v: Value, toWidth: nat) returns (r: Option<Value>)
      requires b.Valid()
      modifies b
      ensures b.Valid() && Grows(old(b.blocks), old(b.cur), b.blocks, b.cur) && b.cur == old(b.cur)
      ensures r.None? <==> !v.ty.IntTy?
      ensures !v.ty.IntTy? ==> b.blocks == old(b.blocks)
      ensures v.ty.IntTy? ==>
        r == Some(CoercedValue(v, toWidth, old(b.nextReg))) &&
        b.blocks == old(b.blocks)[old(b.cur) := Appended(old(b.blocks)[old(b.cur)], CoercionInsts(v, toWidth, old(b.nextReg)))]
    {
      if !v.ty.IntTy? {
        return None;
      }
      var dst := b.Reserve(1);
      b.Emit(CoercionInsts(v, toWidth, dst));
      r := Some(CoercedValue(v, toWidth, dst));
    }

    // -------------------------------------------------------- expressions

    /**
     * `accept` on an expression: literals become constants (`true`/`false`
     * as `i1`, numbers as constants of the `int` type, truncated to its
     * width), strings global string pointers, and the other kinds go to
     * their visits. A null child is dereferenced.
     */
    method VisitExpr(e: Expr) returns (st: Status, v: Value)
      requires Valid()
      modifies b
      decreases e, 1
      ensures st.Ok? ==> Valid() && Grows(old(b.blocks), old(b.cur), b.blocks, b.cur)
      ensures e.Null? ==> st.Crashed?
      ensures e.BoolLit? ==> st.Ok? && v == Value(IntTy(1), IntConst(if e.b then 1 else 0)) && b.blocks == old(b.blocks)
      ensures e.Num? ==> st.Ok? && v == IntVal(width, Wrap(e.n, width)) && b.blocks == old(b.blocks)
      ensures e.Str? ==> st.Ok? && v == Value(BytePtr, GlobalStr(e.s)) && b.blocks == old(b.blocks)
    {
      v := Value(VoidTy, IntConst(0));
      match e
      case Null =>
        st := Crashed("accept on a null expression");
      case BoolLit(x) =>
        st, v := Ok, Value(IntTy(1), IntConst(if x then 1 else 0));
      case Num(n) =>
        st, v := Ok, IntVal(width, Wrap(n, width));
      case Str(s) =>
        st, v := Ok, Value(BytePtr, GlobalStr(s));
      case Ident(name) =>
        st, v := VisitIdent(name);
      case Index(_, _) =>
        ghost var idx: Value;
        st, v, idx := VisitArrayExpr(e);
      case Call(_, _) =>
        ghost var vals: seq<Value>;
        st, v, vals := VisitFnCall(e);
      case Ternary(_, _, _) =>
        ghost var cv: Value, tv: Value, fv: Value;
        st, v, cv, tv, fv := VisitTernary(e);
      case Binop(_, _, _) =>
        ghost var lv: Value, rv: Value;
        st, v, lv, rv := VisitBinop(e);
      case Unary(_, _) =>
        ghost var ov: Value;
        st, v, ov := VisitUnary(e);
      case Sizeof(_) =>
        st, v := VisitSizeof(e);
      case Input =>
        st, v := VisitInput();
    }

    /** `IdExpr`: a load from the variable's slot; throws for a name with no slot. */
    method VisitIdent(name: string) returns (st: Status, v: Value)
      requires Valid()
      modifies b
      ensures st.Ok? ==> Valid() && Grows(old(b.blocks), old(b.cur), b.blocks, b.cur)
      ensures st.Ok? <==> name in named
      ensures !st.Ok? ==> st == Threw("No such variable found")
      ensures st.Ok? ==>
        v == Value(LoadedTy(named[name].ty), Reg(old(b.nextReg))) &&
        b.blocks == old(b.blocks)[old(b.cur) := Appended(old(b.blocks)[old(b.cur)], [Load(old(b.nextReg), named[name])])]
    {
      v := Value(VoidTy, IntConst(0));
      if name !in named {
        return Threw("No such variable found"), v;
      }
      var r := b.Reserve(1);
      b.Emit([Load(r, named[name])]);
      st, v := Ok, Value(LoadedTy(named[name].ty), Reg(r));
    }

    /**
     * `ArrayExpr`: the index, then the checked load of `EmitCheckedLoad`, so
     * that the element is read only in the block the bounds check passes to.
     * An array name with no slot gives a null base pointer.
     */
    method VisitArrayExpr(e: Expr) returns (st: Status, v: Value, ghost idx: Value)
      requires Valid() && e.Index?
      modifies b
      decreases e, 0
      ensures st.Ok? ==> Valid() && Grows(old(b.blocks), old(b.cur), b.blocks, b.cur)
      ensures st.Ok? ==> e.arrayName in named
      ensures st.Ok? ==> GuardedAccess(b.blocks[b.cur].insts, idx, width, v) && b.blocks[b.cur].name == "fullypassbb"
    {
      v := Value(VoidTy, IntConst(0));
      idx := v;
      ghost var b0, c0 := b.blocks, b.cur;
      var st1, iv := VisitExpr(e.index);
      if !st1.Ok? {
        return st1, v, idx;
      }
      if e.arrayName !in named {
        return Crashed("array access through a null slot"), v, idx;
      }
      ghost var b1, c1 := b.blocks, b.cur;
      v := b.EmitCheckedLoad(named[e.arrayName], iv, width);
      GrowsTrans(b0, c0, b1, c1, b.blocks, b.cur);
      st, idx := Ok, iv;
    }

    /**
     * `FnCallExpr`: throws for an unknown callee, else the arguments in
     * order and a call on the values `vals` they were lowered to.
     */
    method VisitFnCall(e: Expr) returns (st: Status, v: Value, ghost vals: seq<Value>)
      requires Valid() && e.Call?
      modifies b
      decreases e, 0
      ensures st.Ok? ==> Valid() && Grows(old(b.blocks), old(b.cur), b.blocks, b.cur)
      ensures e.callee !in fns ==> st == Threw("Cannot find func : " + e.callee)
      ensures st.Ok? ==>
        e.callee in fns && |b.blocks[b.cur].insts| > 0 &&
        v.ref.Reg? && LastInst(b.blocks[b.cur]) == Inst.Call(v.ref.id, e.callee, vals) &&
        |vals| == |e.args| && v.ty == fns[e.callee].ret
    {
      v := Value(VoidTy, IntConst(0));
      vals := [];
      if e.callee !in fns {
        return Threw("Cannot find func : " + e.callee), v, vals;
      }
      ghost var b0, c0 := b.blocks, b.cur;
      var args: seq<Value> := [];
      var i := 0;
      while i < |e.args|
        invariant 0 <= i <= |e.args| && |args| == i
        invariant Valid() && Grows(b0, c0, b.blocks, b.cur)
      {
        ghost var b1, c1 := b.blocks, b.cur;
        var st1, a := VisitExpr(e.args[i]);
        if !st1.Ok? {
          return st1, v, vals;
        }
        GrowsTrans(b0, c0, b1, c1, b.blocks, b.cur);
        args := args + [a];
        i := i + 1;
      }
      ghost var b1, c1 := b.blocks, b.cur;
      var r := b.Reserve(1);
      b.Emit([Inst.Call(r, e.callee, args)]);
      GrowsTrans(b0, c0, b1, c1, b.blocks, b.cur);
      st, v, vals := Ok, Value(fns[e.callee].ret, Reg(r)), args;
    }

    /**
     * `TernaryExpr`: all three operands are lowered, to `cv`, `tv` and `fv`,
     * then a `select` over them, whose type is the true operand's.
     */
    method VisitTernary(e: Expr) returns (st: Status, v: Value, ghost cv: Value, ghost tv: Value, ghost fv: Value)
      requires Valid() && e.Ternary?
      modifies b
      decreases e, 0
      ensures st.Ok? ==> Valid() && Grows(old(b.blocks), old(b.cur), b.blocks, b.cur)
      ensures st.Ok? ==>
        v.ref.Reg? && |b.blocks[b.cur].insts| > 0 &&
        LastInst(b.blocks[b.cur]) == Select(v.ref.id, cv, tv, fv) && v.ty == tv.ty
    {
      v := Value(VoidTy, IntConst(0));
      cv, tv, fv := v, v, v;
      ghost var b0, c0 := b.blocks, b.cur;
      var st1, c := VisitExpr(e.cond);
      if !st1.Ok? {
        return st1, v, cv, tv, fv;
      }
      ghost var b1, c1 := b.blocks, b.cur;
      var st2, t := VisitExpr(e.onTrue);
      if !st2.Ok? {
        return st2, v, cv, tv, fv;
      }
      GrowsTrans(b0, c0, b1, c1, b.blocks, b.cur);
      ghost var b2, c2 := b.blocks, b.cur;
      var st3, f := VisitExpr(e.onFalse);
      if !st3.Ok? {
        return st3, v, cv, tv, fv;
      }
      GrowsTrans(b0, c0, b2, c2, b.blocks, b.cur);
      ghost var b3, c3 := b.blocks, b.cur;
      var r := b.Reserve(1);
      b.Emit([Select(r, c, t, f)]);
      GrowsTrans(b0, c0, b3, c3, b.blocks, b.cur);
      st, v, cv, tv, fv := Ok, Value(t.ty, Reg(r)), c, t, f;
    }

    /**
     * `BinopExpr`: both operands, then the operator's instruction; an
     * operator outside the fourteen binary operators throws.
     */
    method VisitBinop(e: Expr) returns (st: Status, v: Value, ghost lv: Value, ghost rv: Value)
      requires Valid() && e.Binop?
      modifies b
      decreases e, 0
      ensures st.Ok? ==> Valid() && Grows(old(b.blocks), old(b.cur), b.blocks, b.cur)
      ensures !IsBinOp(e.op) ==> !st.Ok?
      ensures st.Ok? ==>
        IsBinOp(e.op) && v.ref.Reg? && |b.blocks[b.cur].insts| > 0 &&
        LastInst(b.blocks[b.cur]) == BinopInst(BinopCode(e.op).value, v.ref.id, lv, rv) &&
        v.ty == BinopTy(BinopCode(e.op).value, lv, width)
    {
      v := Value(VoidTy, IntConst(0));
      lv, rv := v, v;
      ghost var b0, c0 := b.blocks, b.cur;
      var st1, l := VisitExpr(e.left);
      if !st1.Ok? {
        return st1, v, lv, rv;
      }
      ghost var b1, c1 := b.blocks, b.cur;
      var st2, r := VisitExpr(e.right);
      if !st2.Ok? {
        return st2, v, lv, rv;
      }
      GrowsTrans(b0, c0, b1, c1, b.blocks, b.cur);
      var code := BinopCode(e.op);
      if code.None? {
        return Threw("codegen: binop not handled"), v, lv, rv;
      }
      ghost var b2, c2 := b.blocks, b.cur;
      var d := b.Reserve(1);
      b.Emit([BinopInst(code.value, d, l, r)]);
      GrowsTrans(b0, c0, b2, c2, b.blocks, b.cur);
      st, v, lv, rv := Ok, Value(BinopTy(code.value, l, width), Reg(d)), l, r;
    }

    /** `UnaryExpr`: the operand, then `not` for `!` or `neg` for `-`; any other operator throws. */
    method VisitUnary(e: Expr) returns (st: Status, v: Value, ghost ov: Value)
      requires Valid() && e.Unary?
      modifies b
      decreases e, 0
      ensures st.Ok? ==> Valid() && Grows(old(b.blocks), old(b.cur), b.blocks, b.cur)
      ensures !IsUnaryOp(e.op) ==> !st.Ok?
      ensures st.Ok? ==>
        IsUnaryOp(e.op) && v.ref.Reg? && |b.blocks[b.cur].insts| > 0 &&
        Some(LastInst(b.blocks[b.cur])) == UnaryInst(e.op, v.ref.id, ov) && v.ty == ov.ty
    {
      v := Value(VoidTy, IntConst(0));
      ov := v;
      ghost var b0, c0 := b.blocks, b.cur;
      var st1, x := VisitExpr(e.operand);
      if !st1.Ok? {
        return st1, v, ov;
      }
      ghost var b1, c1 := b.blocks, b.cur;
      var d := b.Reserve(1);
      var inst := UnaryInst(e.op, d, x);
      if inst.None? {
        return Threw("codegen: unindentified unary op"), v, ov;
      }
      b.Emit([inst.value]);
      GrowsTrans(b0, c0, b1, c1, b.blocks, b.cur);
      st, v, ov := Ok, Value(x.ty, Reg(d)), x;
    }

    /**
     * `SizeofExpr`: throws unless the argument is an identifier; otherwise a
     * load of the array record's size field.
     */
    method VisitSizeof(e: Expr) returns (st: Status, v: Value)
      requires Valid() && e.Sizeof?
      modifies b
      decreases e, 0
      ensures st.Ok? ==> Valid() && Grows(old(b.blocks), old(b.cur), b.blocks, b.cur)
      ensures !e.arg.Ident? ==> st == Threw("found unexpected array identifier")
      ensures st.Ok? <==> e.arg.Ident? && e.arg.name in named
      ensures st.Ok? ==>
        v == Value(IntTy(width), Reg(old(b.nextReg) + 1)) &&
        b.blocks == old(b.blocks)[old(b.cur) := Appended(old(b.blocks)[old(b.cur)],
          [FieldAddr(old(b.nextReg), named[e.arg.name], 0), Load(old(b.nextReg) + 1, Value(IntPtr(width), Reg(old(b.nextReg))))])]
    {
      v := Value(VoidTy, IntConst(0));
      if !e.arg.Ident? {
        return Threw("found unexpected array identifier"), v;
      }
      if e.arg.name !in named {
        return Crashed("sizeof through a null slot"), v;
      }
      var r := b.Reserve(2);
      b.Emit([FieldAddr(r, named[e.arg.name], 0), Load(r + 1, Value(IntPtr(width), Reg(r)))]);
      st, v := Ok, Value(IntTy(width), Reg(r + 1));
    }

    /** `InputExpr`: a call of `__l_input`, whose 64-bit result is brought to the `int` width. */
    method VisitInput() returns (st: Status, v: Value)
      requires Valid()
      modifies b
      ensures st.Ok? && Valid() && Grows(old(b.blocks), old(b.cur), b.blocks, b.cur)
      ensures v == CoercedValue(Value(IntTy(64), Reg(old(b.nextReg))), width, old(b.nextReg) + 1) && v.ty == IntTy(width)
      ensures b.blocks == old(b.blocks)[old(b.cur) := Appended(old(b.blocks)[old(b.cur)],
        [Inst.Call(old(b.nextReg), InputFn, [])] + CoercionInsts(Value(IntTy(64), Reg(old(b.nextReg))), width, old(b.nextReg) + 1))]
    {
      ghost var b0, c0 := b.blocks, b.cur;
      var r := b.Reserve(1);
      b.Emit([Inst.Call(r, InputFn, [])]);
      ghost var b1 := b.blocks;
      var u := UpdateToIntWidth(Value(IntTy(64), Reg(r)), width);
      GrowsTrans(b0, c0, b1, c0, b.blocks, b.cur);
      st, v := Ok, u.value;
      assert b0[c0].insts + [Inst.Call(r, InputFn, [])] + CoercionInsts(Value(IntTy(64), Reg(r)), width, r + 1) ==
        b0[c0].insts + ([Inst.Call(r, InputFn, [])] + CoercionInsts(Value(IntTy(64), Reg(r)), width, r + 1));
    }

    // -------------------------------------------------------- statements

    /** An expression lowered where a statement only needs its value: the blocks grow. */
    method LowerExpr(e: Expr) returns (st: Status, v: Value)
      requires Valid()
      modifies b
      ensures st.Ok? ==> Valid() && Grows(old(b.blocks), old(b.cur), b.blocks, b.cur)
    {
      st, v := VisitExpr(e);
    }

    /** Moves every stacksave entry of block `s` off the top of `_arrayDecls`, restoring the stack for each, newest first. */
    method DrainArrayDecls(s: nat) returns (ghost popped: seq<Cleanup>)
      requires b.Valid()
      modifies this`arrayDecls, b
      ensures b.Valid() && b.cur == old(b.cur) && Grows(old(b.blocks), old(b.cur), b.blocks, b.cur)
      ensures |arrayDecls| == |old(arrayDecls)| - TopRun(old(arrayDecls), s)
      ensures arrayDecls == old(arrayDecls)[..|arrayDecls|] && popped == old(arrayDecls)[|arrayDecls|..]
      ensures b.blocks == old(b.blocks)[old(b.cur) := Appended(old(b.blocks)[old(b.cur)], RestoresLifo(popped))]
      ensures b.nextReg == old(b.nextReg) && b.nextLabel == old(b.nextLabel) && b.entryFront == old(b.entryFront)
    {
      ghost var a0, b0, c0 := arrayDecls, b.blocks, b.cur;
      assert a0[|a0|..] == [] && b0[c0].insts + [] == b0[c0].insts;
      assert b0[c0 := Appended(b0[c0], RestoresLifo(a0[|a0|..]))] == b0;
      while |arrayDecls| > 0 && arrayDecls[|arrayDecls| - 1].scope == s
        invariant |arrayDecls| <= |a0| && arrayDecls == a0[..|arrayDecls|]
        invariant forall k :: |arrayDecls| <= k < |a0| ==> a0[k].scope == s
        invariant b.Valid() && b.cur == c0
        invariant b.blocks == b0[c0 := Appended(b0[c0], RestoresLifo(a0[|arrayDecls|..]))]
        invariant b.nextReg == old(b.nextReg) && b.nextLabel == old(b.nextLabel) && b.entryFront == old(b.entryFront)
        decreases |arrayDecls|
      {
        var n := |arrayDecls| - 1;
        ghost var done := RestoresLifo(a0[n + 1..]);
        b.Emit([StackRestore(arrayDecls[n].saved)]);
        assert a0[n..] == [a0[n]] + a0[n + 1..];
        assert RestoresLifo(a0[n..]) == done + [StackRestore(a0[n].saved)];
        assert b0[c0].insts + done + [StackRestore(a0[n].saved)] == b0[c0].insts + RestoresLifo(a0[n..]);
        arrayDecls := arrayDecls[..n];
      }
      popped := a0[|arrayDecls|..];
    }

    /**
     * `accept` on a statement: each kind goes to its visit. Every statement
     * keeps the block stack, leaves the module's functions alone, and only
     * pushes stacksave entries of the innermost block. A `return` reports
     * what its block is to return.
     */
    method VisitStmt(s: Stmt) returns (st: Status, ret: RetPlan)
      requires Valid() && |scopes| > 0
      modifies this, b
      decreases s, 2
      ensures st.Ok? ==> Valid() && Grows(old(b.blocks), old(b.cur), b.blocks, b.cur)
      ensures st.Ok? ==> scopes == old(scopes) && fns == old(fns) && old(nextScope) <= nextScope
      ensures st.Ok? ==> Pushed(old(arrayDecls), arrayDecls, Top(scopes))
      ensures s.Return? && s.value.Null? ==> st.Ok? && ret.NoValue?
      ensures s.Return? && !s.value.Null? && st.Ok? ==> !ret.NoValue?
      ensures PlanTyped(ret)
    {
      ret := NoValue;
      match s
      case Block(_) =>
        ghost var count: nat, popped: seq<Cleanup>, plan: RetPlan;
        st, count, popped, plan := VisitBlock(s);
      case If(_, _, _) =>
        ghost var head: nat, thenPos: nat, thenEnd: nat, elsePos: nat, elseEnd: nat;
        st, head, thenPos, thenEnd, elsePos, elseEnd := VisitIf(s);
      case While(_, _) =>
        ghost var condEnd: nat, bodyEnd: nat;
        st, condEnd, bodyEnd := VisitWhile(s);
      case For(_, _, _) =>
        ghost var r: nat, bodyEnd: nat;
        st, r, bodyEnd := VisitFor(s);
      case Return(_) =>
        ghost var rv: Value;
        st, ret, rv := VisitReturn(s);
      case _ =>
        st := VisitSimpleStmt(s);
    }

    /** The statements that hold no other statement: declarations, `print`, `abort`, assignments and expressions. */
    method VisitSimpleStmt(s: Stmt) returns (st: Status)
      requires Valid() && |scopes| > 0
      requires !(s.Block? || s.If? || s.While? || s.For? || s.Return?)
      modifies this, b
      ensures st.Ok? ==> Valid() && Grows(old(b.blocks), old(b.cur), b.blocks, b.cur)
      ensures st.Ok? ==> scopes == old(scopes) && fns == old(fns) && old(nextScope) <= nextScope
      ensures st.Ok? ==> Pushed(old(arrayDecls), arrayDecls, Top(scopes))
    {
      match s
      case VarDecl(_) =>
        st := VisitVarDecl(s);
      case ArrayDecl(_) =>
        st := VisitArrayDecl(s);
      case Print(_) =>
        ghost var at;
        st, at := VisitPrint(s);
      case Abort =>
        st := VisitAbort();
      case ArrayAssign(_, _, _) =>
        ghost var pass: nat, vv: Value;
        st, pass, vv := VisitArrayAssign(s);
      case VarAssign(_, _) =>
        ghost var vv: Value;
        st, vv := VisitVarAssign(s);
      case ExprStmt(e) =>
        var v: Value;
        st, v := VisitExpr(e);
    }

    method VisitStmts(s: Stmt) returns (st: Status, found: bool, plan: RetPlan, ghost count: nat)
      requires Valid() && |scopes| > 0 && s.Block?
      modifies this, b
      decreases s, 0
      ensures st.Ok? ==> Valid() && Grows(old(b.blocks), old(b.cur), b.blocks, b.cur)
      ensures st.Ok? ==> scopes == old(scopes) && fns == old(fns) && old(nextScope) <= nextScope
      ensures st.Ok? ==> Pushed(old(arrayDecls), arrayDecls, Top(scopes))
      ensures st.Ok? ==> count == Lowered(s.stmts) && (found <==> FirstReturn(s.stmts) < |s.stmts|)
      ensures st.Ok? && found ==> (plan.NoValue? <==> s.stmts[FirstReturn(s.stmts)].value.Null?)
      ensures PlanTyped(plan)
    {
      ghost var b0, c0 := b.blocks, b.cur;
      plan, found := NoValue, false;
      var i := 0;
      while i < |s.stmts| && !found
        invariant 0 <= i <= |s.stmts|
        invariant Valid() && Grows(b0, c0, b.blocks, b.cur)
        invariant scopes == old(scopes) && fns == old(fns) && old(nextScope) <= nextScope
        invariant Pushed(old(arrayDecls), arrayDecls, Top(scopes))
        invariant forall k :: 0 <= k < i - 1 ==> !s.stmts[k].Return?
        invariant i > 0 && !found ==> !s.stmts[i - 1].Return?
        invariant found ==> i > 0 && s.stmts[i - 1].Return? && (plan.NoValue? <==> s.stmts[i - 1].value.Null?)
        invariant PlanTyped(plan)
      {
        ghost var b1, c1, a1 := b.blocks, b.cur, arrayDecls;
        var st1, r := VisitStmt(s.stmts[i]);
        if !st1.Ok? {
          return st1, found, plan, i;
        }
        GrowsTrans(b0, c0, b1, c1, b.blocks, b.cur);
        PushedTrans(old(arrayDecls), a1, arrayDecls, Top(scopes));
        found := s.stmts[i].Return?;
        plan := r;
        i := i + 1;
      }
      st, count := Ok, i;
    }

    /**
     * The end of `StmtBlockStmt`: the stack restored for the block's arrays,
     * then, after a `return`, the function's `ret`. A null value to return
     * is passed to LLVM as it is, and `CreateRet` of a null value builds a
     * `ret` without an operand, as for a `return` without a value.
     */
    method CloseBlock(sc: nat, found: bool, plan: RetPlan, ghost a0: seq<Cleanup>) returns (st: Status, ghost popped: seq<Cleanup>)
      requires b.Valid() && |scopes| > 0
      requires Pushed(a0, arrayDecls, sc) && forall k :: 0 <= k < |a0| ==> a0[k].scope != sc
      modifies this`arrayDecls, this`scopes, b
      ensures st.Ok?
      ensures b.Valid() && b.cur == old(b.cur) && Grows(old(b.blocks), old(b.cur), b.blocks, b.cur)
      ensures arrayDecls == a0 && popped == old(arrayDecls)[|a0|..]
      ensures st.Ok? ==> scopes == old(scopes)[..|old(scopes)| - 1]
      ensures st.Ok? && !found ==> EndsWith(b.blocks[b.cur].insts, RestoresLifo(popped))
      ensures st.Ok? && found ==>
        |b.blocks[b.cur].insts| > 0 && LastInst(b.blocks[b.cur]) == Ret(if plan.RetValue? then Some(plan.v) else None) &&
        EndsWith(b.blocks[b.cur].insts, RestoresLifo(popped) + [LastInst(b.blocks[b.cur])])
    {
      ghost var b0, c0 := b.blocks, b.cur;
      PopsWhatWasPushed(a0, arrayDecls, sc);
      popped := DrainArrayDecls(sc);
      assert b.blocks[b.cur].insts == b0[c0].insts + RestoresLifo(popped);
      if found {
        ghost var b1 := b.blocks;
        var ret := Ret(if plan.RetValue? then Some(plan.v) else None);
        b.Emit([ret]);
        GrowsTrans(b0, c0, b1, c0, b.blocks, b.cur);
        assert b.blocks[b.cur].insts == b0[c0].insts + (RestoresLifo(popped) + [ret]);
      }
      scopes := scopes[..|scopes| - 1];
      st := Ok;
    }

    /**
     * `StmtBlockStmt`: the block is pushed on `_scope`; its statements are
     * lowered up to and including the first `return`; the stack is restored
     * for every array the block declared, newest first; the block is popped;
     * and after a `return` the function returns its value, or nothing when
     * the `return` has none. A `return` whose value is no integer leaves a
     * null value to return, and the function then returns nothing too.
     */
    method VisitBlock(s: Stmt) returns (st: Status, ghost count: nat, ghost popped: seq<Cleanup>, ghost plan: RetPlan)
      requires Valid() && s.Block?
      modifies this, b
      decreases s, 1
      ensures st.Ok? ==> Valid() && Grows(old(b.blocks), old(b.cur), b.blocks, b.cur)
      ensures st.Ok? ==> scopes == old(scopes) && arrayDecls == old(arrayDecls) && fns == old(fns) && old(nextScope) < nextScope
      ensures st.Ok? ==> count == Lowered(s.stmts)
      ensures st.Ok? ==> forall k :: 0 <= k < |popped| ==> popped[k].scope == old(nextScope)
      ensures st.Ok? && FirstReturn(s.stmts) == |s.stmts| ==> EndsWith(b.blocks[b.cur].insts, RestoresLifo(popped))
      ensures st.Ok? && FirstReturn(s.stmts) < |s.stmts| ==>
        |b.blocks[b.cur].insts| > 0 && LastInst(b.blocks[b.cur]).Ret? &&
        LastInst(b.blocks[b.cur]).retVal == (if plan.RetValue? then Some(plan.v) else None) &&
        (plan.NoValue? <==> s.stmts[FirstReturn(s.stmts)].value.Null?) && PlanTyped(plan) &&
        (LastInst(b.blocks[b.cur]).retVal.None? <==> s.stmts[FirstReturn(s.stmts)].value.Null? || plan.NullValue?) &&
        EndsWith(b.blocks[b.cur].insts, RestoresLifo(popped) + [LastInst(b.blocks[b.cur])])
    {
      popped := [];
      var sc := nextScope;
      nextScope := nextScope + 1;
      scopes := scopes + [sc];
      ghost var a0 := arrayDecls;
      var found, p;
      st, found, p, count := VisitStmts(s);
      plan := p;
      if !st.Ok? {
        return;
      }
      ghost var b1, c1 := b.blocks, b.cur;
      st, popped := CloseBlock(sc, found, p, a0);
      if st.Ok? {
        GrowsTrans(old(b.blocks), old(b.cur), b1, c1, b.blocks, b.cur);
      }
    }

    /** One variable of a `VarDeclStmt`: a zero-filled slot in front of the entry block, bound to the name. */
    method VisitVarDeclItem(item: VarDeclItem) returns (st: Status)
      requires Valid()
      modifies this`named, b
      ensures st.Ok? <==> LlvmType(item.varType, width).Some?
      ensures st.Ok? ==> Valid() && b.blocks == old(b.blocks) && b.cur == old(b.cur) && b.nextReg == old(b.nextReg) + 1
      ensures st.Ok? ==>
        var t := LlvmType(item.varType, width).value;
        named == old(named)[item.name := Value(PtrTy(t), Reg(old(b.nextReg)))] &&
        b.entryFront == EntryAllocaInsts(t, old(b.nextReg), item.name, width) + old(b.entryFront)
    {
      var t := LlvmType(item.varType, width);
      if t.None? {
        return Crashed("alloca of a type with no LLVM type");
      }
      var r := b.Reserve(1);
      b.InsertAtEntry(EntryAllocaInsts(t.value, r, item.name, width));
      named := named[item.name := Value(PtrTy(t.value), Reg(r))];
      st := Ok;
    }

    /** `VarDeclStmt`: every variable in order; the names are bound in `_NamedValues`, nothing is emitted at the insertion point. */
    method VisitVarDecl(s: Stmt) returns (st: Status)
      requires Valid() && s.VarDecl?
      modifies this`named, b
      decreases s, 0
      ensures st.Ok? <==> forall k :: 0 <= k < |s.vars| ==> LlvmType(s.vars[k].varType, width).Some?
      ensures st.Ok? ==> Valid() && b.blocks == old(b.blocks) && b.cur == old(b.cur)
      ensures st.Ok? ==> named.Keys == old(named).Keys + VarNames(s.vars)
    {
      var i := 0;
      while i < |s.vars|
        invariant 0 <= i <= |s.vars|
        invariant forall k :: 0 <= k < i ==> LlvmType(s.vars[k].varType, width).Some?
        invariant Valid() && b.blocks == old(b.blocks) && b.cur == old(b.cur)
        invariant named.Keys == old(named).Keys + VarNames(s.vars[..i])
      {
        ghost var keys := named.Keys;
        st := VisitVarDeclItem(s.vars[i]);
        if !st.Ok? {
          return;
        }
        assert named.Keys == keys + {s.vars[i].name};
        assert s.vars[..i + 1][..i] == s.vars[..i];
        i := i + 1;
      }
      assert s.vars[..i] == s.vars;
      st := Ok;
    }

    /**
     * One array of an `ArrayDeclStmt`: its size, a `llvm.stacksave` whose
     * value is pushed on `_arrayDecls` for the innermost block, then the
     * array of `CreateAllocaArray`, bound to the name.
     */
    method VisitArrayDeclItem(item: ArrayDeclItem) returns (st: Status, ghost size: Value)
      requires Valid() && |scopes| > 0
      modifies this`named, this`arrayDecls, b
      ensures st.Ok? ==> Valid() && Grows(old(b.blocks), old(b.cur), b.blocks, b.cur)
      ensures st.Ok? ==> |arrayDecls| == |old(arrayDecls)| + 1 && arrayDecls[..|old(arrayDecls)|] == old(arrayDecls)
      ensures st.Ok? ==>
        var top := arrayDecls[|arrayDecls| - 1];
        top.scope == Top(scopes) && top.saved.ty == BytePtr && top.saved.ref.Reg? &&
        EndsWith(b.blocks[b.cur].insts, [StackSave(top.saved.ref.id)] + AllocaArrayInsts(item.name, size, width, top.saved.ref.id + 1)) &&
        named == old(named)[item.name := Value(PtrTy(ArrayTy(width)), Reg(top.saved.ref.id + 2))]
    {
      size := Value(VoidTy, IntConst(0));
      var st1, sz := VisitExpr(item.size);
      if !st1.Ok? {
        return st1, size;
      }
      ghost var b1, c1 := b.blocks, b.cur;
      var r := b.EmitArrayAlloca(item.name, sz, width);
      GrowsTrans(old(b.blocks), old(b.cur), b1, c1, b.blocks, b.cur);
      arrayDecls := arrayDecls + [Cleanup(Top(scopes), Value(BytePtr, Reg(r)))];
      named := named[item.name := Value(PtrTy(ArrayTy(width)), Reg(r + 2))];
      st, size := Ok, sz;
    }

    /** `ArrayDeclStmt`: every array in order, each one pushing its stacksave entry for the innermost block. */
    method VisitArrayDecl(s: Stmt) returns (st: Status)
      requires Valid() && |scopes| > 0 && s.ArrayDecl?
      modifies this`named, this`arrayDecls, b
      decreases s, 0
      ensures st.Ok? ==> Valid() && Grows(old(b.blocks), old(b.cur), b.blocks, b.cur)
      ensures st.Ok? ==> Pushed(old(arrayDecls), arrayDecls, Top(scopes)) && |arrayDecls| == |old(arrayDecls)| + |s.arrays|
      ensures st.Ok? ==> named.Keys == old(named).Keys + ArrayNames(s.arrays)
    {
      ghost var b0, c0 := b.blocks, b.cur;
      var i := 0;
      while i < |s.arrays|
        invariant 0 <= i <= |s.arrays|
        invariant Valid() && Grows(b0, c0, b.blocks, b.cur)
        invariant Pushed(old(arrayDecls), arrayDecls, Top(scopes)) && |arrayDecls| == |old(arrayDecls)| + i
        invariant named.Keys == old(named).Keys + ArrayNames(s.arrays[..i])
      {
        ghost var b1, c1, a1 := b.blocks, b.cur, arrayDecls;
        ghost var size;
        st, size := VisitArrayDeclItem(s.arrays[i]);
        if !st.Ok? {
          return;
        }
        GrowsTrans(b0, c0, b1, c1, b.blocks, b.cur);
        assert arrayDecls[..|old(arrayDecls)|] == arrayDecls[..|a1|][..|old(arrayDecls)|];
        assert s.arrays[..i + 1][..i] == s.arrays[..i];
        i := i + 1;
      }
      assert s.arrays[..i] == s.arrays;
      st := Ok;
    }

    /**
     * One argument of a `PrintStmt`: a string literal goes to
     * `__l_print_string`; any other value is brought to 64 bits by
     * `UpdateToIntWidth` and goes to `__l_print_int`, a non-integer becoming
     * a null argument.
     */
    method VisitPrintArg(a: Expr) returns (st: Status, ghost v: Value)
      requires Valid()
      modifies b
      ensures st.Ok? ==> Valid() && Grows(old(b.blocks), old(b.cur), b.blocks, b.cur)
      ensures st.Ok? ==> |b.blocks[b.cur].insts| > 0 && LastInst(b.blocks[b.cur]).Call? && |LastInst(b.blocks[b.cur]).args| == 1
      ensures st.Ok? && a.Str? ==> LastInst(b.blocks[b.cur]).callee == PrintString && LastInst(b.blocks[b.cur]).args == [Value(BytePtr, GlobalStr(a.s))]
      ensures st.Ok? && !a.Str? ==>
        v.ty.IntTy? && LastInst(b.blocks[b.cur]).callee == PrintInt &&
        LastInst(b.blocks[b.cur]).args[0].ty == (if v.ty.width == 1 then IntTy(1) else IntTy(64))
      ensures st.Ok? && b.cur == old(b.cur) ==> |b.blocks[b.cur].insts| > |old(b.blocks)[old(b.cur)].insts|
    {
      ghost var b0, c0 := b.blocks, b.cur;
      var st1, x := VisitExpr(a);
      v := x;
      if !st1.Ok? {
        return st1, v;
      }
      ghost var b1, c1 := b.blocks, b.cur;
      var arg := x;
      var callee := PrintString;
      if !a.Str? {
        var u := UpdateToIntWidth(x, 64);
        if u.None? {
          return Crashed("call of __l_print_int with a null argument"), v;
        }
        arg, callee := u.value, PrintInt;
      }
      ghost var b2 := b.blocks;
      var r := b.Reserve(1);
      b.Emit([Inst.Call(r, callee, [arg])]);
      GrowsTrans(b1, c1, b2, c1, b.blocks, b.cur);
      GrowsTrans(b0, c0, b1, c1, b.blocks, b.cur);
      st := Ok;
    }

    /**
     * `PrintStmt`: the arguments in order, each with its call: the `k`-th
     * argument's print call stays at position `at[k]` of the function, and
     * each comes after the one before it.
     */
    method VisitPrint(s: Stmt) returns (st: Status, ghost at: seq<InstPos>)
      requires Valid() && s.Print?
      modifies b
      decreases s, 0
      ensures st.Ok? ==> Valid() && Grows(old(b.blocks), old(b.cur), b.blocks, b.cur)
      ensures st.Ok? ==> |at| == |s.args| && forall k :: 0 <= k < |at| ==> PrintCallAt(b.blocks, at[k], s.args[k])
      ensures st.Ok? ==> forall k :: 0 <= k < |at| - 1 ==> Before(at[k], at[k + 1])
    {
      ghost var b0, c0 := b.blocks, b.cur;
      at := [];
      var i := 0;
      while i < |s.args|
        invariant 0 <= i <= |s.args| && |at| == i
        invariant Valid() && Grows(b0, c0, b.blocks, b.cur)
        invariant forall k :: 0 <= k < i ==> PrintCallAt(b.blocks, at[k], s.args[k])
        invariant forall k :: 0 <= k < i - 1 ==> Before(at[k], at[k + 1])
        invariant i > 0 ==> at[i - 1] == (b.cur, |b.blocks[b.cur].insts| - 1)
      {
        ghost var b1, c1 := b.blocks, b.cur;
        ghost var v;
        st, v := VisitPrintArg(s.args[i]);
        if !st.Ok? {
          return;
        }
        ghost var q: InstPos := (b.cur, |b.blocks[b.cur].insts| - 1);
        forall k | 0 <= k < i
          ensures PrintCallAt(b.blocks, at[k], s.args[k])
        {
          GrowsKeepsInst(b1, c1, b.blocks, b.cur, at[k]);
        }
        assert PrintCallAt(b.blocks, q, s.args[i]);
        GrowsTrans(b0, c0, b1, c1, b.blocks, b.cur);
        at := at + [q];
        i := i + 1;
      }
      st := Ok;
    }

    /** `ReturnStmt`: the value, brought to 64 bits, is left for the enclosing block to return. */
    method VisitReturn(s: Stmt) returns (st: Status, ret: RetPlan, ghost rv: Value)
      requires Valid() && s.Return?
      modifies b
      decreases s, 0
      ensures st.Ok? ==> Valid() && Grows(old(b.blocks), old(b.cur), b.blocks, b.cur)
      ensures s.value.Null? ==> st.Ok? && ret.NoValue? && b.blocks == old(b.blocks)
      ensures !s.value.Null? && st.Ok? ==> (ret.RetValue? <==> rv.ty.IntTy?) && (ret.NullValue? <==> !rv.ty.IntTy?)
      ensures ret.RetValue? ==> rv.ty.IntTy? && ret.v.ty == (if rv.ty.width == 1 then IntTy(1) else IntTy(64))
      ensures ret.NullValue? ==> ret.ty == rv.ty
      ensures PlanTyped(ret)
    {
      rv := Value(VoidTy, IntConst(0));
      if s.value.Null? {
        return Ok, NoValue, rv;
      }
      ghost var b0, c0 := b.blocks, b.cur;
      var st1, x := VisitExpr(s.value);
      if !st1.Ok? {
        return st1, NoValue, rv;
      }
      ghost var b1, c1 := b.blocks, b.cur;
      var u := UpdateToIntWidth(x, 64);
      GrowsTrans(b0, c0, b1, c1, b.blocks, b.cur);
      rv := x;
      st, ret := Ok, if u.Some? then RetValue(u.value) else NullValue(x.ty);
    }

    /** `AbortStmt`: a call of `__l_abort`, then `unreachable`. */
    method VisitAbort() returns (st: Status)
      requires Valid()
      modifies b
      ensures st.Ok? && Valid() && Grows(old(b.blocks), old(b.cur), b.blocks, b.cur) && b.Terminated()
      ensures b.blocks == old(b.blocks)[old(b.cur) := Appended(old(b.blocks)[old(b.cur)], [Inst.Call(old(b.nextReg), AbortFn, []), Unreachable])]
    {
      var r := b.Reserve(1);
      b.Emit([Inst.Call(r, AbortFn, []), Unreachable]);
      st := Ok;
    }

    /**
     * `ArrayAssignment`: the index, then the checked address of
     * `EmitCheckedAddr`, computed in `fullypassbb` before the value is
     * lowered, then a store of the value through it.
     */
    method VisitArrayAssign(s: Stmt) returns (st: Status, ghost pass: nat, ghost vv: Value)
      requires Valid() && s.ArrayAssign?
      modifies b
      decreases s, 0
      ensures st.Ok? ==> Valid() && Grows(old(b.blocks), old(b.cur), b.blocks, b.cur)
      ensures st.Ok? ==> s.target in named
      ensures st.Ok? ==>
        |old(b.blocks)| <= pass <= b.cur && b.blocks[pass].name == "fullypassbb" &&
        |b.blocks[pass].insts| > 0 && b.blocks[pass].insts[0].ElemAddr? &&
        |b.blocks[b.cur].insts| > 0 && LastInst(b.blocks[b.cur]) == Store(vv, Value(IntPtr(width), Reg(b.blocks[pass].insts[0].dst)))
    {
      pass, vv := 0, Value(VoidTy, IntConst(0));
      ghost var b0, c0 := b.blocks, b.cur;
      var st1, iv := VisitExpr(s.index);
      if !st1.Ok? {
        return st1, pass, vv;
      }
      if s.target !in named {
        return Crashed("array store through a null slot"), pass, vv;
      }
      ghost var b1, c1 := b.blocks, b.cur;
      var ptr := b.EmitCheckedAddr(named[s.target], iv, width);
      GrowsTrans(b0, c0, b1, c1, b.blocks, b.cur);
      pass := b.cur;
      ghost var b2 := b.blocks;
      var st2, x := VisitExpr(s.value);
      if !st2.Ok? {
        return st2, pass, vv;
      }
      GrowsTrans(b0, c0, b2, pass, b.blocks, b.cur);
      ghost var b3, c3 := b.blocks, b.cur;
      b.Emit([Store(x, ptr)]);
      GrowsTrans(b0, c0, b3, c3, b.blocks, b.cur);
      GrowsTrans(b2, pass, b3, c3, b.blocks, b.cur);
      st, vv := Ok, x;
    }

    /** `VarAssignment`: the value, then a store to the variable's slot; throws for a name with no slot. */
    method VisitVarAssign(s: Stmt) returns (st: Status, ghost vv: Value)
      requires Valid() && s.VarAssign?
      modifies b
      decreases s, 0
      ensures st.Ok? ==> Valid() && Grows(old(b.blocks), old(b.cur), b.blocks, b.cur)
      ensures s.name !in named ==> !st.Ok?
      ensures st.Ok? ==> s.name in named && |b.blocks[b.cur].insts| > 0 && LastInst(b.blocks[b.cur]) == Store(vv, named[s.name])
    {
      vv := Value(VoidTy, IntConst(0));
      ghost var b0, c0 := b.blocks, b.cur;
      var st1, x := VisitExpr(s.value);
      if !st1.Ok? {
        return st1, vv;
      }
      if s.name !in named {
        return Threw("No such name found in symbol table"), vv;
      }
      ghost var b1, c1 := b.blocks, b.cur;
      b.Emit([Store(x, named[s.name])]);
      GrowsTrans(b0, c0, b1, c1, b.blocks, b.cur);
      st, vv := Ok, x;
    }

    /**
     * A branch of an `if`: the statement in the insertion block, then a
     * branch to `ifcont` (label `mergeL`) unless the block where it ended
     * already has a terminator.
     */
    method LowerBranch(branch: Stmt, mergeL: nat) returns (st: Status)
      requires Valid() && |scopes| > 0
      modifies this, b
      decreases branch, 3
      ensures st.Ok? ==> Valid() && Grows(old(b.blocks), old(b.cur), b.blocks, b.cur)
      ensures st.Ok? ==> scopes == old(scopes) && fns == old(fns) && old(nextScope) <= nextScope
      ensures st.Ok? ==> Pushed(old(arrayDecls), arrayDecls, Top(scopes))
      ensures st.Ok? ==> HasTerminator(b.blocks[b.cur])
    {
      var ret;
      st, ret := VisitStmt(branch);
      if !st.Ok? {
        return;
      }
      if !b.Terminated() {
        ghost var b1, c1 := b.blocks, b.cur;
        b.Emit([Br(mergeL)]);
        GrowsTrans(old(b.blocks), old(b.cur), b1, c1, b.blocks, b.cur);
      }
    }

    /** The else branch of an `if`: the `else` block (label `elseL`) added and lowered as a branch. */
    method LowerElse(branch: Stmt, elseL: nat, mergeL: nat) returns (st: Status, ghost elsePos: nat)
      requires Valid() && |scopes| > 0
      modifies this, b
      decreases branch, 4
      ensures st.Ok? ==> Valid() && Grows(old(b.blocks), old(b.cur), b.blocks, b.cur) && b.blocks[old(b.cur)] == old(b.blocks)[old(b.cur)]
      ensures st.Ok? ==> scopes == old(scopes) && fns == old(fns) && old(nextScope) <= nextScope
      ensures st.Ok? ==> Pushed(old(arrayDecls), arrayDecls, Top(scopes))
      ensures st.Ok? ==>
        elsePos == |old(b.blocks)| <= b.cur && b.blocks[elsePos].name == "else" && b.blocks[elsePos].labelId == elseL &&
        HasTerminator(b.blocks[b.cur])
    {
      elsePos := b.AppendAndMove(elseL, "else");
      ghost var b1 := b.blocks;
      st := LowerBranch(branch, mergeL);
      if st.Ok? {
        GrowsTrans(old(b.blocks), old(b.cur), b1, elsePos, b.blocks, b.cur);
      }
    }

    /**
     * The head of an `if`: the condition in the insertion block (`head`),
     * ended by a conditional branch to a new `then` block (label `l`) or to
     * the labels `l + 1` (`else`) or `l + 2` (`ifcont`) drawn for later.
     */
    method LowerIfHead(cond: Expr, hasElse: bool) returns (st: Status, ghost head: nat, thenPos: nat, l: nat)
      requires Valid()
      modifies b
      ensures st.Ok? ==> Valid() && Grows(old(b.blocks), old(b.cur), b.blocks, b.cur)
      ensures st.Ok? ==>
        head < thenPos == b.cur == |b.blocks| - 1 && b.blocks[thenPos] == BasicBlock(l, "then", []) &&
        |b.blocks[head].insts| > 0 && LastInst(b.blocks[head]).CondBr? &&
        LastInst(b.blocks[head]).ifTrue == l && LastInst(b.blocks[head]).ifFalse == (if hasElse then l + 1 else l + 2)
    {
      head, thenPos, l := 0, 0, 0;
      var cv;
      st, cv := LowerExpr(cond);
      if !st.Ok? {
        return;
      }
      head := b.cur;
      l := b.nextLabel;
      ghost var b1 := b.blocks;
      thenPos := b.StartIf(cv, hasElse);
      GrowsTrans(old(b.blocks), old(b.cur), b1, head, b.blocks, thenPos);
    }

    /**
     * `IfStmt`: the condition; a `then` block added to the function and
     * `else` and `ifcont` blocks added only later; a conditional branch to
     * `then` and to `else`, or straight to `ifcont` when there is no else
     * branch; each branch lowered in its block and closed with a branch to
     * `ifcont` unless it already ends in a terminator; `ifcont` last, as the
     * new insertion point.
     */
    method VisitIf(s: Stmt) returns (st: Status, ghost head: nat, ghost thenPos: nat, ghost thenEnd: nat, ghost elsePos: nat, ghost elseEnd: nat)
      requires Valid() && |scopes| > 0 && s.If?
      modifies this, b
      decreases s, 0
      ensures st.Ok? ==> Valid() && Grows(old(b.blocks), old(b.cur), b.blocks, b.cur)
      ensures st.Ok? ==> scopes == old(scopes) && fns == old(fns) && old(nextScope) <= nextScope
      ensures st.Ok? ==> Pushed(old(arrayDecls), arrayDecls, Top(scopes))
      ensures st.Ok? ==>
        head < thenPos <= thenEnd < b.cur == |b.blocks| - 1 && b.blocks[thenPos].name == "then" &&
        b.blocks[b.cur].name == "ifcont" && b.blocks[b.cur].insts == [] && HasTerminator(b.blocks[thenEnd])
      ensures st.Ok? && s.elseStmt.Some? ==>
        thenEnd < elsePos <= elseEnd < b.cur && b.blocks[elsePos].name == "else" && HasTerminator(b.blocks[elseEnd])
      ensures st.Ok? ==>
        |b.blocks[head].insts| > 0 && LastInst(b.blocks[head]).CondBr? &&
        LastInst(b.blocks[head]).ifTrue == b.blocks[thenPos].labelId &&
        LastInst(b.blocks[head]).ifFalse == (if s.elseStmt.Some? then b.blocks[elsePos].labelId else b.blocks[b.cur].labelId)
    {
      thenEnd, elsePos, elseEnd := 0, 0, 0;
      var tp, l;
      st, head, tp, l := LowerIfHead(s.cond, s.elseStmt.Some?);
      thenPos := tp;
      if !st.Ok? {
        return;
      }
      ghost var b2 := b.blocks;
      st := LowerBranch(s.thenStmt, l + 2);
      if !st.Ok? {
        return;
      }
      thenEnd := b.cur;
      GrowsTrans(old(b.blocks), old(b.cur), b2, thenPos, b.blocks, thenEnd);
      if s.elseStmt.Some? {
        ghost var b3 := b.blocks;
        st, elsePos := LowerElse(s.elseStmt.value, l + 1, l + 2);
        if !st.Ok? {
          return;
        }
        elseEnd := b.cur;
        assert b.blocks[head] == b3[head] && b.blocks[thenPos].name == b3[thenPos].name;
        GrowsTrans(old(b.blocks), old(b.cur), b3, thenEnd, b.blocks, elseEnd);
      }
      ghost var b5, c5 := b.blocks, b.cur;
      var mp := b.AppendAndMove(l + 2, "ifcont");
      GrowsTrans(old(b.blocks), old(b.cur), b5, c5, b.blocks, mp);
      st := Ok;
    }

    /**
     * A loop test: the condition in the insertion block, a conditional
     * branch to `ifTrue` or `ifFalse` at the block where it ended, and the
     * block at `next` as the new insertion point.
     */
    method LowerTest(cond: Expr, ifTrue: nat, ifFalse: nat, next: nat) returns (st: Status, ghost condEnd: nat)
      requires Valid() && next < |b.blocks| && next != b.cur
      modifies b
      ensures st.Ok? ==> Valid() && Grows(old(b.blocks), old(b.cur), b.blocks, condEnd) && b.cur == next
      ensures st.Ok? ==>
        |b.blocks[condEnd].insts| > 0 && LastInst(b.blocks[condEnd]).CondBr? &&
        LastInst(b.blocks[condEnd]).ifTrue == ifTrue && LastInst(b.blocks[condEnd]).ifFalse == ifFalse
    {
      condEnd := 0;
      var cv;
      st, cv := LowerExpr(cond);
      if !st.Ok? {
        return;
      }
      condEnd := b.cur;
      ghost var b1 := b.blocks;
      b.EmitAndMove([CondBr(cv, ifTrue, ifFalse)], next);
    }

    /**
     * A loop body: the statement in the insertion block, then `tail` (the
     * way back to the loop's header) at the block where it ended, and the
     * block at `next` as the new insertion point.
     */
    method LowerLoopBody(body: Stmt, tail: seq<Inst>, next: nat) returns (st: Status, ghost bodyEnd: nat)
      requires Valid() && |scopes| > 0 && next < |b.blocks| && next != b.cur
      modifies this, b
      decreases body, 3
      ensures st.Ok? ==> Valid() && Grows(old(b.blocks), old(b.cur), b.blocks, bodyEnd) && b.cur == next
      ensures st.Ok? ==> scopes == old(scopes) && fns == old(fns) && old(nextScope) <= nextScope
      ensures st.Ok? ==> Pushed(old(arrayDecls), arrayDecls, Top(scopes))
      ensures st.Ok? ==> EndsWith(b.blocks[bodyEnd].insts, tail)
    {
      bodyEnd := 0;
      var ret;
      st, ret := VisitStmt(body);
      if !st.Ok? {
        return;
      }
      bodyEnd := b.cur;
      ghost var b1 := b.blocks;
      b.EmitAndMove(tail, next);
      assert b.blocks[bodyEnd].insts == b1[bodyEnd].insts + tail;
    }

    /**
     * `WhileStmt`: blocks `loop.header`, `loop.body` and `loop.after` added
     * to the function; a branch to the header; the condition in the header
     * and a conditional branch to the body or past the loop; the body, then
     * a branch back to the header; `loop.after` as the new insertion point.
     */
    method VisitWhile(s: Stmt) returns (st: Status, ghost condEnd: nat, ghost bodyEnd: nat)
      requires Valid() && |scopes| > 0 && s.While?
      modifies this, b
      decreases s, 0
      ensures st.Ok? ==> Valid() && Grows(old(b.blocks), old(b.cur), b.blocks, b.cur)
      ensures st.Ok? ==> scopes == old(scopes) && fns == old(fns) && old(nextScope) <= nextScope
      ensures st.Ok? ==> Pushed(old(arrayDecls), arrayDecls, Top(scopes))
      ensures st.Ok? ==>
        var hdr := |old(b.blocks)|;
        b.cur == hdr + 2 && b.blocks[hdr].name == "loop.header" && b.blocks[hdr + 1].name == "loop.body" &&
        b.blocks[b.cur].name == "loop.after" && b.blocks[b.cur].insts == [] &&
        |b.blocks[old(b.cur)].insts| > 0 && LastInst(b.blocks[old(b.cur)]) == Br(b.blocks[hdr].labelId) &&
        (condEnd == hdr || hdr + 2 < condEnd < |b.blocks|) && |b.blocks[condEnd].insts| > 0 &&
        LastInst(b.blocks[condEnd]).CondBr? && LastInst(b.blocks[condEnd]).ifTrue == b.blocks[hdr + 1].labelId &&
        LastInst(b.blocks[condEnd]).ifFalse == b.blocks[hdr + 2].labelId &&
        (bodyEnd == hdr + 1 || hdr + 2 < bodyEnd < |b.blocks|) && EndsWith(b.blocks[bodyEnd].insts, [Br(b.blocks[hdr].labelId)])
    {
      condEnd, bodyEnd := 0, 0;
      ghost var b0, c0 := b.blocks, b.cur;
      var hdrL := b.nextLabel;
      var hp := b.StartLoop("loop.header", "loop.body", "loop.after");
      ghost var b1 := b.blocks;
      st, condEnd := LowerTest(s.cond, hdrL + 1, hdrL + 2, hp + 1);
      if !st.Ok? {
        return;
      }
      ghost var b3 := b.blocks;
      assert b3[c0] == b1[c0] && b3[hp + 1] == b1[hp + 1] && b3[hp + 2] == b1[hp + 2];
      GrowsTrans(b0, c0, b1, hp, b3, condEnd);
      GrowsMoveToNew(b0, c0, b3, condEnd, hp + 1);
      st, bodyEnd := LowerLoopBody(s.body, [Br(hdrL)], hp + 2);
      if !st.Ok? {
        return;
      }
      assert b.blocks[c0] == b3[c0] && b.blocks[hp + 2] == b3[hp + 2] && b.blocks[condEnd] == b3[condEnd] && b.blocks[hp].labelId == b3[hp].labelId;
      GrowsTrans(b0, c0, b3, hp + 1, b.blocks, bodyEnd);
      GrowsMoveToNew(b0, c0, b.blocks, bodyEnd, hp + 2);
      st := Ok;
    }

    /**
     * `ForStmt`: blocks `forloop.header`, `forloop.body` and `forloop.after`
     * added to the function; throws unless the loop variable and the
     * container are identifiers; the loop variable's slot bound to its name;
     * `ForInit` at the insertion point, the header of `ForHeader`, the body
     * entered by `ForEntry` and closed by `ForLatch`; `forloop.after` as the
     * new insertion point. A container name with no slot is a null pointer.
     */
    method VisitFor(s: Stmt) returns (st: Status, r: nat, ghost bodyEnd: nat)
      requires Valid() && |scopes| > 0 && s.For?
      modifies this, b
      decreases s, 0
      ensures st.Ok? ==> Valid() && Grows(old(b.blocks), old(b.cur), b.blocks, b.cur)
      ensures st.Ok? ==> scopes == old(scopes) && fns == old(fns) && old(nextScope) <= nextScope
      ensures st.Ok? ==> Pushed(old(arrayDecls), arrayDecls, Top(scopes))
      ensures !(s.ident.Ident? && s.container.Ident?) ==> st == Threw("For stmt doesn't contain any valid id or container expr.")
      ensures st.Ok? ==> b.cur == |old(b.blocks)| + 2
      ensures st.Ok? ==>
        var hdr := |old(b.blocks)|;
        var hdrL := b.blocks[hdr].labelId;
        var slots := old(named)[s.ident.name := Value(IntPtr(width), Reg(r))];
        s.ident.Ident? && s.container.Ident? && s.container.name in slots &&
        b.cur == hdr + 2 && b.blocks[b.cur].name == "forloop.after" && b.blocks[b.cur].insts == [] &&
        EndsWith(b.blocks[old(b.cur)].insts, ForInit(slots[s.container.name], s.ident.name, width, r, hdrL)) &&
        b.blocks[hdr] == BasicBlock(hdrL, "forloop.header", ForHeader(width, r, b.blocks[hdr + 1].labelId, b.blocks[b.cur].labelId)) &&
        b.blocks[hdr + 1].name == "forloop.body" && ForEntry(width, r) <= b.blocks[hdr + 1].insts &&
        (bodyEnd == hdr + 1 || hdr + 2 < bodyEnd < |b.blocks|) && EndsWith(b.blocks[bodyEnd].insts, ForLatch(width, r, hdrL))
    {
      r, bodyEnd := 0, 0;
      ghost var b0, c0 := b.blocks, b.cur;
      if !(s.ident.Ident? && s.container.Ident?) {
        return Threw("For stmt doesn't contain any valid id or container expr."), r, bodyEnd;
      }
      r := b.Reserve(11);
      named := named[s.ident.name := Value(IntPtr(width), Reg(r))];
      if s.container.name !in named {
        return Crashed("loop over a null slot"), r, bodyEnd;
      }
      var hdrL := b.nextLabel;
      var hp := b.StartForLoop(named[s.container.name], s.ident.name, width, r);
      ghost var b3 := b.blocks;
      st, bodyEnd := LowerLoopBody(s.body, ForLatch(width, r, hdrL), hp + 2);
      if !st.Ok? {
        return;
      }
      assert b.blocks[c0] == b3[c0] && b.blocks[hp + 2] == b3[hp + 2] && b.blocks[hp] == b3[hp];
      GrowsTrans(b0, c0, b3, hp + 1, b.blocks, bodyEnd);
      GrowsMoveToNew(b0, c0, b.blocks, bodyEnd, hp + 2);
      st := Ok;
    }
      // -------------------------------------------------------- functions and the program

    /** The function type of a prototype: the parameters in order, a `void` one throwing at once. */
    method FunctionSig(proto: FunctionPrototype) returns (so: SigOutcome)
      ensures so == SigOf(proto, width)
    {
      var ps := proto.params;
      var tys: seq<Ty> := [];
      var typed := true;
      var i := 0;
      while i < |ps|
        invariant 0 <= i <= |ps|
        invariant forall k :: 0 <= k < i ==> ps[k].paramType != TypeVoid
        invariant typed <==> ParamTys(ps[..i], width).Some?
        invariant typed ==> ParamTys(ps[..i], width) == Some(tys)
      {
        if ps[i].paramType == TypeVoid {
          return SigFailed(Threw(VoidParamMsg));
        }
        var t := LlvmType(ps[i].paramType, width);
        assert ps[..i + 1][..i] == ps[..i];
        if typed && t.Some? {
          tys := tys + [t.value];
        } else {
          typed := false;
        }
        i := i + 1;
      }
      assert ps[..i] == ps;
      var ret := LlvmType(proto.fnType, width);
      if ret.Some? && typed {
        so := SigOk(FnSig(ret.value, tys));
      } else {
        so := SigFailed(Crashed("function type with a null type"));
      }
    }

    /** The first pass of `Program`: every function added to the module in order, as `Declare` says. */
    method DeclareFunctions(defs: seq<FunctionDefinition>) returns (st: Status)
      modifies this`fns
      ensures st.Ok? <==> Declare(defs, old(fns), width).Declared?
      ensures st.Ok? ==> fns == Declare(defs, old(fns), width).fns
      ensures !st.Ok? ==> st == Declare(defs, old(fns), width).st
    {
      var i := 0;
      while i < |defs|
        invariant 0 <= i <= |defs|
        invariant Declare(defs, old(fns), width) == Declare(defs[i..], fns, width)
      {
        var p := defs[i].proto;
        assert defs[i..][1..] == defs[i + 1..];
        if p.name in fns {
          return Threw(AlreadyDeclaredMsg(p.name));
        }
        var so := FunctionSig(p);
        if so.SigFailed? {
          return so.st;
        }
        fns := fns[p.name := so.sig];
        i := i + 1;
      }
      st := Ok;
    }

    /**
     * The arguments of the function being lowered, named `names`: each gets
     * a slot from `CreateEntryBlockAlloca` in front of the entry block, the
     * argument is stored into it at the insertion point, and its name is
     * bound to it.
     */
    method BindParams(names: seq<string>, tys: seq<Ty>) returns (r0: nat)
      requires Valid() && |names| == |tys|
      modifies this`named, b
      ensures r0 == old(b.nextReg) && b.nextReg == r0 + |names| && b.nextLabel == old(b.nextLabel)
      ensures Valid() && b.cur == old(b.cur)
      ensures b.blocks == old(b.blocks)[old(b.cur) := Appended(old(b.blocks)[old(b.cur)], ParamStores(tys, r0))]
      ensures b.entryFront == ParamAllocas(names, tys, r0, width) + old(b.entryFront)
      ensures named == BindAll(old(named), names, tys, r0)
    {
      r0 := b.AllocaParams(names, tys, width);
      BindNames(names, tys, r0);
    }

    /** `_NamedValues[arg.getName()] = alloca` for each argument in order, the slots being registers `r0`, `r0 + 1`, .... */
    method BindNames(names: seq<string>, tys: seq<Ty>, r0: nat)
      requires |names| == |tys|
      modifies this`named
      ensures named == BindAll(old(named), names, tys, r0)
    {
      var i := 0;
      while i < |names|
        invariant 0 <= i <= |names|
        invariant named == BindAll(old(named), names[..i], tys[..i], r0)
      {
        assert names[..i + 1][..i] == names[..i] && tys[..i + 1][..i] == tys[..i];
        named := named[names[i] := Value(PtrTy(tys[i]), Reg(r0 + i))];
        i := i + 1;
      }
      assert names[..i] == names && tys[..i] == tys;
    }

    /**
     * The start of one function of the second pass of `Program`: a new
     * `entry` block as the insertion point, `_NamedValues` cleared and the
     * arguments bound under the names the first pass gave them.
     */
    method StartFunctionBody(ps: seq<FnParam>, tys: seq<Ty>) returns (r0: nat)
      requires Valid() && |ps| == |tys|
      modifies this`named, b
      ensures Valid() && b.cur == 0 && |b.blocks| == 1
      ensures b.blocks[0] == BasicBlock(old(b.nextLabel), "entry", ParamStores(tys, r0))
      ensures b.entryFront == ParamAllocas(ArgNames(ParamNames(ps)).0, tys, r0, width)
      ensures named == BindAll(map[], ArgNames(ParamNames(ps)).0, tys, r0)
    {
      b.StartFunction();
      named := map[];
      r0 := BindParams(ArgNames(ParamNames(ps)).0, tys);
      assert b.blocks[0].insts == [] + ParamStores(tys, r0);
    }

    /** The end of one function: `ret void` when the function is `void` and the insertion block has no terminator. */
    method FinishFunction(fnType: TokenKind)
      requires b.Valid()
      modifies b
      ensures b.Valid() && b.cur == old(b.cur) && Grows(old(b.blocks), old(b.cur), b.blocks, b.cur)
      ensures fnType == TypeVoid ==> HasTerminator(b.blocks[b.cur])
      ensures old(b.Terminated()) || fnType != TypeVoid ==> b.blocks == old(b.blocks)
    {
      if !b.Terminated() && fnType == TypeVoid {
        b.Emit([Ret(None)]);
      }
    }

    /**
     * One function of the second pass of `Program`: its entry block, its
     * parameters bound, its body lowered as a block, `ret void` added where
     * a `void` function falls off its end, and the result recorded.
     */
    method LowerFunction(def: FunctionDefinition) returns (st: Status, f: FnBody, ghost r0: nat)
      requires Valid() && scopes == [] && SigOf(def.proto, width).SigOk?
      modifies this, b
      ensures st.Ok? ==> Valid() && scopes == [] && arrayDecls == old(arrayDecls) && fns == old(fns)
      ensures st.Ok? ==>
        f.name == def.proto.name && f.exit < |f.blocks| && f.blocks[0].name == "entry" &&
        ParamStores(SigOf(def.proto, width).sig.params, r0) <= f.blocks[0].insts &&
        (def.proto.fnType == TypeVoid ==> HasTerminator(f.blocks[f.exit]))
      ensures def.body.None? ==> st == Crashed("accept on a null function body")
    {
      var tys := SigOf(def.proto, width).sig.params;
      f := FnBody(def.proto.name, [], [], 0);
      r0 := StartFunctionBody(def.proto.params, tys);
      if def.body.None? {
        return Crashed("accept on a null function body"), f, r0;
      }
      ghost var b1 := b.blocks;
      ghost var count: nat, popped: seq<Cleanup>, plan: RetPlan;
      st, count, popped, plan := VisitBlock(Block(def.body.value));
      if !st.Ok? {
        return;
      }
      ghost var b2, c2 := b.blocks, b.cur;
      FinishFunction(def.proto.fnType);
      GrowsTrans(b1, 0, b2, c2, b.blocks, b.cur);
      f := FnBody(def.proto.name, b.entryFront, b.blocks, b.cur);
    }

    /** The second pass of `Program`: every function lowered in program order. */
    method LowerFunctions(defs: seq<FunctionDefinition>) returns (st: Status, bodies: seq<FnBody>)
      requires Valid() && scopes == [] && AllTyped(defs, width)
      modifies this, b
      ensures st.Ok? ==> Valid() && fns == old(fns) && |bodies| == |defs|
      ensures st.Ok? ==> forall i :: 0 <= i < |defs| ==> LoweredFrom(bodies[i], defs[i])
    {
      bodies := [];
      var i := 0;
      while i < |defs|
        invariant 0 <= i <= |defs| && |bodies| == i
        invariant Valid() && scopes == [] && fns == old(fns)
        invariant forall k :: 0 <= k < i ==> LoweredFrom(bodies[k], defs[k])
      {
        var f;
        ghost var r0;
        st, f, r0 := LowerFunction(defs[i]);
        if !st.Ok? {
          return;
        }
        bodies := bodies + [f];
        i := i + 1;
      }
      st := Ok;
    }

    /**
     * `Program`: the run-time functions declared; the first pass declares
     * every function, as `Declare` says; a program without `main` reaches
     * `setLinkage` on a null function; the second pass lowers every function.
     */
    method VisitProgram(defs: seq<FunctionDefinition>) returns (st: Status, bodies: seq<FnBody>)
      requires Valid() && scopes == []
      modifies this, b
      ensures Declare(defs, old(fns) + RuntimeFns(width), width).DeclFailed? ==>
        st == Declare(defs, old(fns) + RuntimeFns(width), width).st
      ensures Declare(defs, old(fns) + RuntimeFns(width), width).Declared? && "main" !in Declare(defs, old(fns) + RuntimeFns(width), width).fns ==>
        st == Crashed("setLinkage on a null function")
      ensures st.Ok? ==>
        Declare(defs, old(fns) + RuntimeFns(width), width).Declared? &&
        fns == Declare(defs, old(fns) + RuntimeFns(width), width).fns && "main" in fns && |bodies| == |defs|
      ensures st.Ok? ==> forall i :: 0 <= i < |defs| ==> LoweredFrom(bodies[i], defs[i])
    {
      bodies := [];
      fns := fns + RuntimeFns(width);
      ghost var f0 := fns;
      st := DeclareFunctions(defs);
      if !st.Ok? {
        return;
      }
      if "main" !in fns {
        return Crashed("setLinkage on a null function"), bodies;
      }
      DeclareSucceedsIff(defs, f0, width);
      st, bodies := LowerFunctions(defs);
    }
  }
}
