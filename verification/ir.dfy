/**
 * The intermediate representation the code generator emits, standing in for
 * the LLVM types, values, instructions and basic blocks it builds through
 * `IRBuilder`, together with the integer semantics of the width coercions.
 */
module Ir {
  import opened Basics
  import opened Tokens

  // ------------------------------------------------------------ types

  /**
   * The types the compiler builds: an integer of some bit width (`i1` for
   * booleans), `void`, the array record `{iW size, iW* data}`, and pointers.
   */
  datatype Ty = IntTy(width: nat) | VoidTy | ArrayTy(elemWidth: nat) | PtrTy(pointee: Ty)

  /** The pointer type of a string constant: `i8*`. */
  const BytePtr: Ty := PtrTy(IntTy(8))

  /** 2^32: `unsigned` arithmetic is modulo this. */
  const U32: nat := 0x1_0000_0000
  /** 2^64: the largest value `std::stoul` returns is below this. */
  const ULongLimit: nat := 0x1_0000_0000_0000_0000

  /**
   * `std::stoul` of the text: None where it throws, because no number comes
   * first (`invalid_argument`) or the number does not fit in an
   * `unsigned long` (`out_of_range`); a `-` sign negates modulo 2^64.
   */
  function Stoul(s: string): (r: Option<nat>)
    ensures r.Some? ==> r.value < ULongLimit
  {
    match StrtoulPrefix(s)
    case None => None
    case Some((negative, m)) =>
      if m >= ULongLimit then None
      else if negative && m > 0 then Some(ULongLimit - m)
      else Some(m)
  }

  /**
   * The integer width the `width` option selects (`CreateLLVMType`): 64 when
   * the option is empty, otherwise `std::stoul` of its text, which throws
   * where `Stoul` gives None, stored into an `unsigned` and so reduced modulo
   * 2^32.
   */
  function IntWidth(widthOption: string): (r: Option<nat>)
    ensures widthOption == "" ==> r == Some(64)
    ensures widthOption != "" ==> (r.Some? <==> Stoul(widthOption).Some?)
    ensures widthOption != "" && r.Some? ==> r.value == Stoul(widthOption).value % U32
    ensures r.Some? ==> r.value < U32
  {
    if widthOption == "" then Some(64)
    else
      match Stoul(widthOption)
      case None => None
      case Some(n) => Some(n % U32)
  }

  /** Writing a width below 2^32 in decimal as the option selects exactly that width. */
  lemma WidthOptionRoundTrip(w: nat)
    requires w < U32
    ensures IntWidth(NatToString(w)) == Some(w)
  {
    var s := NatToString(w);
    ParseDecimalRoundTrip(w);
    ModOfSmall(w, U32);
    assert IntWidth(s) == Some(w % U32);
  }

  /**
   * The width text may carry leading white space and a `+` sign; `-1` is
   * 2^64 - 1, which the `unsigned` cuts to 2^32 - 1.
   */
  lemma WidthOptionSpaceAndSign(w: nat)
    requires w < U32
    ensures IntWidth(" " + NatToString(w)) == Some(w)
    ensures IntWidth("+" + NatToString(w)) == Some(w)
    ensures IntWidth("-1") == Some(U32 - 1)
  {
    StrtoulSpaceAndSign(' ', NatToString(w), w);
    StrtoulSpaceAndSign(' ', NatToString(w), 1);
    ModOfSmall(w, U32);
    assert " " + NatToString(w) == [' '] + NatToString(w);
    assert NatToString(1) == "1";
    assert "-1" == "-" + NatToString(1);
  }

  /**
   * `CreateLLVMType`: the type a type keyword denotes, with integers of width
   * `w`; None (a null type) for any other token.
   */
  function LlvmType(k: TokenKind, w: nat): (t: Option<Ty>)
    ensures t.Some? <==> IsTokenType(k)
    ensures t == Some(VoidTy) <==> k == TypeVoid
    ensures t.Some? && t.value.IntTy? ==> (t.value.width == 1 <==> k == TypeBool) || w == 1
  {
    match k
    case TypeInt => Some(IntTy(w))
    case TypeBool => Some(IntTy(1))
    case TypeVoid => Some(VoidTy)
    case TypeArray => Some(ArrayTy(w))
    case _ => None
  }

  // ------------------------------------------------------------ values and instructions

  /** What a value is: a virtual register, an integer constant, a global string, or a function argument. */
  datatype Ref = Reg(id: nat) | IntConst(v: int) | GlobalStr(s: string) | Param(index: nat)

  /** A typed value (`llvm::Value*`). */
  datatype Value = Value(ty: Ty, ref: Ref)

  datatype ArithOp = And | Or | Add | Sub | Mul | SDiv | SRem

  /** Integer comparison predicates (`icmp`). */
  datatype Pred = EQ | NE | SGT | SGE | SLT | SLE

  /**
   * The instructions emitted. Each defining instruction names its destination
   * register; `FieldAddr` is the `getelementptr {0, field}` into an array
   * record, `ElemAddr` the `getelementptr` into the data buffer, and `Memset`
   * the `llvm.memset` call that zero-fills `len` bytes behind `ptr`.
   */
  datatype Inst =
    | Alloca(dst: nat, allocTy: Ty, count: Option<Value>, name: string)
    | Load(dst: nat, ptr: Value)
    | Store(val: Value, ptr: Value)
    | FieldAddr(dst: nat, base: Value, field: nat)
    | ElemAddr(dst: nat, base: Value, index: Value)
    | Arith(dst: nat, op: ArithOp, lhs: Value, rhs: Value)
    | ICmp(dst: nat, pred: Pred, lhs: Value, rhs: Value)
    | Not(dst: nat, operand: Value)
    | Neg(dst: nat, operand: Value)
    | SExt(dst: nat, operand: Value, toWidth: nat)
    | Trunc(dst: nat, operand: Value, toWidth: nat)
    | Select(dst: nat, cond: Value, onTrue: Value, onFalse: Value)
    | Call(dst: nat, callee: string, args: seq<Value>)
    | Memset(ptr: Value, len: Value)
    | StackSave(dst: nat)
    | StackRestore(saved: Value)
    | Br(target: nat)
    | CondBr(cond: Value, ifTrue: nat, ifFalse: nat)
    | Ret(retVal: Option<Value>)
    | Unreachable

  predicate IsTerminator(i: Inst) {
    i.Br? || i.CondBr? || i.Ret? || i.Unreachable?
  }

  /**
   * A basic block: the label branches name it by, its name, and its
   * instructions in order.
   */
  datatype BasicBlock = BasicBlock(labelId: nat, name: string, insts: seq<Inst>)

  /** `getTerminator()`: whether the block already ends in a terminator. */
  predicate HasTerminator(b: BasicBlock) {
    |b.insts| > 0 && IsTerminator(b.insts[|b.insts| - 1])
  }

  // ------------------------------------------------------------ integer semantics

  function Pow2(n: nat): (p: nat)
    ensures p >= 1
  {
    if n == 0 then 1 else 2 * Pow2(n - 1)
  }

  lemma {:induction false} Pow2Monotone(a: nat, b: nat)
    requires a <= b
    ensures Pow2(a) <= Pow2(b)
    decreases b - a
  {
    if a < b {
      Pow2Monotone(a, b - 1);
    }
  }

  /** The signed values an integer of width `w` holds in two's complement. */
  predicate InRange(v: int, w: nat) {
    if w == 0 then false else -(Pow2(w - 1) as int) <= v < Pow2(w - 1)
  }

  lemma {:induction false} MulAtLeast(q: int, m: int)
    requires q >= 1 && m > 0
    ensures q * m >= m
  {
    if q > 1 {
      MulAtLeast(q - 1, m);
      assert q * m == (q - 1) * m + m;
    }
  }

  lemma ModOfSmall(x: int, m: int)
    requires 0 <= x < m
    ensures x % m == x
  {
    var q, r := x / m, x % m;
    assert x == q * m + r;
    if q >= 1 {
      MulAtLeast(q, m);
    }
  }

  lemma ModMultiple(x: int, k: int, m: int)
    requires m > 0
    ensures (x + k * m) % m == x % m
  {
    var q, r := (x + k * m) / m, (x + k * m) % m;
    var q0, r0 := x / m, x % m;
    assert x + k * m == q * m + r;
    assert x == q0 * m + r0;
    assert (q - q0 - k) * m == r0 - r;
    var d := q - q0 - k;
    if d >= 1 {
      MulAtLeast(d, m);
    } else if d <= -1 {
      MulAtLeast(-d, m);
    }
  }

  /** `trunc` to width `w` as a signed value: the value of the low `w` bits. */
  function Wrap(v: int, w: nat): (r: int)
    requires w >= 1
    ensures InRange(r, w)
  {
    Centered(v, Pow2(w - 1), Pow2(w))
  }

  /** The representative of `v` modulo `m` in `[-h, m - h)`. */
  function Centered(v: int, h: int, m: int): int
    requires m > 0
  {
    (v + h) % m - h
  }

  /** Widening keeps every value representable: `sext` does not change the signed value. */
  lemma SExtKeepsValue(v: int, from: nat, to: nat)
    requires InRange(v, from) && from <= to
    ensures InRange(v, to)
  {
    Pow2Monotone(from - 1, to - 1);
  }

  /** Truncating a value that fits the narrower width leaves it unchanged. */
  lemma TruncKeepsFittingValue(v: int, w: nat)
    requires InRange(v, w)
    ensures Wrap(v, w) == v
  {
    var h := Pow2(w - 1);
    assert Pow2(w) == 2 * h;
    ModOfSmall(v + h, Pow2(w));
  }

  /** Taking away the remainder leaves a multiple of the modulus. */
  lemma SubModIsMultiple(x: int, m: int)
    requires m > 0
    ensures (x - x % m) % m == 0
  {
    var q := x / m;
    assert x - x % m == q * m;
    ModMultiple(0, q, m);
  }

  /** Truncation differs from the original by a multiple of 2^w. */
  lemma WrapCongruent(v: int, w: nat)
    requires w >= 1
    ensures (v - Wrap(v, w)) % Pow2(w) == 0
  {
    CenteredModCongruent(v, Pow2(w - 1), Pow2(w));
  }

  lemma CenteredModCongruent(v: int, h: int, m: int)
    requires m > 0
    ensures (v - Centered(v, h, m)) % m == 0
  {
    SubModIsMultiple(v + h, m);
    assert v - Centered(v, h, m) == (v + h) - (v + h) % m;
  }

  /** The coercion `UpdateToIntWidth` chooses from a value's width to the target width. */
  datatype Coercion = Keep | Widen | Narrow

  function CoercionFor(fromWidth: nat, toWidth: nat): (c: Coercion)
    ensures c == Keep <==> fromWidth == 1 || fromWidth == toWidth
    ensures c == Widen <==> fromWidth != 1 && fromWidth < toWidth
    ensures c == Narrow <==> fromWidth != 1 && fromWidth > toWidth
  {
    if fromWidth == 1 then Keep
    else if fromWidth < toWidth then Widen
    else if fromWidth > toWidth then Narrow
    else Keep
  }

  /** The signed value after the coercion (booleans keep their 0/1 value). */
  function Coerced(v: int, fromWidth: nat, toWidth: nat): int
    requires toWidth >= 1
  {
    match CoercionFor(fromWidth, toWidth)
    case Keep => v
    case Widen => v
    case Narrow => Wrap(v, toWidth)
  }

  /**
   * A coercion to a width at least as wide as the value's keeps it, and a
   * coercion to a narrower width keeps exactly the values that fit.
   */
  lemma CoercionKeepsFittingValues(v: int, fromWidth: nat, toWidth: nat)
    requires InRange(v, fromWidth) && toWidth >= 1 && fromWidth != 1
    ensures InRange(v, toWidth) ==> Coerced(v, fromWidth, toWidth) == v
    ensures InRange(Coerced(v, fromWidth, toWidth), toWidth)
  {
    match CoercionFor(fromWidth, toWidth)
    case Keep =>
    case Widen =>
      SExtKeepsValue(v, fromWidth, toWidth);
    case Narrow =>
      if InRange(v, toWidth) {
        TruncKeepsFittingValue(v, toWidth);
      }
  }

  /** Widening and then narrowing back to the original width gives the original value. */
  lemma WidenThenNarrowRoundTrip(v: int, w: nat, wider: nat)
    requires InRange(v, w) && w > 1 && wider > w
    ensures Coerced(Coerced(v, w, wider), wider, w) == v
  {
    TruncKeepsFittingValue(v, w);
  }

  // ------------------------------------------------------------ branch semantics

  /** The signed integer a value holds, given the integers held by registers. */
  function OperandValue(v: Value, regs: map<nat, int>): Option<int> {
    match v.ref
    case IntConst(c) => Some(c)
    case Reg(r) => if r in regs then Some(regs[r]) else None
    case _ => None
  }

  function Compare(p: Pred, a: int, b: int): bool {
    match p
    case EQ => a == b
    case NE => a != b
    case SGT => a > b
    case SGE => a >= b
    case SLT => a < b
    case SLE => a <= b
  }

  /**
   * Runs the comparisons of a block tail and returns the block its
   * conditional branch goes to; None when the tail is not comparisons
   * followed by a branch, or reads a register no comparison set.
   */
  function BranchTarget(insts: seq<Inst>, regs: map<nat, int>): Option<nat>
    decreases |insts|
  {
    if insts == [] then None
    else
      match insts[0]
      case ICmp(dst, p, l, r) =>
        (match (OperandValue(l, regs), OperandValue(r, regs))
         case (Some(a), Some(b)) => BranchTarget(insts[1..], regs[dst := if Compare(p, a, b) then 1 else 0])
         case _ => None)
      case CondBr(c, t, f) =>
        (match OperandValue(c, regs)
         case Some(x) => Some(if x != 0 then t else f)
         case None => None)
      case Br(t) => Some(t)
      case _ => None
  }
}
