/** Machine words, memory, target layouts and the abstract operations that the
    CFG semantics and the generated code share. */
module Machine {

  datatype Option<+T> = None | Some(value: T)

  /** A machine word, as an unsigned number. */
  type Val = nat

  /** Memory maps an address to the last datum stored there. */
  type Mem = map<nat, Val>

  function Read(mem: Mem, a: nat): Val {
    if a in mem then mem[a] else 0
  }

  // ----- CMachine registers -----

  const NUM_REGS: nat := 5
  const ALLOC_PTR: nat := 0
  const LIMIT_PTR: nat := 1
  const STORE_PTR: nat := 2
  const EXN_HNDLR: nat := 3
  const VAR_PTR: nat := 4

  /** The part of a target description that the code generator consults. A stack
      offset of zero puts the register in hardware. */
  datatype Target = Target(stkOffset: seq<int>, wordSz: nat, allocSlop: nat, numGCRoots: nat) {

    ghost predicate Valid() {
      && |stkOffset| == NUM_REGS
      && (wordSz == 4 || wordSz == 8)
      && forall i, j :: 0 <= i < j < NUM_REGS && stkOffset[i] != 0 ==> stkOffset[i] != stkOffset[j]
    }

    predicate IsMachine(r: nat)
      requires |stkOffset| == NUM_REGS
    {
      r < NUM_REGS && stkOffset[r] == 0
    }

    function Modulus(): nat {
      if wordSz == 8 then 0x1_0000_0000_0000_0000 else 0x1_0000_0000
    }

    /** The hardware registers among the first n, in order. */
    function HwUpTo(n: nat): (hw: seq<nat>)
      requires |stkOffset| == NUM_REGS && n <= NUM_REGS
      ensures forall i :: 0 <= i < |hw| ==> hw[i] < n && IsMachine(hw[i])
    {
      if n == 0 then [] else HwUpTo(n - 1) + (if IsMachine(n - 1) then [n - 1] else [])
    }

    /** The hardware registers, in the order in which they are passed as arguments. */
    function Hw(): (hw: seq<nat>)
      requires |stkOffset| == NUM_REGS
      ensures forall i :: 0 <= i < |hw| ==> hw[i] < NUM_REGS && IsMachine(hw[i])
    {
      HwUpTo(NUM_REGS)
    }

    /** The position of a hardware register in the argument order. */
    function HwIndex(r: nat): nat
      requires |stkOffset| == NUM_REGS && r <= NUM_REGS
    {
      |HwUpTo(r)|
    }
  }

  lemma {:induction false} HwPrefix(tgt: Target, m: nat, n: nat)
    requires |tgt.stkOffset| == NUM_REGS && m <= n <= NUM_REGS
    ensures tgt.HwUpTo(m) <= tgt.HwUpTo(n)
  {
    if m < n {
      HwPrefix(tgt, m, n - 1);
    }
  }

  /** Counting hardware registers while scanning all registers finds the same
      position as the table of hardware registers. */
  lemma HwIndexed(tgt: Target, r: nat)
    requires |tgt.stkOffset| == NUM_REGS && tgt.IsMachine(r)
    ensures tgt.HwIndex(r) < |tgt.Hw()| && tgt.Hw()[tgt.HwIndex(r)] == r
  {
    HwPrefix(tgt, r + 1, NUM_REGS);
    assert tgt.HwUpTo(r + 1)[tgt.HwIndex(r)] == r;
  }

  lemma {:induction false} HwUpToIndex(tgt: Target, n: nat, i: nat)
    requires |tgt.stkOffset| == NUM_REGS && n <= NUM_REGS && i < |tgt.HwUpTo(n)|
    ensures tgt.HwIndex(tgt.HwUpTo(n)[i]) == i
  {
    if i < |tgt.HwUpTo(n - 1)| {
      HwUpToIndex(tgt, n - 1, i);
    }
  }

  /** ... and the other way round, so no two positions hold the same register. */
  lemma HwIndexInverse(tgt: Target, i: nat)
    requires |tgt.stkOffset| == NUM_REGS && i < |tgt.Hw()|
    ensures tgt.HwIndex(tgt.Hw()[i]) == i
  {
    HwUpToIndex(tgt, NUM_REGS, i);
  }

  // ----- operations -----

  /** The operations that neither semantics looks into. */
  datatype Ops = Ops(
    pure: (nat, seq<Val>) -> Val,
    cond: (nat, seq<Val>) -> bool,
    arith: (nat, seq<Val>) -> Val,
    overflows: (nat, seq<Val>) -> bool,
    fnAddr: nat -> Val,
    gcReg: (nat, seq<Val>, seq<Val>, Mem) -> Val,
    gcRoot: (nat, seq<Val>, seq<Val>, Mem) -> Val,
    gcMem: (seq<Val>, seq<Val>, Mem) -> Mem,
    undef: Val)

  datatype Machine = Machine(tgt: Target, ops: Ops)

  /** Address of the idx-th element of size `scale` from `base`, in machine arithmetic. */
  function Index(tgt: Target, base: Val, scale: nat, idx: Val): Val {
    (base + scale * idx) % tgt.Modulus()
  }

  function Max(a: nat, b: nat): nat { if a < b then b else a }

  /** Bitwise or. */
  function BitOr(a: nat, b: nat): nat {
    if a == 0 then b
    else if b == 0 then a
    else 2 * BitOr(a / 2, b / 2) + Max(a % 2, b % 2)
  }

  /** The smallest multiple of `align` that is at least n; for a power of two this is
      the usual mask expression. */
  function RoundUp(n: nat, align: nat): nat
    requires align > 0
  {
    (n + align - 1) / align * align
  }

  // ----- register files -----

  /** The values of the hardware registers, in argument order. */
  function HwVals(tgt: Target, regs: seq<Val>): seq<Val>
    requires |tgt.stkOffset| == NUM_REGS && |regs| == NUM_REGS
  {
    seq(|tgt.Hw()|, i requires 0 <= i < |tgt.Hw()| => regs[tgt.Hw()[i]])
  }

  /** The stack frame slots that hold the other registers. */
  function StackOf(tgt: Target, regs: seq<Val>): map<int, Val>
    requires |tgt.stkOffset| == NUM_REGS && |regs| == NUM_REGS
  {
    StackUpTo(tgt, regs, NUM_REGS)
  }

  function StackUpTo(tgt: Target, regs: seq<Val>, n: nat): map<int, Val>
    requires |tgt.stkOffset| == NUM_REGS && |regs| == NUM_REGS && n <= NUM_REGS
  {
    if n == 0 then map[]
    else if tgt.IsMachine(n - 1) then StackUpTo(tgt, regs, n - 1)
    else StackUpTo(tgt, regs, n - 1)[tgt.stkOffset[n - 1] := regs[n - 1]]
  }

  /** The register file that hardware values and stack slots represent together. */
  function Gather(tgt: Target, hw: seq<Val>, stk: map<int, Val>): (regs: seq<Val>)
    requires |tgt.stkOffset| == NUM_REGS
    ensures |regs| == NUM_REGS
  {
    seq(NUM_REGS, r requires 0 <= r < NUM_REGS =>
      if tgt.IsMachine(r) then (if tgt.HwIndex(r) < |hw| then hw[tgt.HwIndex(r)] else 0)
      else if tgt.stkOffset[r] in stk then stk[tgt.stkOffset[r]] else 0)
  }

  lemma {:induction false} StackSlotUpTo(tgt: Target, regs: seq<Val>, n: nat, r: nat)
    requires tgt.Valid() && |regs| == NUM_REGS && r < n <= NUM_REGS && !tgt.IsMachine(r)
    ensures tgt.stkOffset[r] in StackUpTo(tgt, regs, n)
    ensures StackUpTo(tgt, regs, n)[tgt.stkOffset[r]] == regs[r]
  {
    if r < n - 1 {
      StackSlotUpTo(tgt, regs, n - 1, r);
    }
  }

  /** The slot of a stack register holds that register. */
  lemma StackSlot(tgt: Target, regs: seq<Val>, r: nat)
    requires tgt.Valid() && |regs| == NUM_REGS && r < NUM_REGS && !tgt.IsMachine(r)
    ensures tgt.stkOffset[r] in StackOf(tgt, regs) && StackOf(tgt, regs)[tgt.stkOffset[r]] == regs[r]
  {
    StackSlotUpTo(tgt, regs, NUM_REGS, r);
  }

  lemma {:induction false} StackStoreUpTo(tgt: Target, regs: seq<Val>, n: nat, r: nat, v: Val)
    requires tgt.Valid() && |regs| == NUM_REGS && n <= NUM_REGS && r < NUM_REGS && !tgt.IsMachine(r)
    ensures StackUpTo(tgt, regs[r := v], n) ==
            if r < n then StackUpTo(tgt, regs, n)[tgt.stkOffset[r] := v] else StackUpTo(tgt, regs, n)
  {
    if n > 0 {
      StackStoreUpTo(tgt, regs, n - 1, r, v);
    }
  }

  /** Storing into a slot assigns that register and no other. */
  lemma StackStore(tgt: Target, regs: seq<Val>, r: nat, v: Val)
    requires tgt.Valid() && |regs| == NUM_REGS && r < NUM_REGS && !tgt.IsMachine(r)
    ensures StackOf(tgt, regs[r := v]) == StackOf(tgt, regs)[tgt.stkOffset[r] := v]
  {
    StackStoreUpTo(tgt, regs, NUM_REGS, r, v);
  }

  lemma {:induction false} StackHwUpTo(tgt: Target, regs: seq<Val>, n: nat, r: nat, v: Val)
    requires tgt.Valid() && |regs| == NUM_REGS && n <= NUM_REGS && tgt.IsMachine(r)
    ensures StackUpTo(tgt, regs[r := v], n) == StackUpTo(tgt, regs, n)
  {
    if n > 0 {
      StackHwUpTo(tgt, regs, n - 1, r, v);
    }
  }

  /** A hardware register has no slot. */
  lemma StackHw(tgt: Target, regs: seq<Val>, r: nat, v: Val)
    requires tgt.Valid() && |regs| == NUM_REGS && tgt.IsMachine(r)
    ensures StackOf(tgt, regs[r := v]) == StackOf(tgt, regs)
  {
    StackHwUpTo(tgt, regs, NUM_REGS, r, v);
  }

  /** Splitting a register file over hardware and stack loses nothing. */
  lemma GatherSplit(tgt: Target, regs: seq<Val>)
    requires tgt.Valid() && |regs| == NUM_REGS
    ensures Gather(tgt, HwVals(tgt, regs), StackOf(tgt, regs)) == regs
  {
    forall r | 0 <= r < NUM_REGS
      ensures Gather(tgt, HwVals(tgt, regs), StackOf(tgt, regs))[r] == regs[r]
    {
      if tgt.IsMachine(r) {
        HwIndexed(tgt, r);
      } else {
        StackSlot(tgt, regs, r);
      }
    }
  }
}
