/** The tables and the symbolic state of the CMachine registers. */
module Registers {
  import opened Machine
  import opened IR

  /** A register is in hardware when its index is not negative, and in the stack frame at
      `offset` otherwise. */
  datatype CMRegInfo = CMRegInfo(id: nat, idx: int, offset: int) {
    predicate IsMachineReg() {
      idx >= 0
    }
  }

  function InfoOf(tgt: Target, r: nat): CMRegInfo
    requires |tgt.stkOffset| == NUM_REGS && r < NUM_REGS
  {
    if tgt.stkOffset[r] != 0 then CMRegInfo(r, -1, tgt.stkOffset[r]) else CMRegInfo(r, r, 0)
  }

  class CMRegs {
    const info: array<CMRegInfo>
    const hwRegs: array<CMRegInfo>
    var nHWRegs: nat

    /** The tables describe the target: all registers by number, and the hardware registers
        in argument order. */
    ghost predicate Describes(tgt: Target)
      reads this, info, hwRegs
    {
      && |tgt.stkOffset| == NUM_REGS && info.Length == NUM_REGS == hwRegs.Length
      && nHWRegs == |tgt.Hw()| <= NUM_REGS
      && (forall r :: 0 <= r < NUM_REGS ==> info[r] == InfoOf(tgt, r))
      && (forall i :: 0 <= i < nHWRegs ==> hwRegs[i] == InfoOf(tgt, tgt.Hw()[i]))
    }

    /** Entries of hwRegs past the last hardware register are never set. */
    constructor (tgt: Target)
      requires |tgt.stkOffset| == NUM_REGS
      ensures Describes(tgt) && fresh(info) && fresh(hwRegs)
    {
      info := new CMRegInfo[NUM_REGS];
      hwRegs := new CMRegInfo[NUM_REGS];
      nHWRegs := 0;
      new;
      for i := 0 to NUM_REGS
        invariant nHWRegs == 0
        invariant forall r :: 0 <= r < i ==> info[r] == InfoOf(tgt, r)
      {
        if tgt.stkOffset[i] != 0 {
          info[i] := CMRegInfo(i, -1, tgt.stkOffset[i]);
        } else {
          info[i] := CMRegInfo(i, i, 0);
        }
      }
      var nHW := 0;
      for i := 0 to NUM_REGS
        invariant nHW == |tgt.HwUpTo(i)| <= i
        invariant forall r :: 0 <= r < NUM_REGS ==> info[r] == InfoOf(tgt, r)
        invariant forall k :: 0 <= k < nHW ==> hwRegs[k] == InfoOf(tgt, tgt.HwUpTo(i)[k])
      {
        if info[i].IsMachineReg() {
          hwRegs[nHW] := info[i];
          nHW := nHW + 1;
        }
      }
      nHWRegs := nHW;
    }
  }

  class CMRegState {
    const vals: array<Option<Value>>

    /** At first no register has a value. */
    constructor ()
      ensures fresh(vals) && vals.Length == NUM_REGS
      ensures vals[..] == seq(NUM_REGS, _ => None)
    {
      vals := new Option<Value>[NUM_REGS](_ => None);
      new;
      assert vals[..] == seq(NUM_REGS, _ => None);
    }

    method CopyFrom(cache: CMRegState)
      requires vals.Length == NUM_REGS == cache.vals.Length
      modifies vals
      ensures vals[..] == old(cache.vals[..])
    {
      for i := 0 to NUM_REGS
        invariant forall k :: 0 <= k < i ==> vals[k] == old(cache.vals[k])
        invariant forall k :: i <= k < NUM_REGS ==> cache.vals[k] == old(cache.vals[k])
      {
        vals[i] := cache.vals[i];
      }
    }
  }
}
