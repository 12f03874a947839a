/** The code generator itself: a context that is updated in place, proved to do what the
    functions of module Codegen say. */
module Contexts {
  import opened Arith
  import opened Machine
  import opened CFG
  import opened IR
  import opened Codegen
  import opened Registers

  class Context {
    const tgt: Target
    const fns: Fns
    const regInfo: CMRegs
    const regState: CMRegState
    var blocks: seq<Block>
    var cur: nat
    var next: nat
    var vMap: VMap
    var ovf: Option<nat>
    var fragMap: map<Lvar, nat>
    var cluster: Unit

    constructor (tgt: Target, fns: Fns)
      requires tgt.Valid()
      ensures Wired() && this.tgt == tgt && this.fns == fns
      ensures State() == CG([], 0, 0, map[], seq(NUM_REGS, _ => None), None) && fragMap == map[]
      ensures fresh(regState.vals)
    {
      this.tgt, this.fns := tgt, fns;
      regInfo := new CMRegs(tgt);
      regState := new CMRegState();
      blocks, cur, next, vMap, ovf, fragMap := [], 0, 0, map[], None, map[];
      cluster := Unit(tgt, fns, [], [], 0);
    }

    ghost predicate Wired()
      reads regInfo, regInfo.info, regInfo.hwRegs
    {
      tgt.Valid() && regInfo.Describes(tgt) && regState.vals.Length == NUM_REGS
    }

    /** There is a current block. */
    ghost predicate Valid()
      reads this, regInfo, regInfo.info, regInfo.hwRegs
    {
      Wired() && cur < |blocks|
    }

    /** The abstract state. */
    ghost function State(): CG
      reads this, regState, regState.vals
    {
      CG(blocks, cur, next, vMap, regState.vals[..], ovf)
    }

    /** The part of the state that straight-line code changes ... */
    ghost function Code(): Em
      requires cur < |blocks|
      reads this, regState, regState.vals
    {
      Em(blocks[cur].instrs, next, regState.vals[..])
    }

    /** ... and the rest. */
    ghost function Rest(): (CG, map<Lvar, nat>, Unit)
      requires cur < |blocks|
      reads this
    {
      (CG(blocks[cur := blocks[cur].(instrs := [])], cur, 0, vMap, [], ovf), fragMap, cluster)
    }

    // ----- instructions -----

    method EmitInstr(i: Instr)
      requires Valid()
      modifies this
      ensures Valid() && Rest() == old(Rest()) && Code() == Emit(old(Code()), i)
    {
      blocks := blocks[cur := blocks[cur].(instrs := blocks[cur].instrs + [i])];
      assert blocks[cur := blocks[cur].(instrs := [])] == old(blocks[cur := blocks[cur].(instrs := [])]);
    }

    method CreateTemp(op: ROp, args: seq<Value>, ty: Ty) returns (v: Value)
      requires Valid()
      modifies this
      ensures Valid() && Rest() == old(Rest()) && EV(Code(), v) == Def(old(Code()), op, args, ty)
    {
      v := Temp(next, ty);
      EmitInstr(Assign(next, op, args));
      next := next + 1;
    }

    /** A conversion between different types. One that is refused is marked. */
    method CastTy(v: Value, ty: Ty) returns (r: Value)
      requires Valid() && v.TyOf() != LLTy(ty)
      modifies this
      ensures Valid() && Rest() == old(Rest()) && EV(Code(), r) == Convert(old(Code()), v, ty)
    {
      var src, dst := v.TyOf(), LLTy(ty);
      if dst.PTR? && src.INT? {
        r := CreateTemp(CastOp, [v], ty);
      } else if dst.INT? && src.PTR? {
        r := CreateTemp(CastOp, [v], ty);
      } else {
        r := CreateTemp(RefusedOp, [v], src);
      }
    }

    method ToPtr(v: Value) returns (r: Value)
      requires Valid()
      modifies this
      ensures Valid() && Rest() == old(Rest()) && EV(Code(), r) == AsPtr(old(Code()), v)
    {
      if v.TyOf() == PTR {
        r := v;
      } else if v.TyOf().INT? {
        r := CreateTemp(CastOp, [v], PTR);
      } else {
        r := CreateTemp(RefusedOp, [v], v.TyOf());
      }
    }

    method ToInt(v: Value, sz: nat) returns (r: Value)
      requires Valid()
      modifies this
      ensures Valid() && Rest() == old(Rest()) && EV(Code(), r) == AsInt(old(Code()), v, sz)
    {
      if v.TyOf() == PTR {
        r := CreateTemp(CastOp, [v], INT(sz));
      } else {
        r := v;
      }
    }

    method Cast(v: Value, ty: Ty) returns (r: Value)
      requires Valid()
      modifies this
      ensures Valid() && Rest() == old(Rest()) && EV(Code(), r) == CastTo(old(Code()), v, ty)
    {
      if v.TyOf() == LLTy(ty) {
        r := v;
      } else {
        r := CastTy(v, ty);
      }
    }

    method CreateGep(scale: nat, base: Value, idx: Value) returns (r: Value)
      requires Valid()
      modifies this
      ensures Valid() && Rest() == old(Rest()) && EV(Code(), r) == Gep(old(Code()), scale, base, idx)
    {
      r := CreateTemp(GepOp(scale), [base, idx], PTR);
    }

    method CreateGepTyped(scale: nat, base: Value, idx: Value) returns (r: Value)
      requires Valid()
      modifies this
      ensures Valid() && Rest() == old(Rest()) && EV(Code(), r) == GepTyped(old(Code()), scale, base, idx)
    {
      var b := ToPtr(base);
      r := CreateGep(scale, b, idx);
    }

    method CreateLoad(addr: Value, ty: Ty) returns (r: Value)
      requires Valid()
      modifies this
      ensures Valid() && Rest() == old(Rest()) && EV(Code(), r) == Load(old(Code()), addr, ty)
    {
      r := CreateTemp(LoadOp, [addr], ty);
    }

    method CreateStoreML(v: Value, addr: Value)
      requires Valid()
      modifies this
      ensures Valid() && Rest() == old(Rest()) && Code() == StoreML(old(Code()), v, addr)
    {
      var v' := ToPtr(v);
      var a := ToPtr(addr);
      EmitInstr(Store(v', a));
    }

    // ----- registers -----

    /** Read a register: its symbolic value, or a load from its stack slot. */
    method GetReg(r: nat) returns (v: Value)
      requires Valid() && r < NUM_REGS
      modifies this
      ensures Valid() && Rest() == old(Rest()) && EV(Code(), v) == MlReg(tgt, old(Code()), r)
    {
      var reg := regState.vals[r];
      if reg == None {
        v := CreateTemp(StackOp(regInfo.info[r].offset), [], PTR);
      } else {
        v := reg.value;
      }
    }

    /** Assign a register: in the symbolic state, or by a store to its stack slot. */
    method SetReg(r: nat, v: Value)
      requires Valid() && r < NUM_REGS
      modifies this, regState.vals
      ensures Valid() && Rest() == old(Rest()) && Code() == SetMLReg(tgt, old(Code()), r, v)
    {
      if regState.vals[r] == None {
        EmitInstr(StoreStack(v, regInfo.info[r].offset));
      } else {
        regState.vals[r] := Some(v);
      }
    }

    // ----- variables -----

    method Insert(x: Lvar, v: Value)
      modifies this`vMap
      ensures vMap == InsertVal(old(vMap), x, v)
    {
      if x !in vMap {
        vMap := vMap[x := v];
      }
    }

    // ----- expressions -----

    method CodegenLooker(looker: Looker, vs: seq<Value>) returns (r: Value)
      requires Valid()
      modifies this
      ensures Valid() && Rest() == old(Rest()) && EV(Code(), r) == GenLooker(tgt, old(Code()), looker, vs)
    {
      match looker
      case DEREF =>
        var p := ToPtr(ArgV(vs, 0));
        r := CreateLoad(p, PTR);
      case SUBSCRIPT =>
        var p := ToPtr(ArgV(vs, 0));
        var i := ToInt(ArgV(vs, 1), Native(tgt));
        var a := CreateGep(tgt.wordSz, p, i);
        r := CreateLoad(a, PTR);
      case RAW_LOAD(ty) =>
        var a := CreateGepTyped(1, ArgV(vs, 0), ArgV(vs, 1));
        r := CreateLoad(a, ty);
      case RAW_SUBSCRIPT(ty) =>
        var a := CreateGepTyped(SizeOf(tgt, ty), ArgV(vs, 0), ArgV(vs, 1));
        r := CreateLoad(a, ty);
      case GET_HDLR => r := GetReg(EXN_HNDLR);
      case GET_VAR => r := GetReg(VAR_PTR);
    }

    method ToInts(vs: seq<Value>, sz: nat) returns (rs: seq<Value>)
      requires Valid()
      modifies this
      ensures Valid() && Rest() == old(Rest()) && EVs(Code(), rs) == AsInts(old(Code()), vs, sz)
    {
      rs := [];
      for i := 0 to |vs|
        invariant Valid() && Rest() == old(Rest()) && EVs(Code(), rs) == AsInts(old(Code()), vs[..i], sz)
      {
        assert vs[..i + 1][..i] == vs[..i];
        var r := ToInt(vs[i], sz);
        rs := rs + [r];
      }
      assert vs[..|vs|] == vs;
    }

    method CodegenPure(pure: Pure, vs: seq<Value>) returns (r: Value)
      requires Valid()
      modifies this
      ensures Valid() && Rest() == old(Rest()) && EV(Code(), r) == GenPure(tgt, old(Code()), pure, vs)
    {
      match pure
      case PURE_ARITH(code, intSz, ty) =>
        var args := vs;
        if intSz.Some? {
          args := ToInts(vs, intSz.value);
        }
        r := CreateTemp(PureOp(code), args, ty);
      case PURE_SUBSCRIPT =>
        var p := ToPtr(ArgV(vs, 0));
        var i := ToInt(ArgV(vs, 1), Native(tgt));
        var a := CreateGep(tgt.wordSz, p, i);
        r := CreateLoad(a, PTR);
      case PURE_RAW_SUBSCRIPT(ty) =>
        var a := CreateGepTyped(SizeOf(tgt, ty), ArgV(vs, 0), ArgV(vs, 1));
        r := CreateLoad(a, ty);
      case RAW_SELECT(offset, ty) =>
        var a := CreateGepTyped(1, ArgV(vs, 0), IntConst(tgt, offset));
        r := CreateLoad(a, ty);
    }

    /** Code for an expression goes into the current block, which stays the current block. */
    method CodegenExp(e: Exp) returns (r: Value)
      requires Valid()
      modifies this
      ensures Valid() && Rest() == old(Rest()) && EV(Code(), r) == GenExp(tgt, old(vMap), old(Code()), e)
      decreases e
    {
      match e
      case VAR(x) => r := LookupVal(vMap, x);
      case LABEL(lab) => r := Fn(lab);
      case NUM(n, sz) => r := Const(NumVal(n, sz), INT(sz));
      case LOOKER(looker, args) =>
        var vs := CodegenExps(args);
        r := CodegenLooker(looker, vs);
      case PURE(pure, args) =>
        var vs := CodegenExps(args);
        r := CodegenPure(pure, vs);
      case SELECT(idx, arg) =>
        var v := CodegenExp(arg);
        var p := ToPtr(v);
        var a := CreateGep(tgt.wordSz, p, Const(idx, INT(32)));
        r := CreateLoad(a, PTR);
    }

    method CodegenExps(es: seq<Exp>) returns (vs: seq<Value>)
      requires Valid()
      modifies this
      ensures Valid() && Rest() == old(Rest()) && EVs(Code(), vs) == GenExps(tgt, old(vMap), old(Code()), es)
      decreases es
    {
      vs := [];
      for i := 0 to |es|
        invariant Valid() && Rest() == old(Rest()) && EVs(Code(), vs) == GenExps(tgt, old(vMap), old(Code()), es[..i])
      {
        assert es[..i + 1][..i] == es[..i];
        var v := CodegenExp(es[i]);
        vs := vs + [v];
      }
      assert es[..|es|] == es;
    }

    method CodegenCastExps(es: seq<Exp>, tys: seq<Ty>) returns (vs: seq<Value>)
      requires Valid() && |es| <= |tys|
      modifies this
      ensures Valid() && Rest() == old(Rest()) && EVs(Code(), vs) == GenCastExps(tgt, old(vMap), old(Code()), es, tys)
    {
      vs := [];
      for i := 0 to |es|
        invariant Valid() && Rest() == old(Rest())
        invariant EVs(Code(), vs) == GenCastExps(tgt, old(vMap), old(Code()), es[..i], tys)
      {
        assert es[..i + 1][..i] == es[..i];
        var v := CodegenExp(es[i]);
        var c := Cast(v, tys[i]);
        vs := vs + [c];
      }
      assert es[..|es|] == es;
    }

    method CodegenRoots(es: seq<Exp>) returns (vs: seq<Value>)
      requires Valid()
      modifies this
      ensures Valid() && Rest() == old(Rest()) && EVs(Code(), vs) == GenRoots(tgt, old(vMap), old(Code()), es)
    {
      vs := [];
      for i := 0 to |es|
        invariant Valid() && Rest() == old(Rest()) && EVs(Code(), vs) == GenRoots(tgt, old(vMap), old(Code()), es[..i])
      {
        assert es[..i + 1][..i] == es[..i];
        var v := CodegenExp(es[i]);
        var c := ToPtr(v);
        vs := vs + [c];
      }
      assert es[..|es|] == es;
    }

    // ----- allocation -----

    method CreateRecord(desc: Value, args: seq<Value>) returns (obj: Value)
      requires Valid()
      modifies this, regState.vals
      ensures Valid() && Rest() == old(Rest()) && EV(Code(), obj) == AllocRecord(tgt, old(Code()), desc, args)
    {
      var p := GetReg(ALLOC_PTR);
      EmitInstr(Store(desc, p));
      ghost var e := Code();
      for i := 0 to |args|
        invariant Valid() && Rest() == old(Rest()) && Code() == StoreWordsCode(tgt, e, p, args[..i])
      {
        assert args[..i + 1][..i] == args[..i];
        var v := ToPtr(args[i]);
        var a := CreateGep(tgt.wordSz, p, Const(i + 1, INT(32)));
        EmitInstr(Store(v, a));
      }
      assert args[..|args|] == args;
      obj := CreateGep(tgt.wordSz, p, Const(1, INT(32)));
      var top := CreateGep(tgt.wordSz, p, Const(|args| + 1, INT(32)));
      SetReg(ALLOC_PTR, top);
    }

    /** The fields are stored at byte offsets, but the last address, where the allocation
        pointer goes, counts words. */
    method CreateRawRecord(desc: Val, fields: seq<Ty>, args: seq<Value>) returns (obj: Value)
      requires Valid()
      modifies this, regState.vals
      ensures Valid() && Rest() == old(Rest()) && EV(Code(), obj) == RawRecord(tgt, old(Code()), desc, fields, args)
    {
      hide RoundUp, CMRegs.Describes;
      var p := GetReg(ALLOC_PTR);
      var p' := ToPtr(p);
      EmitInstr(Store(IntConst(tgt, desc), p'));
      obj := CreateGep(tgt.wordSz, p, Const(1, INT(32)));
      ghost var e := Code();
      var offset := 0;
      for i := 0 to |fields|
        invariant Valid() && Rest() == old(Rest()) && Code() == StoreFieldsCode(tgt, e, obj, fields[..i], args)
        invariant offset == FieldsEnd(tgt, fields[..i])
      {
        assert fields[..i + 1][..i] == fields[..i];
        var szb := FieldSize(tgt, fields[i]);
        if offset % szb != 0 {
          offset := RoundUp(offset, szb);
        } else {
          RoundUpExact(offset, szb);
        }
        var a := CreateGepTyped(1, obj, Const(offset, INT(32)));
        if ArgV(args, i).TyOf() == PTR {
          CreateStoreML(ArgV(args, i), a);
        } else {
          EmitInstr(Store(ArgV(args, i), a));
        }
        offset := offset + szb;
      }
      assert fields[..|fields|] == fields;
      offset := RoundUp(offset, tgt.wordSz);
      var top := CreateGep(tgt.wordSz, obj, Const(offset, INT(32)));
      SetReg(ALLOC_PTR, top);
    }

    /** Move the allocation pointer to one word below an aligned address. */
    method AlignPtr(p: Value, align: nat) returns (r: Value)
      requires Valid()
      modifies this
      ensures Valid() && Rest() == old(Rest()) && EV(Code(), r) == AlignCode(tgt, old(Code()), p, true, align)
    {
      r := p;
      if align > tgt.wordSz {
        var n := CreateTemp(CastOp, [p], INT(Native(tgt)));
        var o := CreateTemp(OrOp, [n, IntConst(tgt, align - tgt.wordSz)], INT(Native(tgt)));
        r := CreateTemp(CastOp, [o], PTR);
      }
    }

    method CreateRaw(tag: Option<Val>, align: nat, len: nat) returns (obj: Value)
      requires Valid()
      modifies this, regState.vals
      ensures Valid() && Rest() == old(Rest()) && EV(Code(), obj) == RawAlloc(tgt, old(Code()), tag, align, len)
    {
      var p := GetReg(ALLOC_PTR);
      if tag.Some? {
        p := AlignPtr(p, align);
        CreateStoreML(IntConst(tgt, tag.value), p);
      }
      obj := CreateGep(tgt.wordSz, p, Const(1, INT(32)));
      var top := CreateGepTyped(1, p, Const(len + tgt.wordSz, INT(32)));
      SetReg(ALLOC_PTR, top);
    }

    method CodegenAlloc(alloc: AllocOp, vs: seq<Value>) returns (obj: Value)
      requires Valid()
      modifies this, regState.vals
      ensures Valid() && Rest() == old(Rest()) && EV(Code(), obj) == GenAlloc(tgt, old(Code()), alloc, vs)
    {
      match alloc
      case SPECIAL =>
        var d := ToInt(ArgV(vs, 0), Native(tgt));
        obj := CreateRecord(d, [ArgV(vs, 1)]);
      case RECORD(desc) => obj := CreateRecord(IntConst(tgt, desc), vs);
      case RAW_RECORD(desc, fields) => obj := CreateRawRecord(desc, fields, vs);
      case RAW_ALLOC(tag, align, len) => obj := CreateRaw(tag, align, len);
    }

    // ----- assignment and tests -----

    method RecordStorePtr(adr: Value)
      requires Valid()
      modifies this, regState.vals
      ensures Valid() && Rest() == old(Rest()) && Code() == RecordStoreCode(tgt, old(Code()), adr)
    {
      var ap := GetReg(ALLOC_PTR);
      var sp := GetReg(STORE_PTR);
      var a0 := CreateGep(tgt.wordSz, ap, Const(0, INT(32)));
      CreateStoreML(adr, a0);
      var a1 := CreateGep(tgt.wordSz, ap, Const(1, INT(32)));
      CreateStoreML(sp, a1);
      SetReg(STORE_PTR, ap);
      var top := CreateGep(tgt.wordSz, ap, Const(2, INT(32)));
      SetReg(ALLOC_PTR, top);
    }

    method CodegenSetter(setter: SetterOp, vs: seq<Value>)
      requires Valid()
      modifies this, regState.vals
      ensures Valid() && Rest() == old(Rest()) && Code() == GenSetter(tgt, old(Code()), setter, vs)
    {
      match setter
      case UNBOXED_UPDATE =>
        var a := CreateGepTyped(tgt.wordSz, ArgV(vs, 0), ArgV(vs, 1));
        CreateStoreML(ArgV(vs, 2), a);
      case UPDATE =>
        var a := CreateGepTyped(tgt.wordSz, ArgV(vs, 0), ArgV(vs, 1));
        RecordStorePtr(a);
        CreateStoreML(ArgV(vs, 2), a);
      case UNBOXED_ASSIGN =>
        var v := ToInt(ArgV(vs, 1), Native(tgt));
        var a := ToPtr(ArgV(vs, 0));
        EmitInstr(Store(v, a));
      case ASSIGN =>
        RecordStorePtr(ArgV(vs, 0));
        CreateStoreML(ArgV(vs, 1), ArgV(vs, 0));
      case RAW_UPDATE(ty) =>
        var a := CreateGepTyped(SizeOf(tgt, ty), ArgV(vs, 0), ArgV(vs, 1));
        if ArgV(vs, 2).TyOf() == PTR {
          CreateStoreML(ArgV(vs, 2), a);
        } else {
          EmitInstr(Store(ArgV(vs, 2), a));
        }
      case RAW_STORE(ty) =>
        var a := CreateGepTyped(1, ArgV(vs, 0), ArgV(vs, 1));
        EmitInstr(Store(ArgV(vs, 2), a));
      case SET_HDLR => SetReg(EXN_HNDLR, ArgV(vs, 0));
      case SET_VAR => SetReg(VAR_PTR, ArgV(vs, 0));
    }

    method CodegenLimit(amt: nat) returns (r: Value)
      requires Valid()
      modifies this
      ensures Valid() && Rest() == old(Rest()) && EV(Code(), r) == LimitCode(tgt, old(Code()), amt)
    {
      var p := GetReg(ALLOC_PTR);
      var n := ToInt(p, Native(tgt));
      if amt > tgt.allocSlop {
        n := CreateTemp(AddOp, [n, IntConst(tgt, amt - tgt.allocSlop)], INT(Native(tgt)));
      }
      var q := GetReg(LIMIT_PTR);
      var l := ToInt(q, Native(tgt));
      r := CreateTemp(UgtOp, [n, l], INT(1));
    }

    method CodegenTest(test: BranchOp, vs: seq<Value>) returns (r: Value)
      requires Valid()
      modifies this
      ensures Valid() && Rest() == old(Rest()) && EV(Code(), r) == GenBranch(tgt, old(Code()), test, vs)
    {
      match test
      case CMP(code, sz) =>
        var args := ToInts(vs, sz);
        r := CreateTemp(CondOp(code), args, INT(1));
      case LIMIT(amt) => r := CodegenLimit(amt);
    }

    // ----- blocks -----

    /** Straight-line code changed the code of the current block, and nothing else. */
    twostate lemma OnlyCode()
      requires old(Valid()) && Valid() && Rest() == old(Rest())
      ensures State() == WithEm(old(State()), Code())
      ensures cur == old(cur) && vMap == old(vMap) && ovf == old(ovf) && fragMap == old(fragMap)
              && cluster == old(cluster)
      ensures |blocks| == |old(blocks)|
    {
      var b, b' := old(blocks), blocks;
      forall i | 0 <= i < |b'|
        ensures b'[i] == b[cur := b[cur].(instrs := b'[cur].instrs)][i]
      {
        assert b'[cur := b'[cur].(instrs := [])][i] == b[cur := b[cur].(instrs := [])][i];
      }
    }

    method NewBB() returns (bb: nat)
      modifies this`blocks
      ensures bb == |old(blocks)| && blocks == old(blocks) + [EMPTY]
    {
      bb := |blocks|;
      blocks := blocks + [EMPTY];
    }

    method SetInsertPoint(bb: nat)
      requires bb < |blocks|
      modifies this`cur
      ensures cur == bb
    {
      cur := bb;
    }

    method EndBlock(t: Terminator)
      requires Valid()
      modifies this`blocks
      ensures Valid() && State() == Terminate(old(State()), t)
    {
      blocks := blocks[cur := blocks[cur].(term := Some(t))];
    }

    method CreateHwArgs() returns (args: seq<Value>)
      requires Valid()
      ensures args == HwArgs(tgt, regState.vals[..])
    {
      args := [];
      for i := 0 to regInfo.nHWRegs
        invariant args == HwArgs(tgt, regState.vals[..])[..i]
      {
        args := args + [RegVal(regState.vals[regInfo.hwRegs[i].id])];
      }
    }

    /** Add incoming values to the phi nodes of block d, one by one. */
    method AddIncomingValues(d: nat, vs: seq<Value>, src: nat)
      requires d < |blocks| && |vs| <= |blocks[d].phis|
      modifies this`blocks
      ensures blocks == old(blocks)[d := old(blocks)[d].(phis := AddIncoming(old(blocks)[d].phis, vs, src))]
    {
      assert AddIncoming(blocks[d].phis, vs[..0], src) == blocks[d].phis;
      for i := 0 to |vs|
        invariant blocks == old(blocks)[d := old(blocks)[d].(phis := AddIncoming(old(blocks)[d].phis, vs[..i], src))]
      {
        var phi := blocks[d].phis[i];
        var phis := blocks[d].phis[i := phi.(vals := phi.vals + [vs[i]], preds := phi.preds + [src])];
        assert phis == AddIncoming(old(blocks)[d].phis, vs[..i + 1], src);
        blocks := blocks[d := blocks[d].(phis := phis)];
      }
      assert vs[..|vs|] == vs;
    }

    /** The block that raises Overflow, made on first use, told the current registers. */
    method GetOverflowBB() returns (bb: nat)
      requires Valid() && OverflowInRange(tgt, State())
      modifies this
      ensures Wired() && fragMap == old(fragMap) && cluster == old(cluster)
      ensures var cg := MakeOverflow(tgt, old(State()));
              bb == cg.ovf.value && bb < |cg.blocks| && State() == PhisFromHere(cg, bb, HwArgs(tgt, cg.regs))
    {
      var srcBB := cur;
      if ovf == None {
        MakeOverflowBB();
        SetInsertPoint(srcBB);
      }
      bb := ovf.value;
      var args := CreateHwArgs();
      AddIncomingValues(bb, args, srcBB);
    }

    /** Phi nodes for the hardware registers, passed on to the runtime system. */
    method MakeOverflowBB()
      requires Valid() && ovf == None
      modifies this
      ensures Wired() && fragMap == old(fragMap) && cluster == old(cluster) && ovf.Some? && cur == ovf.value
      ensures State().(cur := old(cur)) == MakeOverflow(tgt, old(State()))
    {
      var bb := NewBB();
      ovf := Some(bb);
      SetInsertPoint(bb);
      var phis, args, n := [], [], regInfo.nHWRegs;
      for i := 0 to n
        invariant phis == NewPhis(next, Ptrs(n))[..i] && args == Temps(next, Ptrs(n))[..i]
      {
        phis := phis + [Phi(next + i, PTR, [], [])];
        args := args + [Temp(next + i, PTR)];
      }
      assert phis == NewPhis(next, Ptrs(n)) && args == Temps(next, Ptrs(n));
      next := next + n;
      blocks := blocks[bb := Block(phis, [], Some(RaiseOverflow(args)))];
      assert blocks == old(blocks) + [Block(phis, [], Some(RaiseOverflow(args)))];
    }

    /** Branch to the overflow block when the bit is set, and to a new block otherwise, where
        generation goes on. */
    method CheckOverflow(obit: Value, ghost res: nat)
      requires Valid() && OverflowInRange(tgt, State()) && obit == Temp(res + 1, INT(1))
      modifies this
      ensures Valid() && fragMap == old(fragMap) && cluster == old(cluster)
      ensures State() == BranchOnOverflow(tgt, old(State()), res)
    {
      hide HwArgs, CMRegs.Describes, AddIncoming;
      var ok := NewBB();
      assert State() == old(State()).(blocks := old(blocks) + [EMPTY]);
      var o := GetOverflowBB();
      EndBlock(CondBr(obit, o, ok));
      SetInsertPoint(ok);
    }

    method CodegenArith(arith: ArithOp, vs: seq<Value>) returns (r: Value)
      requires Valid() && OverflowInRange(tgt, State())
      modifies this
      ensures Valid() && fragMap == old(fragMap) && cluster == old(cluster)
      ensures CV(State(), r) == GenArith(tgt, old(State()), arith, vs)
    {
      hide AsInts, BranchOnOverflow;
      var args := ToInts(vs, arith.sz);
      if arith.checked {
        r := Temp(next, INT(arith.sz));
        var obit := Temp(next + 1, INT(1));
        EmitInstr(ArithWO(next, arith.code, args));
        next := next + 2;
        OnlyCode();
        CheckOverflow(obit, r.id);
      } else {
        r := CreateTemp(DivOp(arith.code), args, INT(arith.sz));
        OnlyCode();
      }
    }

    method CallGC(roots: seq<Value>, newRoots: seq<Lvar>)
      requires Valid()
      modifies this, regState.vals
      ensures Valid() && fragMap == old(fragMap) && cluster == old(cluster)
      ensures State() == GenGC(tgt, old(State()), roots, newRoots)
    {
      var args := CreateHwArgs();
      var base, nHw := next, regInfo.nHWRegs;
      EmitInstr(Instr.CallGC(base, |newRoots|, args + roots));
      next := base + nHw + |newRoots|;
      RestoreRegs(base);
      OnlyCode();
      InsertTemps(newRoots, base + nHw);
    }

    /** Restore the register state from the results of the call. */
    method RestoreRegs(base: nat)
      requires Valid()
      modifies this, regState.vals
      ensures Valid() && Rest() == old(Rest()) && Code() == GcRestore(tgt, old(Code()), base, NUM_REGS)
    {
      var hwIx := 0;
      for i := 0 to NUM_REGS
        invariant Valid() && Rest() == old(Rest()) && hwIx == tgt.HwIndex(i)
        invariant Code() == GcRestore(tgt, old(Code()), base, i)
      {
        if regInfo.info[i].IsMachineReg() {
          SetReg(i, Temp(base + hwIx, PTR));
          hwIx := hwIx + 1;
        }
      }
    }

    /** Bind variables to consecutive temporaries. */
    method InsertTemps(xs: seq<Lvar>, base: nat)
      modifies this`vMap
      ensures vMap == InsertVals(old(vMap), xs, Temps(base, Ptrs(|xs|)))
    {
      for j := 0 to |xs|
        invariant vMap == InsertVals(old(vMap), xs[..j], Temps(base, Ptrs(|xs|)))
      {
        assert xs[..j + 1][..j] == xs[..j];
        Insert(xs[j], Temp(base + j, PTR));
      }
      assert xs[..|xs|] == xs;
    }

    // ----- statements -----

    /** The fragment map agrees with the cluster. */
    ghost predicate KnowsFrags()
      reads this
    {
      && UnitOK(cluster) && cluster.tgt == tgt && cluster.fns == fns
      && forall lab ::
           FindFrag(cluster.cl, lab) == if lab in fragMap then Some(fragMap[lab]) else None
    }

    ghost predicate ReadyFor(s: Stm)
      reads this, regInfo, regInfo.info, regInfo.hwRegs, regState, regState.vals
    {
      Valid() && KnowsFrags() && InRange(cluster, State()) && BlocksBelow(s, cluster.n)
    }

    method CodegenCallee(f: Exp, kind: FragKind, tys: seq<Ty>) returns (fn: Value, k: FragKind, paramTys: seq<Ty>)
      requires Valid() && cluster.tgt == tgt && cluster.fns == fns
      modifies this
      ensures Valid() && Rest() == old(Rest())
      ensures Callee(Code(), fn, k, paramTys) == GenCallee(old(cluster), old(vMap), old(Code()), f, kind, tys)
    {
      if f.LABEL? && f.lab in fns {
        fn, k, paramTys := Fn(f.lab), fns[f.lab].kind, fns[f.lab].paramTys;
      } else {
        var e := CodegenExp(f);
        fn := e;
        if e.TyOf() != PTR {
          fn := CreateTemp(RefusedOp, [e], e.TyOf());
        }
        k, paramTys := kind, tys;
      }
    }

    method CodegenApply(f: Exp, args: seq<Exp>, tys: seq<Ty>)
      requires Valid() && cluster.tgt == tgt && cluster.fns == fns && InRange(cluster, State())
      modifies this
      ensures Valid() && fragMap == old(fragMap) && cluster == old(cluster)
      ensures State() == GenApply(old(cluster), old(State()), f, args, tys)
    {
      var fn, k, paramTys := CodegenCallee(f, STD_FUN, tys);
      var hw := CreateHwArgs();
      var n := if |args| <= |paramTys| then |args| else |paramTys|;
      var vs := CodegenCastExps(args[..n], paramTys);
      OnlyCode();
      EndBlock(TailCall(fn, hw + Unused(k) + vs));
    }

    method CodegenThrow(f: Exp, args: seq<Exp>, tys: seq<Ty>)
      requires Valid() && cluster.tgt == tgt && cluster.fns == fns && InRange(cluster, State())
      modifies this
      ensures Valid() && fragMap == old(fragMap) && cluster == old(cluster)
      ensures State() == GenThrow(old(cluster), old(State()), f, args, tys)
    {
      var fn, k, paramTys := CodegenCallee(f, STD_CONT, tys);
      var hw := CreateHwArgs();
      var n := if |args| <= |paramTys| then |args| else |paramTys|;
      var vs := CodegenCastExps(args[..n], paramTys);
      OnlyCode();
      EndBlock(TailCall(fn, hw + Unused(STD_CONT) + vs));
    }

    method CastEach(vs: seq<Value>, tys: seq<Ty>) returns (rs: seq<Value>)
      requires Valid() && |vs| <= |tys|
      modifies this
      ensures Valid() && Rest() == old(Rest()) && EVs(Code(), rs) == CastAll(old(Code()), vs, tys)
    {
      rs := [];
      for i := 0 to |vs|
        invariant Valid() && Rest() == old(Rest()) && EVs(Code(), rs) == CastAll(old(Code()), vs[..i], tys)
      {
        assert vs[..i + 1][..i] == vs[..i];
        var c := Cast(vs[i], tys[i]);
        rs := rs + [c];
      }
      assert vs[..|vs|] == vs;
    }

    /** Casts for the phi nodes of the target go into the source block, before its jump. */
    method CodegenGoto(lab: Lvar, args: seq<Exp>)
      requires Valid() && KnowsFrags() && InRange(cluster, State())
      modifies this
      ensures Valid() && fragMap == old(fragMap) && cluster == old(cluster)
      ensures State() == GenGotoStm(old(cluster), old(State()), lab, args)
    {
      hide GenExps, CastAll, FindFrag;
      if lab in fragMap {
        var srcBB, d := cur, cluster.bbs[fragMap[lab]];
        var hw := CreateHwArgs();
        var argVals := CodegenExps(args);
        OnlyCode();
        var vs, tys := hw + argVals, PhiTys(blocks[d].phis);
        var n := if |vs| <= |tys| then |vs| else |tys|;
        var cs := CastEach(vs[..n], tys);
        OnlyCode();
        AddIncomingValues(d, cs, srcBB);
        EndBlock(Br(d));
      }
    }

    method CodegenCondBr(test: BranchOp, args: seq<Exp>, tBB: nat, fBB: nat)
      requires Valid() && cluster.tgt == tgt && InRange(cluster, State())
      modifies this
      ensures Valid() && fragMap == old(fragMap) && cluster == old(cluster)
      ensures State() == GenCondBr(old(cluster), old(State()), test, args, tBB, fBB)
    {
      var vs := CodegenExps(args);
      OnlyCode();
      var t := CodegenTest(test, vs);
      OnlyCode();
      EndBlock(CondBr(t, tBB, fBB));
    }

    /** The default case goes to a block that is marked unreachable. */
    method CodegenSwitch(e: Exp, bbs: seq<nat>)
      requires Valid() && cluster.tgt == tgt && InRange(cluster, State())
      modifies this
      ensures Valid() && fragMap == old(fragMap) && cluster == old(cluster)
      ensures State() == GenSwitch(old(cluster), old(State()), e, bbs)
    {
      hide GenExp;
      var v := CodegenExp(e);
      var i := ToInt(v, Native(tgt));
      var arg := CreateTemp(Trunc32Op, [i], INT(32));
      OnlyCode();
      var curBlk := cur;
      ghost var blocks0 := blocks;
      var dflt := NewBB();
      SetInsertPoint(dflt);
      EndBlock(Unreachable);
      SetInsertPoint(curBlk);
      var cases := [];
      for k := 0 to |bbs|
        invariant cases == bbs[..k]
      {
        cases := cases + [bbs[k]];
      }
      EndBlock(Switch(arg, cases, dflt));
      assert cases == bbs;
      assert blocks == (blocks0 + [EMPTY.(term := Some(Unreachable))])[curBlk := blocks[curBlk]];
    }

    /** Generate code for a statement: the whole new state is what GenStm says. */
    method CodegenStm(s: Stm)
      requires ReadyFor(s)
      modifies this, regState.vals
      ensures Valid() && fragMap == old(fragMap) && cluster == old(cluster)
      ensures State() == GenStm(old(cluster), old(State()), s)
      decreases s, 1
    {
      hide GenLet, GenAllocStm, GenApply, GenThrow, GenGotoStm, GenSwitch, GenArms, GenArithStm, GenSetterStm, GenGCStm,
           GenCondBr, FindFrag, CMRegs.Describes;
      match s
      case LET(e, p, k) =>
        CodegenLetHead(e, p);
        CodegenStm(k);
      case ALLOC(alloc, args, x, k) =>
        CodegenAllocHead(alloc, args, x);
        CodegenStm(k);
      case APPLY(f, args, tys) => CodegenApply(f, args, tys);
      case THROW(f, args, tys) => CodegenThrow(f, args, tys);
      case GOTO(lab, args) => CodegenGoto(lab, args);
      case SWITCH(e, arms, bbs) =>
        CodegenSwitch(e, bbs);
        CodegenArms(arms, bbs);
      case BRANCH(test, args, tArm, fArm, tBB, fBB) =>
        CodegenBranch(s);
      case ARITH(arith, args, p, k) =>
        CodegenArithHead(arith, args, p);
        CodegenStm(k);
      case SETTER(setter, args, k) =>
        CodegenSetterHead(setter, args);
        CodegenStm(k);
      case CALLGC(roots, newRoots, k) =>
        CodegenGC(roots, newRoots);
        CodegenStm(k);
    }

    method CodegenLetHead(e: Exp, p: Param)
      requires Valid() && cluster.tgt == tgt && InRange(cluster, State())
      modifies this
      ensures Valid() && fragMap == old(fragMap) && cluster == old(cluster)
      ensures State() == GenLet(old(cluster), old(State()), e, p)
    {
      var v := CodegenExp(e);
      OnlyCode();
      Insert(p.name, v);
    }

    method CodegenAllocHead(alloc: AllocOp, args: seq<Exp>, x: Lvar)
      requires Valid() && cluster.tgt == tgt && InRange(cluster, State())
      modifies this, regState.vals
      ensures Valid() && fragMap == old(fragMap) && cluster == old(cluster)
      ensures State() == GenAllocStm(old(cluster), old(State()), alloc, args, x)
    {
      hide GenExps, GenAlloc;
      var vs := CodegenExps(args);
      var v := CodegenAlloc(alloc, vs);
      OnlyCode();
      Insert(x, v);
    }

    method CodegenSetterHead(setter: SetterOp, args: seq<Exp>)
      requires Valid() && cluster.tgt == tgt && InRange(cluster, State())
      modifies this, regState.vals
      ensures Valid() && fragMap == old(fragMap) && cluster == old(cluster)
      ensures State() == GenSetterStm(old(cluster), old(State()), setter, args)
    {
      hide GenExps, GenSetter;
      var vs := CodegenExps(args);
      CodegenSetter(setter, vs);
      OnlyCode();
    }

    method CodegenArithHead(arith: ArithOp, args: seq<Exp>, p: Param)
      requires Valid() && cluster.tgt == tgt && InRange(cluster, State())
      modifies this
      ensures Valid() && fragMap == old(fragMap) && cluster == old(cluster)
      ensures State() == GenArithStm(old(cluster), old(State()), arith, args, p)
    {
      var vs := CodegenExps(args);
      OnlyCode();
      var v := CodegenArith(arith, vs);
      Insert(p.name, v);
    }

    method CodegenGC(roots: seq<Exp>, newRoots: seq<Lvar>)
      requires Valid() && cluster.tgt == tgt && InRange(cluster, State())
      modifies this, regState.vals
      ensures Valid() && fragMap == old(fragMap) && cluster == old(cluster)
      ensures State() == GenGCStm(old(cluster), old(State()), roots, newRoots)
    {
      var vs := CodegenRoots(roots);
      OnlyCode();
      CallGC(vs, newRoots);
    }

    /** The register state at the split is saved, and restored for the false arm. The value
        map is not. */
    method CodegenBranch(s: Stm)
      requires s.BRANCH? && ReadyFor(s)
      modifies this, regState.vals
      ensures Valid() && fragMap == old(fragMap) && cluster == old(cluster)
      ensures State() == GenStm(old(cluster), old(State()), s)
      decreases s, 0
    {
      hide GenLet, GenAllocStm, GenApply, GenThrow, GenGotoStm, GenSwitch, GenArms, GenArithStm, GenSetterStm, GenGCStm,
           GenCondBr, FindFrag, CMRegs.Describes;
      var BRANCH(test, args, tArm, fArm, tBB, fBB) := s;
      CodegenCondBr(test, args, tBB, fBB);
      var saved := new CMRegState();
      saved.CopyFrom(regState);
      SetInsertPoint(tBB);
      CodegenStm(tArm);
      regState.CopyFrom(saved);
      SetInsertPoint(fBB);
      CodegenStm(fArm);
    }

    /** Each arm starts from the register state at the split. */
    method CodegenArms(arms: seq<Stm>, bbs: seq<nat>)
      requires Valid() && KnowsFrags() && InRange(cluster, State()) && ArmsBelow(arms, cluster.n) && |arms| <= |bbs|
      requires forall i :: 0 <= i < |bbs| ==> bbs[i] < cluster.n
      modifies this, regState.vals
      ensures Valid() && fragMap == old(fragMap) && cluster == old(cluster)
      ensures State() == GenArms(old(cluster), old(State()), arms, bbs)
      decreases arms, 0
    {
      hide GenStm, FindFrag, CMRegs.Describes;
      var saved := new CMRegState();
      saved.CopyFrom(regState);
      for i := 0 to |arms|
        invariant Valid() && fragMap == old(fragMap) && cluster == old(cluster) && InRange(cluster, State())
        invariant ArmsBelow(arms[..i], cluster.n) && State() == GenArms(cluster, old(State()), arms[..i], bbs)
        invariant saved.vals[..] == old(regState.vals[..]) && fresh(saved.vals)
      {
        assert arms[..i + 1][..i] == arms[..i];
        ArmsBelowTake(arms, cluster.n, i + 1);
        regState.CopyFrom(saved);
        SetInsertPoint(bbs[i]);
        CodegenStm(arms[i]);
      }
      assert arms[..|arms|] == arms;
    }
  }

  lemma {:induction false} ArmsBelowTake(arms: seq<Stm>, n: nat, i: nat)
    requires ArmsBelow(arms, n) && i <= |arms|
    ensures ArmsBelow(arms[..i], n)
    ensures i > 0 ==> BlocksBelow(arms[i - 1], n)
  {
    if i < |arms| {
      ArmsBelowTake(arms[..|arms| - 1], n, i);
      assert arms[..|arms| - 1][..i] == arms[..i];
    } else {
      assert arms[..i] == arms;
    }
  }

  lemma RoundUpExact(n: nat, a: nat)
    requires a > 0 && n % a == 0
    ensures RoundUp(n, a) == n
  {
    DivUnique(a, n / a, a - 1);
  }
}
