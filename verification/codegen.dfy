/** What each step of code generation appends, as functions on the state of the code
    generator. The class Context carries the same steps out in place. */
module Codegen {
  import opened Machine
  import opened CFG
  import opened IR

  // ----- straight-line code -----

  /** The code of the block under construction, the next unused temporary, and the value
      of each register (None for a register that lives in the stack frame). */
  datatype Em = Em(code: seq<Instr>, next: nat, regs: seq<Option<Value>>)

  datatype EV = EV(em: Em, v: Value)

  datatype EVs = EVs(em: Em, vs: seq<Value>)

  function Shape(regs: seq<Option<Value>>): seq<bool> {
    seq(|regs|, i requires 0 <= i < |regs| => regs[i].Some?)
  }

  /** Code and temporaries are only ever added, and no register moves between hardware
      and stack. */
  ghost predicate Grows(em: Em, em': Em) {
    em.code <= em'.code && em.next <= em'.next && Shape(em'.regs) == Shape(em.regs) && |em'.regs| == |em.regs|
  }

  function Emit(em: Em, i: Instr): Em {
    em.(code := em.code + [i])
  }

  /** Emit an instruction whose result is a new temporary. */
  function Def(em: Em, op: ROp, args: seq<Value>, ty: Ty): EV {
    EV(Em(em.code + [Assign(em.next, op, args)], em.next + 1, em.regs), Temp(em.next, ty))
  }

  /** Integers are converted to pointers and pointers to integers, and nothing else. */
  predicate Castable(src: Ty, dst: Ty) {
    src == dst || (src.INT? && dst.PTR?) || (src.PTR? && dst.INT?)
  }

  function Convert(em: Em, v: Value, ty: Ty): (r: EV)
    ensures r.em.regs == em.regs && Grows(em, r.em)
  {
    if Castable(v.TyOf(), LLTy(ty)) then Def(em, CastOp, [v], ty) else Def(em, RefusedOp, [v], v.TyOf())
  }

  function AsPtr(em: Em, v: Value): (r: EV)
    ensures r.em.regs == em.regs && Grows(em, r.em)
  {
    if v.TyOf() == PTR then EV(em, v) else Convert(em, v, PTR)
  }

  /** A callee is cast without a change of representation, which only pointers allow. */
  function AsFn(em: Em, v: Value): EV {
    if v.TyOf() == PTR then EV(em, v) else Def(em, RefusedOp, [v], v.TyOf())
  }

  function AsInt(em: Em, v: Value, sz: nat): (r: EV)
    ensures r.em.regs == em.regs && Grows(em, r.em)
  {
    if v.TyOf() == PTR then Def(em, CastOp, [v], INT(sz)) else EV(em, v)
  }

  function CastTo(em: Em, v: Value, ty: Ty): EV {
    if v.TyOf() == LLTy(ty) then EV(em, v) else Convert(em, v, ty)
  }

  /** The native integer type. */
  function Native(tgt: Target): nat {
    8 * tgt.wordSz
  }

  function IntConst(tgt: Target, n: Val): Value {
    Const(n, INT(Native(tgt)))
  }

  function ArgV(vs: seq<Value>, i: nat): Value {
    if i < |vs| then vs[i] else Const(0, PTR)
  }

  function MlReg(tgt: Target, em: Em, r: nat): EV
    requires |tgt.stkOffset| == NUM_REGS == |em.regs| && r < NUM_REGS
  {
    if em.regs[r].Some? then EV(em, em.regs[r].value) else Def(em, StackOp(tgt.stkOffset[r]), [], PTR)
  }

  function SetMLReg(tgt: Target, em: Em, r: nat, v: Value): (em': Em)
    requires |tgt.stkOffset| == NUM_REGS == |em.regs| && r < NUM_REGS
    ensures Grows(em, em')
  {
    if em.regs[r].Some? then em.(regs := em.regs[r := Some(v)]) else Emit(em, StoreStack(v, tgt.stkOffset[r]))
  }

  function Gep(em: Em, scale: nat, base: Value, idx: Value): EV {
    Def(em, GepOp(scale), [base, idx], PTR)
  }

  /** The overload that converts the base to a pointer first. */
  function GepTyped(em: Em, scale: nat, base: Value, idx: Value): (r: EV)
    ensures r.em.regs == em.regs && Grows(em, r.em)
  {
    var b := AsPtr(em, base);
    Gep(b.em, scale, b.v, idx)
  }

  function Load(em: Em, addr: Value, ty: Ty): EV {
    Def(em, LoadOp, [addr], ty)
  }

  function StoreML(em: Em, v: Value, addr: Value): (em': Em)
    ensures em'.regs == em.regs && Grows(em, em')
  {
    var v' := AsPtr(em, v);
    var addr' := AsPtr(v'.em, addr);
    Emit(addr'.em, Store(v'.v, addr'.v))
  }

  // ----- expressions -----

  function GenLooker(tgt: Target, em: Em, looker: Looker, vs: seq<Value>): (r: EV)
    requires |tgt.stkOffset| == NUM_REGS == |em.regs|
    ensures r.em.regs == em.regs && Grows(em, r.em)
  {
    match looker
    case DEREF => var p := AsPtr(em, ArgV(vs, 0)); Load(p.em, p.v, PTR)
    case SUBSCRIPT =>
      var p := AsPtr(em, ArgV(vs, 0));
      var i := AsInt(p.em, ArgV(vs, 1), Native(tgt));
      var a := Gep(i.em, tgt.wordSz, p.v, i.v);
      Load(a.em, a.v, PTR)
    case RAW_LOAD(ty) =>
      var a := GepTyped(em, 1, ArgV(vs, 0), ArgV(vs, 1));
      Load(a.em, a.v, ty)
    case RAW_SUBSCRIPT(ty) =>
      var a := GepTyped(em, SizeOf(tgt, ty), ArgV(vs, 0), ArgV(vs, 1));
      Load(a.em, a.v, ty)
    case GET_HDLR => MlReg(tgt, em, EXN_HNDLR)
    case GET_VAR => MlReg(tgt, em, VAR_PTR)
  }

  /** Convert every pointer among the arguments to an integer. */
  function AsInts(em: Em, vs: seq<Value>, sz: nat): (r: EVs)
    ensures r.em.regs == em.regs && |r.vs| == |vs|
    ensures Grows(em, r.em)
  {
    if vs == [] then EVs(em, [])
    else
      var r := AsInts(em, vs[..|vs| - 1], sz);
      var c := AsInt(r.em, vs[|vs| - 1], sz);
      EVs(c.em, r.vs + [c.v])
  }

  function GenPure(tgt: Target, em: Em, pure: Pure, vs: seq<Value>): (r: EV)
    ensures r.em.regs == em.regs && Grows(em, r.em)
  {
    match pure
    case PURE_ARITH(code, intSz, ty) =>
      var a := if intSz.Some? then AsInts(em, vs, intSz.value) else EVs(em, vs);
      Def(a.em, PureOp(code), a.vs, ty)
    case PURE_SUBSCRIPT =>
      var p := AsPtr(em, ArgV(vs, 0));
      var i := AsInt(p.em, ArgV(vs, 1), Native(tgt));
      var a := Gep(i.em, tgt.wordSz, p.v, i.v);
      Load(a.em, a.v, PTR)
    case PURE_RAW_SUBSCRIPT(ty) =>
      var a := GepTyped(em, SizeOf(tgt, ty), ArgV(vs, 0), ArgV(vs, 1));
      Load(a.em, a.v, ty)
    case RAW_SELECT(offset, ty) =>
      var a := GepTyped(em, 1, ArgV(vs, 0), IntConst(tgt, offset));
      Load(a.em, a.v, ty)
  }

  type VMap = map<Lvar, Value>

  function LookupVal(vMap: VMap, x: Lvar): Value {
    if x in vMap then vMap[x] else Const(0, PTR)
  }

  /** An insertion does not replace an existing binding. */
  function InsertVal(vMap: VMap, x: Lvar, v: Value): VMap {
    if x in vMap then vMap else vMap[x := v]
  }

  function InsertVals(vMap: VMap, xs: seq<Lvar>, vs: seq<Value>): VMap
    requires |xs| <= |vs|
  {
    if xs == [] then vMap else InsertVal(InsertVals(vMap, xs[..|xs| - 1], vs), xs[|xs| - 1], vs[|xs| - 1])
  }

  function GenExp(tgt: Target, vMap: VMap, em: Em, e: Exp): (r: EV)
    requires |tgt.stkOffset| == NUM_REGS == |em.regs|
    ensures r.em.regs == em.regs && Grows(em, r.em)
    decreases e
  {
    match e
    case VAR(x) => EV(em, LookupVal(vMap, x))
    case LABEL(lab) => EV(em, Fn(lab))
    case NUM(n, sz) => EV(em, Const(NumVal(n, sz), INT(sz)))
    case LOOKER(looker, args) =>
      var a := GenExps(tgt, vMap, em, args);
      GenLooker(tgt, a.em, looker, a.vs)
    case PURE(pure, args) =>
      var a := GenExps(tgt, vMap, em, args);
      GenPure(tgt, a.em, pure, a.vs)
    case SELECT(idx, arg) =>
      var b := GenExp(tgt, vMap, em, arg);
      var p := AsPtr(b.em, b.v);
      var a := Gep(p.em, tgt.wordSz, p.v, Const(idx, INT(32)));
      Load(a.em, a.v, PTR)
  }

  function GenExps(tgt: Target, vMap: VMap, em: Em, es: seq<Exp>): (r: EVs)
    requires |tgt.stkOffset| == NUM_REGS == |em.regs|
    ensures r.em.regs == em.regs && |r.vs| == |es|
    ensures Grows(em, r.em)
    decreases es
  {
    if es == [] then EVs(em, [])
    else
      var r := GenExps(tgt, vMap, em, es[..|es| - 1]);
      var e := GenExp(tgt, vMap, r.em, es[|es| - 1]);
      EVs(e.em, r.vs + [e.v])
  }

  /** Arguments of a call, each converted to the type of its parameter. */
  function GenCastExps(tgt: Target, vMap: VMap, em: Em, es: seq<Exp>, tys: seq<Ty>): (r: EVs)
    requires |tgt.stkOffset| == NUM_REGS == |em.regs| && |es| <= |tys|
    ensures r.em.regs == em.regs && |r.vs| == |es|
    ensures Grows(em, r.em)
  {
    if es == [] then EVs(em, [])
    else
      var n := |es| - 1;
      var r := GenCastExps(tgt, vMap, em, es[..n], tys);
      var e := GenExp(tgt, vMap, r.em, es[n]);
      var c := CastTo(e.em, e.v, tys[n]);
      EVs(c.em, r.vs + [c.v])
  }

  /** Roots of a collection, each converted to a pointer. */
  function GenRoots(tgt: Target, vMap: VMap, em: Em, es: seq<Exp>): (r: EVs)
    requires |tgt.stkOffset| == NUM_REGS == |em.regs|
    ensures r.em.regs == em.regs && |r.vs| == |es|
    ensures Grows(em, r.em)
  {
    if es == [] then EVs(em, [])
    else
      var r := GenRoots(tgt, vMap, em, es[..|es| - 1]);
      var e := GenExp(tgt, vMap, r.em, es[|es| - 1]);
      var c := AsPtr(e.em, e.v);
      EVs(c.em, r.vs + [c.v])
  }

  function CastAll(em: Em, vs: seq<Value>, tys: seq<Ty>): (r: EVs)
    requires |vs| <= |tys|
    ensures r.em.regs == em.regs && |r.vs| == |vs|
    ensures Grows(em, r.em)
  {
    if vs == [] then EVs(em, [])
    else
      var n := |vs| - 1;
      var r := CastAll(em, vs[..n], tys);
      var c := CastTo(r.em, vs[n], tys[n]);
      EVs(c.em, r.vs + [c.v])
  }

  // ----- allocation -----

  function StoreWordsCode(tgt: Target, em: Em, p: Value, vs: seq<Value>): (em': Em)
    ensures em'.regs == em.regs && Grows(em, em')
  {
    if vs == [] then em
    else
      var e := StoreWordsCode(tgt, em, p, vs[..|vs| - 1]);
      var v := AsPtr(e, vs[|vs| - 1]);
      var a := Gep(v.em, tgt.wordSz, p, Const(|vs|, INT(32)));
      Emit(a.em, Store(v.v, a.v))
  }

  function AllocRecord(tgt: Target, em: Em, desc: Value, vs: seq<Value>): (r: EV)
    requires |tgt.stkOffset| == NUM_REGS == |em.regs|
    ensures Grows(em, r.em)
  {
    var p := MlReg(tgt, em, ALLOC_PTR);
    var e := StoreWordsCode(tgt, Emit(p.em, Store(desc, p.v)), p.v, vs);
    var obj := Gep(e, tgt.wordSz, p.v, Const(1, INT(32)));
    var top := Gep(obj.em, tgt.wordSz, p.v, Const(|vs| + 1, INT(32)));
    EV(SetMLReg(tgt, top.em, ALLOC_PTR, top.v), obj.v)
  }

  /** A field is stored as a word when its value is a pointer, and as it is otherwise. */
  function StoreFieldsCode(tgt: Target, em: Em, obj: Value, fields: seq<Ty>, vs: seq<Value>): (em': Em)
    ensures em'.regs == em.regs && Grows(em, em')
  {
    if fields == [] then em
    else
      var n := |fields| - 1;
      var e := StoreFieldsCode(tgt, em, obj, fields[..n], vs);
      var off := RoundUp(FieldsEnd(tgt, fields[..n]), FieldSize(tgt, fields[n]));
      var a := GepTyped(e, 1, obj, Const(off, INT(32)));
      if ArgV(vs, n).TyOf() == PTR then StoreML(a.em, ArgV(vs, n), a.v)
      else Emit(a.em, Store(ArgV(vs, n), a.v))
  }

  function RawRecord(tgt: Target, em: Em, desc: Val, fields: seq<Ty>, vs: seq<Value>): (r: EV)
    requires tgt.wordSz > 0 && |tgt.stkOffset| == NUM_REGS == |em.regs|
    ensures Grows(em, r.em)
  {
    var p := MlReg(tgt, em, ALLOC_PTR);
    var p' := AsPtr(p.em, p.v);
    var obj := Gep(Emit(p'.em, Store(IntConst(tgt, desc), p'.v)), tgt.wordSz, p.v, Const(1, INT(32)));
    var e := StoreFieldsCode(tgt, obj.em, obj.v, fields, vs);
    var top := Gep(e, tgt.wordSz, obj.v, Const(RoundUp(FieldsEnd(tgt, fields), tgt.wordSz), INT(32)));
    EV(SetMLReg(tgt, top.em, ALLOC_PTR, top.v), obj.v)
  }

  function AlignCode(tgt: Target, em: Em, p: Value, tagged: bool, align: nat): (r: EV)
    ensures r.em.regs == em.regs && Grows(em, r.em)
  {
    if tagged && align > tgt.wordSz then
      var n := Def(em, CastOp, [p], INT(Native(tgt)));
      var a := Def(n.em, OrOp, [n.v, IntConst(tgt, align - tgt.wordSz)], INT(Native(tgt)));
      Def(a.em, CastOp, [a.v], PTR)
    else EV(em, p)
  }

  function RawAlloc(tgt: Target, em: Em, tag: Option<Val>, align: nat, len: nat): (r: EV)
    requires |tgt.stkOffset| == NUM_REGS == |em.regs|
    ensures Grows(em, r.em)
  {
    var p := MlReg(tgt, em, ALLOC_PTR);
    var a := AlignCode(tgt, p.em, p.v, tag.Some?, align);
    var e := if tag.Some? then StoreML(a.em, IntConst(tgt, tag.value), a.v) else a.em;
    var obj := Gep(e, tgt.wordSz, a.v, Const(1, INT(32)));
    var top := GepTyped(obj.em, 1, a.v, Const(len + tgt.wordSz, INT(32)));
    EV(SetMLReg(tgt, top.em, ALLOC_PTR, top.v), obj.v)
  }

  function GenAlloc(tgt: Target, em: Em, alloc: AllocOp, vs: seq<Value>): (r: EV)
    requires tgt.wordSz > 0 && |tgt.stkOffset| == NUM_REGS == |em.regs|
    ensures Grows(em, r.em)
  {
    match alloc
    case SPECIAL =>
      var d := AsInt(em, ArgV(vs, 0), Native(tgt));
      AllocRecord(tgt, d.em, d.v, [ArgV(vs, 1)])
    case RECORD(desc) => AllocRecord(tgt, em, IntConst(tgt, desc), vs)
    case RAW_RECORD(desc, fields) => RawRecord(tgt, em, desc, fields, vs)
    case RAW_ALLOC(tag, align, len) => RawAlloc(tgt, em, tag, align, len)
  }

  // ----- assignment and tests -----

  function RecordStoreCode(tgt: Target, em: Em, adr: Value): (em': Em)
    requires |tgt.stkOffset| == NUM_REGS == |em.regs|
    ensures Grows(em, em')
  {
    var ap := MlReg(tgt, em, ALLOC_PTR);
    var sp := MlReg(tgt, ap.em, STORE_PTR);
    var a0 := Gep(sp.em, tgt.wordSz, ap.v, Const(0, INT(32)));
    var e0 := StoreML(a0.em, adr, a0.v);
    var a1 := Gep(e0, tgt.wordSz, ap.v, Const(1, INT(32)));
    var e1 := SetMLReg(tgt, StoreML(a1.em, sp.v, a1.v), STORE_PTR, ap.v);
    var top := Gep(e1, tgt.wordSz, ap.v, Const(2, INT(32)));
    SetMLReg(tgt, top.em, ALLOC_PTR, top.v)
  }

  function GenSetter(tgt: Target, em: Em, setter: SetterOp, vs: seq<Value>): (em': Em)
    requires |tgt.stkOffset| == NUM_REGS == |em.regs|
    ensures Grows(em, em')
  {
    hide AsPtr, AsInt, GepTyped, StoreML, RecordStoreCode;
    match setter
    case UNBOXED_UPDATE =>
      var a := GepTyped(em, tgt.wordSz, ArgV(vs, 0), ArgV(vs, 1));
      StoreML(a.em, ArgV(vs, 2), a.v)
    case UPDATE =>
      var a := GepTyped(em, tgt.wordSz, ArgV(vs, 0), ArgV(vs, 1));
      StoreML(RecordStoreCode(tgt, a.em, a.v), ArgV(vs, 2), a.v)
    case UNBOXED_ASSIGN =>
      var v := AsInt(em, ArgV(vs, 1), Native(tgt));
      var a := AsPtr(v.em, ArgV(vs, 0));
      Emit(a.em, Store(v.v, a.v))
    case ASSIGN => StoreML(RecordStoreCode(tgt, em, ArgV(vs, 0)), ArgV(vs, 1), ArgV(vs, 0))
    case RAW_UPDATE(ty) =>
      var a := GepTyped(em, SizeOf(tgt, ty), ArgV(vs, 0), ArgV(vs, 1));
      if ArgV(vs, 2).TyOf() == PTR then StoreML(a.em, ArgV(vs, 2), a.v)
      else Emit(a.em, Store(ArgV(vs, 2), a.v))
    case RAW_STORE(ty) =>
      var a := GepTyped(em, 1, ArgV(vs, 0), ArgV(vs, 1));
      Emit(a.em, Store(ArgV(vs, 2), a.v))
    case SET_HDLR => SetMLReg(tgt, em, EXN_HNDLR, ArgV(vs, 0))
    case SET_VAR => SetMLReg(tgt, em, VAR_PTR, ArgV(vs, 0))
  }

  function LimitCode(tgt: Target, em: Em, amt: nat): (r: EV)
    requires |tgt.stkOffset| == NUM_REGS == |em.regs|
    ensures r.em.regs == em.regs && Grows(em, r.em)
  {
    var p := MlReg(tgt, em, ALLOC_PTR);
    var n := AsInt(p.em, p.v, Native(tgt));
    var s := if amt > tgt.allocSlop then Def(n.em, AddOp, [n.v, IntConst(tgt, amt - tgt.allocSlop)], INT(Native(tgt)))
             else n;
    var q := MlReg(tgt, s.em, LIMIT_PTR);
    var l := AsInt(q.em, q.v, Native(tgt));
    Def(l.em, UgtOp, [s.v, l.v], INT(1))
  }

  function GenBranch(tgt: Target, em: Em, test: BranchOp, vs: seq<Value>): (r: EV)
    requires |tgt.stkOffset| == NUM_REGS == |em.regs|
    ensures r.em.regs == em.regs && Grows(em, r.em)
  {
    match test
    case CMP(code, sz) =>
      var a := AsInts(em, vs, sz);
      Def(a.em, CondOp(code), a.vs, INT(1))
    case LIMIT(amt) => LimitCode(tgt, em, amt)
  }

  // ----- blocks -----

  /** The state of the code generator inside a cluster. */
  datatype CG = CG(blocks: seq<Block>, cur: nat, next: nat, vMap: VMap, regs: seq<Option<Value>>, ovf: Option<nat>)

  function EmOf(cg: CG): Em
    requires cg.cur < |cg.blocks|
  {
    Em(cg.blocks[cg.cur].instrs, cg.next, cg.regs)
  }

  function WithEm(cg: CG, em: Em): CG
    requires cg.cur < |cg.blocks|
  {
    cg.(blocks := cg.blocks[cg.cur := cg.blocks[cg.cur].(instrs := em.code)], next := em.next, regs := em.regs)
  }

  function Bind(cg: CG, x: Lvar, v: Value): CG {
    cg.(vMap := InsertVal(cg.vMap, x, v))
  }

  function Terminate(cg: CG, t: Terminator): CG
    requires cg.cur < |cg.blocks|
  {
    cg.(blocks := cg.blocks[cg.cur := cg.blocks[cg.cur].(term := Some(t))])
  }

  function RegVal(r: Option<Value>): Value {
    if r.Some? then r.value else Undef
  }

  /** The values of the hardware registers, which every call and jump passes first. */
  function HwArgs(tgt: Target, regs: seq<Option<Value>>): seq<Value>
    requires |tgt.stkOffset| == NUM_REGS == |regs|
  {
    seq(|tgt.Hw()|, i requires 0 <= i < |tgt.Hw()| => RegVal(regs[tgt.Hw()[i]]))
  }

  /** Standard continuations leave the first two argument registers unused. */
  function Unused(kind: FragKind): seq<Value> {
    if kind == STD_CONT then [Undef, Undef] else []
  }

  /** Add an incoming value to each of the first |vs| phi nodes. */
  function AddIncoming(phis: seq<Phi>, vs: seq<Value>, src: nat): (r: seq<Phi>)
    ensures |r| == |phis|
  {
    seq(|phis|, i requires 0 <= i < |phis| =>
      if i < |vs| then phis[i].(vals := phis[i].vals + [vs[i]], preds := phis[i].preds + [src]) else phis[i])
  }

  function PhiTys(phis: seq<Phi>): (tys: seq<Ty>)
    ensures |tys| == |phis|
  {
    seq(|phis|, i requires 0 <= i < |phis| => phis[i].ty)
  }

  /** Phi nodes without incoming values, for temporaries from base on. */
  function NewPhis(base: nat, tys: seq<Ty>): (phis: seq<Phi>)
    ensures |phis| == |tys|
  {
    seq(|tys|, i requires 0 <= i < |tys| => Phi(base + i, tys[i], [], []))
  }

  function Temps(base: nat, tys: seq<Ty>): (vs: seq<Value>)
    ensures |vs| == |tys|
  {
    seq(|tys|, i requires 0 <= i < |tys| => Temp(base + i, tys[i]))
  }

  function Ptrs(n: nat): (tys: seq<Ty>)
    ensures |tys| == n
  {
    seq(n, _ => PTR)
  }

  /** The overflow block exists, with a phi node for each hardware register. */
  predicate OverflowInRange(tgt: Target, cg: CG) {
    |tgt.stkOffset| == NUM_REGS &&
    (cg.ovf.Some? ==> cg.ovf.value < |cg.blocks| && |cg.blocks[cg.ovf.value].phis| == |tgt.Hw()|)
  }

  /** Create the overflow block, unless the cluster has it already. */
  function MakeOverflow(tgt: Target, cg: CG): CG
    requires |tgt.stkOffset| == NUM_REGS
  {
    if cg.ovf.Some? then cg
    else
      var tys := Ptrs(|tgt.Hw()|);
      cg.(blocks := cg.blocks + [Block(NewPhis(cg.next, tys), [], Some(RaiseOverflow(Temps(cg.next, tys))))],
          next := cg.next + |tys|, ovf := Some(|cg.blocks|))
  }

  /** Tell the phi nodes of block d what comes in from the current block. */
  function PhisFromHere(cg: CG, d: nat, vs: seq<Value>): CG
    requires d < |cg.blocks|
  {
    cg.(blocks := cg.blocks[d := cg.blocks[d].(phis := AddIncoming(cg.blocks[d].phis, vs, cg.cur))])
  }

  datatype CV = CV(cg: CG, v: Value)

  /** End the block with a branch on the overflow bit `res + 1`: to the overflow block, or to
      a new block, where generation goes on. */
  function BranchOnOverflow(tgt: Target, cg: CG, res: nat): (r: CG)
    requires |tgt.stkOffset| == NUM_REGS == |cg.regs| && cg.cur < |cg.blocks|
    requires OverflowInRange(tgt, cg)
    ensures r.regs == cg.regs && r.cur < |r.blocks| && r.next >= cg.next && |r.blocks| >= |cg.blocks|
    ensures OverflowInRange(tgt, r)
  {
    var ok := |cg.blocks|;
    var cg2 := MakeOverflow(tgt, cg.(blocks := cg.blocks + [EMPTY]));
    var cg3 := PhisFromHere(cg2, cg2.ovf.value, HwArgs(tgt, cg2.regs));
    Terminate(cg3, CondBr(Temp(res + 1, INT(1)), cg3.ovf.value, ok)).(cur := ok)
  }

  /** The arithmetic instruction of a checked operator. */
  function ArithCode(em: Em, arith: ArithOp, vs: seq<Value>): (r: Em)
    ensures r.regs == em.regs && Grows(em, r) && em.next + 2 <= r.next
  {
    var a := AsInts(em, vs, arith.sz);
    Em(a.em.code + [ArithWO(a.em.next, arith.code, a.vs)], a.em.next + 2, em.regs)
  }

  function GenArith(tgt: Target, cg: CG, arith: ArithOp, vs: seq<Value>): (r: CV)
    requires |tgt.stkOffset| == NUM_REGS == |cg.regs| && cg.cur < |cg.blocks|
    requires OverflowInRange(tgt, cg)
    ensures r.cg.regs == cg.regs && r.cg.cur < |r.cg.blocks| && |r.cg.blocks| >= |cg.blocks|
    ensures OverflowInRange(tgt, r.cg)
  {
    if arith.checked then
      var em := ArithCode(EmOf(cg), arith, vs);
      CV(BranchOnOverflow(tgt, WithEm(cg, em), em.next - 2), Temp(em.next - 2, INT(arith.sz)))
    else
      var a := AsInts(EmOf(cg), vs, arith.sz);
      var d := Def(a.em, DivOp(arith.code), a.vs, INT(arith.sz));
      CV(WithEm(cg, d.em), d.v)
  }

  /** After a collection the hardware registers are the first results of the call. */
  function GcRestore(tgt: Target, em: Em, base: nat, n: nat): (em': Em)
    requires |tgt.stkOffset| == NUM_REGS == |em.regs| && n <= NUM_REGS
    ensures Grows(em, em')
  {
    if n == 0 then em
    else
      var e := GcRestore(tgt, em, base, n - 1);
      if tgt.IsMachine(n - 1) then SetMLReg(tgt, e, n - 1, Temp(base + tgt.HwIndex(n - 1), PTR)) else e
  }

  /** The call of the collector: registers and roots go in, registers and n roots come out. */
  function GcCode(tgt: Target, em: Em, n: nat, args: seq<Value>): (em': Em)
    requires |tgt.stkOffset| == NUM_REGS == |em.regs|
    ensures Grows(em, em')
  {
    var call := Emit(em, CallGC(em.next, n, args)).(next := em.next + |tgt.Hw()| + n);
    GcRestore(tgt, call, em.next, NUM_REGS)
  }

  function GenGC(tgt: Target, cg: CG, roots: seq<Value>, newRoots: seq<Lvar>): (cg': CG)
    requires |tgt.stkOffset| == NUM_REGS == |cg.regs| && cg.cur < |cg.blocks|
    ensures |cg'.regs| == NUM_REGS && cg'.cur == cg.cur < |cg'.blocks|
  {
    var em := EmOf(cg);
    var cg' := WithEm(cg, GcCode(tgt, em, |newRoots|, HwArgs(tgt, em.regs) + roots));
    cg'.(vMap := InsertVals(cg.vMap, newRoots, Temps(em.next + |tgt.Hw()|, Ptrs(|newRoots|))))
  }

  // ----- statements -----

  /** The initialised cluster: its fragments, their entry blocks, and the number of
      blocks that initialisation made. */
  datatype Unit = Unit(tgt: Target, fns: Fns, cl: Cluster, bbs: seq<nat>, n: nat)

  /** Callee, its calling convention and the types of its parameters. */
  datatype Callee = Callee(em: Em, fn: Value, kind: FragKind, tys: seq<Ty>)

  function GenCallee(u: Unit, vMap: VMap, em: Em, f: Exp, kind: FragKind, tys: seq<Ty>): (r: Callee)
    requires |u.tgt.stkOffset| == NUM_REGS == |em.regs|
    ensures r.em.regs == em.regs && Grows(em, r.em)
  {
    if f.LABEL? && f.lab in u.fns then Callee(em, Fn(f.lab), u.fns[f.lab].kind, u.fns[f.lab].paramTys)
    else
      var e := GenExp(u.tgt, vMap, em, f);
      var p := AsFn(e.em, e.v);
      Callee(p.em, p.v, kind, tys)
  }

  /** The end of a block that calls fn: registers, unused arguments, then the arguments. */
  function GenCall(u: Unit, cg: CG, c: Callee, kind: FragKind, args: seq<Exp>): CG
    requires |u.tgt.stkOffset| == NUM_REGS == |cg.regs| == |c.em.regs| && cg.cur < |cg.blocks|
  {
    var a := GenCastExps(u.tgt, cg.vMap, c.em, args[..if |args| <= |c.tys| then |args| else |c.tys|], c.tys);
    Terminate(WithEm(cg, a.em), TailCall(c.fn, HwArgs(u.tgt, cg.regs) + Unused(kind) + a.vs))
  }

  function GenGoto(u: Unit, cg: CG, d: nat, args: seq<Exp>): CG
    requires |u.tgt.stkOffset| == NUM_REGS == |cg.regs| && cg.cur < |cg.blocks| && d < |cg.blocks|
  {
    var a := GenExps(u.tgt, cg.vMap, EmOf(cg), args);
    var vs := HwArgs(u.tgt, cg.regs) + a.vs;
    var tys := PhiTys(cg.blocks[d].phis);
    var c := CastAll(a.em, vs[..if |vs| <= |tys| then |vs| else |tys|], tys);
    Terminate(PhisFromHere(WithEm(cg, c.em), d, c.vs), Br(d))
  }

  predicate UnitOK(u: Unit) {
    |u.bbs| == |u.cl| && forall i :: 0 <= i < |u.bbs| ==> u.bbs[i] < u.n
  }

  /** What holds throughout: blocks that are named exist. */
  predicate InRange(u: Unit, cg: CG) {
    && |u.tgt.stkOffset| == NUM_REGS == |cg.regs|
    && u.tgt.wordSz > 0
    && cg.cur < |cg.blocks|
    && u.n <= |cg.blocks|
    && OverflowInRange(u.tgt, cg)
  }

  /** The blocks of the arms within s are numbered and exist. */
  predicate BlocksBelow(s: Stm, n: nat) {
    match s
    case LET(_, _, k) => BlocksBelow(k, n)
    case ALLOC(_, _, _, k) => BlocksBelow(k, n)
    case APPLY(_, _, _) => true
    case THROW(_, _, _) => true
    case GOTO(_, _) => true
    case SWITCH(_, arms, bbs) => |bbs| == |arms| && (forall i :: 0 <= i < |bbs| ==> bbs[i] < n) && ArmsBelow(arms, n)
    case BRANCH(_, _, t, f, tBB, fBB) => tBB < n && fBB < n && BlocksBelow(t, n) && BlocksBelow(f, n)
    case ARITH(_, _, _, k) => BlocksBelow(k, n)
    case SETTER(_, _, k) => BlocksBelow(k, n)
    case CALLGC(_, _, k) => BlocksBelow(k, n)
  }

  predicate ArmsBelow(arms: seq<Stm>, n: nat) {
    arms == [] || (ArmsBelow(arms[..|arms| - 1], n) && BlocksBelow(arms[|arms| - 1], n))
  }

  /** End the block with a switch on the low 32 bits; the default case is unreachable. */
  function GenSwitch(u: Unit, cg: CG, e: Exp, bbs: seq<nat>): (r: CG)
    requires InRange(u, cg)
    ensures InRange(u, r)
  {
    var v := GenExp(u.tgt, cg.vMap, EmOf(cg), e);
    var i := AsInt(v.em, v.v, Native(u.tgt));
    var t := Def(i.em, Trunc32Op, [i.v], INT(32));
    var cg1 := WithEm(cg, t.em);
    var dflt := |cg1.blocks|;
    var cg2 := cg1.(blocks := cg1.blocks + [EMPTY.(term := Some(Unreachable))]);
    Terminate(cg2, Switch(t.v, bbs, dflt))
  }

  function GenCondBr(u: Unit, cg: CG, test: BranchOp, args: seq<Exp>, tBB: nat, fBB: nat): (r: CG)
    requires InRange(u, cg)
    ensures InRange(u, r)
  {
    var a := GenExps(u.tgt, cg.vMap, EmOf(cg), args);
    var t := GenBranch(u.tgt, a.em, test, a.vs);
    Terminate(WithEm(cg, t.em), CondBr(t.v, tBB, fBB))
  }

  function GenLet(u: Unit, cg: CG, e: Exp, p: Param): (r: CG)
    requires InRange(u, cg)
    ensures InRange(u, r)
  {
    var v := GenExp(u.tgt, cg.vMap, EmOf(cg), e);
    Bind(WithEm(cg, v.em), p.name, v.v)
  }

  function GenAllocStm(u: Unit, cg: CG, alloc: AllocOp, args: seq<Exp>, x: Lvar): (r: CG)
    requires InRange(u, cg)
    ensures InRange(u, r)
  {
    var a := GenExps(u.tgt, cg.vMap, EmOf(cg), args);
    var v := GenAlloc(u.tgt, a.em, alloc, a.vs);
    Bind(WithEm(cg, v.em), x, v.v)
  }

  function GenArithStm(u: Unit, cg: CG, arith: ArithOp, args: seq<Exp>, p: Param): (r: CG)
    requires InRange(u, cg)
    ensures InRange(u, r)
  {
    var a := GenExps(u.tgt, cg.vMap, EmOf(cg), args);
    var v := GenArith(u.tgt, WithEm(cg, a.em), arith, a.vs);
    Bind(v.cg, p.name, v.v)
  }

  function GenSetterStm(u: Unit, cg: CG, setter: SetterOp, args: seq<Exp>): (r: CG)
    requires InRange(u, cg)
    ensures InRange(u, r)
  {
    var a := GenExps(u.tgt, cg.vMap, EmOf(cg), args);
    WithEm(cg, GenSetter(u.tgt, a.em, setter, a.vs))
  }

  function GenGCStm(u: Unit, cg: CG, roots: seq<Exp>, newRoots: seq<Lvar>): (r: CG)
    requires InRange(u, cg)
    ensures InRange(u, r)
  {
    var a := GenRoots(u.tgt, cg.vMap, EmOf(cg), roots);
    GenGC(u.tgt, WithEm(cg, a.em), a.vs, newRoots)
  }

  function GenApply(u: Unit, cg: CG, f: Exp, args: seq<Exp>, tys: seq<Ty>): (r: CG)
    requires InRange(u, cg)
    ensures InRange(u, r)
  {
    var c := GenCallee(u, cg.vMap, EmOf(cg), f, STD_FUN, tys);
    GenCall(u, cg, c, c.kind, args)
  }

  function GenThrow(u: Unit, cg: CG, f: Exp, args: seq<Exp>, tys: seq<Ty>): (r: CG)
    requires InRange(u, cg)
    ensures InRange(u, r)
  {
    GenCall(u, cg, GenCallee(u, cg.vMap, EmOf(cg), f, STD_CONT, tys), STD_CONT, args)
  }

  function GenGotoStm(u: Unit, cg: CG, lab: Lvar, args: seq<Exp>): (r: CG)
    requires UnitOK(u) && InRange(u, cg)
    ensures InRange(u, r)
  {
    var d := FindFrag(u.cl, lab);
    if d.Some? then GenGoto(u, cg, u.bbs[d.value], args) else cg
  }

  /** Generate code for a statement, from the insertion point of cg on. */
  function GenStm(u: Unit, cg: CG, s: Stm): (r: CG)
    requires UnitOK(u) && InRange(u, cg) && BlocksBelow(s, u.n)
    ensures InRange(u, r)
    decreases s
  {
    match s
    case LET(e, p, k) => GenStm(u, GenLet(u, cg, e, p), k)
    case ALLOC(alloc, args, x, k) => GenStm(u, GenAllocStm(u, cg, alloc, args, x), k)
    case APPLY(f, args, tys) => GenApply(u, cg, f, args, tys)
    case THROW(f, args, tys) => GenThrow(u, cg, f, args, tys)
    case GOTO(lab, args) => GenGotoStm(u, cg, lab, args)
    case SWITCH(e, arms, bbs) => GenArms(u, GenSwitch(u, cg, e, bbs), arms, bbs)
    case BRANCH(test, args, tArm, fArm, tBB, fBB) =>
      var cg1 := GenCondBr(u, cg, test, args, tBB, fBB);
      var cg2 := GenStm(u, cg1.(cur := tBB), tArm);
      GenStm(u, cg2.(cur := fBB, regs := cg1.regs), fArm)
    case ARITH(arith, args, p, k) => GenStm(u, GenArithStm(u, cg, arith, args, p), k)
    case SETTER(setter, args, k) => GenStm(u, GenSetterStm(u, cg, setter, args), k)
    case CALLGC(roots, newRoots, k) => GenStm(u, GenGCStm(u, cg, roots, newRoots), k)
  }

  /** Generate the arms of a switch, each from the same register state. */
  function GenArms(u: Unit, cg: CG, arms: seq<Stm>, bbs: seq<nat>): (r: CG)
    requires UnitOK(u) && InRange(u, cg) && ArmsBelow(arms, u.n) && |arms| <= |bbs|
    requires forall i :: 0 <= i < |bbs| ==> bbs[i] < u.n
    ensures InRange(u, r)
    decreases arms
  {
    if arms == [] then cg
    else
      var n := |arms| - 1;
      var cg' := GenArms(u, cg, arms[..n], bbs);
      GenStm(u, cg'.(cur := bbs[n], regs := cg.regs), arms[n])
  }

  // ----- initialisation -----

  datatype Init = Init(s: Stm, n: nat)

  datatype InitArms = InitArms(arms: seq<Stm>, bbs: seq<nat>, n: nat)

  /** Number the blocks of the arms within s, from n on. */
  function InitStm(s: Stm, n: nat): (r: Init)
    ensures n <= r.n && BlocksBelow(r.s, r.n)
    decreases s
  {
    match s
    case LET(e, p, k) => var i := InitStm(k, n); Init(LET(e, p, i.s), i.n)
    case ALLOC(a, args, x, k) => var i := InitStm(k, n); Init(ALLOC(a, args, x, i.s), i.n)
    case APPLY(_, _, _) => Init(s, n)
    case THROW(_, _, _) => Init(s, n)
    case GOTO(_, _) => Init(s, n)
    case SWITCH(e, arms, _) => var i := InitSwitch(arms, n); Init(SWITCH(e, i.arms, i.bbs), i.n)
    case BRANCH(test, args, t, f, _, _) =>
      var i := InitStm(t, n + 1);
      var j := InitStm(f, i.n + 1);
      BlocksBelowMono(i.s, i.n, j.n);
      Init(BRANCH(test, args, i.s, j.s, n, i.n), j.n)
    case ARITH(a, args, p, k) => var i := InitStm(k, n); Init(ARITH(a, args, p, i.s), i.n)
    case SETTER(a, args, k) => var i := InitStm(k, n); Init(SETTER(a, args, i.s), i.n)
    case CALLGC(roots, xs, k) => var i := InitStm(k, n); Init(CALLGC(roots, xs, i.s), i.n)
  }

  function InitSwitch(arms: seq<Stm>, n: nat): (r: InitArms)
    ensures n <= r.n && |r.arms| == |r.bbs| == |arms| && ArmsBelow(r.arms, r.n)
    ensures forall i :: 0 <= i < |r.bbs| ==> r.bbs[i] < r.n
    decreases arms
  {
    if arms == [] then InitArms([], [], n)
    else
      var r := InitSwitch(arms[..|arms| - 1], n);
      var i := InitStm(arms[|arms| - 1], r.n + 1);
      ArmsBelowMono(r.arms, r.n, i.n);
      assert (r.arms + [i.s])[..|r.arms|] == r.arms;
      InitArms(r.arms + [i.s], r.bbs + [r.n], i.n)
  }

  lemma {:induction false} BlocksBelowMono(s: Stm, n: nat, n': nat)
    requires BlocksBelow(s, n) && n <= n'
    ensures BlocksBelow(s, n')
    decreases s
  {
    match s
    case LET(_, _, k) => BlocksBelowMono(k, n, n');
    case ALLOC(_, _, _, k) => BlocksBelowMono(k, n, n');
    case SWITCH(_, arms, _) => ArmsBelowMono(arms, n, n');
    case BRANCH(_, _, t, f, _, _) => BlocksBelowMono(t, n, n'); BlocksBelowMono(f, n, n');
    case ARITH(_, _, _, k) => BlocksBelowMono(k, n, n');
    case SETTER(_, _, k) => BlocksBelowMono(k, n, n');
    case CALLGC(_, _, k) => BlocksBelowMono(k, n, n');
    case _ =>
  }

  lemma {:induction false} ArmsBelowMono(arms: seq<Stm>, n: nat, n': nat)
    requires ArmsBelow(arms, n) && n <= n'
    ensures ArmsBelow(arms, n')
    decreases arms
  {
    if arms != [] {
      ArmsBelowMono(arms[..|arms| - 1], n, n');
      BlocksBelowMono(arms[|arms| - 1], n, n');
    }
  }
}
