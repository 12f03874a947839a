/** The types of generated values, read off the source, and which conversions of them are refused. */
module ValueTypes {
  import opened Machine
  import opened CFG
  import opened IR
  import opened Codegen

  // ----- from the source -----

  /** The types of the values of variables and of hardware registers, and three verdicts on what has been
      generated so far: all values passed by jumps have the types of their phi nodes, all overflow checks
      found pointers in the hardware registers, and no conversion was refused. */
  datatype Types = Types(vars: map<Lvar, Ty>, regs: seq<Option<Ty>>, gotos: bool, checks: bool, fits: bool)

  /** What is loaded from the stack frame is a pointer. */
  function RegTy(r: Option<Ty>): Ty {
    if r.Some? then r.value else PTR
  }

  function ExpTy(t: Types, e: Exp): Ty
    requires |t.regs| == NUM_REGS
  {
    match e
    case VAR(x) => if x in t.vars then t.vars[x] else PTR
    case LABEL(_) => PTR
    case NUM(_, sz) => LLTy(INT(sz))
    case LOOKER(looker, _) =>
      (match looker
       case DEREF => PTR
       case SUBSCRIPT => PTR
       case RAW_LOAD(ty) => LLTy(ty)
       case RAW_SUBSCRIPT(ty) => LLTy(ty)
       case GET_HDLR => RegTy(t.regs[EXN_HNDLR])
       case GET_VAR => RegTy(t.regs[VAR_PTR]))
    case PURE(pure, _) =>
      (match pure
       case PURE_ARITH(_, _, ty) => LLTy(ty)
       case PURE_SUBSCRIPT => PTR
       case PURE_RAW_SUBSCRIPT(ty) => LLTy(ty)
       case RAW_SELECT(_, ty) => LLTy(ty))
    case SELECT(_, _) => PTR
  }

  function ArgTys(t: Types, es: seq<Exp>): (tys: seq<Ty>)
    requires |t.regs| == NUM_REGS
    ensures |tys| == |es|
  {
    seq(|es|, i requires 0 <= i < |es| => ExpTy(t, es[i]))
  }

  lemma ArgTysInit(t: Types, es: seq<Exp>)
    requires |t.regs| == NUM_REGS && es != []
    ensures var n := |es| - 1; ArgTys(t, es)[..n] == ArgTys(t, es[..n]) && ArgTys(t, es)[n] == ExpTy(t, es[n])
  {
  }

  /** A missing argument counts as a pointer. */
  function Nth(tys: seq<Ty>, i: nat): Ty {
    if i < |tys| then tys[i] else PTR
  }

  function InsertTy(vars: map<Lvar, Ty>, x: Lvar, ty: Ty): map<Lvar, Ty> {
    if x in vars then vars else vars[x := ty]
  }

  function InsertTys(vars: map<Lvar, Ty>, xs: seq<Lvar>, tys: seq<Ty>): map<Lvar, Ty>
    requires |xs| <= |tys|
  {
    if xs == [] then vars else InsertTy(InsertTys(vars, xs[..|xs| - 1], tys), xs[|xs| - 1], tys[|xs| - 1])
  }

  function SetReg(regs: seq<Option<Ty>>, r: nat, ty: Ty): (regs': seq<Option<Ty>>)
    requires |regs| == NUM_REGS && r < NUM_REGS
    ensures |regs'| == NUM_REGS
  {
    if regs[r].Some? then regs[r := Some(ty)] else regs
  }

  function SetterRegs(regs: seq<Option<Ty>>, setter: SetterOp, tys: seq<Ty>): (regs': seq<Option<Ty>>)
    requires |regs| == NUM_REGS
    ensures |regs'| == NUM_REGS
  {
    match setter
    case UPDATE => SetReg(SetReg(regs, STORE_PTR, RegTy(regs[ALLOC_PTR])), ALLOC_PTR, PTR)
    case ASSIGN => SetReg(SetReg(regs, STORE_PTR, RegTy(regs[ALLOC_PTR])), ALLOC_PTR, PTR)
    case SET_HDLR => SetReg(regs, EXN_HNDLR, Nth(tys, 0))
    case SET_VAR => SetReg(regs, VAR_PTR, Nth(tys, 0))
    case _ => regs
  }

  function GcRegTys(tgt: Target, regs: seq<Option<Ty>>, n: nat): (regs': seq<Option<Ty>>)
    requires |tgt.stkOffset| == NUM_REGS == |regs| && n <= NUM_REGS
    ensures |regs'| == NUM_REGS
  {
    if n == 0 then regs
    else
      var e := GcRegTys(tgt, regs, n - 1);
      if tgt.IsMachine(n - 1) then SetReg(e, n - 1, PTR) else e
  }

  // ----- conversions -----

  /** A value of this type can be used as a pointer. */
  predicate Points(ty: Ty) {
    !ty.FLT?
  }

  predicate LookerFits(looker: Looker, tys: seq<Ty>) {
    looker == GET_HDLR || looker == GET_VAR || Points(Nth(tys, 0))
  }

  predicate PureFits(pure: Pure, tys: seq<Ty>) {
    pure.PURE_ARITH? || Points(Nth(tys, 0))
  }

  /** No conversion within e is refused. */
  predicate ExpFits(t: Types, e: Exp)
    requires |t.regs| == NUM_REGS
    decreases e
  {
    match e
    case LOOKER(looker, args) => AllFit(t, args) && LookerFits(looker, ArgTys(t, args))
    case PURE(pure, args) => AllFit(t, args) && PureFits(pure, ArgTys(t, args))
    case SELECT(_, arg) => ExpFits(t, arg) && Points(ExpTy(t, arg))
    case _ => true
  }

  predicate AllFit(t: Types, es: seq<Exp>)
    requires |t.regs| == NUM_REGS
    decreases es
  {
    es == [] || (AllFit(t, es[..|es| - 1]) && ExpFits(t, es[|es| - 1]))
  }

  predicate AllPoint(tys: seq<Ty>) {
    forall i :: 0 <= i < |tys| ==> Points(tys[i])
  }

  /** Everything in a record is a pointer; the fields of a raw record are stored as they are. */
  predicate AllocFits(alloc: AllocOp, tys: seq<Ty>) {
    match alloc
    case SPECIAL => Points(Nth(tys, 1))
    case RECORD(_) => AllPoint(tys)
    case _ => true
  }

  predicate SetterFits(setter: SetterOp, tys: seq<Ty>) {
    match setter
    case UNBOXED_UPDATE => Points(Nth(tys, 0)) && Points(Nth(tys, 2))
    case UPDATE => Points(Nth(tys, 0)) && Points(Nth(tys, 2))
    case UNBOXED_ASSIGN => Points(Nth(tys, 0))
    case ASSIGN => Points(Nth(tys, 0)) && Points(Nth(tys, 1))
    case RAW_UPDATE(_) => Points(Nth(tys, 0))
    case RAW_STORE(_) => Points(Nth(tys, 0))
    case SET_HDLR => true
    case SET_VAR => true
  }

  /** Each value can be converted to the type of the same position. */
  predicate CastsFit(srcs: seq<Ty>, dsts: seq<Ty>) {
    forall i :: 0 <= i < |srcs| && i < |dsts| ==> Castable(srcs[i], LLTy(dsts[i]))
  }

  // ----- of generated values -----

  function TysOf(vs: seq<Value>): (tys: seq<Ty>)
    ensures |tys| == |vs|
  {
    seq(|vs|, i requires 0 <= i < |vs| => vs[i].TyOf())
  }

  function VarTys(vMap: VMap): map<Lvar, Ty> {
    map x | x in vMap :: vMap[x].TyOf()
  }

  function RegTys(regs: seq<Option<Value>>): (tys: seq<Option<Ty>>)
    ensures |tys| == |regs|
  {
    seq(|regs|, r requires 0 <= r < |regs| => if regs[r].Some? then Some(regs[r].value.TyOf()) else None)
  }

  /** t has the types of the generator's variables and registers. */
  predicate Describes(t: Types, vMap: VMap, em: Em) {
    t.vars == VarTys(vMap) && t.regs == RegTys(em.regs) && |em.regs| == NUM_REGS
  }

  lemma ExpTyOK(tgt: Target, vMap: VMap, em: Em, e: Exp, t: Types)
    requires |tgt.stkOffset| == NUM_REGS && Describes(t, vMap, em)
    ensures GenExp(tgt, vMap, em, e).v.TyOf() == ExpTy(t, e)
  {
    hide GenExps, AsInts, AsInt, AsPtr, Gep;
    match e
    case SELECT(_, arg) =>
    case _ =>
  }

  lemma {:induction false} ArgTysOK(tgt: Target, vMap: VMap, em: Em, es: seq<Exp>, t: Types)
    requires |tgt.stkOffset| == NUM_REGS && Describes(t, vMap, em)
    ensures TysOf(GenExps(tgt, vMap, em, es).vs) == ArgTys(t, es)
  {
    if es != [] {
      var n := |es| - 1;
      hide GenExp, ExpTy;
      ArgTysOK(tgt, vMap, em, es[..n], t);
      var r := GenExps(tgt, vMap, em, es[..n]);
      ExpTyOK(tgt, vMap, r.em, es[n], t);
      assert ArgTys(t, es) == ArgTys(t, es[..n]) + [ExpTy(t, es[n])];
    }
  }

  lemma NthOK(vs: seq<Value>, i: nat)
    ensures ArgV(vs, i).TyOf() == Nth(TysOf(vs), i)
  {
  }

  lemma {:induction false} InsertTysOK(vMap: VMap, xs: seq<Lvar>, vs: seq<Value>, tys: seq<Ty>)
    requires |xs| <= |vs| == |tys| && forall i :: 0 <= i < |vs| ==> vs[i].TyOf() == tys[i]
    ensures VarTys(InsertVals(vMap, xs, vs)) == InsertTys(VarTys(vMap), xs, tys)
  {
    if xs != [] {
      InsertTysOK(vMap, xs[..|xs| - 1], vs, tys);
    }
  }

  // ----- of registers -----

  lemma SetRegOK(tgt: Target, em: Em, r: nat, v: Value)
    requires |tgt.stkOffset| == NUM_REGS == |em.regs| && r < NUM_REGS
    ensures RegTys(SetMLReg(tgt, em, r, v).regs) == SetReg(RegTys(em.regs), r, v.TyOf())
  {
  }

  lemma AllocRegsOK(tgt: Target, em: Em, alloc: AllocOp, vs: seq<Value>)
    requires tgt.wordSz > 0 && |tgt.stkOffset| == NUM_REGS == |em.regs|
    ensures var r := GenAlloc(tgt, em, alloc, vs);
            RegTys(r.em.regs) == SetReg(RegTys(em.regs), ALLOC_PTR, PTR) && r.v.TyOf() == PTR
  {
    hide StoreWordsCode, StoreFieldsCode, AsInt, AsPtr, AlignCode, StoreML, FieldsEnd, RoundUp, SetMLReg, RegTys,
         SetReg;
    match alloc
    case SPECIAL =>
      var d := AsInt(em, ArgV(vs, 0), Native(tgt));
      AsIntRegs(em, ArgV(vs, 0), Native(tgt));
      AllocRecordRegs(tgt, d.em, d.v, [ArgV(vs, 1)]);
    case RECORD(desc) => AllocRecordRegs(tgt, em, IntConst(tgt, desc), vs);
    case RAW_RECORD(desc, fields) => RawRecordRegs(tgt, em, desc, fields, vs);
    case RAW_ALLOC(tag, align, len) => RawAllocRegs(tgt, em, tag, align, len);
  }

  lemma AsIntRegs(em: Em, v: Value, sz: nat)
    ensures AsInt(em, v, sz).em.regs == em.regs && AsPtr(em, v).em.regs == em.regs
  {
  }

  lemma AllocRecordRegs(tgt: Target, em: Em, desc: Value, vs: seq<Value>)
    requires |tgt.stkOffset| == NUM_REGS == |em.regs|
    ensures var r := AllocRecord(tgt, em, desc, vs);
            RegTys(r.em.regs) == SetReg(RegTys(em.regs), ALLOC_PTR, PTR) && r.v.TyOf() == PTR
  {
    hide StoreWordsCode, SetMLReg, RegTys, SetReg;
    var p := MlReg(tgt, em, ALLOC_PTR);
    var e := StoreWordsCode(tgt, Emit(p.em, Store(desc, p.v)), p.v, vs);
    var obj := Gep(e, tgt.wordSz, p.v, Const(1, INT(32)));
    var top := Gep(obj.em, tgt.wordSz, p.v, Const(|vs| + 1, INT(32)));
    SetRegOK(tgt, top.em, ALLOC_PTR, top.v);
  }

  lemma RawRecordRegs(tgt: Target, em: Em, desc: Val, fields: seq<Ty>, vs: seq<Value>)
    requires tgt.wordSz > 0 && |tgt.stkOffset| == NUM_REGS == |em.regs|
    ensures var r := RawRecord(tgt, em, desc, fields, vs);
            RegTys(r.em.regs) == SetReg(RegTys(em.regs), ALLOC_PTR, PTR) && r.v.TyOf() == PTR
  {
    hide StoreFieldsCode, SetMLReg, RegTys, SetReg, FieldsEnd, RoundUp;
    var p := MlReg(tgt, em, ALLOC_PTR);
    var p' := AsPtr(p.em, p.v);
    var obj := Gep(Emit(p'.em, Store(IntConst(tgt, desc), p'.v)), tgt.wordSz, p.v, Const(1, INT(32)));
    var e := StoreFieldsCode(tgt, obj.em, obj.v, fields, vs);
    var top := Gep(e, tgt.wordSz, obj.v, Const(RoundUp(FieldsEnd(tgt, fields), tgt.wordSz), INT(32)));
    SetRegOK(tgt, top.em, ALLOC_PTR, top.v);
  }

  lemma RawAllocRegs(tgt: Target, em: Em, tag: Option<Val>, align: nat, len: nat)
    requires |tgt.stkOffset| == NUM_REGS == |em.regs|
    ensures var r := RawAlloc(tgt, em, tag, align, len);
            RegTys(r.em.regs) == SetReg(RegTys(em.regs), ALLOC_PTR, PTR) && r.v.TyOf() == PTR
  {
    hide SetMLReg, RegTys, SetReg;
    var p := MlReg(tgt, em, ALLOC_PTR);
    var a := AlignCode(tgt, p.em, p.v, tag.Some?, align);
    var e := if tag.Some? then StoreML(a.em, IntConst(tgt, tag.value), a.v) else a.em;
    var obj := Gep(e, tgt.wordSz, a.v, Const(1, INT(32)));
    var top := GepTyped(obj.em, 1, a.v, Const(len + tgt.wordSz, INT(32)));
    SetRegOK(tgt, top.em, ALLOC_PTR, top.v);
  }

  lemma RecordStoreRegs(tgt: Target, em: Em, adr: Value)
    requires |tgt.stkOffset| == NUM_REGS == |em.regs|
    ensures RegTys(RecordStoreCode(tgt, em, adr).regs)
            == SetReg(SetReg(RegTys(em.regs), STORE_PTR, RegTy(RegTys(em.regs)[ALLOC_PTR])), ALLOC_PTR, PTR)
  {
    hide SetMLReg, SetReg, StoreML;
    var ap := MlReg(tgt, em, ALLOC_PTR);
    var sp := MlReg(tgt, ap.em, STORE_PTR);
    var a0 := Gep(sp.em, tgt.wordSz, ap.v, Const(0, INT(32)));
    var e0 := StoreML(a0.em, adr, a0.v);
    StoreRegs(a0.em, adr, a0.v);
    var a1 := Gep(e0, tgt.wordSz, ap.v, Const(1, INT(32)));
    var e' := StoreML(a1.em, sp.v, a1.v);
    StoreRegs(a1.em, sp.v, a1.v);
    var e1 := SetMLReg(tgt, e', STORE_PTR, ap.v);
    SetRegOK(tgt, e', STORE_PTR, ap.v);
    var top := Gep(e1, tgt.wordSz, ap.v, Const(2, INT(32)));
    SetRegOK(tgt, top.em, ALLOC_PTR, top.v);
  }

  lemma StoreRegs(em: Em, v: Value, addr: Value)
    ensures StoreML(em, v, addr).regs == em.regs
  {
  }

  lemma SetterRegsOK(tgt: Target, em: Em, setter: SetterOp, vs: seq<Value>)
    requires |tgt.stkOffset| == NUM_REGS == |em.regs|
    ensures RegTys(GenSetter(tgt, em, setter, vs).regs) == SetterRegs(RegTys(em.regs), setter, TysOf(vs))
  {
    hide SetMLReg, SetReg, StoreML, RecordStoreCode, RegTys, ArgV, Nth, TysOf;
    NthOK(vs, 0);
    match setter
    case UPDATE =>
      var a := GepTyped(em, tgt.wordSz, ArgV(vs, 0), ArgV(vs, 1));
      RecordStoreRegs(tgt, a.em, a.v);
      StoreRegs(RecordStoreCode(tgt, a.em, a.v), ArgV(vs, 2), a.v);
    case ASSIGN =>
      RecordStoreRegs(tgt, em, ArgV(vs, 0));
      StoreRegs(RecordStoreCode(tgt, em, ArgV(vs, 0)), ArgV(vs, 1), ArgV(vs, 0));
    case SET_HDLR => SetRegOK(tgt, em, EXN_HNDLR, ArgV(vs, 0));
    case SET_VAR => SetRegOK(tgt, em, VAR_PTR, ArgV(vs, 0));
    case UNBOXED_UPDATE =>
      var a := GepTyped(em, tgt.wordSz, ArgV(vs, 0), ArgV(vs, 1));
      StoreRegs(a.em, ArgV(vs, 2), a.v);
    case RAW_UPDATE(ty) =>
      var a := GepTyped(em, SizeOf(tgt, ty), ArgV(vs, 0), ArgV(vs, 1));
      StoreRegs(a.em, ArgV(vs, 2), a.v);
    case _ =>
  }

  lemma {:induction false} GcRegsOK(tgt: Target, em: Em, base: nat, n: nat)
    requires |tgt.stkOffset| == NUM_REGS == |em.regs| && n <= NUM_REGS
    ensures RegTys(GcRestore(tgt, em, base, n).regs) == GcRegTys(tgt, RegTys(em.regs), n)
  {
    if n > 0 {
      hide SetMLReg, RegTys, SetReg;
      GcRegsOK(tgt, em, base, n - 1);
      SetRegOK(tgt, GcRestore(tgt, em, base, n - 1), n - 1, Temp(base + tgt.HwIndex(n - 1), PTR));
    }
  }

  lemma GcCodeRegs(tgt: Target, em: Em, n: nat, args: seq<Value>)
    requires |tgt.stkOffset| == NUM_REGS == |em.regs|
    ensures RegTys(GcCode(tgt, em, n, args).regs) == GcRegTys(tgt, RegTys(em.regs), NUM_REGS)
  {
    hide GcRestore, GcRegTys, RegTys;
    var call := Emit(em, CallGC(em.next, n, args)).(next := em.next + |tgt.Hw()| + n);
    GcRegsOK(tgt, call, em.next, NUM_REGS);
  }
}
