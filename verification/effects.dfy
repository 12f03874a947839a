/** The code emitted for allocations, assignments and tests has the effect that the CFG
    gives them, on registers and on memory. */
module Effects {
  import opened Machine
  import opened CFG
  import opened IR
  import opened Codegen
  import opened Straight

  /** After the code of em' the activation represents st', and values held before still hold. */
  ghost predicate Reaches(x: Exe, vMap: VMap, em: Em, em': Em, st': State)
    requires |x.m.tgt.stkOffset| == NUM_REGS
  {
    Extends(x, em, em') && Sim(x, vMap, em', st')
  }

  lemma ReachesTrans(x: Exe, vMap: VMap, a: Em, b: Em, c: Em, st: State)
    requires |x.m.tgt.stkOffset| == NUM_REGS && Extends(x, a, b) && Reaches(x, vMap, b, c, st)
    ensures Reaches(x, vMap, a, c, st)
    ensures forall v, val :: Holds(x, a, v, val) ==> Holds(x, c, v, val)
  {
    ExtendsTrans(x, a, b, c);
    Keeps(x, a, c);
  }

  /** Code that only computes a value. */
  lemma Computed(x: Exe, vMap: VMap, em: Em, r: EV, val: Val, st: State)
    requires Sim(x, vMap, em, st) && Yields(x, em, r, val)
    ensures Reaches(x, vMap, em, r.em, st)
    ensures forall v, w :: Holds(x, em, v, w) ==> Holds(x, r.em, v, w)
  {
    SimPure(x, vMap, em, r.em, st);
    Keeps(x, em, r.em);
  }

  lemma StoreAtOK(x: Exe, vMap: VMap, em: Em, st: State, scale: nat, base: Value, b: Val, off: nat, v: Value, val: Val)
    requires Sim(x, vMap, em, st) && Holds(x, em, base, b) && Holds(x, em, v, val)
    ensures var a := Gep(em, scale, base, Const(off, INT(32)));
            Reaches(x, vMap, em, Emit(a.em, Store(v, a.v)), st.(mem := st.mem[Index(x.m.tgt, b, scale, off) := val]))
  {
    var a := Gep(em, scale, base, Const(off, INT(32)));
    var adr := Index(x.m.tgt, b, scale, off);
    GepOK(x, em, scale, base, b, Const(off, INT(32)), off);
    Computed(x, vMap, em, a, adr, st);
    StoreOK(x, vMap, a.em, st, v, val, a.v, adr);
    ReachesTrans(x, vMap, em, a.em, Emit(a.em, Store(v, a.v)), st.(mem := st.mem[adr := val]));
  }

  lemma StoreMLAtOK(x: Exe, vMap: VMap, em: Em, st: State, scale: nat, base: Value, b: Val, off: nat, v: Value,
                    val: Val)
    requires Sim(x, vMap, em, st) && Holds(x, em, base, b) && Holds(x, em, v, val)
    ensures var a := Gep(em, scale, base, Const(off, INT(32)));
            Reaches(x, vMap, em, StoreML(a.em, v, a.v), st.(mem := st.mem[Index(x.m.tgt, b, scale, off) := val]))
  {
    var a := Gep(em, scale, base, Const(off, INT(32)));
    var adr := Index(x.m.tgt, b, scale, off);
    GepOK(x, em, scale, base, b, Const(off, INT(32)), off);
    Computed(x, vMap, em, a, adr, st);
    StoreMLOK(x, vMap, a.em, st, v, val, a.v, adr);
    ReachesTrans(x, vMap, em, a.em, StoreML(a.em, v, a.v), st.(mem := st.mem[adr := val]));
  }

  // ----- allocation -----

  lemma {:induction false} StoreWordsOK(x: Exe, vMap: VMap, em: Em, st: State, p: Value, pv: Val, vs: seq<Value>,
                                        vals: seq<Val>)
    requires Sim(x, vMap, em, st) && Holds(x, em, p, pv) && HoldAll(x, em, vs, vals)
    ensures Reaches(x, vMap, em, StoreWordsCode(x.m.tgt, em, p, vs), st.(mem := StoreWords(x.m.tgt, st.mem, pv, vals)))
  {
    if vs != [] {
      var n := |vs| - 1;
      var e := StoreWordsCode(x.m.tgt, em, p, vs[..n]);
      var st1 := st.(mem := StoreWords(x.m.tgt, st.mem, pv, vals[..n]));
      StoreWordsOK(x, vMap, em, st, p, pv, vs[..n], vals[..n]);
      Keeps(x, em, e);
      var v := AsPtr(e, vs[n]);
      CastOK(x, e, vs[n], vals[n], PTR, 0);
      Computed(x, vMap, e, v, vals[n], st1);
      StoreAtOK(x, vMap, v.em, st1, x.m.tgt.wordSz, p, pv, |vs|, v.v, vals[n]);
      var st2 := st1.(mem := st1.mem[Index(x.m.tgt, pv, x.m.tgt.wordSz, |vs|) := vals[n]]);
      ReachesTrans(x, vMap, e, v.em, StoreWordsCode(x.m.tgt, em, p, vs), st2);
      ReachesTrans(x, vMap, em, e, StoreWordsCode(x.m.tgt, em, p, vs), st2);
    }
  }

  /** Moving the allocation pointer to an element of base is the last step of every allocation. */
  lemma BumpOK(x: Exe, vMap: VMap, em: Em, st: State, top: EV, t: Val)
    requires Sim(x, vMap, em, st) && Yields(x, em, top, t)
    ensures Reaches(x, vMap, em, SetMLReg(x.m.tgt, top.em, ALLOC_PTR, top.v), st.(regs := st.regs[ALLOC_PTR := t]))
    ensures forall v, w :: Holds(x, em, v, w) ==> Holds(x, SetMLReg(x.m.tgt, top.em, ALLOC_PTR, top.v), v, w)
  {
    Computed(x, vMap, em, top, t, st);
    SetMLRegOK(x, vMap, top.em, st, ALLOC_PTR, top.v, t);
    ReachesTrans(x, vMap, em, top.em, SetMLReg(x.m.tgt, top.em, ALLOC_PTR, top.v),
                 st.(regs := st.regs[ALLOC_PTR := t]));
  }

  /** An allocation yields its object, moves the allocation pointer and initialises memory. */
  ghost predicate Allocates(x: Exe, vMap: VMap, em: Em, r: EV, st: State, a: Allocated)
    requires |x.m.tgt.stkOffset| == NUM_REGS == |st.regs|
  {
    && Reaches(x, vMap, em, r.em, State(st.env, st.regs[ALLOC_PTR := a.next], a.mem))
    && Holds(x, r.em, r.v, a.obj)
  }

  lemma AllocRecordOK(x: Exe, vMap: VMap, em: Em, st: State, desc: Value, d: Val, vs: seq<Value>, vals: seq<Val>)
    requires Sim(x, vMap, em, st) && Holds(x, em, desc, d) && HoldAll(x, em, vs, vals)
    ensures Allocates(x, vMap, em, AllocRecord(x.m.tgt, em, desc, vs), st,
                      RecordAt(x.m.tgt, st.regs[ALLOC_PTR], st.mem, d, vals))
  {
    hide Index, Gep, GepTyped, StoreML, AlignCode, TagAddress, Extends, Holds, RegOK;
    var tgt, ap := x.m.tgt, st.regs[ALLOC_PTR];
    var ws := tgt.wordSz;
    var p := MlReg(tgt, em, ALLOC_PTR);
    MlRegOK(x, vMap, em, st, ALLOC_PTR);
    Computed(x, vMap, em, p, ap, st);
    var e1 := Emit(p.em, Store(desc, p.v));
    var st1 := st.(mem := st.mem[ap := d]);
    StoreOK(x, vMap, p.em, st, desc, d, p.v, ap);
    ReachesTrans(x, vMap, em, p.em, e1, st1);
    Keeps(x, p.em, e1);
    var e := StoreWordsCode(tgt, e1, p.v, vs);
    var st2 := st.(mem := StoreWords(tgt, st1.mem, ap, vals));
    StoreWordsOK(x, vMap, e1, st1, p.v, ap, vs, vals);
    ReachesTrans(x, vMap, em, e1, e, st2);
    Keeps(x, e1, e);
    var obj := Gep(e, ws, p.v, Const(1, INT(32)));
    GepOK(x, e, ws, p.v, ap, Const(1, INT(32)), 1);
    Computed(x, vMap, e, obj, Index(tgt, ap, ws, 1), st2);
    ReachesTrans(x, vMap, em, e, obj.em, st2);
    var top := Gep(obj.em, ws, p.v, Const(|vs| + 1, INT(32)));
    GepOK(x, obj.em, ws, p.v, ap, Const(|vs| + 1, INT(32)), |vs| + 1);
    BumpOK(x, vMap, obj.em, st2, top, Index(tgt, ap, ws, |vs| + 1));
    ReachesTrans(x, vMap, em, obj.em, AllocRecord(tgt, em, desc, vs).em,
                 st2.(regs := st.regs[ALLOC_PTR := Index(tgt, ap, ws, |vs| + 1)]));
  }

  lemma {:induction false} StoreFieldsOK(x: Exe, vMap: VMap, em: Em, st: State, obj: Value, o: Val, fields: seq<Ty>,
                                         vs: seq<Value>, vals: seq<Val>)
    requires Sim(x, vMap, em, st) && Holds(x, em, obj, o) && HoldAll(x, em, vs, vals)
    ensures Reaches(x, vMap, em, StoreFieldsCode(x.m.tgt, em, obj, fields, vs),
                    st.(mem := StoreFields(x.m.tgt, st.mem, o, fields, vals)))
  {
    if fields != [] {
      var tgt, n := x.m.tgt, |fields| - 1;
      var e := StoreFieldsCode(tgt, em, obj, fields[..n], vs);
      var st1 := st.(mem := StoreFields(tgt, st.mem, o, fields[..n], vals));
      StoreFieldsOK(x, vMap, em, st, obj, o, fields[..n], vs, vals);
      Keeps(x, em, e);
      var off := RoundUp(FieldsEnd(tgt, fields[..n]), FieldSize(tgt, fields[n]));
      var a, adr := GepTyped(e, 1, obj, Const(off, INT(32))), Index(tgt, o, 1, off);
      GepOK(x, e, 1, obj, o, Const(off, INT(32)), off);
      Computed(x, vMap, e, a, adr, st1);
      ArgHolds(x, a.em, vs, vals, n);
      var st2 := st1.(mem := st1.mem[adr := Arg(vals, n)]);
      if ArgV(vs, n).TyOf() == PTR {
        StoreMLOK(x, vMap, a.em, st1, ArgV(vs, n), Arg(vals, n), a.v, adr);
      } else {
        StoreOK(x, vMap, a.em, st1, ArgV(vs, n), Arg(vals, n), a.v, adr);
      }
      ReachesTrans(x, vMap, e, a.em, StoreFieldsCode(tgt, em, obj, fields, vs), st2);
      ReachesTrans(x, vMap, em, e, StoreFieldsCode(tgt, em, obj, fields, vs), st2);
    }
  }

  lemma RawRecordOK(x: Exe, vMap: VMap, em: Em, st: State, desc: Val, fields: seq<Ty>, vs: seq<Value>, vals: seq<Val>)
    requires Sim(x, vMap, em, st) && HoldAll(x, em, vs, vals)
    ensures Allocates(x, vMap, em, RawRecord(x.m.tgt, em, desc, fields, vs), st,
                      RawRecordAt(x.m.tgt, st.regs[ALLOC_PTR], st.mem, desc, fields, vals))
  {
    hide Index, Gep, GepTyped, StoreML, AlignCode, TagAddress, Extends, Holds, RegOK;
    var tgt, ap := x.m.tgt, st.regs[ALLOC_PTR];
    var ws := tgt.wordSz;
    var p := MlReg(tgt, em, ALLOC_PTR);
    MlRegOK(x, vMap, em, st, ALLOC_PTR);
    Computed(x, vMap, em, p, ap, st);
    var p' := AsPtr(p.em, p.v);
    CastOK(x, p.em, p.v, ap, PTR, 0);
    Computed(x, vMap, p.em, p', ap, st);
    ReachesTrans(x, vMap, em, p.em, p'.em, st);
    ConstHolds(x, p'.em, desc, INT(Native(tgt)));
    var e1 := Emit(p'.em, Store(IntConst(tgt, desc), p'.v));
    var st1 := st.(mem := st.mem[ap := desc]);
    StoreOK(x, vMap, p'.em, st, IntConst(tgt, desc), desc, p'.v, ap);
    ReachesTrans(x, vMap, em, p'.em, e1, st1);
    Keeps(x, p'.em, e1);
    var obj, o := Gep(e1, ws, p.v, Const(1, INT(32))), Index(tgt, ap, ws, 1);
    GepOK(x, e1, ws, p.v, ap, Const(1, INT(32)), 1);
    Computed(x, vMap, e1, obj, o, st1);
    ReachesTrans(x, vMap, em, e1, obj.em, st1);
    var e := StoreFieldsCode(tgt, obj.em, obj.v, fields, vs);
    var st2 := st.(mem := StoreFields(tgt, st1.mem, o, fields, vals));
    StoreFieldsOK(x, vMap, obj.em, st1, obj.v, o, fields, vs, vals);
    ReachesTrans(x, vMap, em, obj.em, e, st2);
    Keeps(x, obj.em, e);
    var size := RoundUp(FieldsEnd(tgt, fields), ws);
    var top := Gep(e, ws, obj.v, Const(size, INT(32)));
    GepOK(x, e, ws, obj.v, o, Const(size, INT(32)), size);
    BumpOK(x, vMap, e, st2, top, Index(tgt, o, ws, size));
    ReachesTrans(x, vMap, em, e, RawRecord(tgt, em, desc, fields, vs).em,
                 st2.(regs := st.regs[ALLOC_PTR := Index(tgt, o, ws, size)]));
  }

  /** Or-ing the allocation pointer with a constant. */
  lemma OrOK(x: Exe, em: Em, p: Value, ap: Val, c: Val)
    requires |x.m.tgt.stkOffset| == NUM_REGS && Holds(x, em, p, ap)
    ensures var ty := INT(Native(x.m.tgt));
            var n := Def(em, CastOp, [p], ty);
            var a := Def(n.em, OrOp, [n.v, IntConst(x.m.tgt, c)], ty);
            Yields(x, em, Def(a.em, CastOp, [a.v], PTR), BitOr(ap, c))
  {
    var ty, k := INT(Native(x.m.tgt)), IntConst(x.m.tgt, c);
    var n := Def(em, CastOp, [p], ty);
    Def1(x, em, CastOp, p, ap, ty);
    ConstHolds(x, n.em, c, ty);
    var a, or := Def(n.em, OrOp, [n.v, k], ty), BitOr(ap, c);
    Def2(x, n.em, OrOp, n.v, ap, k, c, ty);
    YieldsTrans(x, em, n.em, a, or);
    Def1(x, a.em, CastOp, a.v, or, PTR);
    YieldsTrans(x, em, a.em, Def(a.em, CastOp, [a.v], PTR), or);
  }

  lemma AlignOK(x: Exe, em: Em, p: Value, ap: Val, tagged: bool, align: nat)
    requires |x.m.tgt.stkOffset| == NUM_REGS && Holds(x, em, p, ap)
    ensures Yields(x, em, AlignCode(x.m.tgt, em, p, tagged, align), TagAddress(x.m.tgt, ap, tagged, align))
  {
    if tagged && align > x.m.tgt.wordSz {
      OrOK(x, em, p, ap, align - x.m.tgt.wordSz);
    }
  }

  lemma TagOK(x: Exe, vMap: VMap, em: Em, st: State, tag: Option<Val>, a: Value, av: Val)
    requires Sim(x, vMap, em, st) && Holds(x, em, a, av)
    ensures Reaches(x, vMap, em, if tag.Some? then StoreML(em, IntConst(x.m.tgt, tag.value), a) else em,
                    if tag.Some? then st.(mem := st.mem[av := tag.value]) else st)
  {
    if tag.Some? {
      ConstHolds(x, em, tag.value, INT(Native(x.m.tgt)));
      StoreMLOK(x, vMap, em, st, IntConst(x.m.tgt, tag.value), tag.value, a, av);
    }
  }

  /** The address of an object, then the new allocation pointer. */
  lemma ObjectOK(x: Exe, vMap: VMap, em: Em, st: State, obj: EV, o: Val, top: EV, t: Val)
    requires Sim(x, vMap, em, st) && Yields(x, em, obj, o) && Yields(x, obj.em, top, t)
    ensures var em' := SetMLReg(x.m.tgt, top.em, ALLOC_PTR, top.v);
            Reaches(x, vMap, em, em', st.(regs := st.regs[ALLOC_PTR := t])) && Holds(x, em', obj.v, o)
  {
    Computed(x, vMap, em, obj, o, st);
    BumpOK(x, vMap, obj.em, st, top, t);
    ReachesTrans(x, vMap, em, obj.em, SetMLReg(x.m.tgt, top.em, ALLOC_PTR, top.v),
                 st.(regs := st.regs[ALLOC_PTR := t]));
  }

  /** The first half of RAW_ALLOC: align, then store the tag. */
  function TagCode(tgt: Target, em: Em, tag: Option<Val>, align: nat): EV
    requires |tgt.stkOffset| == NUM_REGS == |em.regs|
  {
    var p := MlReg(tgt, em, ALLOC_PTR);
    var a := AlignCode(tgt, p.em, p.v, tag.Some?, align);
    EV(if tag.Some? then StoreML(a.em, IntConst(tgt, tag.value), a.v) else a.em, a.v)
  }

  lemma TagCodeOK(x: Exe, vMap: VMap, em: Em, st: State, tag: Option<Val>, align: nat)
    requires Sim(x, vMap, em, st)
    ensures var av := TagAddress(x.m.tgt, st.regs[ALLOC_PTR], tag.Some?, align);
            var e := TagCode(x.m.tgt, em, tag, align);
            && Reaches(x, vMap, em, e.em, if tag.Some? then st.(mem := st.mem[av := tag.value]) else st)
            && Holds(x, e.em, e.v, av)
  {
    var tgt, ap := x.m.tgt, st.regs[ALLOC_PTR];
    var p := MlReg(tgt, em, ALLOC_PTR);
    MlRegOK(x, vMap, em, st, ALLOC_PTR);
    Computed(x, vMap, em, p, ap, st);
    var a, av := AlignCode(tgt, p.em, p.v, tag.Some?, align), TagAddress(tgt, ap, tag.Some?, align);
    AlignOK(x, p.em, p.v, ap, tag.Some?, align);
    Computed(x, vMap, p.em, a, av, st);
    ReachesTrans(x, vMap, em, p.em, a.em, st);
    var e := TagCode(tgt, em, tag, align);
    TagOK(x, vMap, a.em, st, tag, a.v, av);
    Keeps(x, a.em, e.em);
    ReachesTrans(x, vMap, em, a.em, e.em, if tag.Some? then st.(mem := st.mem[av := tag.value]) else st);
  }

  /** The second half: the object behind the tag, and the new allocation pointer. */
  lemma BehindTagOK(x: Exe, vMap: VMap, em: Em, st: State, a: Value, av: Val, len: nat)
    requires Sim(x, vMap, em, st) && Holds(x, em, a, av)
    ensures var tgt := x.m.tgt;
            var obj := Gep(em, tgt.wordSz, a, Const(1, INT(32)));
            var top := GepTyped(obj.em, 1, a, Const(len + tgt.wordSz, INT(32)));
            var em' := SetMLReg(tgt, top.em, ALLOC_PTR, top.v);
            && Reaches(x, vMap, em, em', st.(regs := st.regs[ALLOC_PTR := Index(tgt, av, 1, len + tgt.wordSz)]))
            && Holds(x, em', obj.v, Index(tgt, av, tgt.wordSz, 1))
  {
    hide Index, Gep, GepTyped, Extends, Holds, RegOK, Reaches, SetMLReg;
    var tgt := x.m.tgt;
    var ws := tgt.wordSz;
    var obj := Gep(em, ws, a, Const(1, INT(32)));
    ConstHolds(x, em, 1, INT(32));
    GepOK(x, em, ws, a, av, Const(1, INT(32)), 1);
    Keeps(x, em, obj.em);
    var top := GepTyped(obj.em, 1, a, Const(len + ws, INT(32)));
    ConstHolds(x, obj.em, len + ws, INT(32));
    GepOK(x, obj.em, 1, a, av, Const(len + ws, INT(32)), len + ws);
    ObjectOK(x, vMap, em, st, obj, Index(tgt, av, ws, 1), top, Index(tgt, av, 1, len + ws));
  }

  lemma RawAllocOK(x: Exe, vMap: VMap, em: Em, st: State, tag: Option<Val>, align: nat, len: nat)
    requires Sim(x, vMap, em, st)
    ensures Allocates(x, vMap, em, RawAlloc(x.m.tgt, em, tag, align, len), st,
                      RawAllocAt(x.m.tgt, st.regs[ALLOC_PTR], st.mem, tag, align, len))
  {
    hide Index, Gep, GepTyped, StoreML, AlignCode, TagAddress, Extends, Holds, RegOK, SetMLReg;
    var tgt := x.m.tgt;
    var av := TagAddress(tgt, st.regs[ALLOC_PTR], tag.Some?, align);
    var a := TagCode(tgt, em, tag, align);
    var st1 := if tag.Some? then st.(mem := st.mem[av := tag.value]) else st;
    TagCodeOK(x, vMap, em, st, tag, align);
    BehindTagOK(x, vMap, a.em, st1, a.v, av, len);
    ReachesTrans(x, vMap, em, a.em, RawAlloc(tgt, em, tag, align, len).em,
                 st1.(regs := st.regs[ALLOC_PTR := Index(tgt, av, 1, len + tgt.wordSz)]));
  }

  /** The code for an allocation allocates as the CFG says. */
  lemma GenAllocOK(x: Exe, vMap: VMap, em: Em, st: State, alloc: AllocOp, vs: seq<Value>, vals: seq<Val>)
    requires Sim(x, vMap, em, st) && HoldAll(x, em, vs, vals)
    ensures Allocates(x, vMap, em, GenAlloc(x.m.tgt, em, alloc, vs), st,
                      Allocate(x.m.tgt, alloc, vals, st.regs[ALLOC_PTR], st.mem))
  {
    match alloc
    case SPECIAL =>
      ArgHolds(x, em, vs, vals, 0);
      ArgHolds(x, em, vs, vals, 1);
      var d := AsInt(em, ArgV(vs, 0), Native(x.m.tgt));
      CastOK(x, em, ArgV(vs, 0), Arg(vals, 0), PTR, Native(x.m.tgt));
      Computed(x, vMap, em, d, Arg(vals, 0), st);
      AllocRecordOK(x, vMap, d.em, st, d.v, Arg(vals, 0), [ArgV(vs, 1)], [Arg(vals, 1)]);
      var a := RecordAt(x.m.tgt, st.regs[ALLOC_PTR], st.mem, Arg(vals, 0), [Arg(vals, 1)]);
      ReachesTrans(x, vMap, em, d.em, GenAlloc(x.m.tgt, em, alloc, vs).em,
                   State(st.env, st.regs[ALLOC_PTR := a.next], a.mem));
    case RECORD(desc) =>
      ConstHolds(x, em, desc, INT(Native(x.m.tgt)));
      AllocRecordOK(x, vMap, em, st, IntConst(x.m.tgt, desc), desc, vs, vals);
    case RAW_RECORD(desc, fields) => RawRecordOK(x, vMap, em, st, desc, fields, vs, vals);
    case RAW_ALLOC(tag, align, len) => RawAllocOK(x, vMap, em, st, tag, align, len);
  }

  // ----- assignment -----

  ghost function After(st: State, a: Assigned): State {
    State(st.env, a.regs, a.mem)
  }

  lemma RecordStoreOK(x: Exe, vMap: VMap, em: Em, st: State, adr: Value, av: Val)
    requires Sim(x, vMap, em, st) && Holds(x, em, adr, av)
    ensures Reaches(x, vMap, em, RecordStoreCode(x.m.tgt, em, adr),
                    After(st, RecordStore(x.m.tgt, av, st.regs, st.mem)))
  {
    var tgt, apv, spv := x.m.tgt, st.regs[ALLOC_PTR], st.regs[STORE_PTR];
    var ws := tgt.wordSz;
    var ap := MlReg(tgt, em, ALLOC_PTR);
    MlRegOK(x, vMap, em, st, ALLOC_PTR);
    Computed(x, vMap, em, ap, apv, st);
    var sp := MlReg(tgt, ap.em, STORE_PTR);
    MlRegOK(x, vMap, ap.em, st, STORE_PTR);
    Computed(x, vMap, ap.em, sp, spv, st);
    ReachesTrans(x, vMap, em, ap.em, sp.em, st);
    var a0 := Gep(sp.em, ws, ap.v, Const(0, INT(32)));
    var e0 := StoreML(a0.em, adr, a0.v);
    var st0 := st.(mem := st.mem[Index(tgt, apv, ws, 0) := av]);
    StoreMLAtOK(x, vMap, sp.em, st, ws, ap.v, apv, 0, adr, av);
    Keeps(x, sp.em, e0);
    ReachesTrans(x, vMap, em, sp.em, e0, st0);
    var a1 := Gep(e0, ws, ap.v, Const(1, INT(32)));
    var e1 := StoreML(a1.em, sp.v, a1.v);
    var st1 := st0.(mem := st0.mem[Index(tgt, apv, ws, 1) := spv]);
    StoreMLAtOK(x, vMap, e0, st0, ws, ap.v, apv, 1, sp.v, spv);
    Keeps(x, e0, e1);
    ReachesTrans(x, vMap, em, e0, e1, st1);
    var e2 := SetMLReg(tgt, e1, STORE_PTR, ap.v);
    var st2 := st1.(regs := st.regs[STORE_PTR := apv]);
    SetMLRegOK(x, vMap, e1, st1, STORE_PTR, ap.v, apv);
    Keeps(x, e1, e2);
    ReachesTrans(x, vMap, em, e1, e2, st2);
    var top := Gep(e2, ws, ap.v, Const(2, INT(32)));
    GepOK(x, e2, ws, ap.v, apv, Const(2, INT(32)), 2);
    BumpOK(x, vMap, e2, st2, top, Index(tgt, apv, ws, 2));
    ReachesTrans(x, vMap, em, e2, RecordStoreCode(tgt, em, adr), After(st, RecordStore(tgt, av, st.regs, st.mem)));
  }

  lemma StoreElementOK(x: Exe, vMap: VMap, em: Em, st: State, scale: nat, vs: seq<Value>, vals: seq<Val>)
    requires Sim(x, vMap, em, st) && HoldAll(x, em, vs, vals)
    ensures var a := GepTyped(em, scale, ArgV(vs, 0), ArgV(vs, 1));
            var st' := st.(mem := st.mem[Index(x.m.tgt, Arg(vals, 0), scale, Arg(vals, 1)) := Arg(vals, 2)]);
            && Reaches(x, vMap, em, StoreML(a.em, ArgV(vs, 2), a.v), st')
            && Reaches(x, vMap, em, Emit(a.em, Store(ArgV(vs, 2), a.v)), st')
  {
    ArgHolds(x, em, vs, vals, 0);
    ArgHolds(x, em, vs, vals, 1);
    ArgHolds(x, em, vs, vals, 2);
    var a, adr := GepTyped(em, scale, ArgV(vs, 0), ArgV(vs, 1)), Index(x.m.tgt, Arg(vals, 0), scale, Arg(vals, 1));
    var st' := st.(mem := st.mem[adr := Arg(vals, 2)]);
    GepOK(x, em, scale, ArgV(vs, 0), Arg(vals, 0), ArgV(vs, 1), Arg(vals, 1));
    Computed(x, vMap, em, a, adr, st);
    StoreMLOK(x, vMap, a.em, st, ArgV(vs, 2), Arg(vals, 2), a.v, adr);
    StoreOK(x, vMap, a.em, st, ArgV(vs, 2), Arg(vals, 2), a.v, adr);
    ReachesTrans(x, vMap, em, a.em, StoreML(a.em, ArgV(vs, 2), a.v), st');
    ReachesTrans(x, vMap, em, a.em, Emit(a.em, Store(ArgV(vs, 2), a.v)), st');
  }

  lemma UpdateOK(x: Exe, vMap: VMap, em: Em, st: State, vs: seq<Value>, vals: seq<Val>)
    requires Sim(x, vMap, em, st) && HoldAll(x, em, vs, vals)
    ensures Reaches(x, vMap, em, GenSetter(x.m.tgt, em, UPDATE, vs),
                    After(st, Set(x.m.tgt, UPDATE, vals, st.regs, st.mem)))
  {
    ArgHolds(x, em, vs, vals, 0);
    ArgHolds(x, em, vs, vals, 1);
    ArgHolds(x, em, vs, vals, 2);
    var ws := x.m.tgt.wordSz;
    var a, adr := GepTyped(em, ws, ArgV(vs, 0), ArgV(vs, 1)), Index(x.m.tgt, Arg(vals, 0), ws, Arg(vals, 1));
    GepOK(x, em, ws, ArgV(vs, 0), Arg(vals, 0), ArgV(vs, 1), Arg(vals, 1));
    Computed(x, vMap, em, a, adr, st);
    var e, st1 := RecordStoreCode(x.m.tgt, a.em, a.v), After(st, RecordStore(x.m.tgt, adr, st.regs, st.mem));
    RecordStoreOK(x, vMap, a.em, st, a.v, adr);
    Keeps(x, a.em, e);
    ReachesTrans(x, vMap, em, a.em, e, st1);
    StoreMLOK(x, vMap, e, st1, ArgV(vs, 2), Arg(vals, 2), a.v, adr);
    ReachesTrans(x, vMap, em, e, StoreML(e, ArgV(vs, 2), a.v), st1.(mem := st1.mem[adr := Arg(vals, 2)]));
  }

  lemma AssignOK(x: Exe, vMap: VMap, em: Em, st: State, vs: seq<Value>, vals: seq<Val>)
    requires Sim(x, vMap, em, st) && HoldAll(x, em, vs, vals)
    ensures Reaches(x, vMap, em, GenSetter(x.m.tgt, em, ASSIGN, vs),
                    After(st, Set(x.m.tgt, ASSIGN, vals, st.regs, st.mem)))
  {
    ArgHolds(x, em, vs, vals, 0);
    ArgHolds(x, em, vs, vals, 1);
    var adr, val := Arg(vals, 0), Arg(vals, 1);
    var e, st1 := RecordStoreCode(x.m.tgt, em, ArgV(vs, 0)), After(st, RecordStore(x.m.tgt, adr, st.regs, st.mem));
    RecordStoreOK(x, vMap, em, st, ArgV(vs, 0), adr);
    Keeps(x, em, e);
    StoreMLOK(x, vMap, e, st1, ArgV(vs, 1), val, ArgV(vs, 0), adr);
    ReachesTrans(x, vMap, em, e, StoreML(e, ArgV(vs, 1), ArgV(vs, 0)), st1.(mem := st1.mem[adr := val]));
  }

  lemma UnboxedAssignOK(x: Exe, vMap: VMap, em: Em, st: State, vs: seq<Value>, vals: seq<Val>)
    requires Sim(x, vMap, em, st) && HoldAll(x, em, vs, vals)
    ensures Reaches(x, vMap, em, GenSetter(x.m.tgt, em, UNBOXED_ASSIGN, vs),
                            After(st, Set(x.m.tgt, UNBOXED_ASSIGN, vals, st.regs, st.mem)))
  {
    ArgHolds(x, em, vs, vals, 0);
    ArgHolds(x, em, vs, vals, 1);
    var adr, val := Arg(vals, 0), Arg(vals, 1);
    var v := AsInt(em, ArgV(vs, 1), Native(x.m.tgt));
    CastOK(x, em, ArgV(vs, 1), val, PTR, Native(x.m.tgt));
    Computed(x, vMap, em, v, val, st);
    var a := AsPtr(v.em, ArgV(vs, 0));
    CastOK(x, v.em, ArgV(vs, 0), adr, PTR, 0);
    Computed(x, vMap, v.em, a, adr, st);
    ReachesTrans(x, vMap, em, v.em, a.em, st);
    StoreOK(x, vMap, a.em, st, v.v, val, a.v, adr);
    ReachesTrans(x, vMap, em, a.em, Emit(a.em, Store(v.v, a.v)), st.(mem := st.mem[adr := val]));
  }

  /** The code for an assignment assigns as the CFG says. */
  lemma GenSetterOK(x: Exe, vMap: VMap, em: Em, st: State, setter: SetterOp, vs: seq<Value>, vals: seq<Val>)
    requires Sim(x, vMap, em, st) && HoldAll(x, em, vs, vals)
    ensures Reaches(x, vMap, em, GenSetter(x.m.tgt, em, setter, vs),
                    After(st, Set(x.m.tgt, setter, vals, st.regs, st.mem)))
  {
    ArgHolds(x, em, vs, vals, 0);
    match setter
    case UNBOXED_UPDATE => StoreElementOK(x, vMap, em, st, x.m.tgt.wordSz, vs, vals);
    case UPDATE => UpdateOK(x, vMap, em, st, vs, vals);
    case UNBOXED_ASSIGN => UnboxedAssignOK(x, vMap, em, st, vs, vals);
    case ASSIGN => AssignOK(x, vMap, em, st, vs, vals);
    case RAW_UPDATE(ty) => StoreElementOK(x, vMap, em, st, SizeOf(x.m.tgt, ty), vs, vals);
    case RAW_STORE(ty) => StoreElementOK(x, vMap, em, st, 1, vs, vals);
    case SET_HDLR => SetMLRegOK(x, vMap, em, st, EXN_HNDLR, ArgV(vs, 0), Arg(vals, 0));
    case SET_VAR => SetMLRegOK(x, vMap, em, st, VAR_PTR, ArgV(vs, 0), Arg(vals, 0));
  }

  // ----- tests -----

  /** The value of a register as an integer. */
  lemma RegIntOK(x: Exe, vMap: VMap, em: Em, st: State, r: nat)
    requires Sim(x, vMap, em, st) && r < NUM_REGS
    ensures var p := MlReg(x.m.tgt, em, r);
            Yields(x, em, AsInt(p.em, p.v, Native(x.m.tgt)), st.regs[r])
  {
    var p := MlReg(x.m.tgt, em, r);
    MlRegOK(x, vMap, em, st, r);
    CastOK(x, p.em, p.v, st.regs[r], PTR, Native(x.m.tgt));
    YieldsTrans(x, em, p.em, AsInt(p.em, p.v, Native(x.m.tgt)), st.regs[r]);
  }

  /** What the limit check compares: the allocation pointer, plus what goes beyond the slop. */
  function NeedCode(tgt: Target, em: Em, amt: nat): EV
    requires |tgt.stkOffset| == NUM_REGS == |em.regs|
  {
    var p := MlReg(tgt, em, ALLOC_PTR);
    var n := AsInt(p.em, p.v, Native(tgt));
    if amt > tgt.allocSlop then Def(n.em, AddOp, [n.v, IntConst(tgt, amt - tgt.allocSlop)], INT(Native(tgt)))
    else n
  }

  function Need(tgt: Target, amt: nat, ap: Val): Val {
    if amt > tgt.allocSlop then Index(tgt, ap, 1, amt - tgt.allocSlop) else ap
  }

  lemma NeedOK(x: Exe, vMap: VMap, em: Em, st: State, amt: nat)
    requires Sim(x, vMap, em, st)
    ensures Yields(x, em, NeedCode(x.m.tgt, em, amt), Need(x.m.tgt, amt, st.regs[ALLOC_PTR]))
  {
    hide AsInt, RunCode, Extends, RegOK, MlReg;
    var tgt, ap := x.m.tgt, st.regs[ALLOC_PTR];
    var p := MlReg(tgt, em, ALLOC_PTR);
    var n := AsInt(p.em, p.v, Native(tgt));
    RegIntOK(x, vMap, em, st, ALLOC_PTR);
    if amt > tgt.allocSlop {
      var k := amt - tgt.allocSlop;
      ConstHolds(x, n.em, k, INT(Native(tgt)));
      Def2(x, n.em, AddOp, n.v, ap, IntConst(tgt, k), k, INT(Native(tgt)));
      YieldsTrans(x, em, n.em, NeedCode(tgt, em, amt), Need(tgt, amt, ap));
    }
  }

  lemma LimitOK(x: Exe, vMap: VMap, em: Em, st: State, amt: nat)
    requires Sim(x, vMap, em, st)
    ensures Yields(x, em, LimitCode(x.m.tgt, em, amt), BoolVal(LimitReached(x.m.tgt, amt, st.regs)))
  {
    hide AsInt, RunCode, Holds, Extends, RegOK, MlReg;
    var tgt := x.m.tgt;
    var s, sv := NeedCode(tgt, em, amt), Need(tgt, amt, st.regs[ALLOC_PTR]);
    NeedOK(x, vMap, em, st, amt);
    SimPure(x, vMap, em, s.em, st);
    RegIntOK(x, vMap, s.em, st, LIMIT_PTR);
    var q := MlReg(tgt, s.em, LIMIT_PTR);
    var l := AsInt(q.em, q.v, Native(tgt));
    Keeps(x, s.em, l.em);
    YieldsTrans(x, em, s.em, l, st.regs[LIMIT_PTR]);
    Def2(x, l.em, UgtOp, s.v, sv, l.v, st.regs[LIMIT_PTR], INT(1));
    YieldsTrans(x, em, l.em, LimitCode(tgt, em, amt), BoolVal(LimitReached(tgt, amt, st.regs)));
  }

  /** The code for a test computes the test. */
  lemma GenBranchOK(x: Exe, vMap: VMap, em: Em, st: State, test: BranchOp, vs: seq<Value>, vals: seq<Val>)
    requires Sim(x, vMap, em, st) && HoldAll(x, em, vs, vals)
    ensures Yields(x, em, GenBranch(x.m.tgt, em, test, vs), BoolVal(Test(x.m, test, vals, st.regs)))
  {
    match test
    case CMP(code, sz) =>
      var a := AsInts(em, vs, sz);
      AsIntsOK(x, em, vs, vals, sz);
      DefOK(x, a.em, CondOp(code), a.vs, vals, INT(1));
      ExtendsTrans(x, em, a.em, GenBranch(x.m.tgt, em, test, vs).em);
    case LIMIT(amt) => LimitOK(x, vMap, em, st, amt);
  }
}
