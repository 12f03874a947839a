/** The straight-line code emitted for expressions, allocations, assignments and tests
    computes what the CFG says. */
module Straight {
  import opened Machine
  import opened CFG
  import opened IR
  import opened Codegen

  /** An activation at the start of the block under construction. */
  datatype Exe = Exe(m: Machine, fargs: seq<Val>, t0: TS)

  /** The state after the code emitted so far. */
  function Mid(x: Exe, em: Em): Option<TS>
    requires |x.m.tgt.stkOffset| == NUM_REGS
  {
    RunCode(x.m, x.fargs, em.code, x.t0)
  }

  ghost predicate Agree(env: map<nat, Val>, env': map<nat, Val>, n: nat) {
    forall id :: id < n && id in env ==> id in env' && env'[id] == env[id]
  }

  ghost predicate Below(v: Value, n: nat) {
    v.Temp? ==> v.id < n
  }

  ghost predicate Means(x: Exe, env: map<nat, Val>, v: Value, val: Val) {
    Defined(x.fargs, env, v) && EvalV(x.m, x.fargs, env, v) == val
  }

  /** After the code of em, v denotes val, and code to come will not overwrite it. */
  ghost predicate Holds(x: Exe, em: Em, v: Value, val: Val)
    requires |x.m.tgt.stkOffset| == NUM_REGS
  {
    Mid(x, em).Some? && Means(x, Mid(x, em).value.env, v, val) && Below(v, em.next)
  }

  ghost predicate HoldAll(x: Exe, em: Em, vs: seq<Value>, vals: seq<Val>)
    requires |x.m.tgt.stkOffset| == NUM_REGS
  {
    |vs| == |vals| && forall i :: 0 <= i < |vs| ==> Holds(x, em, vs[i], vals[i])
  }

  /** More code was emitted, and it sets only new temporaries. */
  ghost predicate Extends(x: Exe, em: Em, em': Em)
    requires |x.m.tgt.stkOffset| == NUM_REGS
  {
    && Mid(x, em).Some? && Mid(x, em').Some?
    && em.next <= em'.next && em.code <= em'.code
    && Agree(Mid(x, em).value.env, Mid(x, em').value.env, em.next)
  }

  /** ... and it changes neither registers nor memory. */
  ghost predicate PureExt(x: Exe, em: Em, em': Em)
    requires |x.m.tgt.stkOffset| == NUM_REGS
  {
    && Extends(x, em, em') && em'.regs == em.regs
    && Mid(x, em').value.stk == Mid(x, em).value.stk
    && Mid(x, em').value.mem == Mid(x, em).value.mem
  }

  ghost predicate Yields(x: Exe, em: Em, r: EV, val: Val)
    requires |x.m.tgt.stkOffset| == NUM_REGS
  {
    PureExt(x, em, r.em) && Holds(x, r.em, r.v, val)
  }

  ghost predicate YieldAll(x: Exe, em: Em, r: EVs, vals: seq<Val>)
    requires |x.m.tgt.stkOffset| == NUM_REGS
  {
    PureExt(x, em, r.em) && HoldAll(x, r.em, r.vs, vals)
  }

  /** The register r of the CFG is where the symbolic register map says it is. */
  ghost predicate RegOK(x: Exe, em: Em, r: nat, val: Val)
    requires |x.m.tgt.stkOffset| == NUM_REGS == |em.regs| && r < NUM_REGS
  {
    if x.m.tgt.IsMachine(r) then em.regs[r].Some? && Holds(x, em, em.regs[r].value, val) else em.regs[r].None?
  }

  /** The activation represents the state of the CFG: hardware registers by the symbolic
      register map, the others by stack slots, variables by the value map. */
  ghost predicate Sim(x: Exe, vMap: VMap, em: Em, st: State) {
    && x.m.tgt.Valid() && |em.regs| == NUM_REGS == |st.regs|
    && Mid(x, em).Some?
    && Mid(x, em).value.mem == st.mem
    && Mid(x, em).value.stk == StackOf(x.m.tgt, st.regs)
    && (forall r :: 0 <= r < NUM_REGS ==> RegOK(x, em, r, st.regs[r]))
    && (forall y :: y in st.env ==> y in vMap && Holds(x, em, vMap[y], st.env[y]))
  }

  // ----- what stays -----

  lemma Keeps(x: Exe, em: Em, em': Em)
    requires |x.m.tgt.stkOffset| == NUM_REGS && Extends(x, em, em')
    ensures Mid(x, em').Some?
    ensures forall v, val :: Holds(x, em, v, val) ==> Holds(x, em', v, val)
  {
  }

  lemma ExtendsTrans(x: Exe, a: Em, b: Em, c: Em)
    requires |x.m.tgt.stkOffset| == NUM_REGS && Extends(x, a, b) && Extends(x, b, c)
    ensures Extends(x, a, c)
    ensures PureExt(x, a, b) && PureExt(x, b, c) ==> PureExt(x, a, c)
  {
  }

  /** A value computed by more code that follows code without effects. */
  lemma YieldsTrans(x: Exe, a: Em, b: Em, r: EV, val: Val)
    requires |x.m.tgt.stkOffset| == NUM_REGS && PureExt(x, a, b) && Yields(x, b, r, val)
    ensures Yields(x, a, r, val)
    ensures forall v, w :: Holds(x, a, v, w) ==> Holds(x, r.em, v, w)
  {
    ExtendsTrans(x, a, b, r.em);
    Keeps(x, a, r.em);
  }

  lemma SimPure(x: Exe, vMap: VMap, em: Em, em': Em, st: State)
    requires Sim(x, vMap, em, st) && PureExt(x, em, em')
    ensures Sim(x, vMap, em', st)
  {
    Keeps(x, em, em');
  }

  /** Executing one more instruction. */
  lemma RunEmit(x: Exe, em: Em, i: Instr, em': Em)
    requires |x.m.tgt.stkOffset| == NUM_REGS && Mid(x, em).Some?
    requires em'.code == em.code + [i]
    requires AllDefined(x.fargs, Mid(x, em).value.env, Uses(i))
    ensures Mid(x, em') == Some(Exec(x.m, x.fargs, i, Mid(x, em).value))
  {
    assert (em.code + [i])[..|em.code|] == em.code;
  }

  lemma EvalHolding(x: Exe, em: Em, vs: seq<Value>, vals: seq<Val>)
    requires |x.m.tgt.stkOffset| == NUM_REGS && HoldAll(x, em, vs, vals) && Mid(x, em).Some?
    ensures AllDefined(x.fargs, Mid(x, em).value.env, vs)
    ensures EvalVs(x.m, x.fargs, Mid(x, em).value.env, vs) == vals
  {
    forall i | 0 <= i < |vs|
      ensures Defined(x.fargs, Mid(x, em).value.env, vs[i])
      ensures EvalV(x.m, x.fargs, Mid(x, em).value.env, vs[i]) == vals[i]
    {
      assert Holds(x, em, vs[i], vals[i]);
    }
  }

  // ----- single instructions -----

  lemma DefOK(x: Exe, em: Em, op: ROp, args: seq<Value>, vals: seq<Val>, ty: Ty)
    requires |x.m.tgt.stkOffset| == NUM_REGS && Mid(x, em).Some? && HoldAll(x, em, args, vals)
    ensures Yields(x, em, Def(em, op, args, ty),
                   Apply(x.m, op, vals, Mid(x, em).value.stk, Mid(x, em).value.mem))
  {
    EvalHolding(x, em, args, vals);
    RunEmit(x, em, Assign(em.next, op, args), Def(em, op, args, ty).em);
  }

  lemma Def1(x: Exe, em: Em, op: ROp, a: Value, aVal: Val, ty: Ty)
    requires |x.m.tgt.stkOffset| == NUM_REGS && Holds(x, em, a, aVal)
    ensures Yields(x, em, Def(em, op, [a], ty), Apply(x.m, op, [aVal], Mid(x, em).value.stk, Mid(x, em).value.mem))
  {
    DefOK(x, em, op, [a], [aVal], ty);
  }

  lemma Def2(x: Exe, em: Em, op: ROp, a: Value, aVal: Val, b: Value, bVal: Val, ty: Ty)
    requires |x.m.tgt.stkOffset| == NUM_REGS && Holds(x, em, a, aVal) && Holds(x, em, b, bVal)
    ensures Yields(x, em, Def(em, op, [a, b], ty),
                   Apply(x.m, op, [aVal, bVal], Mid(x, em).value.stk, Mid(x, em).value.mem))
  {
    DefOK(x, em, op, [a, b], [aVal, bVal], ty);
  }

  lemma YieldsSelf(x: Exe, em: Em, v: Value, val: Val)
    requires |x.m.tgt.stkOffset| == NUM_REGS && Holds(x, em, v, val)
    ensures Yields(x, em, EV(em, v), val)
  {
  }

  lemma CastOK(x: Exe, em: Em, v: Value, val: Val, ty: Ty, sz: nat)
    requires |x.m.tgt.stkOffset| == NUM_REGS && Holds(x, em, v, val)
    ensures Yields(x, em, AsPtr(em, v), val)
    ensures Yields(x, em, AsInt(em, v, sz), val)
    ensures Yields(x, em, CastTo(em, v, ty), val)
    ensures Yields(x, em, AsFn(em, v), val)
  {
    hide Holds, PureExt, Def, Castable, Yields;
    YieldsSelf(x, em, v, val);
    Def1(x, em, RefusedOp, v, val, v.TyOf());
    Def1(x, em, CastOp, v, val, PTR);
    Def1(x, em, CastOp, v, val, INT(sz));
    Def1(x, em, CastOp, v, val, ty);
  }

  lemma GepOK(x: Exe, em: Em, scale: nat, base: Value, b: Val, idx: Value, i: Val)
    requires |x.m.tgt.stkOffset| == NUM_REGS && Holds(x, em, base, b) && Holds(x, em, idx, i)
    ensures Yields(x, em, Gep(em, scale, base, idx), Index(x.m.tgt, b, scale, i))
    ensures Yields(x, em, GepTyped(em, scale, base, idx), Index(x.m.tgt, b, scale, i))
  {
    Def2(x, em, GepOp(scale), base, b, idx, i, PTR);
    var p := AsPtr(em, base);
    CastOK(x, em, base, b, PTR, 0);
    Keeps(x, em, p.em);
    Def2(x, p.em, GepOp(scale), p.v, b, idx, i, PTR);
    ExtendsTrans(x, em, p.em, Gep(p.em, scale, p.v, idx).em);
  }

  lemma ConstHolds(x: Exe, em: Em, n: Val, ty: Ty)
    requires |x.m.tgt.stkOffset| == NUM_REGS && Mid(x, em).Some?
    ensures Holds(x, em, Const(n, ty), n)
  {
  }

  lemma ArgHolds(x: Exe, em: Em, vs: seq<Value>, vals: seq<Val>, i: nat)
    requires |x.m.tgt.stkOffset| == NUM_REGS && Mid(x, em).Some? && HoldAll(x, em, vs, vals)
    ensures Holds(x, em, ArgV(vs, i), Arg(vals, i))
  {
  }

  /** Emitting a load after the code that computes its address. */
  lemma LoadOK(x: Exe, em: Em, a: EV, adr: Val, ty: Ty)
    requires |x.m.tgt.stkOffset| == NUM_REGS && Yields(x, em, a, adr)
    ensures Yields(x, em, Load(a.em, a.v, ty), Read(Mid(x, em).value.mem, adr))
  {
    Def1(x, a.em, LoadOp, a.v, adr, ty);
    ExtendsTrans(x, em, a.em, Load(a.em, a.v, ty).em);
  }

  /** The address of an element, with pointer and index converted first. */
  function ElementCode(tgt: Target, em: Em, vs: seq<Value>): EV {
    var p := AsPtr(em, ArgV(vs, 0));
    var i := AsInt(p.em, ArgV(vs, 1), Native(tgt));
    Gep(i.em, tgt.wordSz, p.v, i.v)
  }

  lemma ElementOK(x: Exe, em: Em, vs: seq<Value>, vals: seq<Val>)
    requires |x.m.tgt.stkOffset| == NUM_REGS && Mid(x, em).Some? && HoldAll(x, em, vs, vals)
    ensures Yields(x, em, ElementCode(x.m.tgt, em, vs), Index(x.m.tgt, Arg(vals, 0), x.m.tgt.wordSz, Arg(vals, 1)))
  {
    ArgHolds(x, em, vs, vals, 0);
    ArgHolds(x, em, vs, vals, 1);
    var p := AsPtr(em, ArgV(vs, 0));
    CastOK(x, em, ArgV(vs, 0), Arg(vals, 0), PTR, 0);
    Keeps(x, em, p.em);
    var i := AsInt(p.em, ArgV(vs, 1), Native(x.m.tgt));
    CastOK(x, p.em, ArgV(vs, 1), Arg(vals, 1), PTR, Native(x.m.tgt));
    Keeps(x, p.em, i.em);
    GepOK(x, i.em, x.m.tgt.wordSz, p.v, Arg(vals, 0), i.v, Arg(vals, 1));
    ExtendsTrans(x, em, p.em, i.em);
    ExtendsTrans(x, em, i.em, ElementCode(x.m.tgt, em, vs).em);
  }

  // ----- registers -----

  /** Reading a register gives its current value, wherever it lives. */
  lemma MlRegOK(x: Exe, vMap: VMap, em: Em, st: State, r: nat)
    requires Sim(x, vMap, em, st) && r < NUM_REGS
    ensures Yields(x, em, MlReg(x.m.tgt, em, r), st.regs[r])
  {
    assert RegOK(x, em, r, st.regs[r]);
    if !x.m.tgt.IsMachine(r) {
      DefOK(x, em, StackOp(x.m.tgt.stkOffset[r]), [], [], PTR);
      StackSlot(x.m.tgt, st.regs, r);
    }
  }

  /** Assigning a register changes that register and nothing else. */
  lemma SetMLRegOK(x: Exe, vMap: VMap, em: Em, st: State, r: nat, v: Value, val: Val)
    requires Sim(x, vMap, em, st) && r < NUM_REGS && Holds(x, em, v, val)
    ensures Extends(x, em, SetMLReg(x.m.tgt, em, r, v))
    ensures Sim(x, vMap, SetMLReg(x.m.tgt, em, r, v), st.(regs := st.regs[r := val]))
  {
    var em' := SetMLReg(x.m.tgt, em, r, v);
    assert RegOK(x, em, r, st.regs[r]);
    if x.m.tgt.IsMachine(r) {
      StackHw(x.m.tgt, st.regs, r, val);
    } else {
      RunEmit(x, em, StoreStack(v, x.m.tgt.stkOffset[r]), em');
      StackStore(x.m.tgt, st.regs, r, val);
    }
    Keeps(x, em, em');
    var regs' := st.regs[r := val];
    forall q | 0 <= q < NUM_REGS
      ensures RegOK(x, em', q, regs'[q])
    {
      assert RegOK(x, em, q, st.regs[q]);
    }
  }

  lemma StoreOK(x: Exe, vMap: VMap, em: Em, st: State, v: Value, val: Val, a: Value, adr: Val)
    requires Sim(x, vMap, em, st) && Holds(x, em, v, val) && Holds(x, em, a, adr)
    ensures Extends(x, em, Emit(em, Store(v, a)))
    ensures Sim(x, vMap, Emit(em, Store(v, a)), st.(mem := st.mem[adr := val]))
  {
    var em' := Emit(em, Store(v, a));
    RunEmit(x, em, Store(v, a), em');
    Keeps(x, em, em');
    forall r | 0 <= r < NUM_REGS
      ensures RegOK(x, em', r, st.regs[r])
    {
      assert RegOK(x, em, r, st.regs[r]);
    }
  }

  lemma StoreMLOK(x: Exe, vMap: VMap, em: Em, st: State, v: Value, val: Val, a: Value, adr: Val)
    requires Sim(x, vMap, em, st) && Holds(x, em, v, val) && Holds(x, em, a, adr)
    ensures Extends(x, em, StoreML(em, v, a))
    ensures Sim(x, vMap, StoreML(em, v, a), st.(mem := st.mem[adr := val]))
  {
    var v' := AsPtr(em, v);
    CastOK(x, em, v, val, PTR, 0);
    Keeps(x, em, v'.em);
    var a' := AsPtr(v'.em, a);
    CastOK(x, v'.em, a, adr, PTR, 0);
    Keeps(x, v'.em, a'.em);
    ExtendsTrans(x, em, v'.em, a'.em);
    SimPure(x, vMap, em, a'.em, st);
    StoreOK(x, vMap, a'.em, st, v'.v, val, a'.v, adr);
    ExtendsTrans(x, em, a'.em, StoreML(em, v, a));
  }

  // ----- expressions -----

  lemma GenLookerOK(x: Exe, vMap: VMap, em: Em, st: State, looker: Looker, vs: seq<Value>, vals: seq<Val>)
    requires Sim(x, vMap, em, st) && HoldAll(x, em, vs, vals)
    ensures Yields(x, em, GenLooker(x.m.tgt, em, looker, vs), Look(x.m, looker, vals, st))
  {
    ArgHolds(x, em, vs, vals, 0);
    ArgHolds(x, em, vs, vals, 1);
    match looker
    case DEREF =>
      CastOK(x, em, ArgV(vs, 0), Arg(vals, 0), PTR, 0);
      LoadOK(x, em, AsPtr(em, ArgV(vs, 0)), Arg(vals, 0), PTR);
    case SUBSCRIPT =>
      ElementOK(x, em, vs, vals);
      LoadOK(x, em, ElementCode(x.m.tgt, em, vs), Index(x.m.tgt, Arg(vals, 0), x.m.tgt.wordSz, Arg(vals, 1)), PTR);
    case RAW_LOAD(ty) =>
      GepOK(x, em, 1, ArgV(vs, 0), Arg(vals, 0), ArgV(vs, 1), Arg(vals, 1));
      LoadOK(x, em, GepTyped(em, 1, ArgV(vs, 0), ArgV(vs, 1)), Index(x.m.tgt, Arg(vals, 0), 1, Arg(vals, 1)), ty);
    case RAW_SUBSCRIPT(ty) =>
      var sz := SizeOf(x.m.tgt, ty);
      GepOK(x, em, sz, ArgV(vs, 0), Arg(vals, 0), ArgV(vs, 1), Arg(vals, 1));
      LoadOK(x, em, GepTyped(em, sz, ArgV(vs, 0), ArgV(vs, 1)), Index(x.m.tgt, Arg(vals, 0), sz, Arg(vals, 1)), ty);
    case GET_HDLR => MlRegOK(x, vMap, em, st, EXN_HNDLR);
    case GET_VAR => MlRegOK(x, vMap, em, st, VAR_PTR);
  }

  /** Appending one more value that was computed after the others. */
  lemma AppendOK(x: Exe, em: Em, r: EVs, vals: seq<Val>, c: EV, val: Val)
    requires |x.m.tgt.stkOffset| == NUM_REGS && YieldAll(x, em, r, vals) && Yields(x, r.em, c, val)
    ensures YieldAll(x, em, EVs(c.em, r.vs + [c.v]), vals + [val])
  {
    Keeps(x, r.em, c.em);
    ExtendsTrans(x, em, r.em, c.em);
  }

  lemma NoneYielded(x: Exe, em: Em)
    requires |x.m.tgt.stkOffset| == NUM_REGS && Mid(x, em).Some?
    ensures YieldAll(x, em, EVs(em, []), [])
  {
  }

  lemma NoVals(x: Exe, em: Em, vals: seq<Val>)
    requires |x.m.tgt.stkOffset| == NUM_REGS && HoldAll(x, em, [], vals)
    ensures vals == []
  {
  }

  lemma HoldSplit(x: Exe, em: Em, vs: seq<Value>, vals: seq<Val>)
    requires |x.m.tgt.stkOffset| == NUM_REGS && HoldAll(x, em, vs, vals) && vs != []
    ensures |vs| == |vals|
    ensures var n := |vs| - 1;
            && HoldAll(x, em, vs[..n], vals[..n]) && Holds(x, em, vs[n], vals[n])
            && vs == vs[..n] + [vs[n]] && vals == vals[..n] + [vals[n]]
  {
    hide Holds;
  }

  /** A value that was known before is known still. */
  lemma HoldsStill(x: Exe, em: Em, r: EVs, vals: seq<Val>, v: Value, val: Val)
    requires |x.m.tgt.stkOffset| == NUM_REGS && YieldAll(x, em, r, vals) && Holds(x, em, v, val)
    ensures Holds(x, r.em, v, val)
  {
    hide Holds;
    Keeps(x, em, r.em);
  }

  lemma {:induction false} AsIntsOK(x: Exe, em: Em, vs: seq<Value>, vals: seq<Val>, sz: nat)
    requires |x.m.tgt.stkOffset| == NUM_REGS && Mid(x, em).Some? && HoldAll(x, em, vs, vals)
    ensures YieldAll(x, em, AsInts(em, vs, sz), vals)
  {
    if vs == [] {
      NoneYielded(x, em);
      NoVals(x, em, vals);
    } else {
      hide HoldAll, YieldAll, Holds, Yields, AsInt, Mid;
      var n := |vs| - 1;
      HoldSplit(x, em, vs, vals);
      AsIntsOK(x, em, vs[..n], vals[..n], sz);
      var r := AsInts(em, vs[..n], sz);
      HoldsStill(x, em, r, vals[..n], vs[n], vals[n]);
      CastOK(x, r.em, vs[n], vals[n], PTR, sz);
      AppendOK(x, em, r, vals[..n], AsInt(r.em, vs[n], sz), vals[n]);
    }
  }

  lemma {:induction false} CastAllOK(x: Exe, em: Em, vs: seq<Value>, vals: seq<Val>, tys: seq<Ty>)
    requires |x.m.tgt.stkOffset| == NUM_REGS && Mid(x, em).Some? && HoldAll(x, em, vs, vals) && |vs| <= |tys|
    ensures YieldAll(x, em, CastAll(em, vs, tys), vals)
  {
    if vs == [] {
      NoneYielded(x, em);
      NoVals(x, em, vals);
    } else {
      hide HoldAll, YieldAll, Holds, Yields, CastTo, Mid;
      var n := |vs| - 1;
      HoldSplit(x, em, vs, vals);
      CastAllOK(x, em, vs[..n], vals[..n], tys);
      var r := CastAll(em, vs[..n], tys);
      HoldsStill(x, em, r, vals[..n], vs[n], vals[n]);
      CastOK(x, r.em, vs[n], vals[n], tys[n], 0);
      AppendOK(x, em, r, vals[..n], CastTo(r.em, vs[n], tys[n]), vals[n]);
    }
  }

  lemma GenPureOK(x: Exe, em: Em, pure: Pure, vs: seq<Value>, vals: seq<Val>)
    requires |x.m.tgt.stkOffset| == NUM_REGS && Mid(x, em).Some? && HoldAll(x, em, vs, vals)
    ensures Yields(x, em, GenPure(x.m.tgt, em, pure, vs), Compute(x.m, pure, vals, Mid(x, em).value.mem))
  {
    ArgHolds(x, em, vs, vals, 0);
    ArgHolds(x, em, vs, vals, 1);
    match pure
    case PURE_ARITH(code, intSz, ty) =>
      var a := if intSz.Some? then AsInts(em, vs, intSz.value) else EVs(em, vs);
      if intSz.Some? {
        AsIntsOK(x, em, vs, vals, intSz.value);
      }
      DefOK(x, a.em, PureOp(code), a.vs, vals, ty);
      ExtendsTrans(x, em, a.em, Def(a.em, PureOp(code), a.vs, ty).em);
    case PURE_SUBSCRIPT =>
      ElementOK(x, em, vs, vals);
      LoadOK(x, em, ElementCode(x.m.tgt, em, vs), Index(x.m.tgt, Arg(vals, 0), x.m.tgt.wordSz, Arg(vals, 1)), PTR);
    case PURE_RAW_SUBSCRIPT(ty) =>
      var sz := SizeOf(x.m.tgt, ty);
      GepOK(x, em, sz, ArgV(vs, 0), Arg(vals, 0), ArgV(vs, 1), Arg(vals, 1));
      LoadOK(x, em, GepTyped(em, sz, ArgV(vs, 0), ArgV(vs, 1)), Index(x.m.tgt, Arg(vals, 0), sz, Arg(vals, 1)), ty);
    case RAW_SELECT(offset, ty) =>
      var o := IntConst(x.m.tgt, offset);
      ConstHolds(x, em, offset, INT(Native(x.m.tgt)));
      GepOK(x, em, 1, ArgV(vs, 0), Arg(vals, 0), o, offset);
      LoadOK(x, em, GepTyped(em, 1, ArgV(vs, 0), o), Index(x.m.tgt, Arg(vals, 0), 1, offset), ty);
  }

  /** Generated expressions have the value of the expression, and change no state. */
  lemma {:induction false} GenExpOK(x: Exe, vMap: VMap, em: Em, st: State, fns: Fns, e: Exp)
    requires Sim(x, vMap, em, st) && Scoped(fns, e, st.env.Keys)
    ensures Yields(x, em, GenExp(x.m.tgt, vMap, em, e), Eval(x.m, e, st))
    decreases e
  {
    match e
    case VAR(y) =>
    case LABEL(lab) =>
    case NUM(n, sz) =>
    case LOOKER(looker, args) =>
      GenExpsOK(x, vMap, em, st, fns, args);
      var a := GenExps(x.m.tgt, vMap, em, args);
      SimPure(x, vMap, em, a.em, st);
      GenLookerOK(x, vMap, a.em, st, looker, a.vs, EvalAll(x.m, args, st));
      ExtendsTrans(x, em, a.em, GenExp(x.m.tgt, vMap, em, e).em);
    case PURE(pure, args) =>
      GenExpsOK(x, vMap, em, st, fns, args);
      var a := GenExps(x.m.tgt, vMap, em, args);
      GenPureOK(x, a.em, pure, a.vs, EvalAll(x.m, args, st));
      ExtendsTrans(x, em, a.em, GenExp(x.m.tgt, vMap, em, e).em);
    case SELECT(idx, arg) =>
      GenExpOK(x, vMap, em, st, fns, arg);
      var b, val := GenExp(x.m.tgt, vMap, em, arg), Eval(x.m, arg, st);
      SelectOK(x, b.em, b.v, val, idx);
      ExtendsTrans(x, em, b.em, GenExp(x.m.tgt, vMap, em, e).em);
  }

  lemma SelectOK(x: Exe, em: Em, v: Value, val: Val, idx: nat)
    requires |x.m.tgt.stkOffset| == NUM_REGS && Holds(x, em, v, val)
    ensures var p := AsPtr(em, v);
            var a := Gep(p.em, x.m.tgt.wordSz, p.v, Const(idx, INT(32)));
            Yields(x, em, Load(a.em, a.v, PTR), Read(Mid(x, em).value.mem, Index(x.m.tgt, val, x.m.tgt.wordSz, idx)))
  {
    var p := AsPtr(em, v);
    CastOK(x, em, v, val, PTR, 0);
    ConstHolds(x, p.em, idx, INT(32));
    var a := Gep(p.em, x.m.tgt.wordSz, p.v, Const(idx, INT(32)));
    GepOK(x, p.em, x.m.tgt.wordSz, p.v, val, Const(idx, INT(32)), idx);
    ExtendsTrans(x, em, p.em, a.em);
    LoadOK(x, em, a, Index(x.m.tgt, val, x.m.tgt.wordSz, idx), PTR);
  }

  lemma {:induction false} GenExpsOK(x: Exe, vMap: VMap, em: Em, st: State, fns: Fns, es: seq<Exp>)
    requires Sim(x, vMap, em, st) && ScopedAll(fns, es, st.env.Keys)
    ensures YieldAll(x, em, GenExps(x.m.tgt, vMap, em, es), EvalAll(x.m, es, st))
    decreases es
  {
    if es != [] {
      var n := |es| - 1;
      GenExpsOK(x, vMap, em, st, fns, es[..n]);
      var r := GenExps(x.m.tgt, vMap, em, es[..n]);
      SimPure(x, vMap, em, r.em, st);
      GenExpOK(x, vMap, r.em, st, fns, es[n]);
      AppendOK(x, em, r, EvalAll(x.m, es[..n], st), GenExp(x.m.tgt, vMap, r.em, es[n]), Eval(x.m, es[n], st));
    }
  }

  lemma {:induction false} GenCastExpsOK(x: Exe, vMap: VMap, em: Em, st: State, fns: Fns, es: seq<Exp>, tys: seq<Ty>)
    requires Sim(x, vMap, em, st) && ScopedAll(fns, es, st.env.Keys) && |es| <= |tys|
    ensures YieldAll(x, em, GenCastExps(x.m.tgt, vMap, em, es, tys), EvalAll(x.m, es, st))
  {
    if es != [] {
      var n := |es| - 1;
      GenCastExpsOK(x, vMap, em, st, fns, es[..n], tys);
      var r := GenCastExps(x.m.tgt, vMap, em, es[..n], tys);
      SimPure(x, vMap, em, r.em, st);
      GenExpOK(x, vMap, r.em, st, fns, es[n]);
      var e, val := GenExp(x.m.tgt, vMap, r.em, es[n]), Eval(x.m, es[n], st);
      CastOK(x, e.em, e.v, val, tys[n], 0);
      ExtendsTrans(x, r.em, e.em, CastTo(e.em, e.v, tys[n]).em);
      AppendOK(x, em, r, EvalAll(x.m, es[..n], st), CastTo(e.em, e.v, tys[n]), val);
    }
  }

  lemma {:induction false} GenRootsOK(x: Exe, vMap: VMap, em: Em, st: State, fns: Fns, es: seq<Exp>)
    requires Sim(x, vMap, em, st) && ScopedAll(fns, es, st.env.Keys)
    ensures YieldAll(x, em, GenRoots(x.m.tgt, vMap, em, es), EvalAll(x.m, es, st))
  {
    if es != [] {
      var n := |es| - 1;
      GenRootsOK(x, vMap, em, st, fns, es[..n]);
      var r := GenRoots(x.m.tgt, vMap, em, es[..n]);
      SimPure(x, vMap, em, r.em, st);
      GenExpOK(x, vMap, r.em, st, fns, es[n]);
      var e, val := GenExp(x.m.tgt, vMap, r.em, es[n]), Eval(x.m, es[n], st);
      CastOK(x, e.em, e.v, val, PTR, 0);
      ExtendsTrans(x, r.em, e.em, AsPtr(e.em, e.v).em);
      AppendOK(x, em, r, EvalAll(x.m, es[..n], st), AsPtr(e.em, e.v), val);
    }
  }
}
