/** What every piece of straight-line code keeps: it uses only temporaries that are known, it sets only new
    ones, each once, and it marks exactly the conversions that are refused. */
module Emission {
  import opened Machine
  import opened CFG
  import opened IR
  import opened Codegen
  import opened ValueTypes

  /** The block under construction: the temporaries that are known at its start, and a bound below which
      it sets none. Where only conversions matter, temporaries are not tracked. */
  datatype Blk = Blk(tgt: Target, track: bool, avail: set<nat>, lo: nat)

  function Range(lo: nat, n: nat): (ids: set<nat>)
    ensures forall id :: id in ids <==> lo <= id < lo + n
  {
    if n == 0 then {} else Range(lo, n - 1) + {lo + n - 1}
  }

  /** The temporaries that an instruction sets. */
  function Defs(tgt: Target, i: Instr): set<nat>
    requires |tgt.stkOffset| == NUM_REGS
  {
    match i
    case Assign(dst, _, _) => {dst}
    case ArithWO(dst, _, _) => {dst, dst + 1}
    case CallGC(dst, n, _) => Range(dst, |tgt.Hw()| + n)
    case Store(_, _) => {}
    case StoreStack(_, _) => {}
  }

  function DefSet(tgt: Target, code: seq<Instr>): set<nat>
    requires |tgt.stkOffset| == NUM_REGS
  {
    if code == [] then {} else DefSet(tgt, code[..|code| - 1]) + Defs(tgt, code[|code| - 1])
  }

  predicate Known(v: Value, live: set<nat>) {
    v.Temp? ==> v.id in live
  }

  predicate AllKnown(vs: seq<Value>, live: set<nat>) {
    forall i :: 0 <= i < |vs| ==> Known(vs[i], live)
  }

  /** The code uses what is known, and sets temporaries below hi in ascending order. */
  predicate Ordered(b: Blk, code: seq<Instr>, hi: nat)
    requires |b.tgt.stkOffset| == NUM_REGS
  {
    if code == [] then b.lo <= hi
    else
      var c, i := code[..|code| - 1], code[|code| - 1];
      && AllKnown(Uses(i), b.avail + DefSet(b.tgt, c))
      && match i
         case Assign(dst, _, _) => dst < hi && Ordered(b, c, dst)
         case ArithWO(dst, _, _) => dst + 2 <= hi && Ordered(b, c, dst)
         case CallGC(dst, n, _) => dst + |b.tgt.Hw()| + n <= hi && Ordered(b, c, dst)
         case Store(_, _) => Ordered(b, c, hi)
         case StoreStack(_, _) => Ordered(b, c, hi)
  }

  predicate Refuses(i: Instr) {
    i.Assign? && i.op == RefusedOp
  }

  /** No conversion was refused. */
  predicate Clean(code: seq<Instr>) {
    forall k :: 0 <= k < |code| ==> !Refuses(code[k])
  }

  predicate OK(b: Blk, em: Em)
    requires |b.tgt.stkOffset| == NUM_REGS
  {
    b.track ==> Ordered(b, em.code, em.next)
  }

  function Live(b: Blk, em: Em): set<nat>
    requires |b.tgt.stkOffset| == NUM_REGS
  {
    b.avail + DefSet(b.tgt, em.code)
  }

  predicate Has(b: Blk, em: Em, v: Value)
    requires |b.tgt.stkOffset| == NUM_REGS
  {
    b.track ==> Known(v, Live(b, em))
  }

  predicate HasAll(b: Blk, em: Em, vs: seq<Value>)
    requires |b.tgt.stkOffset| == NUM_REGS
  {
    forall i :: 0 <= i < |vs| ==> Has(b, em, vs[i])
  }

  predicate HasRegs(b: Blk, em: Em)
    requires |b.tgt.stkOffset| == NUM_REGS
  {
    forall r :: 0 <= r < |em.regs| && em.regs[r].Some? ==> Has(b, em, em.regs[r].value)
  }

  predicate HasVars(b: Blk, em: Em, vMap: VMap)
    requires |b.tgt.stkOffset| == NUM_REGS
  {
    forall x :: x in vMap ==> Has(b, em, vMap[x])
  }

  /** Everything that the generator may refer to is known. */
  predicate Knows(b: Blk, vMap: VMap, em: Em)
    requires |b.tgt.stkOffset| == NUM_REGS
  {
    |em.regs| == NUM_REGS && HasRegs(b, em) && HasVars(b, em, vMap)
  }

  /** From em to em', code was added in which no conversion is refused if and only if fits. */
  ghost predicate Goes(b: Blk, em: Em, em': Em, fits: bool)
    requires |b.tgt.stkOffset| == NUM_REGS
  {
    && (OK(b, em) ==> OK(b, em')) && (b.track ==> Live(b, em) <= Live(b, em')) && em.next <= em'.next
    && Clean(em'.code) == (Clean(em.code) && fits)
  }

  lemma GoesRefl(b: Blk, em: Em)
    requires |b.tgt.stkOffset| == NUM_REGS
    ensures Goes(b, em, em, true)
  {
  }

  lemma GoesTrans(b: Blk, em: Em, em1: Em, em2: Em, fits1: bool, fits2: bool)
    requires |b.tgt.stkOffset| == NUM_REGS && Goes(b, em, em1, fits1) && Goes(b, em1, em2, fits2)
    ensures Goes(b, em, em2, fits1 && fits2)
  {
  }

  /** Changing registers is no code. */
  lemma SameCode(b: Blk, em: Em, regs: seq<Option<Value>>)
    requires |b.tgt.stkOffset| == NUM_REGS
    ensures Goes(b, em, em.(regs := regs), true)
  {
  }

  lemma HasStays(b: Blk, em: Em, em': Em, fits: bool, vs: seq<Value>)
    requires |b.tgt.stkOffset| == NUM_REGS && Goes(b, em, em', fits) && HasAll(b, em, vs)
    ensures HasAll(b, em', vs)
  {
    hide Live;
  }

  lemma RegsStay(b: Blk, em: Em, em': Em, fits: bool)
    requires |b.tgt.stkOffset| == NUM_REGS && Goes(b, em, em', fits) && HasRegs(b, em) && em'.regs == em.regs
    ensures HasRegs(b, em')
  {
    hide Live;
  }

  lemma KnowsStay(b: Blk, vMap: VMap, em: Em, em': Em, fits: bool)
    requires |b.tgt.stkOffset| == NUM_REGS && Goes(b, em, em', fits) && Knows(b, vMap, em) && em'.regs == em.regs
    ensures Knows(b, vMap, em')
  {
    hide Live;
  }

  /** If only registers change otherwise, variables stay known. */
  lemma VarsStay(b: Blk, vMap: VMap, em: Em, em': Em, fits: bool)
    requires |b.tgt.stkOffset| == NUM_REGS && Goes(b, em, em', fits) && Knows(b, vMap, em)
    requires |em'.regs| == NUM_REGS && HasRegs(b, em')
    ensures Knows(b, vMap, em')
  {
    hide Live;
  }

  lemma HasAppend(b: Blk, em: Em, vs: seq<Value>, v: Value)
    requires |b.tgt.stkOffset| == NUM_REGS && HasAll(b, em, vs) && Has(b, em, v)
    ensures HasAll(b, em, vs + [v])
  {
  }

  lemma HasInit(b: Blk, em: Em, vs: seq<Value>)
    requires |b.tgt.stkOffset| == NUM_REGS && HasAll(b, em, vs) && vs != []
    ensures HasAll(b, em, vs[..|vs| - 1]) && Has(b, em, vs[|vs| - 1])
  {
  }

  lemma ConstHas(b: Blk, em: Em, n: Val, ty: Ty)
    requires |b.tgt.stkOffset| == NUM_REGS
    ensures Has(b, em, Const(n, ty))
  {
  }

  // ----- single instructions -----

  lemma AppendCode(b: Blk, code: seq<Instr>, i: Instr)
    requires |b.tgt.stkOffset| == NUM_REGS
    ensures (code + [i])[..|code|] == code && (code + [i])[|code|] == i
    ensures DefSet(b.tgt, code + [i]) == DefSet(b.tgt, code) + Defs(b.tgt, i)
    ensures Clean(code + [i]) == (Clean(code) && !Refuses(i))
  {
    assert (code + [i])[..|code|] == code;
    if Clean(code + [i]) {
      assert (code + [i])[|code|] == i;
      forall k | 0 <= k < |code|
        ensures !Refuses(code[k])
      {
        assert (code + [i])[k] == code[k];
      }
    }
  }

  lemma AllHad(b: Blk, em: Em, vs: seq<Value>)
    requires |b.tgt.stkOffset| == NUM_REGS && HasAll(b, em, vs) && b.track
    ensures AllKnown(vs, Live(b, em))
  {
    hide Live;
    forall i | 0 <= i < |vs|
      ensures Known(vs[i], Live(b, em))
    {
      assert Has(b, em, vs[i]);
    }
  }

  lemma DefGoes(b: Blk, em: Em, op: ROp, args: seq<Value>, ty: Ty)
    requires |b.tgt.stkOffset| == NUM_REGS && HasAll(b, em, args)
    ensures var r := Def(em, op, args, ty);
            Goes(b, em, r.em, op != RefusedOp) && Has(b, r.em, r.v) && r.em.regs == em.regs
  {
    hide DefSet, Clean;
    AppendCode(b, em.code, Assign(em.next, op, args));
    if b.track {
      AllHad(b, em, args);
    }
  }

  lemma EmitGoes(b: Blk, em: Em, i: Instr)
    requires |b.tgt.stkOffset| == NUM_REGS && HasAll(b, em, Uses(i)) && (i.Store? || i.StoreStack?)
    ensures Goes(b, em, Emit(em, i), true)
  {
    hide DefSet, Clean;
    AppendCode(b, em.code, i);
    if b.track {
      AllHad(b, em, Uses(i));
    }
  }

  lemma ArithGoes(b: Blk, em: Em, code: nat, args: seq<Value>)
    requires |b.tgt.stkOffset| == NUM_REGS && HasAll(b, em, args)
    ensures var em' := Em(em.code + [ArithWO(em.next, code, args)], em.next + 2, em.regs);
            Goes(b, em, em', true) && (b.track ==> em.next in Live(b, em') && em.next + 1 in Live(b, em'))
  {
    hide DefSet, Clean;
    AppendCode(b, em.code, ArithWO(em.next, code, args));
    if b.track {
      AllHad(b, em, args);
    }
  }

  lemma CallGoes(b: Blk, em: Em, n: nat, args: seq<Value>)
    requires |b.tgt.stkOffset| == NUM_REGS && HasAll(b, em, args)
    ensures var em' := Emit(em, CallGC(em.next, n, args)).(next := em.next + |b.tgt.Hw()| + n);
            && Goes(b, em, em', true)
            && (b.track ==> forall id :: em.next <= id < em'.next ==> id in Live(b, em'))
  {
    hide DefSet, Clean;
    AppendCode(b, em.code, CallGC(em.next, n, args));
    if b.track {
      AllHad(b, em, args);
    }
  }

  lemma ConvertGoes(b: Blk, em: Em, v: Value, ty: Ty)
    requires |b.tgt.stkOffset| == NUM_REGS && Has(b, em, v)
    ensures var r := Convert(em, v, ty);
            && Goes(b, em, r.em, Castable(v.TyOf(), LLTy(ty))) && Has(b, r.em, r.v) && r.em.regs == em.regs
            && r.v.TyOf() == if Castable(v.TyOf(), LLTy(ty)) then LLTy(ty) else v.TyOf()
  {
    hide Goes, Has;
    DefGoes(b, em, CastOp, [v], ty);
    DefGoes(b, em, RefusedOp, [v], v.TyOf());
    SameTy(v);
  }

  /** Types of values have only the sizes that LLVM is asked for. */
  lemma SameTy(v: Value)
    ensures LLTy(v.TyOf()) == v.TyOf()
  {
  }

  /** What becomes of a pointer, an integer or a call's argument. */
  lemma CastGoes(b: Blk, em: Em, v: Value, ty: Ty, sz: nat)
    requires |b.tgt.stkOffset| == NUM_REGS && Has(b, em, v)
    ensures var r := AsPtr(em, v); Goes(b, em, r.em, Points(v.TyOf())) && Has(b, r.em, r.v) && r.em.regs == em.regs
    ensures var r := AsInt(em, v, sz); Goes(b, em, r.em, true) && Has(b, r.em, r.v) && r.em.regs == em.regs
    ensures var r := CastTo(em, v, ty);
            && Goes(b, em, r.em, Castable(v.TyOf(), LLTy(ty))) && Has(b, r.em, r.v) && r.em.regs == em.regs
            && (r.v.TyOf() == LLTy(ty) <==> Castable(v.TyOf(), LLTy(ty)))
    ensures var r := AsFn(em, v); Goes(b, em, r.em, v.TyOf() == PTR) && Has(b, r.em, r.v) && r.em.regs == em.regs
    ensures AsPtr(em, v).v.TyOf() == if Points(v.TyOf()) then PTR else v.TyOf()
  {
    hide Goes, Has;
    GoesRefl(b, em);
    ConvertGoes(b, em, v, PTR);
    ConvertGoes(b, em, v, ty);
    DefGoes(b, em, CastOp, [v], INT(sz));
    DefGoes(b, em, RefusedOp, [v], v.TyOf());
  }

  lemma GepGoes(b: Blk, em: Em, scale: nat, base: Value, idx: Value)
    requires |b.tgt.stkOffset| == NUM_REGS && Has(b, em, base) && Has(b, em, idx)
    ensures var r := Gep(em, scale, base, idx); Goes(b, em, r.em, true) && Has(b, r.em, r.v) && r.em.regs == em.regs
    ensures var r := GepTyped(em, scale, base, idx);
            Goes(b, em, r.em, Points(base.TyOf())) && Has(b, r.em, r.v) && r.em.regs == em.regs
  {
    hide OK, Live, Clean;
    DefGoes(b, em, GepOp(scale), [base, idx], PTR);
    CastGoes(b, em, base, PTR, 0);
    var p := AsPtr(em, base);
    DefGoes(b, p.em, GepOp(scale), [p.v, idx], PTR);
  }

  lemma LoadGoes(b: Blk, em: Em, addr: Value, ty: Ty)
    requires |b.tgt.stkOffset| == NUM_REGS && Has(b, em, addr)
    ensures var r := Load(em, addr, ty); Goes(b, em, r.em, true) && Has(b, r.em, r.v) && r.em.regs == em.regs
  {
    DefGoes(b, em, LoadOp, [addr], ty);
  }

  lemma StoreMLGoes(b: Blk, em: Em, v: Value, addr: Value)
    requires |b.tgt.stkOffset| == NUM_REGS && Has(b, em, v) && Has(b, em, addr)
    ensures Goes(b, em, StoreML(em, v, addr), Points(v.TyOf()) && Points(addr.TyOf()))
    ensures StoreML(em, v, addr).regs == em.regs
  {
    hide OK, Live, Clean;
    var v' := AsPtr(em, v);
    CastGoes(b, em, v, PTR, 0);
    var a := AsPtr(v'.em, addr);
    CastGoes(b, v'.em, addr, PTR, 0);
    EmitGoes(b, a.em, Store(v'.v, a.v));
  }

  // ----- registers -----

  lemma MlRegGoes(b: Blk, em: Em, r: nat)
    requires |b.tgt.stkOffset| == NUM_REGS == |em.regs| && r < NUM_REGS && HasRegs(b, em)
    ensures var v := MlReg(b.tgt, em, r);
            && Goes(b, em, v.em, true) && Has(b, v.em, v.v) && v.em.regs == em.regs
            && v.v.TyOf() == RegTy(RegTys(em.regs)[r])
  {
    hide OK, Live, Clean;
    DefGoes(b, em, StackOp(b.tgt.stkOffset[r]), [], PTR);
  }

  lemma SetRegGoes(b: Blk, em: Em, r: nat, v: Value)
    requires |b.tgt.stkOffset| == NUM_REGS == |em.regs| && r < NUM_REGS && HasRegs(b, em) && Has(b, em, v)
    ensures var em' := SetMLReg(b.tgt, em, r, v); Goes(b, em, em', true) && HasRegs(b, em')
  {
    hide OK, Clean, DefSet;
    if em.regs[r].Some? {
      SameCode(b, em, em.regs[r := Some(v)]);
    } else {
      EmitGoes(b, em, StoreStack(v, b.tgt.stkOffset[r]));
    }
  }

  // ----- expressions -----

  lemma LookerGoes(b: Blk, em: Em, looker: Looker, vs: seq<Value>)
    requires |b.tgt.stkOffset| == NUM_REGS == |em.regs| && HasRegs(b, em) && HasAll(b, em, vs)
    ensures var r := GenLooker(b.tgt, em, looker, vs);
            Goes(b, em, r.em, LookerFits(looker, TysOf(vs))) && Has(b, r.em, r.v)
  {
    hide OK, Live, Clean, RegTys;
    ArgHas(b, em, vs, 0);
    ArgHas(b, em, vs, 1);
    CastGoes(b, em, ArgV(vs, 0), PTR, 0);
    var p := AsPtr(em, ArgV(vs, 0));
    match looker
    case DEREF => LoadGoes(b, p.em, p.v, PTR);
    case SUBSCRIPT => ElementGoes(b, em, ArgV(vs, 0), ArgV(vs, 1), b.tgt.wordSz);
    case RAW_LOAD(ty) => FieldGoes(b, em, 1, ArgV(vs, 0), ArgV(vs, 1), ty);
    case RAW_SUBSCRIPT(ty) => FieldGoes(b, em, SizeOf(b.tgt, ty), ArgV(vs, 0), ArgV(vs, 1), ty);
    case GET_HDLR => MlRegGoes(b, em, EXN_HNDLR);
    case GET_VAR => MlRegGoes(b, em, VAR_PTR);
  }

  lemma ArgHas(b: Blk, em: Em, vs: seq<Value>, i: nat)
    requires |b.tgt.stkOffset| == NUM_REGS && HasAll(b, em, vs)
    ensures Has(b, em, ArgV(vs, i)) && ArgV(vs, i).TyOf() == Nth(TysOf(vs), i)
  {
  }

  lemma ElementGoes(b: Blk, em: Em, base: Value, idx: Value, scale: nat)
    requires |b.tgt.stkOffset| == NUM_REGS && Has(b, em, base) && Has(b, em, idx)
    ensures var p := AsPtr(em, base);
            var i := AsInt(p.em, idx, Native(b.tgt));
            var a := Gep(i.em, scale, p.v, i.v);
            var r := Load(a.em, a.v, PTR);
            Goes(b, em, r.em, Points(base.TyOf())) && Has(b, r.em, r.v)
  {
    hide OK, Live, Clean;
    var p := AsPtr(em, base);
    CastGoes(b, em, base, PTR, 0);
    var i := AsInt(p.em, idx, Native(b.tgt));
    CastGoes(b, p.em, idx, PTR, Native(b.tgt));
    var a := Gep(i.em, scale, p.v, i.v);
    GepGoes(b, i.em, scale, p.v, i.v);
    LoadGoes(b, a.em, a.v, PTR);
  }

  lemma FieldGoes(b: Blk, em: Em, scale: nat, base: Value, idx: Value, ty: Ty)
    requires |b.tgt.stkOffset| == NUM_REGS && Has(b, em, base) && Has(b, em, idx)
    ensures var a := GepTyped(em, scale, base, idx);
            var r := Load(a.em, a.v, ty);
            Goes(b, em, r.em, Points(base.TyOf())) && Has(b, r.em, r.v)
  {
    hide OK, Live, Clean;
    var a := GepTyped(em, scale, base, idx);
    GepGoes(b, em, scale, base, idx);
    LoadGoes(b, a.em, a.v, ty);
  }

  lemma {:induction false} AsIntsGoes(b: Blk, em: Em, vs: seq<Value>, sz: nat)
    requires |b.tgt.stkOffset| == NUM_REGS && HasAll(b, em, vs)
    ensures var r := AsInts(em, vs, sz); Goes(b, em, r.em, true) && HasAll(b, r.em, r.vs)
  {
    hide Goes, Has, AsInt;
    if vs == [] {
      GoesRefl(b, em);
    } else {
      hide HasAll;
      var n := |vs| - 1;
      HasInit(b, em, vs);
      AsIntsGoes(b, em, vs[..n], sz);
      var r := AsInts(em, vs[..n], sz);
      HasStays(b, em, r.em, true, vs);
      HasInit(b, r.em, vs);
      CastGoes(b, r.em, vs[n], PTR, sz);
      var c := AsInt(r.em, vs[n], sz);
      GoesTrans(b, em, r.em, c.em, true, true);
      HasStays(b, r.em, c.em, true, r.vs);
      HasAppend(b, c.em, r.vs, c.v);
    }
  }

  lemma PureGoes(b: Blk, em: Em, pure: Pure, vs: seq<Value>)
    requires |b.tgt.stkOffset| == NUM_REGS && HasAll(b, em, vs)
    ensures var r := GenPure(b.tgt, em, pure, vs);
            Goes(b, em, r.em, PureFits(pure, TysOf(vs))) && Has(b, r.em, r.v)
  {
    hide OK, Live, Clean, AsInts;
    ArgHas(b, em, vs, 0);
    ArgHas(b, em, vs, 1);
    match pure
    case PURE_ARITH(code, intSz, ty) =>
      if intSz.Some? {
        AsIntsGoes(b, em, vs, intSz.value);
        var a := AsInts(em, vs, intSz.value);
        DefGoes(b, a.em, PureOp(code), a.vs, ty);
      } else {
        DefGoes(b, em, PureOp(code), vs, ty);
      }
    case PURE_SUBSCRIPT => ElementGoes(b, em, ArgV(vs, 0), ArgV(vs, 1), b.tgt.wordSz);
    case PURE_RAW_SUBSCRIPT(ty) => FieldGoes(b, em, SizeOf(b.tgt, ty), ArgV(vs, 0), ArgV(vs, 1), ty);
    case RAW_SELECT(offset, ty) =>
      ConstHas(b, em, offset, INT(Native(b.tgt)));
      FieldGoes(b, em, 1, ArgV(vs, 0), IntConst(b.tgt, offset), ty);
  }

  lemma SelectGoes(b: Blk, em: Em, v: Value, idx: nat)
    requires |b.tgt.stkOffset| == NUM_REGS && Has(b, em, v)
    ensures var p := AsPtr(em, v);
            var a := Gep(p.em, b.tgt.wordSz, p.v, Const(idx, INT(32)));
            var r := Load(a.em, a.v, PTR);
            Goes(b, em, r.em, Points(v.TyOf())) && Has(b, r.em, r.v)
  {
    hide OK, Live, Clean;
    var p := AsPtr(em, v);
    CastGoes(b, em, v, PTR, 0);
    ConstHas(b, p.em, idx, INT(32));
    var a := Gep(p.em, b.tgt.wordSz, p.v, Const(idx, INT(32)));
    GepGoes(b, p.em, b.tgt.wordSz, p.v, Const(idx, INT(32)));
    LoadGoes(b, a.em, a.v, PTR);
  }

  lemma LookupHas(b: Blk, em: Em, vMap: VMap, x: Lvar)
    requires |b.tgt.stkOffset| == NUM_REGS && HasVars(b, em, vMap)
    ensures Has(b, em, LookupVal(vMap, x))
  {
  }

  /** An expression: what is refused in it, and that its value is known. */
  lemma {:induction false} ExpGoes(b: Blk, vMap: VMap, em: Em, e: Exp, t: Types)
    requires |b.tgt.stkOffset| == NUM_REGS && Describes(t, vMap, em) && Knows(b, vMap, em)
    ensures var r := GenExp(b.tgt, vMap, em, e);
            Goes(b, em, r.em, ExpFits(t, e)) && Has(b, r.em, r.v) && Knows(b, vMap, r.em)
    decreases e
  {
    hide Goes, Has, HasAll, HasRegs, HasVars, RegTys, VarTys, GenLooker, GenPure, GenExps, TysOf, ArgTys, LookerFits,
         PureFits, Load, Gep, AsPtr;
    GoesRefl(b, em);
    match e
    case VAR(x) => LookupHas(b, em, vMap, x);
    case LABEL(lab) => FnHas(b, em, lab);
    case NUM(n, sz) => ConstHas(b, em, NumVal(n, sz), INT(sz));
    case LOOKER(looker, args) =>
      ExpsGoes(b, vMap, em, args, t);
      var a := GenExps(b.tgt, vMap, em, args);
      ArgTysOK(b.tgt, vMap, em, args, t);
      LookerGoes(b, a.em, looker, a.vs);
      var r := GenLooker(b.tgt, a.em, looker, a.vs);
      GoesTrans(b, em, a.em, r.em, AllFit(t, args), LookerFits(looker, TysOf(a.vs)));
      KnowsStay(b, vMap, em, r.em, ExpFits(t, e));
    case PURE(pure, args) =>
      ExpsGoes(b, vMap, em, args, t);
      var a := GenExps(b.tgt, vMap, em, args);
      ArgTysOK(b.tgt, vMap, em, args, t);
      PureGoes(b, a.em, pure, a.vs);
      var r := GenPure(b.tgt, a.em, pure, a.vs);
      GoesTrans(b, em, a.em, r.em, AllFit(t, args), PureFits(pure, TysOf(a.vs)));
      KnowsStay(b, vMap, em, r.em, ExpFits(t, e));
    case SELECT(idx, arg) =>
      ExpGoes(b, vMap, em, arg, t);
      var v := GenExp(b.tgt, vMap, em, arg);
      ExpTyOK(b.tgt, vMap, em, arg, t);
      SelectGoes(b, v.em, v.v, idx);
      var r := GenExp(b.tgt, vMap, em, e);
      GoesTrans(b, em, v.em, r.em, ExpFits(t, arg), Points(v.v.TyOf()));
      KnowsStay(b, vMap, em, r.em, ExpFits(t, e));
  }

  lemma FnHas(b: Blk, em: Em, lab: Lvar)
    requires |b.tgt.stkOffset| == NUM_REGS
    ensures Has(b, em, Fn(lab))
  {
  }

  lemma {:induction false} ExpsGoes(b: Blk, vMap: VMap, em: Em, es: seq<Exp>, t: Types)
    requires |b.tgt.stkOffset| == NUM_REGS && Describes(t, vMap, em) && Knows(b, vMap, em)
    ensures var r := GenExps(b.tgt, vMap, em, es);
            Goes(b, em, r.em, AllFit(t, es)) && HasAll(b, r.em, r.vs) && Knows(b, vMap, r.em)
    decreases es
  {
    hide Goes, Has, Knows, RegTys, VarTys, GenExp, ExpFits;
    if es == [] {
      GoesRefl(b, em);
    } else {
      hide HasAll;
      var n := |es| - 1;
      ExpsGoes(b, vMap, em, es[..n], t);
      var r := GenExps(b.tgt, vMap, em, es[..n]);
      ExpGoes(b, vMap, r.em, es[n], t);
      var e := GenExp(b.tgt, vMap, r.em, es[n]);
      GoesTrans(b, em, r.em, e.em, AllFit(t, es[..n]), ExpFits(t, es[n]));
      HasStays(b, r.em, e.em, ExpFits(t, es[n]), r.vs);
      HasAppend(b, e.em, r.vs, e.v);
    }
  }

  /** Values already computed, each converted to a type. */
  lemma {:induction false} CastAllGoes(b: Blk, em: Em, vs: seq<Value>, tys: seq<Ty>)
    requires |b.tgt.stkOffset| == NUM_REGS && HasAll(b, em, vs) && |vs| <= |tys|
    ensures var r := CastAll(em, vs, tys); Goes(b, em, r.em, CastsFit(TysOf(vs), tys)) && HasAll(b, r.em, r.vs)
  {
    hide Goes, Has, CastTo;
    if vs == [] {
      GoesRefl(b, em);
    } else {
      hide HasAll, Castable, CastsFit, TysOf;
      var n := |vs| - 1;
      HasInit(b, em, vs);
      CastAllGoes(b, em, vs[..n], tys);
      var r := CastAll(em, vs[..n], tys);
      var fits := CastsFit(TysOf(vs[..n]), tys);
      HasStays(b, em, r.em, fits, vs);
      HasInit(b, r.em, vs);
      CastGoes(b, r.em, vs[n], tys[n], 0);
      var c := CastTo(r.em, vs[n], tys[n]);
      var fit := Castable(vs[n].TyOf(), LLTy(tys[n]));
      GoesTrans(b, em, r.em, c.em, fits, fit);
      HasStays(b, r.em, c.em, fit, r.vs);
      HasAppend(b, c.em, r.vs, c.v);
      TysOfInit(vs);
      SplitFit(TysOf(vs), tys, n);
    }
  }

  /** Exactly the values that can be converted have the right type in the end. */
  lemma {:induction false} CastAllTys(em: Em, vs: seq<Value>, tys: seq<Ty>)
    requires |vs| <= |tys|
    ensures forall i :: 0 <= i < |vs| ==>
              (CastAll(em, vs, tys).vs[i].TyOf() == LLTy(tys[i]) <==> Castable(vs[i].TyOf(), LLTy(tys[i])))
  {
    if vs != [] {
      CastAllTys(em, vs[..|vs| - 1], tys);
    }
  }

  lemma SplitFit(srcs: seq<Ty>, dsts: seq<Ty>, n: nat)
    requires n + 1 == |srcs| <= |dsts|
    ensures CastsFit(srcs, dsts) <==> CastsFit(srcs[..n], dsts) && Castable(srcs[n], LLTy(dsts[n]))
  {
    if CastsFit(srcs, dsts) {
      forall i | 0 <= i < n
        ensures Castable(srcs[..n][i], LLTy(dsts[i]))
      {
        assert srcs[..n][i] == srcs[i];
      }
    }
  }

  lemma TysOfInit(vs: seq<Value>)
    requires vs != []
    ensures var n := |vs| - 1; TysOf(vs)[..n] == TysOf(vs[..n]) && TysOf(vs)[n] == vs[n].TyOf()
  {
  }

  /** The arguments of a call, each converted to the type of its parameter. */
  lemma {:induction false} CastExpsGoes(b: Blk, vMap: VMap, em: Em, es: seq<Exp>, tys: seq<Ty>, t: Types)
    requires |b.tgt.stkOffset| == NUM_REGS && Describes(t, vMap, em) && Knows(b, vMap, em) && |es| <= |tys|
    ensures var r := GenCastExps(b.tgt, vMap, em, es, tys);
            && Goes(b, em, r.em, AllFit(t, es) && CastsFit(ArgTys(t, es), tys)) && HasAll(b, r.em, r.vs)
            && Knows(b, vMap, r.em)
  {
    hide Goes, Has, Knows, RegTys, VarTys, GenExp, ExpFits, CastTo, ExpTy;
    if es == [] {
      GoesRefl(b, em);
    } else {
      hide HasAll, Castable, CastsFit, ArgTys;
      var n := |es| - 1;
      CastExpsGoes(b, vMap, em, es[..n], tys, t);
      var r := GenCastExps(b.tgt, vMap, em, es[..n], tys);
      CastExpGoes(b, vMap, r.em, es[n], tys[n], t);
      var e := GenExp(b.tgt, vMap, r.em, es[n]);
      var c := CastTo(e.em, e.v, tys[n]);
      var fits := AllFit(t, es[..n]) && CastsFit(ArgTys(t, es[..n]), tys);
      var fit := ExpFits(t, es[n]) && Castable(ExpTy(t, es[n]), LLTy(tys[n]));
      HasStays(b, r.em, c.em, fit, r.vs);
      HasAppend(b, c.em, r.vs, c.v);
      GoesTrans(b, em, r.em, c.em, fits, fit);
      SplitFit(ArgTys(t, es), tys, n);
      ArgTysInit(t, es);
    }
  }

  /** One argument of a call. */
  lemma CastExpGoes(b: Blk, vMap: VMap, em: Em, e: Exp, ty: Ty, t: Types)
    requires |b.tgt.stkOffset| == NUM_REGS && Describes(t, vMap, em) && Knows(b, vMap, em)
    ensures var v := GenExp(b.tgt, vMap, em, e);
            var c := CastTo(v.em, v.v, ty);
            && Goes(b, em, c.em, ExpFits(t, e) && Castable(ExpTy(t, e), LLTy(ty))) && Has(b, c.em, c.v)
            && Knows(b, vMap, c.em) && c.em.regs == em.regs
  {
    hide Goes, Has, Knows, RegTys, VarTys, GenExp, ExpFits, CastTo, ExpTy, Castable;
    ExpGoes(b, vMap, em, e, t);
    var v := GenExp(b.tgt, vMap, em, e);
    ExpTyOK(b.tgt, vMap, em, e, t);
    CastGoes(b, v.em, v.v, ty, 0);
    var c := CastTo(v.em, v.v, ty);
    GoesTrans(b, em, v.em, c.em, ExpFits(t, e), Castable(ExpTy(t, e), LLTy(ty)));
    KnowsStay(b, vMap, em, c.em, ExpFits(t, e) && Castable(ExpTy(t, e), LLTy(ty)));
  }

  /** The callee of a call that is not known by its label must be a pointer. */
  lemma CalleeGoes(b: Blk, u: Unit, vMap: VMap, em: Em, f: Exp, kind: FragKind, tys: seq<Ty>, t: Types)
    requires b.tgt == u.tgt && |u.tgt.stkOffset| == NUM_REGS && Describes(t, vMap, em) && Knows(b, vMap, em)
    ensures var c, known := GenCallee(u, vMap, em, f, kind, tys), f.LABEL? && f.lab in u.fns;
            && Goes(b, em, c.em, known || (ExpFits(t, f) && ExpTy(t, f) == PTR)) && Has(b, c.em, c.fn)
            && Knows(b, vMap, c.em) && c.tys == (if known then u.fns[f.lab].paramTys else tys)
  {
    hide GenExp, ExpFits, ExpTy, Goes, Knows, RegTys, VarTys, AsFn;
    if f.LABEL? && f.lab in u.fns {
      GoesRefl(b, em);
      FnHas(b, em, f.lab);
    } else {
      var e := GenExp(u.tgt, vMap, em, f);
      ExpGoes(b, vMap, em, f, t);
      ExpTyOK(u.tgt, vMap, em, f, t);
      CastGoes(b, e.em, e.v, PTR, 0);
      var p := AsFn(e.em, e.v);
      GoesTrans(b, em, e.em, p.em, ExpFits(t, f), ExpTy(t, f) == PTR);
      KnowsStay(b, vMap, e.em, p.em, ExpTy(t, f) == PTR);
    }
  }

  /** One root of a collection. */
  lemma RootGoes(b: Blk, vMap: VMap, em: Em, e: Exp, t: Types)
    requires |b.tgt.stkOffset| == NUM_REGS && Describes(t, vMap, em) && Knows(b, vMap, em)
    ensures var v := GenExp(b.tgt, vMap, em, e);
            var c := AsPtr(v.em, v.v);
            && Goes(b, em, c.em, ExpFits(t, e) && Points(ExpTy(t, e))) && Has(b, c.em, c.v)
            && Knows(b, vMap, c.em) && c.em.regs == em.regs
  {
    hide Goes, Has, Knows, RegTys, VarTys, GenExp, ExpFits, AsPtr, ExpTy, Points;
    ExpGoes(b, vMap, em, e, t);
    var v := GenExp(b.tgt, vMap, em, e);
    ExpTyOK(b.tgt, vMap, em, e, t);
    CastGoes(b, v.em, v.v, PTR, 0);
    var c := AsPtr(v.em, v.v);
    GoesTrans(b, em, v.em, c.em, ExpFits(t, e), Points(ExpTy(t, e)));
    KnowsStay(b, vMap, em, c.em, ExpFits(t, e) && Points(ExpTy(t, e)));
  }

  /** The roots of a collection, each converted to a pointer. */
  lemma {:induction false} RootsGoes(b: Blk, vMap: VMap, em: Em, es: seq<Exp>, t: Types)
    requires |b.tgt.stkOffset| == NUM_REGS && Describes(t, vMap, em) && Knows(b, vMap, em)
    ensures var r := GenRoots(b.tgt, vMap, em, es);
            && Goes(b, em, r.em, AllFit(t, es) && AllPoint(ArgTys(t, es))) && HasAll(b, r.em, r.vs)
            && Knows(b, vMap, r.em)
  {
    hide Goes, Has, Knows, RegTys, VarTys, GenExp, ExpFits, AsPtr, ExpTy;
    if es == [] {
      GoesRefl(b, em);
    } else {
      hide HasAll, Points, AllPoint, ArgTys;
      var n := |es| - 1;
      RootsGoes(b, vMap, em, es[..n], t);
      var r := GenRoots(b.tgt, vMap, em, es[..n]);
      RootGoes(b, vMap, r.em, es[n], t);
      var e := GenExp(b.tgt, vMap, r.em, es[n]);
      var c := AsPtr(e.em, e.v);
      var fit := ExpFits(t, es[n]) && Points(ExpTy(t, es[n]));
      HasStays(b, r.em, c.em, fit, r.vs);
      HasAppend(b, c.em, r.vs, c.v);
      GoesTrans(b, em, r.em, c.em, AllFit(t, es[..n]) && AllPoint(ArgTys(t, es[..n])), fit);
      SplitPoint(ArgTys(t, es), n);
      ArgTysInit(t, es);
    }
  }

  lemma SplitPoint(tys: seq<Ty>, n: nat)
    requires n + 1 == |tys|
    ensures AllPoint(tys) <==> AllPoint(tys[..n]) && Points(tys[n])
  {
    if AllPoint(tys) {
      forall i | 0 <= i < n
        ensures Points(tys[..n][i])
      {
        assert tys[..n][i] == tys[i];
      }
    }
  }

  // ----- allocation -----

  /** The allocation and store pointers are pointers. */
  predicate HeapPtrs(regs: seq<Option<Ty>>) {
    |regs| == NUM_REGS && RegTy(regs[ALLOC_PTR]) == PTR && RegTy(regs[STORE_PTR]) == PTR
  }

  lemma {:induction false} StoreWordsGoes(b: Blk, em: Em, p: Value, vs: seq<Value>)
    requires |b.tgt.stkOffset| == NUM_REGS && Has(b, em, p) && HasAll(b, em, vs)
    ensures Goes(b, em, StoreWordsCode(b.tgt, em, p, vs), AllPoint(TysOf(vs)))
  {
    if vs == [] {
      GoesRefl(b, em);
    } else {
      hide OK, Live, Clean, AsPtr, AllPoint, Points, TysOf, Gep;
      var n := |vs| - 1;
      StoreWordsGoes(b, em, p, vs[..n]);
      var e := StoreWordsCode(b.tgt, em, p, vs[..n]);
      HasStays(b, em, e, AllPoint(TysOf(vs[..n])), vs);
      StoreWordGoes(b, e, p, |vs|, vs[n]);
      GoesTrans(b, em, e, StoreWordsCode(b.tgt, em, p, vs), AllPoint(TysOf(vs[..n])), Points(vs[n].TyOf()));
      SplitPoint(TysOf(vs), n);
      TysOfInit(vs);
    }
  }

  lemma StoreWordGoes(b: Blk, em: Em, p: Value, k: nat, v: Value)
    requires |b.tgt.stkOffset| == NUM_REGS && Has(b, em, p) && Has(b, em, v)
    ensures var v' := AsPtr(em, v);
            var a := Gep(v'.em, b.tgt.wordSz, p, Const(k, INT(32)));
            Goes(b, em, Emit(a.em, Store(v'.v, a.v)), Points(v.TyOf()))
  {
    hide OK, Live, Clean, AsPtr, Points;
    CastGoes(b, em, v, PTR, 0);
    var v' := AsPtr(em, v);
    ConstHas(b, v'.em, k, INT(32));
    GepGoes(b, v'.em, b.tgt.wordSz, p, Const(k, INT(32)));
    var a := Gep(v'.em, b.tgt.wordSz, p, Const(k, INT(32)));
    EmitGoes(b, a.em, Store(v'.v, a.v));
    GoesTrans(b, em, v'.em, a.em, Points(v.TyOf()), true);
    GoesTrans(b, em, a.em, Emit(a.em, Store(v'.v, a.v)), Points(v.TyOf()), true);
  }

  lemma RecordGoes(b: Blk, em: Em, desc: Value, vs: seq<Value>)
    requires |b.tgt.stkOffset| == NUM_REGS == |em.regs| && HasRegs(b, em) && Has(b, em, desc) && HasAll(b, em, vs)
    ensures var r := AllocRecord(b.tgt, em, desc, vs);
            Goes(b, em, r.em, AllPoint(TysOf(vs))) && Has(b, r.em, r.v) && HasRegs(b, r.em)
  {
    hide OK, Live, Clean, StoreWordsCode, SetMLReg, RegTys;
    var w := b.tgt.wordSz;
    var p := MlReg(b.tgt, em, ALLOC_PTR);
    MlRegGoes(b, em, ALLOC_PTR);
    var e0 := Emit(p.em, Store(desc, p.v));
    EmitGoes(b, p.em, Store(desc, p.v));
    GoesTrans(b, em, p.em, e0, true, true);
    HasStays(b, em, e0, true, vs);
    StoreWordsGoes(b, e0, p.v, vs);
    var e := StoreWordsCode(b.tgt, e0, p.v, vs);
    ConstHas(b, e, 1, INT(32));
    var obj := Gep(e, w, p.v, Const(1, INT(32)));
    GepGoes(b, e, w, p.v, Const(1, INT(32)));
    ConstHas(b, obj.em, |vs| + 1, INT(32));
    var top := Gep(obj.em, w, p.v, Const(|vs| + 1, INT(32)));
    GepGoes(b, obj.em, w, p.v, Const(|vs| + 1, INT(32)));
    GoesTrans(b, e, obj.em, top.em, true, true);
    GoesTrans(b, e0, e, top.em, AllPoint(TysOf(vs)), true);
    GoesTrans(b, em, e0, top.em, true, AllPoint(TysOf(vs)));
    RegsStay(b, em, top.em, AllPoint(TysOf(vs)));
    SetRegGoes(b, top.em, ALLOC_PTR, top.v);
  }

  lemma {:induction false} StoreFieldsGoes(b: Blk, em: Em, obj: Value, fields: seq<Ty>, vs: seq<Value>)
    requires |b.tgt.stkOffset| == NUM_REGS && Has(b, em, obj) && HasAll(b, em, vs) && obj.TyOf() == PTR
    ensures Goes(b, em, StoreFieldsCode(b.tgt, em, obj, fields, vs), true)
  {
    hide Goes, Has, HasAll, FieldsEnd, RoundUp, GepTyped, StoreML;
    if fields == [] {
      GoesRefl(b, em);
    } else {
      var n := |fields| - 1;
      StoreFieldsGoes(b, em, obj, fields[..n], vs);
      var e := StoreFieldsCode(b.tgt, em, obj, fields[..n], vs);
      OneStays(b, em, e, true, obj);
      HasStays(b, em, e, true, vs);
      ArgHas(b, e, vs, n);
      var off := RoundUp(FieldsEnd(b.tgt, fields[..n]), FieldSize(b.tgt, fields[n]));
      StoreFieldGoes(b, e, obj, off, ArgV(vs, n));
      GoesTrans(b, em, e, StoreFieldsCode(b.tgt, em, obj, fields, vs), true, true);
    }
  }

  lemma OneStays(b: Blk, em: Em, em': Em, fits: bool, v: Value)
    requires |b.tgt.stkOffset| == NUM_REGS && Goes(b, em, em', fits) && Has(b, em, v)
    ensures Has(b, em', v)
  {
    hide Live;
  }

  lemma StoreFieldGoes(b: Blk, em: Em, obj: Value, off: nat, v: Value)
    requires |b.tgt.stkOffset| == NUM_REGS && Has(b, em, obj) && Has(b, em, v) && obj.TyOf() == PTR
    ensures var a := GepTyped(em, 1, obj, Const(off, INT(32)));
            Goes(b, em, if v.TyOf() == PTR then StoreML(a.em, v, a.v) else Emit(a.em, Store(v, a.v)), true)
  {
    hide OK, Live, Clean, GepTyped, StoreML;
    ConstHas(b, em, off, INT(32));
    var a := GepTyped(em, 1, obj, Const(off, INT(32)));
    GepGoes(b, em, 1, obj, Const(off, INT(32)));
    GepPtr(em, 1, obj, Const(off, INT(32)));
    StoreMLGoes(b, a.em, v, a.v);
    EmitGoes(b, a.em, Store(v, a.v));
  }

  lemma GepPtr(em: Em, scale: nat, base: Value, idx: Value)
    ensures Gep(em, scale, base, idx).v.TyOf() == PTR && GepTyped(em, scale, base, idx).v.TyOf() == PTR
  {
  }

  lemma RawRecordGoes(b: Blk, em: Em, desc: Val, fields: seq<Ty>, vs: seq<Value>)
    requires b.tgt.wordSz > 0 && |b.tgt.stkOffset| == NUM_REGS == |em.regs|
    requires HasRegs(b, em) && HasAll(b, em, vs) && HeapPtrs(RegTys(em.regs))
    ensures var r := RawRecord(b.tgt, em, desc, fields, vs);
            Goes(b, em, r.em, true) && Has(b, r.em, r.v) && HasRegs(b, r.em)
  {
    hide OK, Live, Clean, StoreFieldsCode, SetMLReg, RegTys, FieldsEnd, RoundUp;
    var w := b.tgt.wordSz;
    var p := MlReg(b.tgt, em, ALLOC_PTR);
    MlRegGoes(b, em, ALLOC_PTR);
    CastGoes(b, p.em, p.v, PTR, 0);
    var p' := AsPtr(p.em, p.v);
    ConstHas(b, p'.em, desc, INT(Native(b.tgt)));
    var e0 := Emit(p'.em, Store(IntConst(b.tgt, desc), p'.v));
    EmitGoes(b, p'.em, Store(IntConst(b.tgt, desc), p'.v));
    ConstHas(b, e0, 1, INT(32));
    var obj := Gep(e0, w, p.v, Const(1, INT(32)));
    GepGoes(b, e0, w, p.v, Const(1, INT(32)));
    GoesTrans(b, em, p.em, p'.em, true, true);
    GoesTrans(b, em, p'.em, e0, true, true);
    GoesTrans(b, em, e0, obj.em, true, true);
    HasStays(b, em, obj.em, true, vs);
    StoreFieldsGoes(b, obj.em, obj.v, fields, vs);
    var e := StoreFieldsCode(b.tgt, obj.em, obj.v, fields, vs);
    var off := RoundUp(FieldsEnd(b.tgt, fields), w);
    ConstHas(b, e, off, INT(32));
    var top := Gep(e, w, obj.v, Const(off, INT(32)));
    GepGoes(b, e, w, obj.v, Const(off, INT(32)));
    GoesTrans(b, em, obj.em, e, true, true);
    GoesTrans(b, em, e, top.em, true, true);
    RegsStay(b, em, top.em, true);
    SetRegGoes(b, top.em, ALLOC_PTR, top.v);
  }

  lemma AlignGoes(b: Blk, em: Em, p: Value, tagged: bool, align: nat)
    requires |b.tgt.stkOffset| == NUM_REGS && Has(b, em, p) && p.TyOf() == PTR
    ensures var r := AlignCode(b.tgt, em, p, tagged, align);
            Goes(b, em, r.em, true) && Has(b, r.em, r.v) && r.v.TyOf() == PTR
  {
    hide OK, Live, Clean;
    GoesRefl(b, em);
    var ty := INT(Native(b.tgt));
    var n := Def(em, CastOp, [p], ty);
    DefGoes(b, em, CastOp, [p], ty);
    if tagged && align > b.tgt.wordSz {
      var c := IntConst(b.tgt, align - b.tgt.wordSz);
      ConstHas(b, n.em, align - b.tgt.wordSz, ty);
      var a := Def(n.em, OrOp, [n.v, c], ty);
      DefGoes(b, n.em, OrOp, [n.v, c], ty);
      DefGoes(b, a.em, CastOp, [a.v], PTR);
    }
  }

  lemma RawAllocGoes(b: Blk, em: Em, tag: Option<Val>, align: nat, len: nat)
    requires |b.tgt.stkOffset| == NUM_REGS == |em.regs| && HasRegs(b, em) && HeapPtrs(RegTys(em.regs))
    ensures var r := RawAlloc(b.tgt, em, tag, align, len);
            Goes(b, em, r.em, true) && Has(b, r.em, r.v) && HasRegs(b, r.em)
  {
    hide OK, Live, Clean, SetMLReg, RegTys, AlignCode, StoreML, GepTyped;
    var p := MlReg(b.tgt, em, ALLOC_PTR);
    MlRegGoes(b, em, ALLOC_PTR);
    var a := AlignCode(b.tgt, p.em, p.v, tag.Some?, align);
    AlignGoes(b, p.em, p.v, tag.Some?, align);
    var e := if tag.Some? then StoreML(a.em, IntConst(b.tgt, tag.value), a.v) else a.em;
    if tag.Some? {
      ConstHas(b, a.em, tag.value, INT(Native(b.tgt)));
      StoreMLGoes(b, a.em, IntConst(b.tgt, tag.value), a.v);
    } else {
      GoesRefl(b, e);
    }
    ConstHas(b, e, 1, INT(32));
    var obj := Gep(e, b.tgt.wordSz, a.v, Const(1, INT(32)));
    GepGoes(b, e, b.tgt.wordSz, a.v, Const(1, INT(32)));
    ConstHas(b, obj.em, len + b.tgt.wordSz, INT(32));
    var top := GepTyped(obj.em, 1, a.v, Const(len + b.tgt.wordSz, INT(32)));
    GepGoes(b, obj.em, 1, a.v, Const(len + b.tgt.wordSz, INT(32)));
    GoesTrans(b, em, p.em, a.em, true, true);
    GoesTrans(b, em, a.em, e, true, true);
    GoesTrans(b, em, e, obj.em, true, true);
    GoesTrans(b, em, obj.em, top.em, true, true);
    RegsStay(b, em, top.em, true);
    SetRegGoes(b, top.em, ALLOC_PTR, top.v);
  }

  lemma AllocGoes(b: Blk, em: Em, alloc: AllocOp, vs: seq<Value>)
    requires b.tgt.wordSz > 0 && |b.tgt.stkOffset| == NUM_REGS == |em.regs|
    requires HasRegs(b, em) && HasAll(b, em, vs) && HeapPtrs(RegTys(em.regs))
    ensures var r := GenAlloc(b.tgt, em, alloc, vs);
            Goes(b, em, r.em, AllocFits(alloc, TysOf(vs))) && Has(b, r.em, r.v) && HasRegs(b, r.em)
  {
    hide OK, Live, Clean, AllocRecord, RawRecord, RawAlloc, RegTys;
    match alloc
    case SPECIAL =>
      ArgHas(b, em, vs, 0);
      ArgHas(b, em, vs, 1);
      var d := AsInt(em, ArgV(vs, 0), Native(b.tgt));
      CastGoes(b, em, ArgV(vs, 0), PTR, Native(b.tgt));
      RegsStay(b, em, d.em, true);
      RecordGoes(b, d.em, d.v, [ArgV(vs, 1)]);
      OnePoints(ArgV(vs, 1));
    case RECORD(desc) =>
      ConstHas(b, em, desc, INT(Native(b.tgt)));
      RecordGoes(b, em, IntConst(b.tgt, desc), vs);
    case RAW_RECORD(desc, fields) => RawRecordGoes(b, em, desc, fields, vs);
    case RAW_ALLOC(tag, align, len) => RawAllocGoes(b, em, tag, align, len);
  }

  lemma OnePoints(v: Value)
    ensures AllPoint(TysOf([v])) == Points(v.TyOf())
  {
    if AllPoint(TysOf([v])) {
      assert Points(TysOf([v])[0]);
    }
  }

  // ----- assignment -----

  lemma RecordStoreGoes(b: Blk, em: Em, adr: Value)
    requires |b.tgt.stkOffset| == NUM_REGS == |em.regs| && HasRegs(b, em) && Has(b, em, adr)
    requires HeapPtrs(RegTys(em.regs))
    ensures var em' := RecordStoreCode(b.tgt, em, adr); Goes(b, em, em', Points(adr.TyOf())) && HasRegs(b, em')
  {
    hide OK, Live, Clean, SetMLReg, RegTys, StoreML;
    var w, fits := b.tgt.wordSz, Points(adr.TyOf());
    var ap := MlReg(b.tgt, em, ALLOC_PTR);
    MlRegGoes(b, em, ALLOC_PTR);
    RegsStay(b, em, ap.em, true);
    var sp := MlReg(b.tgt, ap.em, STORE_PTR);
    MlRegGoes(b, ap.em, STORE_PTR);
    ConstHas(b, sp.em, 0, INT(32));
    var a0 := Gep(sp.em, w, ap.v, Const(0, INT(32)));
    GepGoes(b, sp.em, w, ap.v, Const(0, INT(32)));
    var e0 := StoreML(a0.em, adr, a0.v);
    StoreMLGoes(b, a0.em, adr, a0.v);
    ConstHas(b, e0, 1, INT(32));
    var a1 := Gep(e0, w, ap.v, Const(1, INT(32)));
    GepGoes(b, e0, w, ap.v, Const(1, INT(32)));
    var s1 := StoreML(a1.em, sp.v, a1.v);
    StoreMLGoes(b, a1.em, sp.v, a1.v);
    GoesTrans(b, em, ap.em, sp.em, true, true);
    GoesTrans(b, em, sp.em, a0.em, true, true);
    GoesTrans(b, em, a0.em, e0, true, fits);
    GoesTrans(b, em, e0, a1.em, fits, true);
    GoesTrans(b, em, a1.em, s1, fits, true);
    RegsStay(b, em, s1, fits);
    SetRegGoes(b, s1, STORE_PTR, ap.v);
    var e1 := SetMLReg(b.tgt, s1, STORE_PTR, ap.v);
    ConstHas(b, e1, 2, INT(32));
    var top := Gep(e1, w, ap.v, Const(2, INT(32)));
    GepGoes(b, e1, w, ap.v, Const(2, INT(32)));
    RegsStay(b, e1, top.em, true);
    SetRegGoes(b, top.em, ALLOC_PTR, top.v);
    GoesTrans(b, em, s1, e1, fits, true);
    GoesTrans(b, em, e1, top.em, fits, true);
  }

  lemma SetterGoes(b: Blk, em: Em, setter: SetterOp, vs: seq<Value>)
    requires |b.tgt.stkOffset| == NUM_REGS == |em.regs|
    requires HasRegs(b, em) && HasAll(b, em, vs) && HeapPtrs(RegTys(em.regs))
    ensures var em' := GenSetter(b.tgt, em, setter, vs);
            Goes(b, em, em', SetterFits(setter, TysOf(vs))) && HasRegs(b, em')
  {
    hide OK, Live, Clean, SetMLReg, RegTys, StoreML, RecordStoreCode, GepTyped, TysOf;
    ArgHas(b, em, vs, 0);
    ArgHas(b, em, vs, 1);
    ArgHas(b, em, vs, 2);
    match setter
    case UNBOXED_UPDATE => UpdateGoes(b, em, b.tgt.wordSz, vs);
    case UPDATE => BoxedUpdateGoes(b, em, vs);
    case UNBOXED_ASSIGN =>
      var v := AsInt(em, ArgV(vs, 1), Native(b.tgt));
      CastGoes(b, em, ArgV(vs, 1), PTR, Native(b.tgt));
      var a := AsPtr(v.em, ArgV(vs, 0));
      CastGoes(b, v.em, ArgV(vs, 0), PTR, 0);
      EmitGoes(b, a.em, Store(v.v, a.v));
      var em' := Emit(a.em, Store(v.v, a.v));
      GoesTrans(b, em, v.em, a.em, true, Points(ArgV(vs, 0).TyOf()));
      GoesTrans(b, em, a.em, em', Points(ArgV(vs, 0).TyOf()), true);
      RegsStay(b, em, em', Points(ArgV(vs, 0).TyOf()));
    case ASSIGN =>
      var e := RecordStoreCode(b.tgt, em, ArgV(vs, 0));
      RecordStoreGoes(b, em, ArgV(vs, 0));
      StoreMLGoes(b, e, ArgV(vs, 1), ArgV(vs, 0));
      RegsStay(b, e, StoreML(e, ArgV(vs, 1), ArgV(vs, 0)), Points(ArgV(vs, 1).TyOf()) && Points(ArgV(vs, 0).TyOf()));
    case RAW_UPDATE(ty) => RawUpdateGoes(b, em, SizeOf(b.tgt, ty), vs);
    case RAW_STORE(ty) =>
      var a := GepTyped(em, 1, ArgV(vs, 0), ArgV(vs, 1));
      GepGoes(b, em, 1, ArgV(vs, 0), ArgV(vs, 1));
      EmitGoes(b, a.em, Store(ArgV(vs, 2), a.v));
      GoesTrans(b, em, a.em, Emit(a.em, Store(ArgV(vs, 2), a.v)), Points(ArgV(vs, 0).TyOf()), true);
      RegsStay(b, em, Emit(a.em, Store(ArgV(vs, 2), a.v)), Points(ArgV(vs, 0).TyOf()));
    case SET_HDLR => SetRegGoes(b, em, EXN_HNDLR, ArgV(vs, 0));
    case SET_VAR => SetRegGoes(b, em, VAR_PTR, ArgV(vs, 0));
  }

  lemma UpdateGoes(b: Blk, em: Em, scale: nat, vs: seq<Value>)
    requires |b.tgt.stkOffset| == NUM_REGS && HasRegs(b, em) && HasAll(b, em, vs)
    ensures var a := GepTyped(em, scale, ArgV(vs, 0), ArgV(vs, 1));
            var em' := StoreML(a.em, ArgV(vs, 2), a.v);
            Goes(b, em, em', Points(ArgV(vs, 0).TyOf()) && Points(ArgV(vs, 2).TyOf())) && HasRegs(b, em')
  {
    hide OK, Live, Clean, StoreML, GepTyped;
    ArgHas(b, em, vs, 0);
    ArgHas(b, em, vs, 1);
    ArgHas(b, em, vs, 2);
    var a := GepTyped(em, scale, ArgV(vs, 0), ArgV(vs, 1));
    GepGoes(b, em, scale, ArgV(vs, 0), ArgV(vs, 1));
    GepPtr(em, scale, ArgV(vs, 0), ArgV(vs, 1));
    StoreMLGoes(b, a.em, ArgV(vs, 2), a.v);
    var em' := StoreML(a.em, ArgV(vs, 2), a.v);
    GoesTrans(b, em, a.em, em', Points(ArgV(vs, 0).TyOf()), Points(ArgV(vs, 2).TyOf()));
    RegsStay(b, em, em', Points(ArgV(vs, 0).TyOf()) && Points(ArgV(vs, 2).TyOf()));
  }

  lemma BoxedUpdateGoes(b: Blk, em: Em, vs: seq<Value>)
    requires |b.tgt.stkOffset| == NUM_REGS == |em.regs|
    requires HasRegs(b, em) && HasAll(b, em, vs) && HeapPtrs(RegTys(em.regs))
    ensures var em' := GenSetter(b.tgt, em, UPDATE, vs);
            Goes(b, em, em', Points(ArgV(vs, 0).TyOf()) && Points(ArgV(vs, 2).TyOf())) && HasRegs(b, em')
  {
    hide OK, Live, Clean, StoreML, GepTyped, RecordStoreCode, RegTys;
    ArgHas(b, em, vs, 0);
    ArgHas(b, em, vs, 1);
    ArgHas(b, em, vs, 2);
    var a := GepTyped(em, b.tgt.wordSz, ArgV(vs, 0), ArgV(vs, 1));
    GepGoes(b, em, b.tgt.wordSz, ArgV(vs, 0), ArgV(vs, 1));
    GepPtr(em, b.tgt.wordSz, ArgV(vs, 0), ArgV(vs, 1));
    RegsStay(b, em, a.em, Points(ArgV(vs, 0).TyOf()));
    RecordStoreGoes(b, a.em, a.v);
    var e := RecordStoreCode(b.tgt, a.em, a.v);
    StoreMLGoes(b, e, ArgV(vs, 2), a.v);
    var em' := StoreML(e, ArgV(vs, 2), a.v);
    RegsStay(b, e, em', Points(ArgV(vs, 2).TyOf()));
    GoesTrans(b, em, a.em, e, Points(ArgV(vs, 0).TyOf()), true);
    GoesTrans(b, em, e, em', Points(ArgV(vs, 0).TyOf()), Points(ArgV(vs, 2).TyOf()));
  }

  lemma RawUpdateGoes(b: Blk, em: Em, scale: nat, vs: seq<Value>)
    requires |b.tgt.stkOffset| == NUM_REGS && HasRegs(b, em) && HasAll(b, em, vs)
    ensures var a := GepTyped(em, scale, ArgV(vs, 0), ArgV(vs, 1));
            var em' := if ArgV(vs, 2).TyOf() == PTR then StoreML(a.em, ArgV(vs, 2), a.v)
                       else Emit(a.em, Store(ArgV(vs, 2), a.v));
            Goes(b, em, em', Points(ArgV(vs, 0).TyOf())) && HasRegs(b, em')
  {
    hide OK, Live, Clean, StoreML, GepTyped;
    ArgHas(b, em, vs, 0);
    ArgHas(b, em, vs, 1);
    ArgHas(b, em, vs, 2);
    if ArgV(vs, 2).TyOf() == PTR {
      UpdateGoes(b, em, scale, vs);
    } else {
      var a := GepTyped(em, scale, ArgV(vs, 0), ArgV(vs, 1));
      GepGoes(b, em, scale, ArgV(vs, 0), ArgV(vs, 1));
      EmitGoes(b, a.em, Store(ArgV(vs, 2), a.v));
      GoesTrans(b, em, a.em, Emit(a.em, Store(ArgV(vs, 2), a.v)), Points(ArgV(vs, 0).TyOf()), true);
      RegsStay(b, em, Emit(a.em, Store(ArgV(vs, 2), a.v)), Points(ArgV(vs, 0).TyOf()));
    }
  }

  // ----- tests, arithmetic, collections -----

  lemma LimitGoes(b: Blk, em: Em, amt: nat)
    requires |b.tgt.stkOffset| == NUM_REGS == |em.regs| && HasRegs(b, em)
    ensures var r := LimitCode(b.tgt, em, amt); Goes(b, em, r.em, true) && Has(b, r.em, r.v) && HasRegs(b, r.em)
  {
    hide Goes, Has, HasRegs, RegTys, MlReg, AsInt, Def;
    var ty := INT(Native(b.tgt));
    var p := MlReg(b.tgt, em, ALLOC_PTR);
    MlRegGoes(b, em, ALLOC_PTR);
    var n := AsInt(p.em, p.v, Native(b.tgt));
    CastGoes(b, p.em, p.v, PTR, Native(b.tgt));
    var s := if amt > b.tgt.allocSlop then Def(n.em, AddOp, [n.v, IntConst(b.tgt, amt - b.tgt.allocSlop)], ty) else n;
    if amt > b.tgt.allocSlop {
      ConstHas(b, n.em, amt - b.tgt.allocSlop, ty);
      DefGoes(b, n.em, AddOp, [n.v, IntConst(b.tgt, amt - b.tgt.allocSlop)], ty);
    } else {
      GoesRefl(b, n.em);
    }
    GoesTrans(b, em, p.em, n.em, true, true);
    GoesTrans(b, em, n.em, s.em, true, true);
    RegsStay(b, em, s.em, true);
    var q := MlReg(b.tgt, s.em, LIMIT_PTR);
    MlRegGoes(b, s.em, LIMIT_PTR);
    var l := AsInt(q.em, q.v, Native(b.tgt));
    CastGoes(b, q.em, q.v, PTR, Native(b.tgt));
    var r := Def(l.em, UgtOp, [s.v, l.v], INT(1));
    GoesTrans(b, s.em, q.em, l.em, true, true);
    OneStays(b, s.em, l.em, true, s.v);
    DefGoes(b, l.em, UgtOp, [s.v, l.v], INT(1));
    GoesTrans(b, em, s.em, q.em, true, true);
    GoesTrans(b, em, q.em, l.em, true, true);
    GoesTrans(b, em, l.em, r.em, true, true);
    RegsStay(b, em, r.em, true);
  }

  lemma BranchGoes(b: Blk, em: Em, test: BranchOp, vs: seq<Value>)
    requires |b.tgt.stkOffset| == NUM_REGS == |em.regs| && HasRegs(b, em) && HasAll(b, em, vs)
    ensures var r := GenBranch(b.tgt, em, test, vs); Goes(b, em, r.em, true) && Has(b, r.em, r.v) && HasRegs(b, r.em)
  {
    hide OK, Live, Clean, AsInts, LimitCode;
    match test
    case CMP(code, sz) =>
      AsIntsGoes(b, em, vs, sz);
      var a := AsInts(em, vs, sz);
      DefGoes(b, a.em, CondOp(code), a.vs, INT(1));
      var r := Def(a.em, CondOp(code), a.vs, INT(1));
      GoesTrans(b, em, a.em, r.em, true, true);
      RegsStay(b, em, r.em, true);
    case LIMIT(amt) => LimitGoes(b, em, amt);
  }

  lemma ArithCodeGoes(b: Blk, em: Em, arith: ArithOp, vs: seq<Value>)
    requires |b.tgt.stkOffset| == NUM_REGS && HasRegs(b, em) && HasAll(b, em, vs)
    ensures var r := ArithCode(em, arith, vs);
            && Goes(b, em, r, true) && HasRegs(b, r)
            && (b.track ==> r.next - 2 in Live(b, r) && r.next - 1 in Live(b, r))
  {
    hide OK, Live, Clean, AsInts;
    AsIntsGoes(b, em, vs, arith.sz);
    var a := AsInts(em, vs, arith.sz);
    ArithGoes(b, a.em, arith.code, a.vs);
    GoesTrans(b, em, a.em, ArithCode(em, arith, vs), true, true);
    RegsStay(b, em, ArithCode(em, arith, vs), true);
  }

  lemma DivGoes(b: Blk, em: Em, arith: ArithOp, vs: seq<Value>)
    requires |b.tgt.stkOffset| == NUM_REGS && HasRegs(b, em) && HasAll(b, em, vs)
    ensures var a := AsInts(em, vs, arith.sz);
            var d := Def(a.em, DivOp(arith.code), a.vs, INT(arith.sz));
            Goes(b, em, d.em, true) && HasRegs(b, d.em) && Has(b, d.em, d.v)
  {
    hide OK, Live, Clean, AsInts;
    AsIntsGoes(b, em, vs, arith.sz);
    var a := AsInts(em, vs, arith.sz);
    DefGoes(b, a.em, DivOp(arith.code), a.vs, INT(arith.sz));
    var d := Def(a.em, DivOp(arith.code), a.vs, INT(arith.sz));
    GoesTrans(b, em, a.em, d.em, true, true);
    RegsStay(b, em, d.em, true);
  }

  /** Restoring registers from the results of a call that are known. */
  lemma {:induction false} RestoreGoes(b: Blk, em: Em, base: nat, n: nat)
    requires |b.tgt.stkOffset| == NUM_REGS == |em.regs| && n <= NUM_REGS && HasRegs(b, em)
    requires b.track ==> forall id :: base <= id < base + |b.tgt.Hw()| ==> id in Live(b, em)
    ensures var e := GcRestore(b.tgt, em, base, n); Goes(b, em, e, true) && HasRegs(b, e)
  {
    if n == 0 {
      GoesRefl(b, em);
    } else {
      hide OK, Live, Clean, SetMLReg, HasRegs;
      RestoreGoes(b, em, base, n - 1);
      var e := GcRestore(b.tgt, em, base, n - 1);
      if b.tgt.IsMachine(n - 1) {
        var v := Temp(base + b.tgt.HwIndex(n - 1), PTR);
        HwIndexed(b.tgt, n - 1);
        assert Has(b, e, v);
        SetRegGoes(b, e, n - 1, v);
        GoesTrans(b, em, e, SetMLReg(b.tgt, e, n - 1, v), true, true);
      }
    }
  }

  lemma GcGoes(b: Blk, em: Em, n: nat, args: seq<Value>)
    requires |b.tgt.stkOffset| == NUM_REGS == |em.regs| && HasRegs(b, em) && HasAll(b, em, args)
    ensures var r := GcCode(b.tgt, em, n, args);
            && Goes(b, em, r, true) && HasRegs(b, r)
            && (b.track ==> forall id :: em.next <= id < em.next + |b.tgt.Hw()| + n ==> id in Live(b, r))
  {
    hide OK, Live, Clean, GcRestore;
    var call := Emit(em, CallGC(em.next, n, args)).(next := em.next + |b.tgt.Hw()| + n);
    CallGoes(b, em, n, args);
    RegsStay(b, em, call, true);
    RestoreGoes(b, call, em.next, NUM_REGS);
  }

  lemma HwArgsHave(b: Blk, em: Em)
    requires |b.tgt.stkOffset| == NUM_REGS == |em.regs| && HasRegs(b, em)
    ensures HasAll(b, em, HwArgs(b.tgt, em.regs))
  {
    hide Live;
    var hw := HwArgs(b.tgt, em.regs);
    forall i | 0 <= i < |hw|
      ensures Has(b, em, hw[i])
    {
      assert em.regs[b.tgt.Hw()[i]].Some? ==> Has(b, em, em.regs[b.tgt.Hw()[i]].value);
    }
  }
}
