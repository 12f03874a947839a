/** The CFG intermediate representation and its meaning: one mutable register file,
    one memory, and an environment that is local to a fragment. */
module CFG {
  import opened Machine

  type Lvar = nat

  // ----- syntax -----

  datatype Ty = PTR | INT(sz: nat) | FLT(sz: nat)

  /** Bytes that a datum of this type occupies. */
  function SizeOf(tgt: Target, ty: Ty): nat {
    match ty
    case PTR => tgt.wordSz
    case INT(sz) => sz / 8
    case FLT(sz) => sz / 8
  }

  /** The type that LLVM is given: any size but those that it is asked for counts as the smallest one. */
  function LLTy(ty: Ty): (r: Ty)
    ensures r.PTR? == ty.PTR? && r.INT? == ty.INT?
  {
    match ty
    case PTR => PTR
    case INT(sz) => INT(if sz == 64 || sz == 32 || sz == 16 then sz else 8)
    case FLT(sz) => FLT(if sz == 64 then 64 else 32)
  }

  datatype Looker = DEREF | SUBSCRIPT | RAW_LOAD(ty: Ty) | RAW_SUBSCRIPT(ty: Ty) | GET_HDLR | GET_VAR

  /** PURE_ARITH stands for every operator that computes from its arguments alone;
      intSz is the width to which pointer arguments are converted first. */
  datatype Pure =
    | PURE_ARITH(code: nat, intSz: Option<nat>, ty: Ty)
    | PURE_SUBSCRIPT
    | PURE_RAW_SUBSCRIPT(ty: Ty)
    | RAW_SELECT(offset: nat, ty: Ty)

  datatype AllocOp =
    | SPECIAL
    | RECORD(desc: Val)
    | RAW_RECORD(desc: Val, fields: seq<Ty>)
    | RAW_ALLOC(tag: Option<Val>, align: nat, len: nat)

  /** Checked operators branch to the overflow block; the others do not. */
  datatype ArithOp = ArithOp(code: nat, sz: nat, checked: bool)

  datatype SetterOp =
    | UNBOXED_UPDATE | UPDATE | UNBOXED_ASSIGN | ASSIGN
    | RAW_UPDATE(ty: Ty) | RAW_STORE(ty: Ty) | SET_HDLR | SET_VAR

  datatype BranchOp = CMP(code: nat, sz: nat) | LIMIT(amt: nat)

  datatype Exp =
    | VAR(x: Lvar)
    | LABEL(lab: Lvar)
    | NUM(n: int, sz: nat)
    | LOOKER(looker: Looker, args: seq<Exp>)
    | PURE(pure: Pure, args: seq<Exp>)
    | SELECT(idx: nat, arg: Exp)

  datatype Param = Param(name: Lvar, ty: Ty)

  /** The arms of SWITCH and BRANCH start basic blocks; bbs, tBB and fBB are the numbers
      of those blocks, once initialisation has created them. */
  datatype Stm =
    | LET(e: Exp, p: Param, k: Stm)
    | ALLOC(alloc: AllocOp, args: seq<Exp>, x: Lvar, k: Stm)
    | APPLY(f: Exp, args: seq<Exp>, tys: seq<Ty>)
    | THROW(f: Exp, args: seq<Exp>, tys: seq<Ty>)
    | GOTO(lab: Lvar, args: seq<Exp>)
    | SWITCH(e: Exp, arms: seq<Stm>, bbs: seq<nat>)
    | BRANCH(test: BranchOp, args: seq<Exp>, tArm: Stm, fArm: Stm, tBB: nat, fBB: nat)
    | ARITH(arith: ArithOp, args: seq<Exp>, p: Param, k: Stm)
    | SETTER(setter: SetterOp, args: seq<Exp>, k: Stm)
    | CALLGC(roots: seq<Exp>, newRoots: seq<Lvar>, k: Stm)

  datatype FragKind = STD_FUN | STD_CONT | KNOWN_FUN | INTERNAL

  datatype Frag = Frag(kind: FragKind, lab: Lvar, params: seq<Param>, body: Stm)

  type Cluster = seq<Frag>

  /** What is known about the entry fragments of all clusters, by label. */
  datatype FnInfo = FnInfo(kind: FragKind, paramTys: seq<Ty>)

  type Fns = map<Lvar, FnInfo>

  // ----- meaning -----

  datatype State = State(env: map<Lvar, Val>, regs: seq<Val>, mem: Mem)

  function Lookup(env: map<Lvar, Val>, x: Lvar): Val {
    if x in env then env[x] else 0
  }

  function Arg(vals: seq<Val>, i: nat): Val {
    if i < |vals| then vals[i] else 0
  }

  /** A constant of the given width, in two's complement. */
  function NumVal(n: int, sz: nat): Val {
    n % (if sz == 64 then 0x1_0000_0000_0000_0000
         else if sz == 32 then 0x1_0000_0000 else if sz == 16 then 0x1_0000 else 0x100)
  }

  function Eval(m: Machine, e: Exp, st: State): Val
    requires |st.regs| == NUM_REGS
  {
    match e
    case VAR(x) => Lookup(st.env, x)
    case LABEL(lab) => m.ops.fnAddr(lab)
    case NUM(n, sz) => NumVal(n, sz)
    case LOOKER(looker, args) => Look(m, looker, EvalAll(m, args, st), st)
    case PURE(pure, args) => Compute(m, pure, EvalAll(m, args, st), st.mem)
    case SELECT(idx, arg) => Read(st.mem, Index(m.tgt, Eval(m, arg, st), m.tgt.wordSz, idx))
  }

  function EvalAll(m: Machine, es: seq<Exp>, st: State): (vals: seq<Val>)
    requires |st.regs| == NUM_REGS
    ensures |vals| == |es|
  {
    if es == [] then [] else EvalAll(m, es[..|es| - 1], st) + [Eval(m, es[|es| - 1], st)]
  }

  function Look(m: Machine, looker: Looker, vals: seq<Val>, st: State): Val
    requires |st.regs| == NUM_REGS
  {
    match looker
    case DEREF => Read(st.mem, Arg(vals, 0))
    case SUBSCRIPT => Read(st.mem, Index(m.tgt, Arg(vals, 0), m.tgt.wordSz, Arg(vals, 1)))
    case RAW_LOAD(ty) => Read(st.mem, Index(m.tgt, Arg(vals, 0), 1, Arg(vals, 1)))
    case RAW_SUBSCRIPT(ty) => Read(st.mem, Index(m.tgt, Arg(vals, 0), SizeOf(m.tgt, ty), Arg(vals, 1)))
    case GET_HDLR => st.regs[EXN_HNDLR]
    case GET_VAR => st.regs[VAR_PTR]
  }

  function Compute(m: Machine, pure: Pure, vals: seq<Val>, mem: Mem): Val {
    match pure
    case PURE_ARITH(code, _, _) => m.ops.pure(code, vals)
    case PURE_SUBSCRIPT => Read(mem, Index(m.tgt, Arg(vals, 0), m.tgt.wordSz, Arg(vals, 1)))
    case PURE_RAW_SUBSCRIPT(ty) => Read(mem, Index(m.tgt, Arg(vals, 0), SizeOf(m.tgt, ty), Arg(vals, 1)))
    case RAW_SELECT(offset, _) => Read(mem, Index(m.tgt, Arg(vals, 0), 1, offset))
  }

  // ----- allocation -----

  datatype Allocated = Allocated(obj: Val, next: Val, mem: Mem)

  /** Memory after storing the values in consecutive words, from the n-th word after p. */
  function StoreWords(tgt: Target, mem: Mem, p: Val, vals: seq<Val>): Mem {
    if vals == [] then mem
    else StoreWords(tgt, mem, p, vals[..|vals| - 1])[Index(tgt, p, tgt.wordSz, |vals|) := vals[|vals| - 1]]
  }

  function FieldSize(tgt: Target, ty: Ty): nat {
    Max(1, SizeOf(tgt, ty))
  }

  /** The first byte after the given fields, each aligned to its own size. */
  function FieldsEnd(tgt: Target, fields: seq<Ty>): nat {
    if fields == [] then 0
    else
      var last := fields[|fields| - 1];
      RoundUp(FieldsEnd(tgt, fields[..|fields| - 1]), FieldSize(tgt, last)) + FieldSize(tgt, last)
  }

  function StoreFields(tgt: Target, mem: Mem, obj: Val, fields: seq<Ty>, vals: seq<Val>): Mem {
    if fields == [] then mem
    else
      var n := |fields| - 1;
      var off := RoundUp(FieldsEnd(tgt, fields[..n]), FieldSize(tgt, fields[n]));
      StoreFields(tgt, mem, obj, fields[..n], vals)[Index(tgt, obj, 1, off) := Arg(vals, n)]
  }

  /** The descriptor's address: for an alignment above the word size, one word below
      an aligned address. */
  function TagAddress(tgt: Target, ap: Val, tagged: bool, align: nat): Val {
    if tagged && align > tgt.wordSz then BitOr(ap, align - tgt.wordSz) else ap
  }

  function RecordAt(tgt: Target, ap: Val, mem: Mem, desc: Val, vals: seq<Val>): Allocated {
    Allocated(Index(tgt, ap, tgt.wordSz, 1), Index(tgt, ap, tgt.wordSz, |vals| + 1),
              StoreWords(tgt, mem[ap := desc], ap, vals))
  }

  /** The pointer moves past the record by as many words as the record has bytes. */
  function RawRecordAt(tgt: Target, ap: Val, mem: Mem, desc: Val, fields: seq<Ty>, vals: seq<Val>): Allocated
    requires tgt.wordSz > 0
  {
    var obj := Index(tgt, ap, tgt.wordSz, 1);
    Allocated(obj, Index(tgt, obj, tgt.wordSz, RoundUp(FieldsEnd(tgt, fields), tgt.wordSz)),
              StoreFields(tgt, mem[ap := desc], obj, fields, vals))
  }

  function RawAllocAt(tgt: Target, ap: Val, mem: Mem, tag: Option<Val>, align: nat, len: nat): Allocated {
    var a := TagAddress(tgt, ap, tag.Some?, align);
    Allocated(Index(tgt, a, tgt.wordSz, 1), Index(tgt, a, 1, len + tgt.wordSz),
              if tag.Some? then mem[a := tag.value] else mem)
  }

  /** Allocate at ap: the object, the new allocation pointer and the new memory. */
  function Allocate(tgt: Target, alloc: AllocOp, vals: seq<Val>, ap: Val, mem: Mem): Allocated
    requires tgt.wordSz > 0
  {
    match alloc
    case SPECIAL => RecordAt(tgt, ap, mem, Arg(vals, 0), [Arg(vals, 1)])
    case RECORD(desc) => RecordAt(tgt, ap, mem, desc, vals)
    case RAW_RECORD(desc, fields) => RawRecordAt(tgt, ap, mem, desc, fields, vals)
    case RAW_ALLOC(tag, align, len) => RawAllocAt(tgt, ap, mem, tag, align, len)
  }

  // ----- assignment -----

  datatype Assigned = Assigned(regs: seq<Val>, mem: Mem)

  /** Push the address onto the store list. */
  function RecordStore(tgt: Target, adr: Val, regs: seq<Val>, mem: Mem): (a: Assigned)
    requires |regs| == NUM_REGS
    ensures |a.regs| == NUM_REGS
  {
    var ap := regs[ALLOC_PTR];
    Assigned(regs[STORE_PTR := ap][ALLOC_PTR := Index(tgt, ap, tgt.wordSz, 2)],
             mem[Index(tgt, ap, tgt.wordSz, 0) := adr][Index(tgt, ap, tgt.wordSz, 1) := regs[STORE_PTR]])
  }

  function Set(tgt: Target, setter: SetterOp, vals: seq<Val>, regs: seq<Val>, mem: Mem): (a: Assigned)
    requires |regs| == NUM_REGS
    ensures |a.regs| == NUM_REGS
  {
    match setter
    case UNBOXED_UPDATE =>
      Assigned(regs, mem[Index(tgt, Arg(vals, 0), tgt.wordSz, Arg(vals, 1)) := Arg(vals, 2)])
    case UPDATE =>
      var adr := Index(tgt, Arg(vals, 0), tgt.wordSz, Arg(vals, 1));
      var a := RecordStore(tgt, adr, regs, mem);
      a.(mem := a.mem[adr := Arg(vals, 2)])
    case UNBOXED_ASSIGN => Assigned(regs, mem[Arg(vals, 0) := Arg(vals, 1)])
    case ASSIGN =>
      var a := RecordStore(tgt, Arg(vals, 0), regs, mem);
      a.(mem := a.mem[Arg(vals, 0) := Arg(vals, 1)])
    case RAW_UPDATE(ty) =>
      Assigned(regs, mem[Index(tgt, Arg(vals, 0), SizeOf(tgt, ty), Arg(vals, 1)) := Arg(vals, 2)])
    case RAW_STORE(ty) =>
      Assigned(regs, mem[Index(tgt, Arg(vals, 0), 1, Arg(vals, 1)) := Arg(vals, 2)])
    case SET_HDLR => Assigned(regs[EXN_HNDLR := Arg(vals, 0)], mem)
    case SET_VAR => Assigned(regs[VAR_PTR := Arg(vals, 0)], mem)
  }

  // ----- tests -----

  /** Is the heap-limit check positive, that is, must the collector run first? */
  predicate LimitReached(tgt: Target, amt: nat, regs: seq<Val>)
    requires |regs| == NUM_REGS
  {
    (if amt > tgt.allocSlop then Index(tgt, regs[ALLOC_PTR], 1, amt - tgt.allocSlop) else regs[ALLOC_PTR])
      > regs[LIMIT_PTR]
  }

  predicate Test(m: Machine, test: BranchOp, vals: seq<Val>, regs: seq<Val>)
    requires |regs| == NUM_REGS
  {
    match test
    case CMP(code, _) => m.ops.cond(code, vals)
    case LIMIT(amt) => LimitReached(m.tgt, amt, regs)
  }

  // ----- control -----

  datatype Outcome =
    | Transfer(fn: Val, kind: FragKind, args: seq<Val>, regs: seq<Val>, mem: Mem)
    | Overflow(regs: seq<Val>, mem: Mem)
    | BadSwitch

  /** How the execution of a fragment's body ends. */
  datatype FragEnd =
    | Jump(lab: Lvar, args: seq<Val>, regs: seq<Val>, mem: Mem)
    | Halt(outcome: Outcome)

  function BindAll(env: map<Lvar, Val>, xs: seq<Lvar>, vals: seq<Val>): map<Lvar, Val> {
    if xs == [] then env
    else BindAll(env, xs[..|xs| - 1], vals)[xs[|xs| - 1] := Arg(vals, |xs| - 1)]
  }

  /** The calling convention for a call of f. */
  function CalleeKind(fns: Fns, f: Exp): FragKind {
    if f.LABEL? && f.lab in fns then fns[f.lab].kind else STD_FUN
  }

  function GcRegs(m: Machine, regs: seq<Val>, roots: seq<Val>, mem: Mem): (r: seq<Val>)
    ensures |r| == NUM_REGS
  {
    seq<Val>(NUM_REGS, i requires 0 <= i < NUM_REGS => m.ops.gcReg(i, regs, roots, mem))
  }

  function GcRoots(m: Machine, n: nat, regs: seq<Val>, roots: seq<Val>, mem: Mem): (r: seq<Val>)
    ensures |r| == n
  {
    seq<Val>(n, i requires 0 <= i < n => m.ops.gcRoot(i, regs, roots, mem))
  }

  /** Execute a fragment's body up to the jump or transfer at which it ends. */
  function RunStm(m: Machine, fns: Fns, s: Stm, st: State): FragEnd
    requires |st.regs| == NUM_REGS && m.tgt.wordSz > 0
    decreases s
  {
    match s
    case LET(e, p, k) =>
      RunStm(m, fns, k, st.(env := st.env[p.name := Eval(m, e, st)]))
    case ALLOC(alloc, args, x, k) =>
      var a := Allocate(m.tgt, alloc, EvalAll(m, args, st), st.regs[ALLOC_PTR], st.mem);
      RunStm(m, fns, k, State(st.env[x := a.obj], st.regs[ALLOC_PTR := a.next], a.mem))
    case APPLY(f, args, _) =>
      Halt(Transfer(Eval(m, f, st), CalleeKind(fns, f), EvalAll(m, args, st), st.regs, st.mem))
    case THROW(f, args, _) =>
      Halt(Transfer(Eval(m, f, st), STD_CONT, EvalAll(m, args, st), st.regs, st.mem))
    case GOTO(lab, args) =>
      Jump(lab, EvalAll(m, args, st), st.regs, st.mem)
    case SWITCH(e, arms, _) =>
      // only the low 32 bits select the arm
      var i := Eval(m, e, st) % 0x1_0000_0000;
      if i < |arms| then RunStm(m, fns, arms[i], st) else Halt(BadSwitch)
    case BRANCH(test, args, tArm, fArm, _, _) =>
      if Test(m, test, EvalAll(m, args, st), st.regs) then RunStm(m, fns, tArm, st)
      else RunStm(m, fns, fArm, st)
    case ARITH(arith, args, p, k) =>
      var vals := EvalAll(m, args, st);
      if arith.checked && m.ops.overflows(arith.code, vals) then Halt(Overflow(st.regs, st.mem))
      else RunStm(m, fns, k, st.(env := st.env[p.name := m.ops.arith(arith.code, vals)]))
    case SETTER(setter, args, k) =>
      var a := Set(m.tgt, setter, EvalAll(m, args, st), st.regs, st.mem);
      RunStm(m, fns, k, State(st.env, a.regs, a.mem))
    case CALLGC(roots, newRoots, k) =>
      var vals := EvalAll(m, roots, st);
      RunStm(m, fns, k,
        State(BindAll(st.env, newRoots, GcRoots(m, |newRoots|, st.regs, vals, st.mem)),
              GcRegs(m, st.regs, vals, st.mem), m.ops.gcMem(st.regs, vals, st.mem)))
  }

  function FindFrag(cl: Cluster, lab: Lvar): (r: Option<nat>)
    ensures r.Some? ==> r.value < |cl| && cl[r.value].lab == lab
    ensures r.None? ==> forall i :: 0 <= i < |cl| ==> cl[i].lab != lab
  {
    if cl == [] then None
    else if FindFrag(cl[..|cl| - 1], lab).Some? then FindFrag(cl[..|cl| - 1], lab)
    else if cl[|cl| - 1].lab == lab then Some(|cl| - 1) else None
  }

  function Names(params: seq<Param>): (xs: seq<Lvar>)
    ensures |xs| == |params|
  {
    seq(|params|, i requires 0 <= i < |params| => params[i].name)
  }

  /** A cluster about to execute a fragment, or finished. */
  datatype Progress =
    | AtFrag(i: nat, args: seq<Val>, regs: seq<Val>, mem: Mem)
    | Finished(outcome: Outcome)
    | NoSuchFrag

  function StepCluster(m: Machine, fns: Fns, cl: Cluster, p: Progress): Progress
    requires m.tgt.wordSz > 0
  {
    match p
    case AtFrag(i, args, regs, mem) =>
      if i < |cl| && |regs| == NUM_REGS then
        match RunStm(m, fns, cl[i].body, State(BindAll(map[], Names(cl[i].params), args), regs, mem))
        case Halt(o) => Finished(o)
        case Jump(lab, args', regs', mem') =>
          var d := FindFrag(cl, lab);
          if d.Some? then AtFrag(d.value, args', regs', mem') else NoSuchFrag
      else NoSuchFrag
    case _ => p
  }

  /** The cluster after executing n fragments. */
  function RunCluster(m: Machine, fns: Fns, cl: Cluster, n: nat, p: Progress): Progress
    requires m.tgt.wordSz > 0
  {
    if n == 0 then p else StepCluster(m, fns, cl, RunCluster(m, fns, cl, n - 1, p))
  }

  // ----- well-formed clusters -----

  predicate Scoped(fns: Fns, e: Exp, scope: set<Lvar>) {
    match e
    case VAR(x) => x in scope
    case LABEL(lab) => lab in fns
    case NUM(_, _) => true
    case LOOKER(_, args) => ScopedAll(fns, args, scope)
    case PURE(_, args) => ScopedAll(fns, args, scope)
    case SELECT(_, arg) => Scoped(fns, arg, scope)
  }

  predicate ScopedAll(fns: Fns, es: seq<Exp>, scope: set<Lvar>) {
    es == [] || (ScopedAll(fns, es[..|es| - 1], scope) && Scoped(fns, es[|es| - 1], scope))
  }

  function Elems(xs: seq<Lvar>): set<Lvar> {
    set x | x in xs
  }

  predicate Distinct<T(==)>(xs: seq<T>) {
    forall i, j :: 0 <= i < j < |xs| ==> xs[i] != xs[j]
  }

  /** The variables that a statement binds. */
  function Binders(s: Stm): set<Lvar> {
    match s
    case LET(_, p, k) => {p.name} + Binders(k)
    case ALLOC(_, _, x, k) => {x} + Binders(k)
    case APPLY(_, _, _) => {}
    case THROW(_, _, _) => {}
    case GOTO(_, _) => {}
    case SWITCH(_, arms, _) => ArmBinders(arms)
    case BRANCH(_, _, tArm, fArm, _, _) => Binders(tArm) + Binders(fArm)
    case ARITH(_, _, p, k) => {p.name} + Binders(k)
    case SETTER(_, _, k) => Binders(k)
    case CALLGC(_, newRoots, k) => Elems(newRoots) + Binders(k)
  }

  function ArmBinders(arms: seq<Stm>): set<Lvar> {
    if arms == [] then {} else ArmBinders(arms[..|arms| - 1]) + Binders(arms[|arms| - 1])
  }

  /** Every variable is bound at most once in a fragment, jumps and calls have the arity
      of their target, what is thrown to is a continuation, and uses are in scope. The code
      generator relies on all four. */
  predicate WellFormed(tgt: Target, fns: Fns, cl: Cluster, s: Stm, scope: set<Lvar>) {
    match s
    case LET(e, p, k) =>
      Scoped(fns, e, scope) && p.name !in scope + Binders(k)
      && WellFormed(tgt, fns, cl, k, scope + {p.name})
    case ALLOC(_, args, x, k) =>
      ScopedAll(fns, args, scope) && x !in scope + Binders(k)
      && WellFormed(tgt, fns, cl, k, scope + {x})
    case APPLY(f, args, tys) =>
      Scoped(fns, f, scope) && ScopedAll(fns, args, scope)
      && |args| == |if f.LABEL? then fns[f.lab].paramTys else tys|
    case THROW(f, args, tys) =>
      Scoped(fns, f, scope) && ScopedAll(fns, args, scope)
      && |args| == |if f.LABEL? then fns[f.lab].paramTys else tys|
      && (f.LABEL? ==> fns[f.lab].kind == STD_CONT)
    case GOTO(lab, args) =>
      ScopedAll(fns, args, scope)
      && var d := FindFrag(cl, lab);
         d.Some? && cl[d.value].kind == INTERNAL && |args| == |cl[d.value].params|
    case SWITCH(e, arms, _) =>
      Scoped(fns, e, scope) && |arms| < 0x8000_0000 && WellFormedArms(tgt, fns, cl, arms, scope)
    case BRANCH(_, args, tArm, fArm, _, _) =>
      ScopedAll(fns, args, scope) && Binders(tArm) !! Binders(fArm)
      && WellFormed(tgt, fns, cl, tArm, scope) && WellFormed(tgt, fns, cl, fArm, scope)
    case ARITH(_, args, p, k) =>
      ScopedAll(fns, args, scope) && p.name !in scope + Binders(k)
      && WellFormed(tgt, fns, cl, k, scope + {p.name})
    case SETTER(_, args, k) =>
      ScopedAll(fns, args, scope) && WellFormed(tgt, fns, cl, k, scope)
    case CALLGC(roots, newRoots, k) =>
      ScopedAll(fns, roots, scope) && |newRoots| <= |roots| == tgt.numGCRoots
      && Distinct(newRoots) && Elems(newRoots) !! (scope + Binders(k))
      && WellFormed(tgt, fns, cl, k, scope + Elems(newRoots))
  }

  predicate WellFormedArms(tgt: Target, fns: Fns, cl: Cluster, arms: seq<Stm>, scope: set<Lvar>) {
    arms == []
    || (var n := |arms| - 1;
        WellFormedArms(tgt, fns, cl, arms[..n], scope) && WellFormed(tgt, fns, cl, arms[n], scope)
        && ArmBinders(arms[..n]) !! Binders(arms[n]))
  }

  predicate WellFormedCluster(tgt: Target, fns: Fns, cl: Cluster) {
    && cl != [] && cl[0].kind != INTERNAL
    && (forall i :: 1 <= i < |cl| ==> cl[i].kind == INTERNAL)
    && (forall i, j :: 0 <= i < j < |cl| ==> cl[i].lab != cl[j].lab)
    && (forall i :: 0 <= i < |cl| ==>
          && Distinct(Names(cl[i].params))
          && Elems(Names(cl[i].params)) !! Binders(cl[i].body)
          && WellFormed(tgt, fns, cl, cl[i].body, Elems(Names(cl[i].params))))
  }
}
