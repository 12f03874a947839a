/** The generated code: functions made of basic blocks in SSA form, and their meaning. */
module IR {
  import opened Machine
  import opened CFG

  /** Temp is the result of an instruction or a phi node, FnArg an argument of the function. */
  datatype Value =
    | Temp(id: nat, ty: Ty)
    | Const(n: Val, ty: Ty)
    | FnArg(i: nat, ty: Ty)
    | Fn(lab: Lvar)
    | Undef
  {
    function TyOf(): Ty {
      match this
      case Temp(_, ty) => LLTy(ty)
      case Const(_, ty) => LLTy(ty)
      case FnArg(_, ty) => LLTy(ty)
      case Fn(_) => PTR
      case Undef => PTR
    }
  }

  /** GepOp(scale) is the address of an element, StackOp loads a slot of the stack frame. RefusedOp is no
      instruction of LLVM: it marks where the code generator refuses a conversion, at which the original
      stops with a failing assertion. Here it leaves the value, and its type, as they are. */
  datatype ROp =
    | PureOp(code: nat) | CondOp(code: nat) | DivOp(code: nat) | GepOp(scale: nat) | OrOp | AddOp | UgtOp
    | LoadOp | StackOp(offset: int) | CastOp | RefusedOp
    | Trunc32Op

  /** ArithWO sets dst to the result and dst + 1 to the overflow bit. CallGC passes hardware
      registers and roots, and sets n temporaries from dst on. */
  datatype Instr =
    | Assign(dst: nat, op: ROp, args: seq<Value>)
    | Store(v: Value, addr: Value)
    | StoreStack(v: Value, offset: int)
    | ArithWO(dst: nat, code: nat, args: seq<Value>)
    | CallGC(dst: nat, n: nat, args: seq<Value>)

  /** TailCall is a call followed by a return. */
  datatype Terminator =
    | Br(dest: nat)
    | CondBr(test: Value, ifTrue: nat, ifFalse: nat)
    | Switch(v: Value, cases: seq<nat>, dflt: nat)
    | Unreachable
    | TailCall(fn: Value, args: seq<Value>)
    | RaiseOverflow(args: seq<Value>)

  /** The k-th value comes in along the edge from the k-th predecessor. */
  datatype Phi = Phi(id: nat, ty: Ty, vals: seq<Value>, preds: seq<nat>)

  datatype Block = Block(phis: seq<Phi>, instrs: seq<Instr>, term: Option<Terminator>)

  const EMPTY: Block := Block([], [], None)

  function Succs(t: Terminator): seq<nat> {
    match t
    case Br(d) => [d]
    case CondBr(_, t, f) => [t, f]
    case Switch(_, cases, dflt) => cases + [dflt]
    case Unreachable => []
    case TailCall(_, _) => []
    case RaiseOverflow(_) => []
  }

  predicate HasEdge(blocks: seq<Block>, b: nat, d: nat) {
    b < |blocks| && blocks[b].term.Some? && d in Succs(blocks[b].term.value)
  }

  // ----- meaning -----

  /** The state of an activation: temporaries, its stack frame, and memory. */
  datatype TS = TS(env: map<nat, Val>, stk: map<int, Val>, mem: Mem)

  predicate Defined(fargs: seq<Val>, env: map<nat, Val>, v: Value) {
    match v
    case Temp(id, _) => id in env
    case FnArg(i, _) => i < |fargs|
    case _ => true
  }

  function EvalV(m: Machine, fargs: seq<Val>, env: map<nat, Val>, v: Value): Val {
    match v
    case Temp(id, _) => if id in env then env[id] else 0
    case Const(n, _) => n
    case FnArg(i, _) => if i < |fargs| then fargs[i] else 0
    case Fn(lab) => m.ops.fnAddr(lab)
    case Undef => m.ops.undef
  }

  function EvalVs(m: Machine, fargs: seq<Val>, env: map<nat, Val>, vs: seq<Value>): (vals: seq<Val>)
    ensures |vals| == |vs|
  {
    seq<Val>(|vs|, i requires 0 <= i < |vs| => EvalV(m, fargs, env, vs[i]))
  }

  predicate AllDefined(fargs: seq<Val>, env: map<nat, Val>, vs: seq<Value>) {
    forall i :: 0 <= i < |vs| ==> Defined(fargs, env, vs[i])
  }

  function BoolVal(b: bool): Val {
    if b then 1 else 0
  }

  function Apply(m: Machine, op: ROp, vals: seq<Val>, stk: map<int, Val>, mem: Mem): Val {
    match op
    case PureOp(code) => m.ops.pure(code, vals)
    case CondOp(code) => BoolVal(m.ops.cond(code, vals))
    case DivOp(code) => m.ops.arith(code, vals)
    case GepOp(scale) => Index(m.tgt, Arg(vals, 0), scale, Arg(vals, 1))
    case OrOp => BitOr(Arg(vals, 0), Arg(vals, 1))
    case AddOp => Index(m.tgt, Arg(vals, 0), 1, Arg(vals, 1))
    case UgtOp => BoolVal(Arg(vals, 0) > Arg(vals, 1))
    case LoadOp => Read(mem, Arg(vals, 0))
    case StackOp(offset) => if offset in stk then stk[offset] else 0
    case CastOp => Arg(vals, 0)
    case RefusedOp => Arg(vals, 0)
    case Trunc32Op => Arg(vals, 0) % 0x1_0000_0000
  }

  /** The values that an instruction uses. */
  function Uses(i: Instr): seq<Value> {
    match i
    case Assign(_, _, args) => args
    case Store(v, addr) => [v, addr]
    case StoreStack(v, _) => [v]
    case ArithWO(_, _, args) => args
    case CallGC(_, _, args) => args
  }

  function SetTemps(env: map<nat, Val>, dst: nat, vals: seq<Val>): map<nat, Val> {
    if vals == [] then env
    else SetTemps(env, dst, vals[..|vals| - 1])[dst + |vals| - 1 := vals[|vals| - 1]]
  }

  /** The collector sees the register file that hardware arguments and stack slots make
      up, and leaves the new one in the same places. */
  function Collect(m: Machine, n: nat, args: seq<Val>, stk: map<int, Val>, mem: Mem): (seq<Val>, map<int, Val>, Mem)
    requires |m.tgt.stkOffset| == NUM_REGS
  {
    var nHw := |m.tgt.Hw()|;
    var roots := if nHw <= |args| then args[nHw..] else [];
    var regs := Gather(m.tgt, args, stk);
    var regs' := GcRegs(m, regs, roots, mem);
    (HwVals(m.tgt, regs') + GcRoots(m, n, regs, roots, mem), StackOf(m.tgt, regs'), m.ops.gcMem(regs, roots, mem))
  }

  function Exec(m: Machine, fargs: seq<Val>, i: Instr, ts: TS): TS
    requires |m.tgt.stkOffset| == NUM_REGS
  {
    match i
    case Assign(dst, op, args) =>
      ts.(env := ts.env[dst := Apply(m, op, EvalVs(m, fargs, ts.env, args), ts.stk, ts.mem)])
    case Store(v, addr) =>
      ts.(mem := ts.mem[EvalV(m, fargs, ts.env, addr) := EvalV(m, fargs, ts.env, v)])
    case StoreStack(v, offset) =>
      ts.(stk := ts.stk[offset := EvalV(m, fargs, ts.env, v)])
    case ArithWO(dst, code, args) =>
      var vals := EvalVs(m, fargs, ts.env, args);
      ts.(env := ts.env[dst := m.ops.arith(code, vals)][dst + 1 := BoolVal(m.ops.overflows(code, vals))])
    case CallGC(dst, n, args) =>
      var (vals, stk, mem) := Collect(m, n, EvalVs(m, fargs, ts.env, args), ts.stk, ts.mem);
      TS(SetTemps(ts.env, dst, vals), stk, mem)
  }

  /** Run a piece of straight-line code. Reading a temporary that was never set has no
      meaning. */
  function RunCode(m: Machine, fargs: seq<Val>, code: seq<Instr>, ts: TS): Option<TS>
    requires |m.tgt.stkOffset| == NUM_REGS
  {
    if code == [] then Some(ts)
    else
      var r := RunCode(m, fargs, code[..|code| - 1], ts);
      var i := code[|code| - 1];
      if r.Some? && AllDefined(fargs, r.value.env, Uses(i)) then Some(Exec(m, fargs, i, r.value)) else None
  }

  datatype TOutcome =
    | Called(fn: Val, args: seq<Val>, stk: map<int, Val>, mem: Mem)
    | Raised(args: seq<Val>, stk: map<int, Val>, mem: Mem)
    | Impossible

  /** An execution at the start of a block (after its phi nodes), finished, or stuck. */
  datatype TRes = At(blk: nat, ts: TS) | Done(outcome: TOutcome) | Stuck

  function IndexOf(xs: seq<nat>, x: nat): (i: nat)
    requires x in xs
    ensures i < |xs| && xs[i] == x
  {
    if xs[0] == x then 0 else 1 + IndexOf(xs[1..], x)
  }

  /** The value that comes into a phi node from src. */
  function Incoming(phi: Phi, src: nat): Option<Value> {
    if src in phi.preds && IndexOf(phi.preds, src) < |phi.vals| then Some(phi.vals[IndexOf(phi.preds, src)]) else None
  }

  /** All phi nodes of a block read their values before any of them is set. */
  function EvalPhis(m: Machine, fargs: seq<Val>, phis: seq<Phi>, src: nat, old_env: map<nat, Val>)
    : Option<map<nat, Val>>
  {
    if phis == [] then Some(old_env)
    else
      var r := EvalPhis(m, fargs, phis[..|phis| - 1], src, old_env);
      var v := Incoming(phis[|phis| - 1], src);
      if r.Some? && v.Some? && Defined(fargs, old_env, v.value)
      then Some(r.value[phis[|phis| - 1].id := EvalV(m, fargs, old_env, v.value)]) else None
  }

  /** Follow the edge from src to dest. */
  function Enter(m: Machine, fargs: seq<Val>, blocks: seq<Block>, src: nat, dest: nat, ts: TS): TRes {
    if dest < |blocks| then
      var r := EvalPhis(m, fargs, blocks[dest].phis, src, ts.env);
      if r.Some? then At(dest, ts.(env := r.value)) else Stuck
    else Stuck
  }

  function ExecTerm(m: Machine, fargs: seq<Val>, blocks: seq<Block>, src: nat, t: Terminator, ts: TS): TRes {
    match t
    case Br(d) => Enter(m, fargs, blocks, src, d, ts)
    case CondBr(v, ifTrue, ifFalse) =>
      if Defined(fargs, ts.env, v)
      then Enter(m, fargs, blocks, src, if EvalV(m, fargs, ts.env, v) != 0 then ifTrue else ifFalse, ts) else Stuck
    case Switch(v, cases, dflt) =>
      if Defined(fargs, ts.env, v) then
        var i := EvalV(m, fargs, ts.env, v);
        Enter(m, fargs, blocks, src, if i < |cases| then cases[i] else dflt, ts)
      else Stuck
    case Unreachable => Done(Impossible)
    case TailCall(fn, args) =>
      if Defined(fargs, ts.env, fn) && AllDefined(fargs, ts.env, args)
      then Done(Called(EvalV(m, fargs, ts.env, fn), EvalVs(m, fargs, ts.env, args), ts.stk, ts.mem)) else Stuck
    case RaiseOverflow(args) =>
      if AllDefined(fargs, ts.env, args) then Done(Raised(EvalVs(m, fargs, ts.env, args), ts.stk, ts.mem)) else Stuck
  }

  /** Execute one block. */
  function StepBlock(m: Machine, fargs: seq<Val>, blocks: seq<Block>, r: TRes): TRes
    requires |m.tgt.stkOffset| == NUM_REGS
  {
    if !r.At? then r
    else if r.blk < |blocks| && blocks[r.blk].term.Some? then
      var e := RunCode(m, fargs, blocks[r.blk].instrs, r.ts);
      if e.Some? then ExecTerm(m, fargs, blocks, r.blk, blocks[r.blk].term.value, e.value) else Stuck
    else Stuck
  }

  function RunBlocks(m: Machine, fargs: seq<Val>, blocks: seq<Block>, n: nat, r: TRes): TRes
    requires |m.tgt.stkOffset| == NUM_REGS
  {
    if n == 0 then r else StepBlock(m, fargs, blocks, RunBlocks(m, fargs, blocks, n - 1, r))
  }

  lemma {:induction false} RunBlocksAdd(m: Machine, fargs: seq<Val>, blocks: seq<Block>, n: nat, k: nat, r: TRes)
    requires |m.tgt.stkOffset| == NUM_REGS
    ensures RunBlocks(m, fargs, blocks, n + k, r) == RunBlocks(m, fargs, blocks, k, RunBlocks(m, fargs, blocks, n, r))
  {
    hide StepBlock;
    if k > 0 {
      RunBlocksAdd(m, fargs, blocks, n, k - 1, r);
      var a, b := RunBlocks(m, fargs, blocks, n + (k - 1), r), RunBlocks(m, fargs, blocks, n, r);
      assert RunBlocks(m, fargs, blocks, n + k, r) == StepBlock(m, fargs, blocks, a);
      assert RunBlocks(m, fargs, blocks, k, b) == StepBlock(m, fargs, blocks, RunBlocks(m, fargs, blocks, k - 1, b));
    }
  }

  /** A finished execution stays finished. */
  lemma {:induction false} RunBlocksDone(m: Machine, fargs: seq<Val>, blocks: seq<Block>, n: nat, k: nat, r: TRes)
    requires |m.tgt.stkOffset| == NUM_REGS
    requires n <= k && !RunBlocks(m, fargs, blocks, n, r).At?
    ensures RunBlocks(m, fargs, blocks, k, r) == RunBlocks(m, fargs, blocks, n, r)
  {
    if n < k {
      RunBlocksDone(m, fargs, blocks, n, k - 1, r);
    }
  }
}
