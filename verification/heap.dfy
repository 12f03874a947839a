/** The heap of a fragment between collections: executing the fragment's body up to the next
    collection or to its end does to registers and memory what its allocations and assignments do,
    in the order of the executed path. */
module FragmentHeap {
  import opened Machine
  import opened CFG
  import opened Allocation

  /** Where an execution stops, and the operations on the way there. */
  datatype Piece = Piece(s: Stm, st: State, ops: seq<Op>)

  function HeapOf(st: State): Heap {
    Heap(st.regs, st.mem)
  }

  function After(op: Op, r: Piece): Piece {
    r.(ops := [op] + r.ops)
  }

  /** Execute s up to the next collection, or to where the fragment ends. */
  function Advance(m: Machine, s: Stm, st: State): (r: Piece)
    requires |st.regs| == NUM_REGS && m.tgt.wordSz > 0
    ensures |r.st.regs| == NUM_REGS
    decreases s
  {
    match s
    case LET(e, p, k) => Advance(m, k, st.(env := st.env[p.name := Eval(m, e, st)]))
    case ALLOC(alloc, args, x, k) =>
      var vals := EvalAll(m, args, st);
      var a := Allocate(m.tgt, alloc, vals, st.regs[ALLOC_PTR], st.mem);
      After(New(alloc, vals), Advance(m, k, State(st.env[x := a.obj], st.regs[ALLOC_PTR := a.next], a.mem)))
    case SETTER(setter, args, k) =>
      var vals := EvalAll(m, args, st);
      var a := Set(m.tgt, setter, vals, st.regs, st.mem);
      After(Op.Assign(setter, vals), Advance(m, k, State(st.env, a.regs, a.mem)))
    case ARITH(arith, args, p, k) =>
      var vals := EvalAll(m, args, st);
      if arith.checked && m.ops.overflows(arith.code, vals) then Piece(s, st, [])
      else Advance(m, k, st.(env := st.env[p.name := m.ops.arith(arith.code, vals)]))
    case SWITCH(e, arms, _) =>
      var i := Eval(m, e, st) % 0x1_0000_0000;
      if i < |arms| then Advance(m, arms[i], st) else Piece(s, st, [])
    case BRANCH(test, args, tArm, fArm, _, _) =>
      Advance(m, if Test(m, test, EvalAll(m, args, st), st.regs) then tArm else fArm, st)
    case _ => Piece(s, st, [])
  }

  /** Execution stops here: at a collection, a transfer, a jump, an overflow or a bad switch. */
  predicate Stops(m: Machine, s: Stm, st: State)
    requires |st.regs| == NUM_REGS
  {
    match s
    case CALLGC(_, _, _) => true
    case APPLY(_, _, _) => true
    case THROW(_, _, _) => true
    case GOTO(_, _) => true
    case ARITH(arith, args, _, _) => arith.checked && m.ops.overflows(arith.code, EvalAll(m, args, st))
    case SWITCH(e, arms, _) => Eval(m, e, st) % 0x1_0000_0000 >= |arms|
    case _ => false
  }

  lemma {:induction false} ExecCons(tgt: Target, h: Heap, op: Op, ops: seq<Op>)
    requires tgt.wordSz > 0 && |h.regs| == NUM_REGS
    ensures Exec(tgt, h, [op] + ops) == Exec(tgt, Step(tgt, h, op), ops)
  {
    hide Step;
    if ops == [] {
      assert [op] + ops == [op] && [op][..0] == [];
      assert Exec(tgt, h, []) == h;
    } else {
      var n := |ops| - 1;
      ExecCons(tgt, h, op, ops[..n]);
      assert ([op] + ops)[..n + 1] == [op] + ops[..n];
    }
  }

  /** The rest of the execution is that of the statement where the piece stops. What the piece does
      to the heap is what its operations do. */
  lemma {:induction false} AdvanceOK(m: Machine, fns: Fns, s: Stm, st: State)
    requires |st.regs| == NUM_REGS && m.tgt.wordSz > 0
    ensures var r := Advance(m, s, st);
            && Stops(m, r.s, r.st) && RunStm(m, fns, s, st) == RunStm(m, fns, r.s, r.st)
            && HeapOf(r.st) == Exec(m.tgt, HeapOf(st), r.ops)
    decreases s
  {
    hide Exec;
    match s
    case LET(e, p, k) => AdvanceOK(m, fns, k, st.(env := st.env[p.name := Eval(m, e, st)]));
    case ALLOC(alloc, args, x, k) =>
      var vals := EvalAll(m, args, st);
      var a := Allocate(m.tgt, alloc, vals, st.regs[ALLOC_PTR], st.mem);
      var st1 := State(st.env[x := a.obj], st.regs[ALLOC_PTR := a.next], a.mem);
      AdvanceOK(m, fns, k, st1);
      ExecCons(m.tgt, HeapOf(st), New(alloc, vals), Advance(m, k, st1).ops);
    case SETTER(setter, args, k) =>
      var vals := EvalAll(m, args, st);
      var a := Set(m.tgt, setter, vals, st.regs, st.mem);
      AdvanceOK(m, fns, k, State(st.env, a.regs, a.mem));
      ExecCons(m.tgt, HeapOf(st), Op.Assign(setter, vals), Advance(m, k, State(st.env, a.regs, a.mem)).ops);
    case ARITH(arith, args, p, k) =>
      var vals := EvalAll(m, args, st);
      if arith.checked && m.ops.overflows(arith.code, vals) {
        NoOps(m.tgt, HeapOf(st));
      } else {
        AdvanceOK(m, fns, k, st.(env := st.env[p.name := m.ops.arith(arith.code, vals)]));
      }
    case SWITCH(e, arms, _) =>
      var i := Eval(m, e, st) % 0x1_0000_0000;
      if i < |arms| {
        AdvanceOK(m, fns, arms[i], st);
      } else {
        NoOps(m.tgt, HeapOf(st));
      }
    case BRANCH(test, args, tArm, fArm, _, _) =>
      AdvanceOK(m, fns, if Test(m, test, EvalAll(m, args, st), st.regs) then tArm else fArm, st);
    case _ => NoOps(m.tgt, HeapOf(st));
  }

  lemma NoOps(tgt: Target, h: Heap)
    requires tgt.wordSz > 0 && |h.regs| == NUM_REGS
    ensures Exec(tgt, h, []) == h
  {
  }

  /** A heap-limit check that passes makes the piece behind it safe: if what it allocates is no more
      than was checked for, all of it is below the limit plus the slop, and nothing else changes but
      what the piece assigns to. */
  lemma CheckedPieceSafe(m: Machine, amt: nat, args: seq<Exp>, tArm: Stm, fArm: Stm, tBB: nat, fBB: nat, st: State)
    requires m.tgt.Valid() && |st.regs| == NUM_REGS
    requires !Test(m, LIMIT(amt), EvalAll(m, args, st), st.regs)
    requires st.regs[ALLOC_PTR] < m.tgt.Modulus() && amt < m.tgt.Modulus()
    requires LimitMeaningful(m.tgt, amt, st.regs[ALLOC_PTR], st.regs[LIMIT_PTR])
    requires st.regs[LIMIT_PTR] + m.tgt.allocSlop < m.tgt.Modulus()
    requires Total(m.tgt, HeapOf(st), Advance(m, fArm, st).ops) <= amt
    ensures var r, top := Advance(m, BRANCH(LIMIT(amt), args, tArm, fArm, tBB, fBB), st),
                          st.regs[LIMIT_PTR] + m.tgt.allocSlop;
            && (forall i: nat :: i < |r.ops| ==>
                  st.regs[ALLOC_PTR] <= Lo(m.tgt, HeapOf(st), r.ops, i) <= Hi(m.tgt, HeapOf(st), r.ops, i) <= top)
            && (forall x: nat :: !(st.regs[ALLOC_PTR] <= x < top) && !Allocation.Assigned(m.tgt, r.ops, x)
                  ==> Read(r.st.mem, x) == Read(st.mem, x))
  {
    hide Exec, Total, Lo, Hi, Allocation.Assigned, LimitReached;
    var s := BRANCH(LIMIT(amt), args, tArm, fArm, tBB, fBB);
    var r := Advance(m, s, st);
    assert r == Advance(m, fArm, st);
    AdvanceOK(m, map[], s, st);
    HeapSafe(m.tgt, HeapOf(st), r.ops, amt);
  }

  /** When a piece stops, in particular when the collector is called, the store list has the
      addresses of exactly the logged assignments of the piece, newest first, before what it had. */
  lemma PieceLogged(m: Machine, s: Stm, st: State)
    requires m.tgt.Valid() && |st.regs| == NUM_REGS
    requires var ops := Advance(m, s, st).ops;
             NoWrap(m.tgt, HeapOf(st), ops) && StoresIntoObjects(m.tgt, HeapOf(st), ops)
    ensures var r := Advance(m, s, st);
            var n := |Logged(m.tgt, r.ops)|;
            && Walk(m.tgt, r.st.mem, r.st.regs[STORE_PTR], n) == Logged(m.tgt, r.ops)
            && LinkAfter(m.tgt, r.st.mem, r.st.regs[STORE_PTR], n) == st.regs[STORE_PTR]
  {
    hide Exec, NoWrap, StoresIntoObjects, Walk, LinkAfter, Logged;
    AdvanceOK(m, map[], s, st);
    StoreListComplete(m.tgt, HeapOf(st), Advance(m, s, st).ops);
  }
}
