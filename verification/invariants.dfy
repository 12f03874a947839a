/** What code generation keeps: blocks only grow, a block ends once, and every phi node
    has exactly one incoming value for each edge into its block. */
module Invariants {
  import opened Machine
  import opened CFG
  import opened IR
  import opened Codegen

  // ----- growth -----

  ghost predicate PhiExt(p: Phi, p': Phi) {
    p'.id == p.id && p'.ty == p.ty && p.vals <= p'.vals && p.preds <= p'.preds
  }

  ghost predicate PhisExt(ps: seq<Phi>, ps': seq<Phi>) {
    |ps'| == |ps| && forall i :: 0 <= i < |ps| ==> PhiExt(ps[i], ps'[i])
  }

  ghost predicate SameCode(b: Block, b': Block) {
    b'.instrs == b.instrs && b'.term == b.term
  }

  /** A block that has ended keeps its code. */
  ghost predicate BlockExt(b: Block, b': Block) {
    PhisExt(b.phis, b'.phis) && b.instrs <= b'.instrs && (b.term.Some? ==> SameCode(b, b'))
  }

  ghost predicate Ext(bs: seq<Block>, bs': seq<Block>) {
    |bs| <= |bs'| && forall b :: 0 <= b < |bs| ==> BlockExt(bs[b], bs'[b])
  }

  lemma ExtTrans(a: seq<Block>, b: seq<Block>, c: seq<Block>)
    requires Ext(a, b) && Ext(b, c)
    ensures Ext(a, c)
  {
    forall i | 0 <= i < |a|
      ensures BlockExt(a[i], c[i])
    {
      assert BlockExt(a[i], b[i]) && BlockExt(b[i], c[i]);
      forall k | 0 <= k < |a[i].phis|
        ensures PhiExt(a[i].phis[k], c[i].phis[k])
      {
        assert PhiExt(a[i].phis[k], b[i].phis[k]) && PhiExt(b[i].phis[k], c[i].phis[k]);
      }
    }
  }

  // ----- the invariant -----

  /** How many incoming values a list of predecessors has for the edge from b. */
  ghost function EdgeCount(preds: seq<nat>, b: nat): nat {
    multiset(preds)[b]
  }

  /** Exactly one incoming value per edge into block d, and none for anything else. */
  ghost predicate PhiOK(blocks: seq<Block>, d: nat, phi: Phi) {
    |phi.vals| == |phi.preds| &&
    forall b: nat :: EdgeCount(phi.preds, b) == if HasEdge(blocks, b, d) then 1 else 0
  }

  ghost predicate PhisOK(blocks: seq<Block>) {
    forall d, i :: 0 <= d < |blocks| && 0 <= i < |blocks[d].phis| ==> PhiOK(blocks, d, blocks[d].phis[i])
  }

  ghost predicate SuccsOK(blocks: seq<Block>) {
    forall b: nat, d: nat :: HasEdge(blocks, b, d) ==> d < |blocks|
  }

  ghost predicate IdsDistinct(phis: seq<Phi>) {
    forall i, j :: 0 <= i < j < |phis| ==> phis[i].id != phis[j].id
  }

  ghost predicate IdsOK(blocks: seq<Block>, next: nat) {
    forall d :: 0 <= d < |blocks| ==>
      IdsDistinct(blocks[d].phis) && forall i :: 0 <= i < |blocks[d].phis| ==> blocks[d].phis[i].id < next
  }

  /** The values of the phi nodes of a block. */
  function PhiTemps(phis: seq<Phi>): (vs: seq<Value>)
    ensures |vs| == |phis|
  {
    seq(|phis|, i requires 0 <= i < |phis| => Temp(phis[i].id, phis[i].ty))
  }

  /** The overflow block passes its phi nodes, one for each hardware register, on. */
  ghost predicate OverflowOK(tgt: Target, blocks: seq<Block>, ovf: Option<nat>)
    requires |tgt.stkOffset| == NUM_REGS
  {
    ovf.Some? ==>
      && ovf.value < |blocks|
      && |blocks[ovf.value].phis| == |tgt.Hw()|
      && blocks[ovf.value].instrs == []
      && blocks[ovf.value].term == Some(RaiseOverflow(PhiTemps(blocks[ovf.value].phis)))
  }

  /** Every internal fragment's entry block has a phi node for each hardware register and
      each parameter. */
  ghost predicate FragsOK(u: Unit, blocks: seq<Block>)
    requires |u.tgt.stkOffset| == NUM_REGS
  {
    |u.bbs| == |u.cl| && forall i :: 1 <= i < |u.cl| ==>
      u.bbs[i] < |blocks| && |blocks[u.bbs[i]].phis| == |u.tgt.Hw()| + |u.cl[i].params|
  }

  function TargetShape(tgt: Target): seq<bool>
    requires |tgt.stkOffset| == NUM_REGS
  {
    seq(NUM_REGS, r requires 0 <= r < NUM_REGS => tgt.IsMachine(r))
  }

  ghost predicate Inv(u: Unit, cg: CG) {
    && UnitOK(u) && InRange(u, cg)
    && PhisOK(cg.blocks) && SuccsOK(cg.blocks) && IdsOK(cg.blocks, cg.next)
    && OverflowOK(u.tgt, cg.blocks, cg.ovf) && FragsOK(u, cg.blocks)
    && Shape(cg.regs) == TargetShape(u.tgt)
  }

  /** What most proofs need of the invariant. */
  lemma InvFacts(u: Unit, cg: CG)
    requires Inv(u, cg)
    ensures UnitOK(u) && InRange(u, cg) && Shape(cg.regs) == TargetShape(u.tgt)
  {
  }

  ghost predicate Open(cg: CG) {
    cg.cur < |cg.blocks| && cg.blocks[cg.cur].term.None?
  }

  ghost predicate Ended(blocks: seq<Block>, b: nat) {
    b < |blocks| && blocks[b].term.Some?
  }

  /** From cg to cg', generation stays in the block, or has ended it and goes on in a new one. */
  ghost predicate Step(u: Unit, cg: CG, cg': CG) {
    && Inv(u, cg') && Open(cg') && Ext(cg.blocks, cg'.blocks)
    && cg.next <= cg'.next
    && (forall b :: 0 <= b < |cg.blocks| && b != cg.cur ==> SameCode(cg.blocks[b], cg'.blocks[b]))
    && (cg'.cur == cg.cur || (|cg.blocks| <= cg'.cur && Ended(cg'.blocks, cg.cur)))
    && (forall b :: |cg.blocks| <= b < |cg'.blocks| && b != cg'.cur ==> Ended(cg'.blocks, b))
  }

  /** From cg to cg', a statement whose arms own the blocks from lo to hi was generated. */
  ghost predicate Post(u: Unit, cg: CG, cg': CG, lo: nat, hi: nat) {
    && Inv(u, cg') && Ext(cg.blocks, cg'.blocks)
    && cg.next <= cg'.next
    && Ended(cg'.blocks, cg.cur)
    && (forall b :: 0 <= b < |cg.blocks| && b != cg.cur && !(lo <= b < hi) ==> SameCode(cg.blocks[b], cg'.blocks[b]))
    && (forall b :: lo <= b < hi ==> Ended(cg'.blocks, b))
    && (forall b :: |cg.blocks| <= b < |cg'.blocks| ==> Ended(cg'.blocks, b))
  }

  // ----- changes to one block -----

  lemma WithEmInv(u: Unit, cg: CG, em: Em)
    requires Inv(u, cg) && Open(cg) && Grows(EmOf(cg), em)
    ensures Step(u, cg, WithEm(cg, em)) && WithEm(cg, em).cur == cg.cur
  {
    var bs := WithEm(cg, em).blocks;
    assert forall b: nat, d: nat :: HasEdge(bs, b, d) == HasEdge(cg.blocks, b, d);
    forall d, i | 0 <= d < |bs| && 0 <= i < |bs[d].phis|
      ensures PhiOK(bs, d, bs[d].phis[i])
    {
      assert PhiOK(cg.blocks, d, cg.blocks[d].phis[i]);
    }
  }

  /** Adding a block without phi nodes and without successors. */
  lemma AppendInv(u: Unit, cg: CG, blk: Block)
    requires Inv(u, cg)
    requires blk.phis == [] && (blk.term.Some? ==> Succs(blk.term.value) == [])
    ensures Inv(u, cg.(blocks := cg.blocks + [blk])) && Ext(cg.blocks, cg.blocks + [blk])
  {
    var bs := cg.blocks + [blk];
    assert forall b: nat, d: nat :: HasEdge(bs, b, d) == HasEdge(cg.blocks, b, d);
    forall d, i | 0 <= d < |bs| && 0 <= i < |bs[d].phis|
      ensures PhiOK(bs, d, bs[d].phis[i])
    {
      assert d < |cg.blocks|;
      assert PhiOK(cg.blocks, d, cg.blocks[d].phis[i]);
    }
  }

  lemma MakeOverflowInv(u: Unit, cg: CG)
    requires Inv(u, cg)
    ensures var cg' := MakeOverflow(u.tgt, cg);
            && Inv(u, cg') && Ext(cg.blocks, cg'.blocks) && cg'.ovf.Some? && cg.next <= cg'.next
            && (forall b :: 0 <= b < |cg.blocks| ==> cg'.blocks[b] == cg.blocks[b])
            && (forall b :: |cg.blocks| <= b < |cg'.blocks| ==> Ended(cg'.blocks, b))
            && Ended(cg'.blocks, cg'.ovf.value)
  {
    if cg.ovf.None? {
      var cg' := MakeOverflow(u.tgt, cg);
      var n, bs := |cg.blocks|, cg'.blocks;
      assert PhiTemps(bs[n].phis) == Temps(cg.next, Ptrs(|u.tgt.Hw()|));
      assert forall b: nat, d: nat :: HasEdge(bs, b, d) == HasEdge(cg.blocks, b, d);
      forall d, i | 0 <= d < |bs| && 0 <= i < |bs[d].phis|
        ensures PhiOK(bs, d, bs[d].phis[i])
      {
        if d < n {
          assert PhiOK(cg.blocks, d, cg.blocks[d].phis[i]);
        }
      }
    }
  }

  /** Blocks that keep their phi nodes up to incoming values keep the rest of the invariant. */
  lemma KeepRest(u: Unit, cg: CG, cg': CG)
    requires Inv(u, cg) && Ext(cg.blocks, cg'.blocks) && |cg'.blocks| == |cg.blocks|
    requires cg' == cg.(blocks := cg'.blocks)
    ensures InRange(u, cg') && IdsOK(cg'.blocks, cg'.next) && FragsOK(u, cg'.blocks)
    ensures OverflowOK(u.tgt, cg'.blocks, cg'.ovf)
  {
    var bs, bs' := cg.blocks, cg'.blocks;
    forall d | 0 <= d < |bs|
      ensures |bs'[d].phis| == |bs[d].phis| && PhiTemps(bs'[d].phis) == PhiTemps(bs[d].phis)
      ensures IdsDistinct(bs'[d].phis) && forall i :: 0 <= i < |bs'[d].phis| ==> bs'[d].phis[i].id < cg.next
    {
      assert BlockExt(bs[d], bs'[d]);
      assert forall i :: 0 <= i < |bs[d].phis| ==> PhiExt(bs[d].phis[i], bs'[d].phis[i]);
    }
    if cg.ovf.Some? {
      assert BlockExt(bs[cg.ovf.value], bs'[cg.ovf.value]);
    }
  }

  /** Ending the block with edges into blocks without phi nodes. */
  lemma TerminateInv(u: Unit, cg: CG, t: Terminator)
    requires Inv(u, cg) && Open(cg)
    requires forall d :: d in Succs(t) ==> d < |cg.blocks| && cg.blocks[d].phis == []
    ensures Inv(u, Terminate(cg, t)) && Ext(cg.blocks, Terminate(cg, t).blocks)
  {
    var bs := Terminate(cg, t).blocks;
    KeepRest(u, cg, Terminate(cg, t));
    forall b: nat, d: nat | HasEdge(bs, b, d)
      ensures d < |bs|
    {
      assert b != cg.cur ==> HasEdge(cg.blocks, b, d);
    }
    forall d, i | 0 <= d < |bs| && 0 <= i < |bs[d].phis|
      ensures PhiOK(bs, d, bs[d].phis[i])
    {
      assert PhiOK(cg.blocks, d, cg.blocks[d].phis[i]);
      forall b: nat
        ensures HasEdge(bs, b, d) == HasEdge(cg.blocks, b, d)
      {
      }
    }
  }

  lemma EdgePhi(u: Unit, cg: CG, d: nat, vs: seq<Value>, t: Terminator, e: nat, i: nat)
    requires Inv(u, cg) && Open(cg)
    requires d < |cg.blocks| && |vs| == |cg.blocks[d].phis| && d in Succs(t)
    requires forall e :: e in Succs(t) && e != d ==> e < |cg.blocks| && cg.blocks[e].phis == []
    requires e < |cg.blocks| && i < |cg.blocks[e].phis|
    ensures var bs := Terminate(PhisFromHere(cg, d, vs), t).blocks;
            i < |bs[e].phis| && PhiOK(bs, e, bs[e].phis[i])
  {
    var bs := Terminate(PhisFromHere(cg, d, vs), t).blocks;
    assert PhiOK(cg.blocks, e, cg.blocks[e].phis[i]);
    assert !HasEdge(cg.blocks, cg.cur, e);
    var preds, preds' := cg.blocks[e].phis[i].preds, bs[e].phis[i].preds;
    assert preds' == if e == d then preds + [cg.cur] else preds;
    forall b: nat
      ensures EdgeCount(preds', b) == if HasEdge(bs, b, e) then 1 else 0
    {
      assert EdgeCount(preds, b) == if HasEdge(cg.blocks, b, e) then 1 else 0;
      if b == cg.cur {
        assert HasEdge(bs, b, e) == (e in Succs(t));
      } else {
        assert HasEdge(bs, b, e) == HasEdge(cg.blocks, b, e);
      }
    }
  }

  lemma EdgeExt(cg: CG, d: nat, vs: seq<Value>, t: Terminator)
    requires Open(cg) && d < |cg.blocks|
    ensures Ext(cg.blocks, Terminate(PhisFromHere(cg, d, vs), t).blocks)
  {
    var bs := Terminate(PhisFromHere(cg, d, vs), t).blocks;
    forall e | 0 <= e < |bs|
      ensures BlockExt(cg.blocks[e], bs[e])
    {
    }
  }

  /** Ending the block with one edge into a block with phi nodes, which are told what comes in. */
  lemma EdgeInv(u: Unit, cg: CG, d: nat, vs: seq<Value>, t: Terminator)
    requires Inv(u, cg) && Open(cg)
    requires d < |cg.blocks| && |vs| == |cg.blocks[d].phis| && d in Succs(t)
    requires forall e :: e in Succs(t) && e != d ==> e < |cg.blocks| && cg.blocks[e].phis == []
    ensures var cg' := Terminate(PhisFromHere(cg, d, vs), t);
            && Inv(u, cg') && Ext(cg.blocks, cg'.blocks)
            && (forall b :: 0 <= b < |cg.blocks| && b != cg.cur ==> SameCode(cg.blocks[b], cg'.blocks[b]))
  {
    var cg' := Terminate(PhisFromHere(cg, d, vs), t);
    var bs := cg'.blocks;
    EdgeExt(cg, d, vs, t);
    KeepRest(u, cg, cg');
    forall e, i | 0 <= e < |bs| && 0 <= i < |bs[e].phis|
      ensures PhiOK(bs, e, bs[e].phis[i])
    {
      EdgePhi(u, cg, d, vs, t, e, i);
    }
    forall b: nat, e: nat | HasEdge(bs, b, e)
      ensures e < |bs|
    {
      assert b != cg.cur ==> HasEdge(cg.blocks, b, e);
    }
  }

  // ----- one statement -----

  lemma StepTrans(u: Unit, a: CG, b: CG, c: CG)
    requires Step(u, a, b) && Step(u, b, c)
    ensures Step(u, a, c)
  {
    ExtTrans(a.blocks, b.blocks, c.blocks);
    forall i | 0 <= i < |a.blocks| && i != a.cur
      ensures SameCode(a.blocks[i], c.blocks[i])
    {
      assert SameCode(a.blocks[i], b.blocks[i]);
    }
    assert Ended(b.blocks, a.cur) && a.cur != b.cur ==> SameCode(b.blocks[a.cur], c.blocks[a.cur]);
    forall i | |a.blocks| <= i < |c.blocks| && i != c.cur
      ensures Ended(c.blocks, i)
    {
      if i < |b.blocks| && i != b.cur {
        assert Ended(b.blocks, i) && SameCode(b.blocks[i], c.blocks[i]);
      }
    }
  }

  lemma BindInv(u: Unit, cg: CG, cg': CG, vMap: VMap)
    requires Step(u, cg, cg')
    ensures Step(u, cg, cg'.(vMap := vMap))
  {
  }

  lemma GenArithInv(u: Unit, cg: CG, arith: ArithOp, vs: seq<Value>)
    requires Inv(u, cg) && Open(cg)
    ensures Step(u, cg, GenArith(u.tgt, cg, arith, vs).cg)
  {
    hide Inv, Ext, SameCode, ArithCode, BranchOnOverflow, AsInts;
    InvFacts(u, cg);
    if arith.checked {
      var em := ArithCode(EmOf(cg), arith, vs);
      WithEmInv(u, cg, em);
      InvFacts(u, WithEm(cg, em));
      CheckedInv(u, WithEm(cg, em), em.next - 2);
      StepTrans(u, cg, WithEm(cg, em), GenArith(u.tgt, cg, arith, vs).cg);
    } else {
      var a := AsInts(EmOf(cg), vs, arith.sz);
      WithEmInv(u, cg, Def(a.em, DivOp(arith.code), a.vs, INT(arith.sz)).em);
    }
  }

  lemma CheckedInv(u: Unit, cg1: CG, res: nat)
    requires Inv(u, cg1) && Open(cg1)
    ensures Step(u, cg1, BranchOnOverflow(u.tgt, cg1, res))
  {
    var ok := |cg1.blocks|;
    var cgA := cg1.(blocks := cg1.blocks + [EMPTY]);
    AppendInv(u, cg1, EMPTY);
    var cg2 := MakeOverflow(u.tgt, cgA);
    MakeOverflowInv(u, cgA);
    var cg3 := PhisFromHere(cg2, cg2.ovf.value, HwArgs(u.tgt, cg2.regs));
    var t := CondBr(Temp(res + 1, INT(1)), cg3.ovf.value, ok);
    assert cg2.blocks[ok] == EMPTY;
    EdgeInv(u, cg2, cg2.ovf.value, HwArgs(u.tgt, cg2.regs), t);
    ExtTrans(cg1.blocks, cgA.blocks, cg2.blocks);
    ExtTrans(cg1.blocks, cg2.blocks, Terminate(cg3, t).blocks);
    var cg4 := Terminate(cg3, t).(cur := ok);
    forall b | 0 <= b < |cg4.blocks| && b != cg1.cur
      ensures SameCode(cg2.blocks[b], cg4.blocks[b])
    {
    }
  }

  lemma GenGCInv(u: Unit, cg: CG, roots: seq<Value>, newRoots: seq<Lvar>)
    requires Inv(u, cg) && Open(cg)
    ensures Step(u, cg, GenGC(u.tgt, cg, roots, newRoots))
  {
    var em := EmOf(cg);
    var em' := GcCode(u.tgt, em, |newRoots|, HwArgs(u.tgt, em.regs) + roots);
    WithEmInv(u, cg, em');
    BindInv(u, cg, WithEm(cg, em'), GenGC(u.tgt, cg, roots, newRoots).vMap);
  }

  /** Statements that are followed by another one. */
  lemma HeadInv(u: Unit, cg: CG)
    requires Inv(u, cg) && Open(cg)
    ensures forall e, p :: Step(u, cg, GenLet(u, cg, e, p))
    ensures forall alloc, args, x :: Step(u, cg, GenAllocStm(u, cg, alloc, args, x))
    ensures forall setter, args :: Step(u, cg, GenSetterStm(u, cg, setter, args))
  {
    forall e, p
      ensures Step(u, cg, GenLet(u, cg, e, p))
    {
      var v := GenExp(u.tgt, cg.vMap, EmOf(cg), e);
      WithEmInv(u, cg, v.em);
      BindInv(u, cg, WithEm(cg, v.em), InsertVal(cg.vMap, p.name, v.v));
    }
    forall alloc, args, x
      ensures Step(u, cg, GenAllocStm(u, cg, alloc, args, x))
    {
      var a := GenExps(u.tgt, cg.vMap, EmOf(cg), args);
      var v := GenAlloc(u.tgt, a.em, alloc, a.vs);
      WithEmInv(u, cg, v.em);
      BindInv(u, cg, WithEm(cg, v.em), InsertVal(cg.vMap, x, v.v));
    }
    forall setter, args
      ensures Step(u, cg, GenSetterStm(u, cg, setter, args))
    {
      var a := GenExps(u.tgt, cg.vMap, EmOf(cg), args);
      WithEmInv(u, cg, GenSetter(u.tgt, a.em, setter, a.vs));
    }
  }

  lemma ArithStmInv(u: Unit, cg: CG, arith: ArithOp, args: seq<Exp>, p: Param)
    requires Inv(u, cg) && Open(cg)
    ensures Step(u, cg, GenArithStm(u, cg, arith, args, p))
  {
    var a := GenExps(u.tgt, cg.vMap, EmOf(cg), args);
    WithEmInv(u, cg, a.em);
    var cg1 := WithEm(cg, a.em);
    GenArithInv(u, cg1, arith, a.vs);
    var v := GenArith(u.tgt, cg1, arith, a.vs);
    StepTrans(u, cg, cg1, v.cg);
    BindInv(u, cg, v.cg, InsertVal(v.cg.vMap, p.name, v.v));
  }

  lemma GCStmInv(u: Unit, cg: CG, roots: seq<Exp>, newRoots: seq<Lvar>)
    requires Inv(u, cg) && Open(cg)
    ensures Step(u, cg, GenGCStm(u, cg, roots, newRoots))
  {
    var a := GenRoots(u.tgt, cg.vMap, EmOf(cg), roots);
    WithEmInv(u, cg, a.em);
    GenGCInv(u, WithEm(cg, a.em), a.vs, newRoots);
    StepTrans(u, cg, WithEm(cg, a.em), GenGCStm(u, cg, roots, newRoots));
  }

  /** A statement that ends the block and creates none. */
  lemma EndInv(u: Unit, cg: CG, cg1: CG, cg': CG, lo: nat)
    requires Step(u, cg, cg1) && cg1.cur == cg.cur && |cg1.blocks| == |cg.blocks|
    requires Inv(u, cg') && Ext(cg1.blocks, cg'.blocks) && |cg'.blocks| == |cg1.blocks| && cg1.next <= cg'.next
    requires Ended(cg'.blocks, cg.cur)
    requires forall b :: 0 <= b < |cg1.blocks| && b != cg.cur ==> SameCode(cg1.blocks[b], cg'.blocks[b])
    ensures Post(u, cg, cg', lo, lo)
  {
    ExtTrans(cg.blocks, cg1.blocks, cg'.blocks);
  }

  lemma CallInv(u: Unit, cg: CG, c: Callee, kind: FragKind, args: seq<Exp>, lo: nat)
    requires Inv(u, cg) && Open(cg) && Grows(EmOf(cg), c.em)
    ensures Post(u, cg, GenCall(u, cg, c, kind, args), lo, lo)
  {
    var a := GenCastExps(u.tgt, cg.vMap, c.em, args[..if |args| <= |c.tys| then |args| else |c.tys|], c.tys);
    WithEmInv(u, cg, a.em);
    TerminateInv(u, WithEm(cg, a.em), TailCall(c.fn, HwArgs(u.tgt, cg.regs) + Unused(kind) + a.vs));
    EndInv(u, cg, WithEm(cg, a.em), GenCall(u, cg, c, kind, args), lo);
  }

  lemma GotoInv(u: Unit, cg: CG, i: nat, args: seq<Exp>, lo: nat)
    requires Inv(u, cg) && Open(cg) && 1 <= i < |u.cl| && |args| == |u.cl[i].params|
    ensures Post(u, cg, GenGoto(u, cg, u.bbs[i], args), lo, lo)
  {
    var d := u.bbs[i];
    var a := GenExps(u.tgt, cg.vMap, EmOf(cg), args);
    var vs := HwArgs(u.tgt, cg.regs) + a.vs;
    var tys := PhiTys(cg.blocks[d].phis);
    assert |vs| == |tys|;
    assert vs[..|vs|] == vs;
    var c := CastAll(a.em, vs, tys);
    WithEmInv(u, cg, c.em);
    EdgeInv(u, WithEm(cg, c.em), d, c.vs, Br(d));
    EndInv(u, cg, WithEm(cg, c.em), GenGoto(u, cg, d, args), lo);
  }
}
