/** The generated function is in SSA form: every temporary is set in one place, and on every path from the entry
    to a use of it. */
module SSA {
  import opened Machine
  import opened IR
  import opened Codegen
  import opened Emission
  import opened Invariants

  // ----- the property -----

  /** The temporaries that the phi nodes set. */
  function PhiIds(phis: seq<Phi>): set<nat> {
    set i | 0 <= i < |phis| :: phis[i].id
  }

  /** The temporaries that are set in a block. */
  function IdsOf(tgt: Target, b: Block): set<nat>
    requires |tgt.stkOffset| == NUM_REGS
  {
    PhiIds(b.phis) + DefSet(tgt, b.instrs)
  }

  function TermUses(t: Terminator): seq<Value> {
    match t
    case Br(_) => []
    case CondBr(v, _, _) => [v]
    case Switch(v, _, _) => [v]
    case Unreachable => []
    case TailCall(fn, args) => [fn] + args
    case RaiseOverflow(args) => args
  }

  /** No two phi nodes or instructions of the block set the same temporary. */
  ghost predicate OnceIn(tgt: Target, b: Block)
    requires |tgt.stkOffset| == NUM_REGS
  {
    && IdsDistinct(b.phis) && PhiIds(b.phis) !! DefSet(tgt, b.instrs)
    && forall k, l :: 0 <= k < l < |b.instrs| ==> Defs(tgt, b.instrs[k]) !! Defs(tgt, b.instrs[l])
  }

  /** ... nor do any two in different blocks. */
  ghost predicate SetOnce(tgt: Target, blocks: seq<Block>)
    requires |tgt.stkOffset| == NUM_REGS
  {
    && (forall d :: 0 <= d < |blocks| ==> OnceIn(tgt, blocks[d]))
    && forall d, e :: 0 <= d < e < |blocks| ==> IdsOf(tgt, blocks[d]) !! IdsOf(tgt, blocks[e])
  }

  /** The block uses nothing but what was set before it, or earlier in it. */
  ghost predicate UsesKnown(tgt: Target, before: set<nat>, b: Block)
    requires |tgt.stkOffset| == NUM_REGS
  {
    && (forall k :: 0 <= k < |b.instrs| ==>
          AllKnown(Uses(b.instrs[k]), before + PhiIds(b.phis) + DefSet(tgt, b.instrs[..k])))
    && (b.term.Some? ==> AllKnown(TermUses(b.term.value), before + IdsOf(tgt, b)))
  }

  // ----- a certificate -----

  /** What is known at the end of a block. */
  function Out(tgt: Target, before: set<nat>, b: Block): set<nat>
    requires |tgt.stkOffset| == NUM_REGS
  {
    before + IdsOf(tgt, b)
  }

  /** Edges lead only to where no more is needed than is known. */
  ghost predicate EdgesSupply(tgt: Target, blocks: seq<Block>, av: seq<set<nat>>)
    requires |tgt.stkOffset| == NUM_REGS && |av| == |blocks|
  {
    forall b: nat, d: nat :: HasEdge(blocks, b, d) && d < |blocks| ==> av[d] <= Out(tgt, av[b], blocks[b])
  }

  /** What comes into a phi node is known at the end of the predecessor. */
  ghost predicate PhiSupplied(tgt: Target, blocks: seq<Block>, av: seq<set<nat>>, phi: Phi)
    requires |tgt.stkOffset| == NUM_REGS && |av| == |blocks|
  {
    forall k :: 0 <= k < |phi.vals| && k < |phi.preds| ==>
      phi.preds[k] < |blocks| && Known(phi.vals[k], Out(tgt, av[phi.preds[k]], blocks[phi.preds[k]]))
  }

  ghost predicate PhisSupplied(tgt: Target, blocks: seq<Block>, av: seq<set<nat>>)
    requires |tgt.stkOffset| == NUM_REGS && |av| == |blocks|
  {
    forall d, i :: 0 <= d < |blocks| && 0 <= i < |blocks[d].phis| ==> PhiSupplied(tgt, blocks, av, blocks[d].phis[i])
  }

  ghost predicate IdsBelow(tgt: Target, blocks: seq<Block>, next: nat)
    requires |tgt.stkOffset| == NUM_REGS
  {
    forall d, id :: 0 <= d < |blocks| && id in IdsOf(tgt, blocks[d]) ==> id < next
  }

  ghost predicate AllUsesKnown(tgt: Target, blocks: seq<Block>, av: seq<set<nat>>)
    requires |tgt.stkOffset| == NUM_REGS && |av| == |blocks|
  {
    forall d :: 0 <= d < |blocks| ==> UsesKnown(tgt, av[d], blocks[d])
  }

  /** Each temporary below next is set at most once, and av says for each block what is known at its start. */
  ghost predicate Sound(tgt: Target, blocks: seq<Block>, av: seq<set<nat>>, next: nat) {
    && |tgt.stkOffset| == NUM_REGS && |av| == |blocks|
    && SetOnce(tgt, blocks) && IdsBelow(tgt, blocks, next)
    && AllUsesKnown(tgt, blocks, av) && EdgesSupply(tgt, blocks, av) && PhisSupplied(tgt, blocks, av)
  }

  // ----- changes -----

  lemma KnownMono(vs: seq<Value>, live: set<nat>, live': set<nat>)
    requires AllKnown(vs, live) && live <= live'
    ensures AllKnown(vs, live')
  {
    forall i | 0 <= i < |vs|
      ensures Known(vs[i], live')
    {
      assert Known(vs[i], live);
    }
  }

  lemma UsesMono(tgt: Target, before: set<nat>, before': set<nat>, b: Block)
    requires |tgt.stkOffset| == NUM_REGS && before <= before' && UsesKnown(tgt, before, b)
    ensures UsesKnown(tgt, before', b)
  {
    hide AllKnown, PhiIds, DefSet;
    forall k | 0 <= k < |b.instrs|
      ensures AllKnown(Uses(b.instrs[k]), before' + PhiIds(b.phis) + DefSet(tgt, b.instrs[..k]))
    {
      KnownMono(Uses(b.instrs[k]), before + PhiIds(b.phis) + DefSet(tgt, b.instrs[..k]),
                before' + PhiIds(b.phis) + DefSet(tgt, b.instrs[..k]));
    }
    if b.term.Some? {
      KnownMono(TermUses(b.term.value), before + IdsOf(tgt, b), before' + IdsOf(tgt, b));
    }
  }

  /** More may be known at the start of a block that nothing leads to. */
  lemma Widen(tgt: Target, blocks: seq<Block>, av: seq<set<nat>>, av': seq<set<nat>>, next: nat)
    requires Sound(tgt, blocks, av, next) && |av'| == |av| && forall d :: 0 <= d < |av| ==> av[d] <= av'[d]
    requires forall b: nat, d: nat :: HasEdge(blocks, b, d) && d < |av| ==> av'[d] == av[d]
    ensures Sound(tgt, blocks, av', next)
  {
    hide UsesKnown, IdsOf, Known, SetOnce;
    forall d | 0 <= d < |blocks|
      ensures UsesKnown(tgt, av'[d], blocks[d])
    {
      UsesMono(tgt, av[d], av'[d], blocks[d]);
    }
    OutMono(tgt, blocks, blocks, av, av');
    forall b: nat, d: nat | HasEdge(blocks, b, d) && d < |blocks|
      ensures av'[d] <= Out(tgt, av'[b], blocks[b])
    {
    }
    forall d, i | 0 <= d < |blocks| && 0 <= i < |blocks[d].phis|
      ensures PhiSupplied(tgt, blocks, av', blocks[d].phis[i])
    {
      assert PhiSupplied(tgt, blocks, av, blocks[d].phis[i]);
      StillSupplied(tgt, blocks, blocks, av, av', blocks[d].phis[i]);
    }
  }

  lemma OutMono(tgt: Target, blocks: seq<Block>, blocks': seq<Block>, av: seq<set<nat>>, av': seq<set<nat>>)
    requires |tgt.stkOffset| == NUM_REGS && |av| == |blocks| <= |blocks'| == |av'|
    requires forall d :: 0 <= d < |av| ==> av[d] <= av'[d] && IdsOf(tgt, blocks[d]) <= IdsOf(tgt, blocks'[d])
    ensures forall d :: 0 <= d < |av| ==> Out(tgt, av[d], blocks[d]) <= Out(tgt, av'[d], blocks'[d])
  {
    hide IdsOf;
  }

  lemma StillSupplied(tgt: Target, blocks: seq<Block>, blocks': seq<Block>, av: seq<set<nat>>, av': seq<set<nat>>,
                      phi: Phi)
    requires |tgt.stkOffset| == NUM_REGS && |av| == |blocks| <= |blocks'| == |av'|
    requires forall d :: 0 <= d < |av| ==> Out(tgt, av[d], blocks[d]) <= Out(tgt, av'[d], blocks'[d])
    requires PhiSupplied(tgt, blocks, av, phi)
    ensures PhiSupplied(tgt, blocks', av', phi)
  {
    hide Out;
    forall k | 0 <= k < |phi.vals| && k < |phi.preds|
      ensures phi.preds[k] < |blocks'| && Known(phi.vals[k], Out(tgt, av'[phi.preds[k]], blocks'[phi.preds[k]]))
    {
      assert Known(phi.vals[k], Out(tgt, av[phi.preds[k]], blocks[phi.preds[k]]));
    }
  }

  /** A new block that nothing leads to and that leads nowhere yet. */
  lemma AppendSound(tgt: Target, blocks: seq<Block>, av: seq<set<nat>>, next: nat, b: Block, before: set<nat>,
                    next': nat)
    requires Sound(tgt, blocks, av, next) && next <= next' && OnceIn(tgt, b) && UsesKnown(tgt, before, b)
    requires forall id :: id in IdsOf(tgt, b) ==> next <= id < next'
    requires (forall i :: 0 <= i < |b.phis| ==> b.phis[i].vals == []) && (b.term.Some? ==> Succs(b.term.value) == [])
    requires SuccsOK(blocks)
    ensures Sound(tgt, blocks + [b], av + [before], next')
  {
    hide UsesKnown, IdsOf, Known, OnceIn;
    var bs, av' := blocks + [b], av + [before];
    assert SetOnce(tgt, bs) by {
      forall d, e | 0 <= d < e < |bs|
        ensures IdsOf(tgt, bs[d]) !! IdsOf(tgt, bs[e])
      {
        if e == |blocks| {
          assert forall id :: id in IdsOf(tgt, blocks[d]) ==> id < next;
        }
      }
    }
    forall b: nat, d: nat | HasEdge(bs, b, d) && d < |bs|
      ensures av'[d] <= Out(tgt, av'[b], bs[b])
    {
      assert HasEdge(blocks, b, d);
    }
    forall d, i | 0 <= d < |bs| && 0 <= i < |bs[d].phis|
      ensures PhiSupplied(tgt, bs, av', bs[d].phis[i])
    {
      if d < |blocks| {
        assert PhiSupplied(tgt, blocks, av, blocks[d].phis[i]);
        StillSupplied(tgt, blocks, bs, av, av', blocks[d].phis[i]);
      }
    }
  }

  /** Ending a block. */
  lemma EndSound(tgt: Target, cg: CG, av: seq<set<nat>>, t: Terminator)
    requires Sound(tgt, cg.blocks, av, cg.next) && Open(cg)
    requires AllKnown(TermUses(t), Out(tgt, av[cg.cur], cg.blocks[cg.cur]))
    requires forall d :: d in Succs(t) && d < |av| ==> av[d] <= Out(tgt, av[cg.cur], cg.blocks[cg.cur])
    ensures Sound(tgt, Terminate(cg, t).blocks, av, cg.next)
  {
    hide AllKnown, PhiIds, DefSet, Known;
    var cur, bs := cg.cur, Terminate(cg, t).blocks;
    assert forall d :: 0 <= d < |bs| ==> IdsOf(tgt, bs[d]) == IdsOf(tgt, cg.blocks[d]);
    assert forall d :: 0 <= d < |bs| ==> OnceIn(tgt, cg.blocks[d]) ==> OnceIn(tgt, bs[d]);
    assert UsesKnown(tgt, av[cur], cg.blocks[cur]);
    assert UsesKnown(tgt, av[cur], bs[cur]);
    forall b: nat, d: nat | HasEdge(bs, b, d) && d < |bs|
      ensures av[d] <= Out(tgt, av[b], bs[b])
    {
      if b != cur {
        assert HasEdge(cg.blocks, b, d);
      }
    }
    forall d, i | 0 <= d < |bs| && 0 <= i < |bs[d].phis|
      ensures PhiSupplied(tgt, bs, av, bs[d].phis[i])
    {
      assert PhiSupplied(tgt, cg.blocks, av, cg.blocks[d].phis[i]);
      StillSupplied(tgt, cg.blocks, bs, av, av, cg.blocks[d].phis[i]);
    }
  }

  /** Telling phi nodes what comes in from here. */
  lemma PhisSound(tgt: Target, cg: CG, av: seq<set<nat>>, d: nat, vs: seq<Value>)
    requires Sound(tgt, cg.blocks, av, cg.next) && Open(cg) && d < |cg.blocks|
    requires AllKnown(vs, Out(tgt, av[cg.cur], cg.blocks[cg.cur])) && PhisOK(cg.blocks)
    ensures Sound(tgt, PhisFromHere(cg, d, vs).blocks, av, cg.next)
  {
    hide AllKnown, DefSet, Known, EdgeCount;
    var bs := PhisFromHere(cg, d, vs).blocks;
    SamePhiIds(cg.blocks[d].phis, vs, cg.cur);
    assert forall e :: 0 <= e < |bs| ==> IdsOf(tgt, bs[e]) == IdsOf(tgt, cg.blocks[e]);
    assert forall e :: 0 <= e < |bs| ==> OnceIn(tgt, cg.blocks[e]) ==> OnceIn(tgt, bs[e]);
    forall e | 0 <= e < |bs|
      ensures UsesKnown(tgt, av[e], bs[e])
    {
      assert UsesKnown(tgt, av[e], cg.blocks[e]);
    }
    assert forall b: nat, e: nat :: HasEdge(bs, b, e) == HasEdge(cg.blocks, b, e);
    forall e, i | 0 <= e < |bs| && 0 <= i < |bs[e].phis|
      ensures PhiSupplied(tgt, bs, av, bs[e].phis[i])
    {
      assert PhiSupplied(tgt, cg.blocks, av, cg.blocks[e].phis[i]);
      StillSupplied(tgt, cg.blocks, bs, av, av, cg.blocks[e].phis[i]);
      if e == d && i < |vs| {
        MoreSupplied(tgt, bs, av, cg.blocks[d].phis[i], vs, i, cg.cur);
      }
    }
  }

  lemma SamePhiIds(phis: seq<Phi>, vs: seq<Value>, src: nat)
    ensures var phis' := AddIncoming(phis, vs, src);
            PhiIds(phis') == PhiIds(phis) && (IdsDistinct(phis) ==> IdsDistinct(phis'))
  {
    var phis' := AddIncoming(phis, vs, src);
    forall i | 0 <= i < |phis|
      ensures phis'[i].id == phis[i].id && phis[i].id in PhiIds(phis') && phis[i].id in PhiIds(phis)
    {
      assert phis'[i].id in PhiIds(phis');
    }
  }

  lemma MoreSupplied(tgt: Target, blocks: seq<Block>, av: seq<set<nat>>, phi: Phi, vs: seq<Value>, i: nat, src: nat)
    requires |tgt.stkOffset| == NUM_REGS && |av| == |blocks| && src < |blocks| && |phi.vals| == |phi.preds|
    requires PhiSupplied(tgt, blocks, av, phi) && i < |vs| && AllKnown(vs, Out(tgt, av[src], blocks[src]))
    ensures PhiSupplied(tgt, blocks, av, phi.(vals := phi.vals + [vs[i]], preds := phi.preds + [src]))
  {
    hide Out;
  }

  // ----- the block under construction -----

  /** What ordered code is like: it sets new temporaries, ... */
  lemma {:induction false} OrderedIds(b: Blk, code: seq<Instr>, hi: nat)
    requires |b.tgt.stkOffset| == NUM_REGS && Ordered(b, code, hi)
    ensures b.lo <= hi && forall id :: id in DefSet(b.tgt, code) ==> b.lo <= id < hi
  {
    if code != [] {
      hide AllKnown, Uses;
      OrderedIds(b, code[..|code| - 1], StartOf(code[|code| - 1], hi));
    }
  }

  /** The first temporary that an instruction before hi sets. */
  function StartOf(i: Instr, hi: nat): nat {
    if i.Assign? || i.ArithWO? || i.CallGC? then i.dst else hi
  }

  /** ... no two instructions set the same one, ... */
  lemma {:induction false} OrderedOnce(b: Blk, code: seq<Instr>, hi: nat)
    requires |b.tgt.stkOffset| == NUM_REGS && Ordered(b, code, hi)
    ensures forall k, l :: 0 <= k < l < |code| ==> Defs(b.tgt, code[k]) !! Defs(b.tgt, code[l])
  {
    if code != [] {
      hide AllKnown, Uses, DefSet;
      var n := |code| - 1;
      var c, i := code[..n], code[n];
      var mid := StartOf(i, hi);
      OrderedOnce(b, c, mid);
      OrderedIds(b, c, mid);
      forall id | id in Defs(b.tgt, i)
        ensures mid <= id
      {
      }
      forall k, l | 0 <= k < l < |code|
        ensures Defs(b.tgt, code[k]) !! Defs(b.tgt, code[l])
      {
        if l == n {
          DefsIn(b.tgt, c, k);
        } else {
          assert c[k] == code[k] && c[l] == code[l];
        }
      }
    }
  }

  /** ... and it uses what is known. */
  lemma {:induction false} OrderedUses(b: Blk, code: seq<Instr>, hi: nat)
    requires |b.tgt.stkOffset| == NUM_REGS && Ordered(b, code, hi)
    ensures forall k :: 0 <= k < |code| ==> AllKnown(Uses(code[k]), b.avail + DefSet(b.tgt, code[..k]))
  {
    if code != [] {
      hide AllKnown, Uses, DefSet;
      var n := |code| - 1;
      var c := code[..n];
      OrderedUses(b, c, StartOf(code[n], hi));
      forall k | 0 <= k < |code|
        ensures AllKnown(Uses(code[k]), b.avail + DefSet(b.tgt, code[..k]))
      {
        if k < n {
          assert c[..k] == code[..k] && c[k] == code[k];
        }
      }
    }
  }

  lemma OrderedFacts(b: Blk, code: seq<Instr>, hi: nat)
    requires |b.tgt.stkOffset| == NUM_REGS && Ordered(b, code, hi)
    ensures b.lo <= hi && forall id :: id in DefSet(b.tgt, code) ==> b.lo <= id < hi
    ensures forall k, l :: 0 <= k < l < |code| ==> Defs(b.tgt, code[k]) !! Defs(b.tgt, code[l])
    ensures forall k :: 0 <= k < |code| ==> AllKnown(Uses(code[k]), b.avail + DefSet(b.tgt, code[..k]))
  {
    hide Ordered, AllKnown, Uses, Defs, DefSet;
    OrderedIds(b, code, hi);
    OrderedOnce(b, code, hi);
    OrderedUses(b, code, hi);
  }

  lemma {:induction false} DefsIn(tgt: Target, code: seq<Instr>, k: nat)
    requires |tgt.stkOffset| == NUM_REGS && k < |code|
    ensures Defs(tgt, code[k]) <= DefSet(tgt, code)
  {
    if k < |code| - 1 {
      DefsIn(tgt, code[..|code| - 1], k);
    }
  }

  /** The current block, with the temporaries that are known at its start. */
  function Here(tgt: Target, cg: CG, av: seq<set<nat>>, lo: nat): Blk
    requires cg.cur < |cg.blocks| == |av|
  {
    Blk(tgt, true, av[cg.cur] + PhiIds(cg.blocks[cg.cur].phis), lo)
  }

  ghost predicate OthersBelow(tgt: Target, cg: CG, lo: nat)
    requires |tgt.stkOffset| == NUM_REGS && cg.cur < |cg.blocks|
  {
    && (forall d, id :: 0 <= d < |cg.blocks| && d != cg.cur && id in IdsOf(tgt, cg.blocks[d]) ==> id < lo)
    && forall id :: id in PhiIds(cg.blocks[cg.cur].phis) ==> id < lo
  }

  /** Code is written at the end of the current block, which sets only temporaries from lo on. */
  ghost predicate Writing(tgt: Target, cg: CG, av: seq<set<nat>>, lo: nat) {
    && Sound(tgt, cg.blocks, av, cg.next) && Open(cg) && OthersBelow(tgt, cg, lo)
    && Ordered(Here(tgt, cg, av, lo), cg.blocks[cg.cur].instrs, cg.next)
  }

  /** More code for the current block. */
  lemma WriteCode(tgt: Target, cg: CG, av: seq<set<nat>>, lo: nat, em: Em, fits: bool)
    requires Writing(tgt, cg, av, lo) && Goes(Here(tgt, cg, av, lo), EmOf(cg), em, fits)
    ensures Writing(tgt, WithEm(cg, em), av, lo) && Here(tgt, WithEm(cg, em), av, lo) == Here(tgt, cg, av, lo)
  {
    hide AllKnown, PhiIds, DefSet, Known, Clean, Ordered;
    var cur, b, bs := cg.cur, Here(tgt, cg, av, lo), WithEm(cg, em).blocks;
    OrderedFacts(b, em.code, em.next);
    WriteOnce(tgt, cg, av, lo, em);
    WriteUses(tgt, cg, av, lo, em);
    assert Live(b, EmOf(cg)) <= Live(b, em);
    forall d | 0 <= d < |bs|
      ensures Out(tgt, av[d], cg.blocks[d]) <= Out(tgt, av[d], bs[d])
    {
    }
    forall d: nat, e: nat | HasEdge(bs, d, e) && e < |bs|
      ensures av[e] <= Out(tgt, av[d], bs[d])
    {
      assert HasEdge(cg.blocks, d, e);
    }
    forall d, i | 0 <= d < |bs| && 0 <= i < |bs[d].phis|
      ensures PhiSupplied(tgt, bs, av, bs[d].phis[i])
    {
      assert PhiSupplied(tgt, cg.blocks, av, cg.blocks[d].phis[i]);
      StillSupplied(tgt, cg.blocks, bs, av, av, cg.blocks[d].phis[i]);
    }
  }

  lemma WriteOnce(tgt: Target, cg: CG, av: seq<set<nat>>, lo: nat, em: Em)
    requires Writing(tgt, cg, av, lo) && Ordered(Here(tgt, cg, av, lo), em.code, em.next) && cg.next <= em.next
    ensures var bs := WithEm(cg, em).blocks;
            SetOnce(tgt, bs) && IdsBelow(tgt, bs, em.next) && OthersBelow(tgt, WithEm(cg, em), lo)
  {
    hide AllKnown, DefSet, Known, Ordered, UsesKnown, EdgesSupply, PhisSupplied, PhiIds;
    var cur, bs := cg.cur, WithEm(cg, em).blocks;
    OrderedFacts(Here(tgt, cg, av, lo), em.code, em.next);
    assert OnceIn(tgt, cg.blocks[cur]);
    assert OnceIn(tgt, bs[cur]) by {
      if id :| id in PhiIds(bs[cur].phis) && id in DefSet(tgt, bs[cur].instrs) {
        assert id < lo;
      }
    }
    forall d, e | 0 <= d < e < |bs|
      ensures IdsOf(tgt, bs[d]) !! IdsOf(tgt, bs[e])
    {
      assert IdsOf(tgt, cg.blocks[d]) !! IdsOf(tgt, cg.blocks[e]);
      if d == cur || e == cur {
        var o := if d == cur then e else d;
        assert forall id :: id in IdsOf(tgt, cg.blocks[o]) ==> id < lo;
      }
    }
    forall d, id | 0 <= d < |bs| && id in IdsOf(tgt, bs[d])
      ensures id < em.next
    {
      if d != cur {
        assert id in IdsOf(tgt, cg.blocks[d]);
      }
    }
  }

  lemma WriteUses(tgt: Target, cg: CG, av: seq<set<nat>>, lo: nat, em: Em)
    requires Writing(tgt, cg, av, lo) && Ordered(Here(tgt, cg, av, lo), em.code, em.next)
    ensures AllUsesKnown(tgt, WithEm(cg, em).blocks, av)
  {
    hide AllKnown, DefSet, Known, Ordered, SetOnce, EdgesSupply, PhisSupplied, PhiIds;
    var bs := WithEm(cg, em).blocks;
    OrderedFacts(Here(tgt, cg, av, lo), em.code, em.next);
    forall d | 0 <= d < |bs|
      ensures UsesKnown(tgt, av[d], bs[d])
    {
      assert UsesKnown(tgt, av[d], cg.blocks[d]);
    }
  }

  /** Going on in an empty block. */
  lemma StartWriting(tgt: Target, cg: CG, av: seq<set<nat>>)
    requires Sound(tgt, cg.blocks, av, cg.next) && Open(cg) && cg.blocks[cg.cur].instrs == []
    ensures Writing(tgt, cg, av, cg.next)
  {
    hide AllKnown, Known, EdgesSupply, PhisSupplied, PhiIds, UsesKnown;
    assert forall id :: id in PhiIds(cg.blocks[cg.cur].phis) ==> id in IdsOf(tgt, cg.blocks[cg.cur]);
  }
}
