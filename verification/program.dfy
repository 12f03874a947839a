/** Whole programs: clusters that call one another. The calls that the generated functions make of
    one another are those that the clusters make in the CFG. */
module Programs {
  import opened Machine
  import opened CFG
  import opened IR
  import opened Codegen
  import opened Simulate
  import opened ClusterGen
  import opened Preservation

  /** The clusters of a program, by the label of their entry. */
  datatype Program = Program(m: Machine, fns: Fns, clusters: map<Lvar, Cluster>) {
    ghost predicate Valid() {
      && m.tgt.Valid() && fns.Keys == clusters.Keys
      && (forall lab :: lab in clusters ==>
            && WellFormedCluster(m.tgt, fns, clusters[lab]) && clusters[lab][0].lab == lab
            && fns[lab] == FnInfo(clusters[lab][0].kind, ParamTys(clusters[lab][0].params)))
      && (forall lab, lab' :: lab in clusters && lab' in clusters && m.ops.fnAddr(lab) == m.ops.fnAddr(lab')
            ==> lab == lab')
    }

    /** A call of one of the clusters. */
    ghost predicate Calls(c: Call) {
      c.Valid() && c.m == m && c.fns == fns && c.cl[0].lab in clusters && c.cl == clusters[c.cl[0].lab]
    }
  }

  /** The address that a call of this cluster goes to. */
  function Address(c: Call): Val
    requires c.cl != []
  {
    c.m.ops.fnAddr(c.cl[0].lab)
  }

  /** The outcome is a transfer to the entry of c': with its registers and memory, and with what the
      calling convention of the transfer puts in front of its arguments. */
  ghost predicate Passes(o: Outcome, c': Call)
    requires c'.Valid()
  {
    && o.Transfer? && o.fn == Address(c') && o.regs == c'.regs && o.mem == c'.mem
    && UnusedVals(c'.m, o.kind) + o.args == c'.unused + c'.args
  }

  /** In the CFG, c ends with the call c'. */
  ghost predicate SourceLink(c: Call, c': Call)
    requires c.Valid() && c'.Valid()
  {
    exists k: nat :: c.Source(k).Finished? && Passes(c.Source(k).outcome, c')
  }

  /** What the generated function of c' is called with. */
  function Calling(c': Call): TOutcome
    requires |c'.m.tgt.stkOffset| == NUM_REGS == |c'.regs| && c'.cl != []
  {
    Called(Address(c'), c'.FArgs(), StackOf(c'.m.tgt, c'.regs), c'.mem)
  }

  /** The generated function for c ends with a call of the one for c'. */
  ghost predicate TargetLink(c: Call, c': Call)
    requires c.Valid() && c'.Valid()
  {
    exists n: nat :: c.Run(n) == Done(Calling(c'))
  }

  lemma SameHw(tgt: Target, regs: seq<Val>, rest: seq<Val>, regs': seq<Val>, rest': seq<Val>)
    requires tgt.Valid() && |regs| == NUM_REGS == |regs'| && StackOf(tgt, regs) == StackOf(tgt, regs')
    requires HwVals(tgt, regs) + rest == HwVals(tgt, regs') + rest'
    ensures regs == regs' && rest == rest'
  {
    hide HwVals, StackOf, Gather;
    var hw, hw' := HwVals(tgt, regs), HwVals(tgt, regs');
    SameLength(tgt, regs, regs');
    assert hw == (hw + rest)[..|hw|] && hw' == (hw' + rest')[..|hw|];
    assert rest == (hw + rest)[|hw|..] && rest' == (hw' + rest')[|hw|..];
    GatherSplit(tgt, regs);
    GatherSplit(tgt, regs');
  }

  lemma SameLength(tgt: Target, regs: seq<Val>, regs': seq<Val>)
    requires |tgt.stkOffset| == NUM_REGS && |regs| == NUM_REGS == |regs'|
    ensures |HwVals(tgt, regs)| == |HwVals(tgt, regs')|
  {
  }

  /** The generated code shows exactly the transfers to c' as calls of its function. */
  lemma ObservePasses(c': Call, o: Outcome)
    requires c'.Valid() && (o.Transfer? ==> |o.regs| == NUM_REGS) && (o.Overflow? ==> |o.regs| == NUM_REGS)
    ensures Observe(c'.m, o) == Calling(c') <==> Passes(o, c')
  {
    hide HwVals, StackOf, UnusedVals, Call.Valid;
    CallTarget(c');
    var tgt := c'.m.tgt;
    if o.Transfer? {
      var hw, us := HwVals(tgt, o.regs), UnusedVals(c'.m, o.kind);
      assert hw + us + o.args == hw + (us + o.args);
      assert c'.FArgs() == HwVals(tgt, c'.regs) + (c'.unused + c'.args);
      if Observe(c'.m, o) == Calling(c') {
        SameHw(tgt, o.regs, us + o.args, c'.regs, c'.unused + c'.args);
      }
    }
  }

  lemma CallTarget(c: Call)
    requires c.Valid()
    ensures c.m.tgt.Valid() && |c.regs| == NUM_REGS && c.cl != []
  {
  }

  /** Both levels make the same calls. */
  lemma LinksAgree(c: Call, c': Call)
    requires c.Valid() && c'.Valid() && c.m == c'.m
    ensures SourceLink(c, c') <==> TargetLink(c, c')
  {
    hide Observe, Passes, Call.Valid, Call.Source, Call.Run;
    CallTarget(c);
    CallTarget(c');
    MeaningPreserved(c, Calling(c'));
    if SourceLink(c, c') {
      var k: nat :| c.Source(k).Finished? && Passes(c.Source(k).outcome, c');
      PassedRegs(c.Source(k).outcome, c');
      ObservePasses(c', c.Source(k).outcome);
      assert SourceEnds(c, k, Calling(c'));
    }
    if TargetLink(c, c') {
      var k: nat :| SourceEnds(c, k, Calling(c'));
      ObservePasses(c', c.Source(k).outcome);
    }
  }

  lemma PassedRegs(o: Outcome, c': Call)
    requires c'.Valid() && Passes(o, c')
    ensures o.Transfer? && |o.regs| == NUM_REGS
  {
  }

  /** The generated code decides what is called next, and how. */
  lemma NextCallUnique(p: Program, c: Call, c1: Call, c2: Call)
    requires p.Valid() && p.Calls(c) && p.Calls(c1) && p.Calls(c2) && TargetLink(c, c1) && TargetLink(c, c2)
    ensures c1 == c2
  {
    hide HwVals, StackOf, GenCluster, RunBlocks;
    var n1: nat :| c.Run(n1) == Done(Calling(c1));
    var n2: nat :| c.Run(n2) == Done(Calling(c2));
    var e := Entry(c.m, c.regs, c.mem);
    if n1 <= n2 {
      RunBlocksDone(c.m, c.FArgs(), c.Fin(), n1, n2, e);
    } else {
      RunBlocksDone(c.m, c.FArgs(), c.Fin(), n2, n1, e);
    }
    SameCalling(c1, c2);
  }

  lemma SameCalling(c1: Call, c2: Call)
    requires c1.Valid() && c2.Valid() && c1.m == c2.m && c1.fns == c2.fns && c1.cl == c2.cl
             && Calling(c1) == Calling(c2)
    ensures c1 == c2
  {
    hide HwVals, StackOf;
    var tgt := c1.m.tgt;
    assert c1.FArgs() == HwVals(tgt, c1.regs) + (c1.unused + c1.args);
    assert c2.FArgs() == HwVals(tgt, c2.regs) + (c2.unused + c2.args);
    SameHw(tgt, c1.regs, c1.unused + c1.args, c2.regs, c2.unused + c2.args);
    var n := |c1.unused|;
    assert c1.unused == (c1.unused + c1.args)[..n] && c2.unused == (c2.unused + c2.args)[..n];
    assert c1.args == (c1.unused + c1.args)[n..] && c2.args == (c2.unused + c2.args)[n..];
  }

  // ----- runs of programs -----

  /** Calls that follow one another in the CFG. */
  ghost predicate SourceTrace(p: Program, cs: seq<Call>) {
    && cs != [] && (forall i :: 0 <= i < |cs| ==> p.Calls(cs[i]))
    && forall i :: 0 < i < |cs| ==> SourceLink(cs[i - 1], cs[i])
  }

  /** Calls that follow one another in the generated code. */
  ghost predicate TargetTrace(p: Program, cs: seq<Call>) {
    && cs != [] && (forall i :: 0 <= i < |cs| ==> p.Calls(cs[i]))
    && forall i :: 0 < i < |cs| ==> TargetLink(cs[i - 1], cs[i])
  }

  lemma TracesAgree(p: Program, cs: seq<Call>)
    requires p.Valid()
    ensures SourceTrace(p, cs) <==> TargetTrace(p, cs)
  {
    hide SourceLink, TargetLink;
    if cs != [] && forall i :: 0 <= i < |cs| ==> p.Calls(cs[i]) {
      forall i | 0 < i < |cs|
        ensures SourceLink(cs[i - 1], cs[i]) <==> TargetLink(cs[i - 1], cs[i])
      {
        assert p.Calls(cs[i - 1]) && p.Calls(cs[i]);
        LinksAgree(cs[i - 1], cs[i]);
      }
    }
  }

  ghost predicate SourceFinishes(c: Call, o: TOutcome)
    requires c.Valid()
  {
    exists k: nat :: SourceEnds(c, k, o)
  }

  ghost predicate TargetFinishes(c: Call, o: TOutcome)
    requires c.Valid()
  {
    exists n: nat :: c.Run(n) == Done(o)
  }

  ghost predicate NeverStuck(c: Call)
    requires c.Valid()
  {
    forall n: nat :: c.Run(n) != Stuck
  }

  /** From the call c on, the program ends with the outcome o in the last call of cs. */
  ghost predicate SourceReaches(p: Program, c: Call, cs: seq<Call>, o: TOutcome) {
    SourceTrace(p, cs) && cs[0] == c && SourceFinishes(cs[|cs| - 1], o)
  }

  ghost predicate TargetReaches(p: Program, c: Call, cs: seq<Call>, o: TOutcome) {
    TargetTrace(p, cs) && cs[0] == c && TargetFinishes(cs[|cs| - 1], o)
  }

  /** Meaning preservation for programs. Over any number of calls, the generated code passes through
      the same calls as the CFG and ends in the same way, or goes on forever like it; and it never
      gets stuck. */
  lemma ProgramPreserved(p: Program, c: Call, cs: seq<Call>, o: TOutcome)
    requires p.Valid() && p.Calls(c)
    ensures SourceReaches(p, c, cs, o) <==> TargetReaches(p, c, cs, o)
    ensures TargetTrace(p, cs) ==> NeverStuck(cs[|cs| - 1])
  {
    hide SourceEnds, Call.Run, Call.Valid;
    TracesAgree(p, cs);
    if TargetTrace(p, cs) {
      assert p.Calls(cs[|cs| - 1]);
      MeaningPreserved(cs[|cs| - 1], o);
    }
  }

  // ----- direct calls -----

  /** The call that APPLY or THROW makes of a known cluster. */
  function DirectCall(p: Program, lab: Lvar, vals: seq<Val>, st: State): Call
    requires lab in p.clusters && lab in p.fns
  {
    Call(p.m, p.fns, p.clusters[lab], vals, st.regs, UnusedVals(p.m, p.fns[lab].kind), st.mem)
  }

  /** A call or throw to a label always reaches the labelled cluster, with its own calling convention
      and with as many arguments as it has parameters. */
  lemma DirectCallPasses(p: Program, cl: Cluster, s: Stm, scope: set<Lvar>, st: State)
    requires p.Valid() && |st.regs| == NUM_REGS && WellFormed(p.m.tgt, p.fns, cl, s, scope)
    requires (s.APPLY? || s.THROW?) && s.f.LABEL?
    ensures s.f.lab in p.clusters && RunStm(p.m, p.fns, s, st).Halt?
    ensures var c' := DirectCall(p, s.f.lab, EvalAll(p.m, s.args, st), st);
            p.Calls(c') && Passes(RunStm(p.m, p.fns, s, st).outcome, c')
  {
    assert Scoped(p.fns, s.f, scope);
    var lab := s.f.lab;
    assert lab in p.fns.Keys;
    assert WellFormedCluster(p.m.tgt, p.fns, p.clusters[lab]) && p.clusters[lab][0].lab == lab;
  }
}
