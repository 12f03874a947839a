/** A pass over the source that finds the types of all values, and three verdicts: whether jumps pass values
    that can be converted to the types of the phi nodes, whether overflow checks find pointers in the
    hardware registers, and whether all conversions are between pointers and integers. */
module SourceTypes {
  import opened Machine
  import opened CFG
  import opened Codegen
  import opened ValueTypes
  import opened Structure
  import opened ClusterGen

  /** The types of the hardware registers, as every jump passes them. */
  function HwTys(tgt: Target, regs: seq<Option<Ty>>): (tys: seq<Ty>)
    requires |tgt.stkOffset| == NUM_REGS == |regs|
    ensures |tys| == |tgt.Hw()|
  {
    seq(|tgt.Hw()|, i requires 0 <= i < |tgt.Hw()| => RegTy(regs[tgt.Hw()[i]]))
  }

  predicate HoldsPointers(tgt: Target, regs: seq<Option<Ty>>)
    requires |tgt.stkOffset| == NUM_REGS == |regs|
  {
    forall i :: 0 <= i < |tgt.Hw()| ==> HwTys(tgt, regs)[i] == PTR
  }

  /** The types of a fragment's phi nodes; only internal fragments have any. */
  function EntryTys(tgt: Target, f: Frag): seq<Ty>
    requires |tgt.stkOffset| == NUM_REGS
  {
    if f.kind == INTERNAL then FragTys(tgt, f) else []
  }

  function LetAfter(t: Types, e: Exp, x: Lvar): (t': Types)
    requires |t.regs| == NUM_REGS
    ensures |t'.regs| == NUM_REGS
  {
    t.(vars := InsertTy(t.vars, x, ExpTy(t, e)), fits := t.fits && ExpFits(t, e))
  }

  function AllocAfter(t: Types, alloc: AllocOp, args: seq<Exp>, x: Lvar): (t': Types)
    requires |t.regs| == NUM_REGS
    ensures |t'.regs| == NUM_REGS
  {
    t.(vars := InsertTy(t.vars, x, PTR), regs := SetReg(t.regs, ALLOC_PTR, PTR),
       fits := t.fits && AllFit(t, args) && AllocFits(alloc, ArgTys(t, args)))
  }

  /** The arguments of a call can be converted to the types of the parameters. */
  predicate ArgsFit(t: Types, args: seq<Exp>, tys: seq<Ty>)
    requires |t.regs| == NUM_REGS
  {
    var es := args[..if |args| <= |tys| then |args| else |tys|];
    AllFit(t, es) && CastsFit(ArgTys(t, es), tys)
  }

  /** A callee that is not a label must be a pointer. */
  function CallAfter(fns: Fns, t: Types, f: Exp, args: seq<Exp>, tys: seq<Ty>): (t': Types)
    requires |t.regs| == NUM_REGS
    ensures |t'.regs| == NUM_REGS
  {
    t.(fits := t.fits && if f.LABEL? && f.lab in fns then ArgsFit(t, args, fns[f.lab].paramTys)
                         else ExpFits(t, f) && ExpTy(t, f) == PTR && ArgsFit(t, args, tys))
  }

  /** Registers and arguments can be converted to the types of the phi nodes. */
  predicate JumpFits(tgt: Target, cl: Cluster, t: Types, i: nat, args: seq<Exp>)
    requires |tgt.stkOffset| == NUM_REGS == |t.regs| && i < |cl|
  {
    CastsFit(HwTys(tgt, t.regs) + ArgTys(t, args), EntryTys(tgt, cl[i]))
  }

  function GotoAfter(tgt: Target, cl: Cluster, t: Types, lab: Lvar, args: seq<Exp>): (t': Types)
    requires |tgt.stkOffset| == NUM_REGS == |t.regs|
    ensures |t'.regs| == NUM_REGS
  {
    var d := FindFrag(cl, lab);
    if d.None? then t
    else
      var ok := JumpFits(tgt, cl, t, d.value, args);
      t.(gotos := t.gotos && ok, fits := t.fits && AllFit(t, args) && ok)
  }

  /** Checked arithmetic wants pointers in the hardware registers. */
  function ArithAfter(tgt: Target, t: Types, arith: ArithOp, args: seq<Exp>, x: Lvar): (t': Types)
    requires |tgt.stkOffset| == NUM_REGS == |t.regs|
    ensures |t'.regs| == NUM_REGS
  {
    t.(vars := InsertTy(t.vars, x, LLTy(INT(arith.sz))),
       checks := t.checks && (arith.checked ==> HoldsPointers(tgt, t.regs)),
       fits := t.fits && AllFit(t, args))
  }

  function SetterAfter(t: Types, setter: SetterOp, args: seq<Exp>): (t': Types)
    requires |t.regs| == NUM_REGS
    ensures |t'.regs| == NUM_REGS
  {
    t.(regs := SetterRegs(t.regs, setter, ArgTys(t, args)),
       fits := t.fits && AllFit(t, args) && SetterFits(setter, ArgTys(t, args)))
  }

  function GcAfter(tgt: Target, t: Types, roots: seq<Exp>, xs: seq<Lvar>): (t': Types)
    requires |tgt.stkOffset| == NUM_REGS == |t.regs|
    ensures |t'.regs| == NUM_REGS
  {
    t.(vars := InsertTys(t.vars, xs, Ptrs(|xs|)), regs := GcRegTys(tgt, t.regs, NUM_REGS),
       fits := t.fits && AllFit(t, roots) && AllPoint(ArgTys(t, roots)))
  }

  /** The types and the verdicts after s. */
  function Flow(tgt: Target, fns: Fns, cl: Cluster, t: Types, s: Stm): (t': Types)
    requires |tgt.stkOffset| == NUM_REGS == |t.regs|
    ensures |t'.regs| == NUM_REGS
    decreases s
  {
    match s
    case LET(e, p, k) => Flow(tgt, fns, cl, LetAfter(t, e, p.name), k)
    case ALLOC(alloc, args, x, k) => Flow(tgt, fns, cl, AllocAfter(t, alloc, args, x), k)
    case APPLY(f, args, tys) => CallAfter(fns, t, f, args, tys)
    case THROW(f, args, tys) => CallAfter(fns, t, f, args, tys)
    case GOTO(lab, args) => GotoAfter(tgt, cl, t, lab, args)
    case SWITCH(e, arms, _) => FlowArms(tgt, fns, cl, t.(fits := t.fits && ExpFits(t, e)), arms)
    case BRANCH(_, args, tArm, fArm, _, _) =>
      var t1 := Flow(tgt, fns, cl, t.(fits := t.fits && AllFit(t, args)), tArm);
      Flow(tgt, fns, cl, t1.(regs := t.regs), fArm)
    case ARITH(arith, args, p, k) => Flow(tgt, fns, cl, ArithAfter(tgt, t, arith, args, p.name), k)
    case SETTER(setter, args, k) => Flow(tgt, fns, cl, SetterAfter(t, setter, args), k)
    case CALLGC(roots, xs, k) => Flow(tgt, fns, cl, GcAfter(tgt, t, roots, xs), k)
  }

  function FlowArms(tgt: Target, fns: Fns, cl: Cluster, t: Types, arms: seq<Stm>): (t': Types)
    requires |tgt.stkOffset| == NUM_REGS == |t.regs|
    ensures |t'.regs| == NUM_REGS
    decreases arms
  {
    if arms == [] then t
    else
      Flow(tgt, fns, cl, FlowArms(tgt, fns, cl, t, arms[..|arms| - 1]).(regs := t.regs), arms[|arms| - 1])
  }

  function LLTys(params: seq<Param>): (tys: seq<Ty>)
    ensures |tys| == |params|
  {
    seq(|params|, i requires 0 <= i < |params| => LLTy(params[i].ty))
  }

  /** Hardware registers start as pointers. */
  function StartRegs(tgt: Target): (regs: seq<Option<Ty>>)
    requires |tgt.stkOffset| == NUM_REGS
    ensures |regs| == NUM_REGS
  {
    seq(NUM_REGS, r requires 0 <= r < NUM_REGS => if tgt.IsMachine(r) then Some(PTR) else None)
  }

  /** At the start of a fragment. */
  function FragTypes(tgt: Target, f: Frag): (t: Types)
    requires |tgt.stkOffset| == NUM_REGS
    ensures |t.regs| == NUM_REGS
  {
    Types(InsertTys(map[], Names(f.params), LLTys(f.params)),
          StartRegs(tgt), true, true, true)
  }

  /** At the end of all paths through it. */
  function Verdict(tgt: Target, fns: Fns, cl: Cluster, f: Frag): (t: Types)
    requires |tgt.stkOffset| == NUM_REGS
  {
    Flow(tgt, fns, cl, FragTypes(tgt, f), f.body)
  }

  /** Every jump passes values that can be converted to the types of the target's phi nodes. */
  predicate JumpsConvert(tgt: Target, fns: Fns, cl: Cluster)
    requires |tgt.stkOffset| == NUM_REGS
  {
    forall i :: 0 <= i < |cl| ==> Verdict(tgt, fns, cl, cl[i]).gotos
  }

  /** Every overflow check finds pointers in the hardware registers. */
  predicate ChecksFindPointers(tgt: Target, fns: Fns, cl: Cluster)
    requires |tgt.stkOffset| == NUM_REGS
  {
    forall i :: 0 <= i < |cl| ==> Verdict(tgt, fns, cl, cl[i]).checks
  }

  /** Every conversion, at jumps, calls or uses as a pointer, is between pointers and integers. */
  predicate AllConvert(tgt: Target, fns: Fns, cl: Cluster)
    requires |tgt.stkOffset| == NUM_REGS
  {
    forall i :: 0 <= i < |cl| ==> Verdict(tgt, fns, cl, cl[i]).fits
  }

  // ----- numbering -----

  /** Numbering the arms changes no type and no verdict. */
  lemma {:induction false} FlowInit(tgt: Target, fns: Fns, cl: Cluster, cl': Cluster, t: Types, s: Stm, n: nat)
    requires |tgt.stkOffset| == NUM_REGS == |t.regs| && SameHeaders(cl, cl')
    ensures Flow(tgt, fns, cl', t, InitStm(s, n).s) == Flow(tgt, fns, cl, t, s)
    decreases s
  {
    hide LetAfter, AllocAfter, CallAfter, ArithAfter, SetterAfter, GcAfter, SameHeaders, InitSwitch, AllFit, ExpFits,
         FindFrag;
    match s
    case LET(e, p, k) => FlowInit(tgt, fns, cl, cl', LetAfter(t, e, p.name), k, n);
    case ALLOC(alloc, args, x, k) => FlowInit(tgt, fns, cl, cl', AllocAfter(t, alloc, args, x), k, n);
    case SWITCH(e, arms, _) => FlowInitArms(tgt, fns, cl, cl', t.(fits := t.fits && ExpFits(t, e)), arms, n);
    case BRANCH(_, args, tArm, fArm, _, _) =>
      var t0 := t.(fits := t.fits && AllFit(t, args));
      FlowInit(tgt, fns, cl, cl', t0, tArm, n + 1);
      FlowInit(tgt, fns, cl, cl', Flow(tgt, fns, cl, t0, tArm).(regs := t.regs), fArm, InitStm(tArm, n + 1).n + 1);
    case ARITH(arith, args, p, k) => FlowInit(tgt, fns, cl, cl', ArithAfter(tgt, t, arith, args, p.name), k, n);
    case SETTER(setter, args, k) => FlowInit(tgt, fns, cl, cl', SetterAfter(t, setter, args), k, n);
    case CALLGC(roots, xs, k) => FlowInit(tgt, fns, cl, cl', GcAfter(tgt, t, roots, xs), k, n);
    case GOTO(lab, args) => SameGoto(tgt, cl, cl', t, lab, args);
    case _ =>
  }

  lemma SameGoto(tgt: Target, cl: Cluster, cl': Cluster, t: Types, lab: Lvar, args: seq<Exp>)
    requires |tgt.stkOffset| == NUM_REGS == |t.regs| && SameHeaders(cl, cl')
    ensures GotoAfter(tgt, cl', t, lab, args) == GotoAfter(tgt, cl, t, lab, args)
  {
    SameTarget(cl, cl', lab);
  }

  lemma {:induction false} FlowInitArms(tgt: Target, fns: Fns, cl: Cluster, cl': Cluster, t: Types, arms: seq<Stm>,
                                        n: nat)
    requires |tgt.stkOffset| == NUM_REGS == |t.regs| && SameHeaders(cl, cl')
    ensures FlowArms(tgt, fns, cl', t, InitSwitch(arms, n).arms) == FlowArms(tgt, fns, cl, t, arms)
    decreases arms
  {
    hide InitSwitch, InitStm, Flow, SameHeaders;
    if arms == [] {
      InitSwitchEmpty(n);
    } else {
      var last := |arms| - 1;
      InitSwitchSplit(arms, n);
      FlowInitArms(tgt, fns, cl, cl', t, arms[..last], n);
      FlowInit(tgt, fns, cl, cl', FlowArms(tgt, fns, cl, t, arms[..last]).(regs := t.regs), arms[last],
               InitSwitch(arms[..last], n).n + 1);
    }
  }

  // ----- verdicts add up -----

  function Fresh(t: Types): Types {
    t.(gotos := true, checks := true, fits := true)
  }

  function Both(t: Types, r: Types): Types {
    r.(gotos := t.gotos && r.gotos, checks := t.checks && r.checks, fits := t.fits && r.fits)
  }

  lemma {:induction false} FreshFits(t: Types, e: Exp)
    requires |t.regs| == NUM_REGS
    ensures ExpFits(Fresh(t), e) == ExpFits(t, e) && ExpTy(Fresh(t), e) == ExpTy(t, e)
    decreases e
  {
    match e
    case LOOKER(_, args) => AllFresh(t, args);
    case PURE(_, args) => AllFresh(t, args);
    case SELECT(_, arg) => FreshFits(t, arg);
    case _ =>
  }

  lemma {:induction false} AllFresh(t: Types, es: seq<Exp>)
    requires |t.regs| == NUM_REGS
    ensures AllFit(Fresh(t), es) == AllFit(t, es) && ArgTys(Fresh(t), es) == ArgTys(t, es)
    decreases es
  {
    if es != [] {
      var n := |es| - 1;
      AllFresh(t, es[..n]);
      FreshFits(t, es[n]);
      ArgTysInit(t, es);
      ArgTysInit(Fresh(t), es);
      assert ArgTys(t, es) == ArgTys(t, es)[..n] + [ArgTys(t, es)[n]];
      assert ArgTys(Fresh(t), es) == ArgTys(Fresh(t), es)[..n] + [ArgTys(Fresh(t), es)[n]];
    }
  }

  lemma LetVerdict(t: Types, e: Exp, x: Lvar)
    requires |t.regs| == NUM_REGS
    ensures LetAfter(t, e, x) == Both(t, LetAfter(Fresh(t), e, x))
  {
    hide ExpFits, ExpTy;
    FreshFits(t, e);
  }

  lemma AllocVerdict(t: Types, alloc: AllocOp, args: seq<Exp>, x: Lvar)
    requires |t.regs| == NUM_REGS
    ensures AllocAfter(t, alloc, args, x) == Both(t, AllocAfter(Fresh(t), alloc, args, x))
  {
    hide AllFit, ArgTys, AllocFits;
    AllFresh(t, args);
  }

  lemma CallVerdict(fns: Fns, t: Types, f: Exp, args: seq<Exp>, tys: seq<Ty>)
    requires |t.regs| == NUM_REGS
    ensures CallAfter(fns, t, f, args, tys) == Both(t, CallAfter(fns, Fresh(t), f, args, tys))
  {
    hide AllFit, ArgTys, CastsFit, ExpFits, ExpTy;
    FreshFits(t, f);
    AllFresh(t, args[..if |args| <= |tys| then |args| else |tys|]);
    if f.LABEL? && f.lab in fns {
      var tys' := fns[f.lab].paramTys;
      AllFresh(t, args[..if |args| <= |tys'| then |args| else |tys'|]);
    }
  }

  lemma GotoVerdict(tgt: Target, cl: Cluster, t: Types, lab: Lvar, args: seq<Exp>)
    requires |tgt.stkOffset| == NUM_REGS == |t.regs|
    ensures GotoAfter(tgt, cl, t, lab, args) == Both(t, GotoAfter(tgt, cl, Fresh(t), lab, args))
  {
    hide AllFit, ArgTys, CastsFit, EntryTys, HwTys;
    AllFresh(t, args);
  }

  lemma ArithVerdict(tgt: Target, t: Types, arith: ArithOp, args: seq<Exp>, x: Lvar)
    requires |tgt.stkOffset| == NUM_REGS == |t.regs|
    ensures ArithAfter(tgt, t, arith, args, x) == Both(t, ArithAfter(tgt, Fresh(t), arith, args, x))
  {
    hide AllFit, HoldsPointers;
    AllFresh(t, args);
  }

  lemma SetterVerdict(t: Types, setter: SetterOp, args: seq<Exp>)
    requires |t.regs| == NUM_REGS
    ensures SetterAfter(t, setter, args) == Both(t, SetterAfter(Fresh(t), setter, args))
  {
    hide AllFit, ArgTys, SetterFits, SetterRegs;
    AllFresh(t, args);
  }

  lemma GcVerdict(tgt: Target, t: Types, roots: seq<Exp>, xs: seq<Lvar>)
    requires |tgt.stkOffset| == NUM_REGS == |t.regs|
    ensures GcAfter(tgt, t, roots, xs) == Both(t, GcAfter(tgt, Fresh(t), roots, xs))
  {
    hide AllFit, ArgTys, AllPoint, GcRegTys;
    AllFresh(t, roots);
  }

  /** What a statement adds to the verdicts does not depend on the verdicts before. */
  lemma {:induction false} FlowVerdict(tgt: Target, fns: Fns, cl: Cluster, t: Types, s: Stm)
    requires |tgt.stkOffset| == NUM_REGS == |t.regs|
    ensures Flow(tgt, fns, cl, t, s) == Both(t, Flow(tgt, fns, cl, Fresh(t), s))
    decreases s, 1
  {
    hide LetAfter, AllocAfter, CallAfter, GotoAfter, ArithAfter, SetterAfter, GcAfter, FlowArms, Both, Fresh;
    FreshRegs(t);
    match s
    case LET(e, p, k) =>
      LetVerdict(t, e, p.name);
      StepVerdict(tgt, fns, cl, t, LetAfter(t, e, p.name), LetAfter(Fresh(t), e, p.name), k);
    case ALLOC(alloc, args, x, k) =>
      AllocVerdict(t, alloc, args, x);
      StepVerdict(tgt, fns, cl, t, AllocAfter(t, alloc, args, x), AllocAfter(Fresh(t), alloc, args, x), k);
    case APPLY(f, args, tys) => CallVerdict(fns, t, f, args, tys);
    case THROW(f, args, tys) => CallVerdict(fns, t, f, args, tys);
    case GOTO(lab, args) => GotoVerdict(tgt, cl, t, lab, args);
    case SWITCH(_, _, _) => SwitchVerdict(tgt, fns, cl, t, s);
    case BRANCH(_, _, _, _, _, _) => BranchVerdict(tgt, fns, cl, t, s);
    case ARITH(arith, args, p, k) =>
      ArithVerdict(tgt, t, arith, args, p.name);
      StepVerdict(tgt, fns, cl, t, ArithAfter(tgt, t, arith, args, p.name),
                  ArithAfter(tgt, Fresh(t), arith, args, p.name), k);
    case SETTER(setter, args, k) =>
      SetterVerdict(t, setter, args);
      StepVerdict(tgt, fns, cl, t, SetterAfter(t, setter, args), SetterAfter(Fresh(t), setter, args), k);
    case CALLGC(roots, xs, k) =>
      GcVerdict(tgt, t, roots, xs);
      StepVerdict(tgt, fns, cl, t, GcAfter(tgt, t, roots, xs), GcAfter(tgt, Fresh(t), roots, xs), k);
  }

  lemma FreshRegs(t: Types)
    ensures Fresh(t).regs == t.regs
  {
  }

  lemma {:induction false} SwitchVerdict(tgt: Target, fns: Fns, cl: Cluster, t: Types, s: Stm)
    requires |tgt.stkOffset| == NUM_REGS == |t.regs| && s.SWITCH?
    ensures Flow(tgt, fns, cl, t, s) == Both(t, Flow(tgt, fns, cl, Fresh(t), s))
    decreases s, 0
  {
    hide ExpFits, FlowArms;
    FreshFits(t, s.e);
    ArmsVerdict(tgt, fns, cl, t.(fits := t.fits && ExpFits(t, s.e)), s.arms);
    ArmsVerdict(tgt, fns, cl, Fresh(t).(fits := ExpFits(t, s.e)), s.arms);
  }

  lemma {:induction false} BranchVerdict(tgt: Target, fns: Fns, cl: Cluster, t: Types, s: Stm)
    requires |tgt.stkOffset| == NUM_REGS == |t.regs| && s.BRANCH?
    ensures Flow(tgt, fns, cl, t, s) == Both(t, Flow(tgt, fns, cl, Fresh(t), s))
    decreases s, 0
  {
    hide AllFit, FlowArms;
    AllFresh(t, s.args);
    var t0, r0 := t.(fits := t.fits && AllFit(t, s.args)), Fresh(t).(fits := AllFit(t, s.args));
    StepVerdict(tgt, fns, cl, t, t0, r0, s.tArm);
    StepVerdict(tgt, fns, cl, t, Flow(tgt, fns, cl, t0, s.tArm).(regs := t.regs),
                Flow(tgt, fns, cl, r0, s.tArm).(regs := t.regs), s.fArm);
  }

  /** A statement, after a step that adds to the verdicts of t what it adds to none. */
  lemma {:induction false} StepVerdict(tgt: Target, fns: Fns, cl: Cluster, t: Types, t1: Types, r: Types, s: Stm)
    requires |tgt.stkOffset| == NUM_REGS == |t1.regs| && t1 == Both(t, r)
    ensures Flow(tgt, fns, cl, t1, s) == Both(t, Flow(tgt, fns, cl, r, s))
    decreases s, 2
  {
    hide Flow;
    FlowVerdict(tgt, fns, cl, t1, s);
    FlowVerdict(tgt, fns, cl, r, s);
  }

  lemma {:induction false} ArmsVerdict(tgt: Target, fns: Fns, cl: Cluster, t: Types, arms: seq<Stm>)
    requires |tgt.stkOffset| == NUM_REGS == |t.regs|
    ensures FlowArms(tgt, fns, cl, t, arms) == Both(t, FlowArms(tgt, fns, cl, Fresh(t), arms))
    decreases arms, 1
  {
    hide Flow;
    if arms != [] {
      var n := |arms| - 1;
      ArmsVerdict(tgt, fns, cl, t, arms[..n]);
      StepVerdict(tgt, fns, cl, t, FlowArms(tgt, fns, cl, t, arms[..n]).(regs := t.regs),
                  FlowArms(tgt, fns, cl, Fresh(t), arms[..n]).(regs := t.regs), arms[n]);
    }
  }

  /** Jumps are among the conversions. */
  lemma {:induction false} FitsJump(tgt: Target, fns: Fns, cl: Cluster, t: Types, s: Stm)
    requires |tgt.stkOffset| == NUM_REGS == |t.regs| && (t.fits ==> t.gotos)
    ensures Flow(tgt, fns, cl, t, s).fits ==> Flow(tgt, fns, cl, t, s).gotos
    decreases s
  {
    hide AllFit, ExpFits, ArgTys, ExpTy, AllocFits, SetterFits, JumpFits, FindFrag;
    match s
    case LET(e, p, k) => FitsJump(tgt, fns, cl, LetAfter(t, e, p.name), k);
    case ALLOC(alloc, args, x, k) => FitsJump(tgt, fns, cl, AllocAfter(t, alloc, args, x), k);
    case SWITCH(e, arms, _) => FitsJumpArms(tgt, fns, cl, t.(fits := t.fits && ExpFits(t, e)), arms);
    case BRANCH(_, args, tArm, fArm, _, _) =>
      var t0 := t.(fits := t.fits && AllFit(t, args));
      FitsJump(tgt, fns, cl, t0, tArm);
      FitsJump(tgt, fns, cl, Flow(tgt, fns, cl, t0, tArm).(regs := t.regs), fArm);
    case ARITH(arith, args, p, k) => FitsJump(tgt, fns, cl, ArithAfter(tgt, t, arith, args, p.name), k);
    case SETTER(setter, args, k) => FitsJump(tgt, fns, cl, SetterAfter(t, setter, args), k);
    case CALLGC(roots, xs, k) => FitsJump(tgt, fns, cl, GcAfter(tgt, t, roots, xs), k);
    case _ =>
  }

  lemma {:induction false} FitsJumpArms(tgt: Target, fns: Fns, cl: Cluster, t: Types, arms: seq<Stm>)
    requires |tgt.stkOffset| == NUM_REGS == |t.regs| && (t.fits ==> t.gotos)
    ensures FlowArms(tgt, fns, cl, t, arms).fits ==> FlowArms(tgt, fns, cl, t, arms).gotos
    decreases arms
  {
    hide Flow;
    if arms != [] {
      var n := |arms| - 1;
      FitsJumpArms(tgt, fns, cl, t, arms[..n]);
      FitsJump(tgt, fns, cl, FlowArms(tgt, fns, cl, t, arms[..n]).(regs := t.regs), arms[n]);
    }
  }
}
