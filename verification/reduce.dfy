/** The pipeline reducer (llvm/utils/reduce_pipeline.py), over an oracle for `opt`. */
module Reducer {
  import opened Machine
  import opened Pipelines

  type Data = string

  /** The exit code of a run, and the file it wrote, if it wrote one. */
  datatype Run = Run(code: int, output: Option<Data>)

  /** The behaviour of `opt` on a pipeline and an input file, which may be missing: the exit code
      when it only checks, and the run when it writes its output. */
  datatype Opt = Opt(check: (string, Option<Data>) -> int, write: (string, Option<Data>) -> Run)

  datatype FileName = Input | Intermediate0 | Intermediate1

  type Files = map<FileName, Data>

  function Contents(files: Files, f: FileName): Option<Data> {
    if f in files then Some(files[f]) else None
  }

  /** The pipeline makes `opt` fail with the expected code on the given input. */
  predicate Reproduces(opt: Opt, p: Pipeline, d: Option<Data>, code: int) {
    opt.check(ToStr(p), d) == code
  }

  function MaybePruned(p: Pipeline, keepEmpty: bool): Pipeline {
    if keepEmpty then p else Pruned(p)
  }

  /** The pipeline without its i-th pass, as step 3 tries it. */
  function Candidate(p: Pipeline, i: nat, keepEmpty: bool): Pipeline {
    MaybePruned(RemoveFrom(p, i, 0).p, keepEmpty)
  }

  // ----- subsequences -----

  /** The elements of s occur in t, in the same order. */
  predicate Subsequence<T(==)>(s: seq<T>, t: seq<T>) {
    s == []
    || (t != [] && (Subsequence(s, t[..|t| - 1])
                    || (s[|s| - 1] == t[|t| - 1] && Subsequence(s[..|s| - 1], t[..|t| - 1]))))
  }

  lemma {:induction false} SubRefl<T>(s: seq<T>)
    ensures Subsequence(s, s)
  {
    if s != [] {
      SubRefl(s[..|s| - 1]);
    }
  }

  lemma {:induction false} SubTrans<T>(s: seq<T>, t: seq<T>, u: seq<T>)
    requires Subsequence(s, t) && Subsequence(t, u)
    ensures Subsequence(s, u)
    decreases |u|
  {
    if s != [] {
      var t', u' := t[..|t| - 1], u[..|u| - 1];
      if Subsequence(t, u') {
        SubTrans(s, t, u');
      } else if Subsequence(s, t') {
        SubTrans(s, t', u');
      } else {
        SubTrans(s[..|s| - 1], t', u');
      }
    }
  }

  lemma {:induction false} SubTake<T>(s: seq<T>, m: nat)
    requires m <= |s|
    ensures Subsequence(s[..m], s)
    decreases |s|
  {
    if m == |s| {
      assert s[..m] == s;
      SubRefl(s);
    } else {
      assert s[..|s| - 1][..m] == s[..m];
      SubTake(s[..|s| - 1], m);
    }
  }

  lemma {:induction false} SubDrop<T>(s: seq<T>, m: nat)
    requires m <= |s|
    ensures Subsequence(s[m..], s)
    decreases |s|
  {
    if m < |s| {
      SubDrop(s[..|s| - 1], m);
      assert s[m..][..|s| - m - 1] == s[..|s| - 1][m..];
    }
  }

  lemma {:induction false} SubWithout<T>(s: seq<T>, i: int)
    ensures Subsequence(Without(s, i), s)
    decreases |s|
  {
    if 0 <= i < |s| - 1 {
      SubWithout(s[..|s| - 1], i);
      WithoutInit(s, i);
    } else if i == |s| - 1 && s != [] {
      assert Without(s, i) == s[..i];
      SubTake(s, i);
    } else {
      SubRefl(s);
    }
  }

  lemma WithoutInit<T>(s: seq<T>, i: nat)
    requires i < |s| - 1
    ensures var w := Without(s, i);
            |w| == |s| - 1 && w[..|w| - 1] == Without(s[..|s| - 1], i) && w[|w| - 1] == s[|s| - 1]
  {
    CutLeft(s[..|s| - 1], [s[|s| - 1]], i);
    assert s == s[..|s| - 1] + [s[|s| - 1]];
  }

  // ----- what the operations on pipelines do to the passes -----

  ghost predicate Reduced(p: Pipeline, q: Pipeline) {
    Named(p) && Subsequence(Leaves(p, []), Leaves(q, []))
  }

  /** The passes decide whether all of them have names. */
  lemma {:induction false} NamedByLeaves(p: Pipeline, chain: seq<string>)
    ensures Named(p) <==> forall l :: l in Leaves(p, chain) ==> l.elem.Pass?
    decreases p
  {
    if p != [] {
      var q, e := p[..|p| - 1], p[|p| - 1];
      NamedByLeaves(q, chain);
      if IsMgr(e) {
        NamedByLeaves(e.body, chain + [e.kind]);
      }
      assert Leaves(p, chain) == Leaves(q, chain) + ElemLeaves(e, chain);
    }
  }

  lemma {:induction false} SubNamed(s: seq<Leaf>, t: seq<Leaf>)
    requires Subsequence(s, t) && forall l :: l in t ==> l.elem.Pass?
    ensures forall l :: l in s ==> l.elem.Pass?
    decreases |t|
  {
    if s != [] {
      if Subsequence(s, t[..|t| - 1]) {
        SubNamed(s, t[..|t| - 1]);
      } else {
        SubNamed(s[..|s| - 1], t[..|t| - 1]);
        assert s == s[..|s| - 1] + [s[|s| - 1]];
      }
    }
  }

  /** Part of the passes of a pipeline that can be printed. */
  lemma ReducedIf(p: Pipeline, q: Pipeline)
    requires Named(q) && Subsequence(Leaves(p, []), Leaves(q, []))
    ensures Reduced(p, q)
  {
    hide Leaves, Subsequence, Named;
    NamedByLeaves(q, []);
    SubNamed(Leaves(p, []), Leaves(q, []));
    NamedByLeaves(p, []);
  }

  /** Pruning or not, the passes are the same. */
  lemma MaybePrunedLeaves(p: Pipeline, keepEmpty: bool)
    ensures Leaves(MaybePruned(p, keepEmpty), []) == Leaves(p, [])
  {
    PruneLeaves(p, []);
  }

  lemma HalvesReduced(p: Pipeline, k: nat, keepEmpty: bool)
    requires Named(p)
    ensures Reduced(MaybePruned(SplitFrom(p, k, 0).a, keepEmpty), p)
    ensures Reduced(MaybePruned(SplitFrom(p, k, 0).b, keepEmpty), p)
    ensures Reduced(SplitFrom(p, k, 0).a, p) && Reduced(SplitFrom(p, k, 0).b, p)
  {
    hide Named, Skeleton, Leaves, SplitFrom, MaybePruned, Clamp, Reduced, Subsequence;
    var r, l := SplitFrom(p, k, 0), Leaves(p, []);
    SplitLeaves(p, k, 0, []);
    var m := Clamp(k + 1 - 0, |l|);
    SubTake(l, m);
    SubDrop(l, m);
    assert Leaves(r.a, []) == l[..m] && Leaves(r.b, []) == l[m..];
    HalfReduced(r.a, p, keepEmpty);
    HalfReduced(r.b, p, keepEmpty);
  }

  lemma HalfReduced(h: Pipeline, p: Pipeline, keepEmpty: bool)
    requires Named(p) && Subsequence(Leaves(h, []), Leaves(p, []))
    ensures Reduced(MaybePruned(h, keepEmpty), p) && Reduced(h, p)
  {
    hide Named, Leaves, MaybePruned, Reduced, Subsequence;
    MaybePrunedLeaves(h, keepEmpty);
    ReducedIf(h, p);
    ReducedIf(MaybePruned(h, keepEmpty), p);
  }

  /** A candidate has one pass less, unless its index is out of range. */
  lemma CandidateReduced(p: Pipeline, i: nat, keepEmpty: bool)
    requires Named(p)
    ensures Reduced(Candidate(p, i, keepEmpty), p)
    ensures Count(Candidate(p, i, keepEmpty)) == if i < Count(p) then Count(p) - 1 else Count(p)
  {
    hide Named, Skeleton, Leaves, RemoveFrom, MaybePruned, Count;
    var r, l := RemoveFrom(p, i, 0), Leaves(p, []);
    RemoveLeaves(p, i, 0, []);
    SubWithout(l, i);
    MaybePrunedLeaves(r.p, keepEmpty);
    ReducedIf(Candidate(p, i, keepEmpty), p);
    CountLeaves(p, []);
    CountLeaves(Candidate(p, i, keepEmpty), []);
  }

  lemma ReducedTrans(p: Pipeline, q: Pipeline, r: Pipeline)
    requires Reduced(p, q) && Reduced(q, r)
    ensures Reduced(p, r)
  {
    SubTrans(Leaves(p, []), Leaves(q, []), Leaves(r, []));
  }

  lemma ReducedRefl(p: Pipeline)
    requires Named(p)
    ensures Reduced(p, p)
  {
    SubRefl(Leaves(p, []));
  }

  // ----- the steps -----

  method PruneUnless(p: Pipeline, keepEmpty: bool) returns (r: Pipeline)
    ensures r == MaybePruned(p, keepEmpty)
  {
    r := p;
    if !keepEmpty {
      r := Prune(p);
    }
  }

  /** Step 1: move a split point forward as long as the first half succeeds and the second half
      fails as expected on what the first half wrote. The two intermediate files alternate, so
      that a run never overwrites the file of the last success. */
  method SplitFront(opt: Opt, files0: Files, lst0: Pipeline, code: int, keepEmpty: bool)
    returns (lst: Pipeline, llInput: FileName, files: Files)
    requires Named(lst0) && Reproduces(opt, lst0, Contents(files0, Input), code)
    ensures Reduced(lst, lst0) && Reproduces(opt, lst, Contents(files, llInput), code)
    ensures Contents(files, Input) == Contents(files0, Input)
  {
    hide MaybePruned, Named, Leaves, Count, ToStr, SplitFrom;
    lst, llInput, files := lst0, Input, files0;
    ReducedRefl(lst);
    var prevLstB: Pipeline, prevIntermediate := [], Input;
    var n := CountPasses(lst);
    for idx := 0 to n
      invariant Contents(files, Input) == Contents(files0, Input)
      invariant prevLstB != [] ==>
                  && Reduced(prevLstB, lst) && Reproduces(opt, prevLstB, Contents(files, prevIntermediate), code)
                  && prevIntermediate == (if idx % 2 == 0 then Intermediate0 else Intermediate1)
    {
      HalvesReduced(lst, idx, keepEmpty);
      var lstA, lstB := Split(lst, idx);
      lstA := PruneUnless(lstA, keepEmpty);
      lstB := PruneUnless(lstB, keepEmpty);
      var intermediate := if idx % 2 != 0 then Intermediate0 else Intermediate1;
      var a := Print(lstA);
      var optA := opt.write(a.value, Contents(files, Input));
      if optA.output.Some? {
        files := files[intermediate := optA.output.value];
      }
      var b := Print(lstB);
      var optB := opt.check(b.value, Contents(files, intermediate));
      if !(optA.code == 0 && optB == code) {
        break;
      }
      prevLstB, prevIntermediate := lstB, intermediate;
    }
    if prevLstB != [] {
      lst, llInput := prevLstB, prevIntermediate;
    }
  }

  /** Step 2: drop passes from the end as long as the pipeline fails as expected. */
  method DropBack(opt: Opt, d: Option<Data>, lst0: Pipeline, code: int, keepEmpty: bool) returns (lst: Pipeline)
    requires Named(lst0) && Reproduces(opt, lst0, d, code)
    ensures Reduced(lst, lst0) && Reproduces(opt, lst, d, code)
  {
    lst := lst0;
    ReducedRefl(lst);
    var prevLstA: Pipeline := [];
    var idx := CountPasses(lst);
    while idx > 0
      invariant prevLstA != [] ==> Reduced(prevLstA, lst) && Reproduces(opt, prevLstA, d, code)
    {
      idx := idx - 1;
      HalvesReduced(lst, idx, keepEmpty);
      var lstA, lstB := Split(lst, idx);
      lstA := PruneUnless(lstA, keepEmpty);
      var a := Print(lstA);
      if opt.check(a.value, d) != code {
        break;
      }
      prevLstA := lstA;
    }
    if prevLstA != [] {
      lst := prevLstA;
    }
  }

  /** No single pass can go. */
  ghost predicate OneMinimal(opt: Opt, p: Pipeline, d: Option<Data>, code: int, keepEmpty: bool) {
    forall i: nat :: i < Count(p) ==> !Reproduces(opt, Candidate(p, i, keepEmpty), d, code)
  }

  /** Step 3: sweep over the pipeline and remove single passes until a whole sweep removes none.
      The number of passes is taken once per sweep, so late indices may be out of range; but
      then the sweep has removed a pass before, so that sweeps terminate. */
  method Sweep(opt: Opt, d: Option<Data>, lst0: Pipeline, code: int, keepEmpty: bool) returns (lst: Pipeline)
    requires Named(lst0) && Reproduces(opt, lst0, d, code)
    ensures Reduced(lst, lst0) && Reproduces(opt, lst, d, code) && OneMinimal(opt, lst, d, code, keepEmpty)
  {
    hide RemoveFrom, MaybePruned, Named, Leaves, Count, ToStr;
    lst := lst0;
    ReducedRefl(lst);
    while true
      invariant Reduced(lst, lst0) && Reproduces(opt, lst, d, code)
      decreases Count(lst)
    {
      var keepGoing := false;
      ghost var before := lst;
      var n := CountPasses(lst);
      for idx := 0 to n
        invariant Reduced(lst, lst0) && Reproduces(opt, lst, d, code)
        invariant if keepGoing then Count(lst) < n else lst == before
        invariant !keepGoing ==> forall i: nat :: i < idx ==> !Reproduces(opt, Candidate(lst, i, keepEmpty), d, code)
      {
        CandidateReduced(lst, idx, keepEmpty);
        ReducedTrans(Candidate(lst, idx, keepEmpty), lst, lst0);
        var candLst := Remove(lst, idx);
        candLst := PruneUnless(candLst, keepEmpty);
        var s := Print(candLst);
        if opt.check(s.value, d) == code {
          lst := candLst;
          keepGoing := true;
        }
      }
      if !keepGoing {
        break;
      }
    }
  }

  /** The whole reduction. None stands for the exception on a pipeline that cannot be printed and
      for giving up at step 0, when the input does not make `opt` crash. Otherwise the remaining
      pipeline crashes `opt` in the same way on the remaining input, its passes are among the original
      ones, in order and inside the same managers, and no single pass can be removed. */
  method Reduce(opt: Opt, files0: Files, lst0: Pipeline, keepEmpty: bool)
    returns (r: Option<(Pipeline, FileName)>, files: Files)
    ensures r.None? <==> !Named(lst0) || opt.check(ToStr(lst0), Contents(files0, Input)) >= 0
    ensures r.Some? ==>
              var (lst, llInput) := r.value;
              var code, d := opt.check(ToStr(lst0), Contents(files0, Input)), Contents(files, llInput);
              && Reproduces(opt, lst, d, code) && OneMinimal(opt, lst, d, code, keepEmpty) && Reduced(lst, lst0)
    ensures Contents(files, Input) == Contents(files0, Input)
  {
    files := files0;
    var s := Print(lst0);
    if s == None {
      return None, files;
    }
    var code := opt.check(s.value, Contents(files, Input));
    if code >= 0 {
      return None, files;
    }
    var lst1, llInput, files1 := SplitFront(opt, files, lst0, code, keepEmpty);
    files := files1;
    var lst2 := DropBack(opt, Contents(files, llInput), lst1, code, keepEmpty);
    var lst3 := Sweep(opt, Contents(files, llInput), lst2, code, keepEmpty);
    ReducedTrans(lst2, lst1, lst0);
    ReducedTrans(lst3, lst2, lst0);
    return Some((lst3, llInput)), files;
  }
}
