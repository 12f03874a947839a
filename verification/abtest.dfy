/** The two searches of llvm/utils/abtest.py for the choices from B that break a test. */
module ABTest {
  type Name = string

  /** A test picks some names from B and the others from A. Its result may also depend on how many
      tests were run before, so that nothing is assumed about repeated tests. */
  type Test = (nat, set<Name>) -> bool

  /** One test: the names from B, the result, and the announced number of tests that remain, this
      one included. */
  datatype Entry = Entry(picked: seq<Name>, passed: bool, bound: int)

  function Elements(s: seq<Name>): set<Name> {
    set x | x in s
  }

  /** The log is what the tests said. */
  ghost predicate Honest(test: Test, log: seq<Entry>) {
    forall k :: 0 <= k < |log| ==> log[k].passed == test(k, Elements(log[k].picked))
  }

  /** x was picked in a test that passed. */
  predicate Passed(log: seq<Entry>, x: Name) {
    exists k :: 0 <= k < |log| && log[k].passed && x in log[k].picked
  }

  /** x was tested alone, and the test failed. */
  predicate FailedAlone(log: seq<Entry>, x: Name) {
    exists k :: 0 <= k < |log| && !log[k].passed && log[k].picked == [x]
  }

  lemma LogGrows(log: seq<Entry>, e: Entry, x: Name)
    ensures Passed(log, x) ==> Passed(log + [e], x)
    ensures FailedAlone(log, x) ==> FailedAlone(log + [e], x)
    ensures e.passed && x in e.picked ==> Passed(log + [e], x)
    ensures !e.passed && e.picked == [x] ==> FailedAlone(log + [e], x)
  {
    var l := log + [e];
    if Passed(log, x) {
      var k :| 0 <= k < |log| && log[k].passed && x in log[k].picked;
      assert l[k].passed && x in l[k].picked;
    }
    if FailedAlone(log, x) {
      var k :| 0 <= k < |log| && !log[k].passed && log[k].picked == [x];
      assert !l[k].passed && l[k].picked == [x];
    }
    assert l[|log|] == e;
  }

  // ----- one by one -----

  /** What a search establishes: a name is good exactly if it passed in some test, and any other
      name failed a test alone. */
  ghost predicate Sound(names: seq<Name>, good: set<Name>, log: seq<Entry>) {
    && good <= Elements(names)
    && forall x :: x in names ==> if x in good then Passed(log, x) else FailedAlone(log, x)
  }

  /** The test passes exactly if no bad name is picked. */
  ghost predicate Blames(test: Test, bad: set<Name>) {
    forall k: nat, s: set<Name> :: test(k, s) <==> s !! bad
  }

  lemma SoundIsExact(names: seq<Name>, test: Test, bad: set<Name>, good: set<Name>, log: seq<Entry>)
    requires Blames(test, bad) && Sound(names, good, log) && Honest(test, log)
    ensures good == Elements(names) - bad
  {
    forall x | x in names
      ensures x in good <==> x !in bad
    {
      if x in good {
        var k :| 0 <= k < |log| && log[k].passed && x in log[k].picked;
        assert test(k, Elements(log[k].picked)) && x in Elements(log[k].picked);
      } else {
        var k :| 0 <= k < |log| && !log[k].passed && log[k].picked == [x];
        assert !test(k, Elements([x])) && Elements([x]) == {x};
      }
    }
  }

  lemma SoundIsExactForAll(names: seq<Name>, test: Test, good: set<Name>, log: seq<Entry>)
    requires Sound(names, good, log) && Honest(test, log)
    ensures forall bad :: Blames(test, bad) ==> good == Elements(names) - bad
  {
    hide Sound, Honest, Blames;
    forall bad | Blames(test, bad)
      ensures good == Elements(names) - bad
    {
      SoundIsExact(names, test, bad, good, log);
    }
  }

  method CheckSequentially(names: seq<Name>, test: Test) returns (good: set<Name>, ghost log: seq<Entry>)
    ensures Sound(names, good, log) && Honest(test, log) && |log| == |names|
    ensures forall bad :: Blames(test, bad) ==> good == Elements(names) - bad
  {
    good, log := {}, [];
    for n := 0 to |names|
      invariant |log| == n && Honest(test, log) && good <= Elements(names[..n])
      invariant forall k :: 0 <= k < n ==> log[k].picked == [names[k]] && (log[k].passed ==> names[k] in good)
      invariant forall x :: x in good ==> Passed(log, x)
    {
      var res := test(n, {names[n]});
      ghost var e := Entry([names[n]], res, |names| - n);
      assert Elements(e.picked) == {names[n]};
      forall x {
        LogGrows(log, e, x);
      }
      log := log + [e];
      if res {
        good := good + {names[n]};
      }
    }
    forall x | x in names && x !in good
      ensures FailedAlone(log, x)
    {
      var k :| 0 <= k < |names| && names[k] == x;
      assert log[k].picked == [x] && !log[k].passed;
    }
    SoundIsExactForAll(names, test, good, log);
  }

  // ----- bisection -----

  /** The most tests that splitting the partitions in the queue can take, as announced. */
  function Splits(queue: seq<seq<Name>>): int {
    if queue == [] then 0 else (|queue[0]| - 1) * 2 + Splits(queue[1..])
  }

  lemma {:induction false} SplitsPop(queue: seq<seq<Name>>)
    requires queue != []
    ensures Splits(queue) == Splits(queue[..|queue| - 1]) + (|queue[|queue| - 1]| - 1) * 2
  {
    var n := |queue| - 1;
    if n > 0 {
      SplitsPop(queue[1..]);
      assert queue[1..][..n - 1] == queue[..n][1..];
    }
  }

  /** Names that are neither good nor found to fail alone are in a partition. */
  ghost predicate Covered(names: seq<Name>, good: set<Name>, log: seq<Entry>, queue: seq<seq<Name>>, rest: seq<Name>) {
    && good <= Elements(names)
    && (forall x :: x in good ==> Passed(log, x))
    && (forall x :: x in names ==>
          x in good || FailedAlone(log, x) || x in rest || exists i :: 0 <= i < |queue| && x in queue[i])
    && (forall i :: 0 <= i < |queue| ==> Elements(queue[i]) <= Elements(names))
  }

  /** No announced number was too small, if at most `more` tests follow. */
  predicate Announced(log: seq<Entry>, more: int) {
    forall k :: 0 <= k < |log| ==> log[k].bound + k >= |log| + more
  }

  ghost predicate Splittable(queue: seq<seq<Name>>) {
    forall i :: 0 <= i < |queue| ==> |queue[i]| > 1
  }

  /** Test a partition (`upcoming` is empty when there is none); if it fails and can be split, it goes
      to the front of the queue. */
  method TestPartition(ghost names: seq<Name>, test: Test, n: nat, good0: set<Name>, queue0: seq<seq<Name>>,
                       partition: seq<Name>, ghost rest: seq<Name>, upcoming: seq<Name>, ghost log0: seq<Entry>)
    returns (good: set<Name>, queue: seq<seq<Name>>, ghost log: seq<Entry>)
    requires n == |log0| && partition != [] && Elements(partition) <= Elements(names)
    requires Covered(names, good0, log0, queue0, partition + rest) && Honest(test, log0) && Splittable(queue0)
    requires Announced(log0, |partition| * 2 - 1 + (if upcoming != [] then |upcoming| * 2 - 1 else 0) + Splits(queue0))
    ensures Covered(names, good, log, queue, rest) && Honest(test, log) && Splittable(queue)
    ensures |log| == n + 1 && Splits(queue) <= Splits(queue0) + (|partition| - 1) * 2
    ensures Announced(log, (if upcoming != [] then |upcoming| * 2 - 1 else 0) + Splits(queue))
  {
    good, queue := good0, queue0;
    var maxRemaining := |partition| * 2 - 1;
    if upcoming != [] {
      maxRemaining := maxRemaining + |upcoming| * 2 - 1;
    }
    var splits := SumSplits(queue);
    maxRemaining := maxRemaining + splits;
    var res := test(n, Elements(partition));
    ghost var e := Entry(partition, res, maxRemaining);
    log := log0 + [e];
    forall x {
      LogGrows(log0, e, x);
    }
    if res {
      good := good + Elements(partition);
    } else if |partition| > 1 {
      queue := [partition] + queue;
      assert queue[1..] == queue0;
      assert queue[0] == partition && forall i :: 0 <= i < |queue0| ==> queue[i + 1] == queue0[i];
    } else {
      assert partition == [partition[0]];
    }
  }

  /** The loop over the queue in the announcement. */
  method SumSplits(queue: seq<seq<Name>>) returns (sum: int)
    ensures sum == Splits(queue)
  {
    sum := 0;
    for i := 0 to |queue|
      invariant sum == Splits(queue) - Splits(queue[i..])
    {
      assert queue[i..][1..] == queue[i + 1..];
      sum := sum + (|queue[i]| - 1) * 2;
    }
  }

  /** Where a name in the popped partition goes. */
  lemma CoveredPop(names: seq<Name>, good: set<Name>, log: seq<Entry>, queue: seq<seq<Name>>, left: seq<Name>,
                   right: seq<Name>)
    requires queue != [] && Covered(names, good, log, queue, []) && queue[|queue| - 1] == left + right
    ensures Covered(names, good, log, queue[..|queue| - 1], left + right)
    ensures Elements(left) <= Elements(names) && Elements(right) <= Elements(names)
  {
    var n := |queue| - 1;
    assert Elements(queue[n]) <= Elements(names);
    forall x | x in left || x in right
      ensures x in Elements(names)
    {
      assert x in Elements(queue[n]);
    }
    forall x | x in names && x !in good && !FailedAlone(log, x) && x !in left + right
      ensures exists i :: 0 <= i < n && x in queue[..n][i]
    {
      var i :| 0 <= i < |queue| && x in queue[i];
      assert x in queue[..n][i];
    }
  }

  /** The number of tests that a search over n names takes at most. */
  function MostTests(n: nat): nat {
    if n <= 1 then n else (n - 1) * 2
  }

  lemma {:induction false} SplitsPositive(queue: seq<seq<Name>>)
    requires Splittable(queue)
    ensures Splits(queue) >= 0
  {
    if queue != [] {
      SplitsPositive(queue[1..]);
    }
  }

  /** Split failed partitions in two and test the halves. The announced bounds hold: from the
      k-th test on there are at most as many tests as announced with it. */
  method CheckBisect(names: seq<Name>, test: Test) returns (good: set<Name>, ghost log: seq<Entry>)
    ensures Sound(names, good, log) && Honest(test, log)
    ensures forall bad :: Blames(test, bad) ==> good == Elements(names) - bad
    ensures forall k :: 0 <= k < |log| ==> |log| - k <= log[k].bound
    ensures |log| <= MostTests(|names|)
  {
    hide Covered, Honest, Announced, Sound, Blames;
    good, log := {}, [];
    NothingTested(names, test);
    if |names| == 0 {
      SoundIsExactForAll(names, test, good, log);
      return;
    }
    var queue := [names];
    var n := 0;
    assert queue[0] == names && queue[1..] == [];
    while |queue| > 0
      invariant Covered(names, good, log, queue, []) && Honest(test, log) && |log| == n
      invariant Splittable(queue) || (n == 0 && queue == [names] && |names| == 1)
      invariant n > 0 ==> Announced(log, Splits(queue))
      invariant if n == 0 then queue == [names] else n + Splits(queue) <= MostTests(|names|)
      decreases MostTests(|names|) - n
    {
      var partition := queue[|queue| - 1];
      SplitsPop(queue);
      ghost var before := queue;
      queue := queue[..|queue| - 1];
      var middle := |partition| / 2;
      var left, right := partition[..middle], partition[middle..];
      assert partition == left + right;
      CoveredPop(names, good, log, before, left, right);
      if |left| > 0 {
        good, queue, log := TestPartition(names, test, n, good, queue, left, right, right, log);
        n := n + 1;
      }
      assert [] + right == right && left == [] ==> left + right == right;
      assert right + [] == right;
      good, queue, log := TestPartition(names, test, n, good, queue, right, [], [], log);
      n := n + 1;
      SplitsPositive(queue);
    }
    AllTested(names, good, log);
    SoundIsExactForAll(names, test, good, log);
  }

  lemma NothingTested(names: seq<Name>, test: Test)
    ensures Honest(test, []) && Announced([], 0) && (names == [] ==> Sound(names, {}, []))
    ensures forall more :: Announced([], more)
    ensures Covered(names, {}, [], [names], [])
  {
    assert [names][0] == names;
  }

  lemma AllTested(names: seq<Name>, good: set<Name>, log: seq<Entry>)
    requires Covered(names, good, log, [], []) && Announced(log, 0)
    ensures Sound(names, good, log) && forall k :: 0 <= k < |log| ==> |log| - k <= log[k].bound
  {
  }

  // ----- the same answer -----

  /** If a run passes exactly when no bad name is picked, both searches return all other names. */
  lemma SameAnswer(names: seq<Name>, test: Test, bad: set<Name>,
                   good1: set<Name>, log1: seq<Entry>, good2: set<Name>, log2: seq<Entry>)
    requires Blames(test, bad)
    requires Sound(names, good1, log1) && Honest(test, log1) && Sound(names, good2, log2) && Honest(test, log2)
    ensures good1 == good2 == Elements(names) - bad
  {
    SoundIsExact(names, test, bad, good1, log1);
    SoundIsExact(names, test, bad, good2, log2);
  }
}
