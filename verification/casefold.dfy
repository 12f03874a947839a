/** The generator of the simple case folding function (llvm/utils/unicode-case-fold.py), and the
    meaning of the C++ statements that it generates. */
module CaseFold {
  import opened Arith
  import opened Machine

  datatype Mapping = Mapping(src: nat, dst: nat)

  // ----- generated code -----

  /** The statements of the generated function, each an `if` with a `return`:
      on C == x; on C < x; on C <= last and C % stride == modulo; on C <= last (returning the
      shifted C, or C | 1). */
  datatype Stmt =
    | IfEqual(x: nat, y: nat)
    | IfLess(x: nat)
    | IfModulo(last: int, stride: int, modulo: int, shift: int)
    | IfUpTo(last: int, shift: int)
    | IfUpToOr1(last: int)

  /** The remainder in C++ has the sign of the dividend. */
  function Remainder(a: int, b: int): int
    requires b != 0
  {
    if a >= 0 then a % b else -((-a) % b)
  }

  /** C | 1 in two's complement. */
  function Or1(c: int): int {
    if c % 2 == 0 then c + 1 else c
  }

  /** What the statement returns, if it does. */
  function RunStmt(s: Stmt, c: int): Option<int> {
    match s
    case IfEqual(x, y) => if c == x then Some(y) else None
    case IfLess(x) => if c < x then Some(c) else None
    case IfModulo(last, stride, modulo, shift) =>
      if c <= last && stride != 0 && Remainder(c, stride) == modulo then Some(c + shift) else None
    case IfUpTo(last, shift) => if c <= last then Some(c + shift) else None
    case IfUpToOr1(last) => if c <= last then Some(Or1(c)) else None
  }

  function Run(body: seq<Stmt>, c: int): Option<int> {
    if body == [] then None
    else
      var r := Run(body[..|body| - 1], c);
      if r.Some? then r else RunStmt(body[|body| - 1], c)
  }

  /** The generated function: its last statement returns C. */
  function Call(body: seq<Stmt>, c: int): int {
    var r := Run(body, c);
    if r.Some? then r.value else c
  }

  lemma {:induction false} RunConcat(a: seq<Stmt>, b: seq<Stmt>, c: int)
    ensures Run(a + b, c) == if Run(a, c).Some? then Run(a, c) else Run(b, c)
  {
    if b == [] {
      assert a + b == a;
    } else {
      RunConcat(a, b[..|b| - 1], c);
      assert (a + b)[..|a + b| - 1] == a + b[..|b| - 1];
    }
  }

  // ----- the table -----

  predicate Increasing(t: seq<Mapping>) {
    forall i :: 0 < i < |t| ==> t[i - 1].src < t[i].src
  }

  /** Simple case folding (section 3.13 of the Unicode Standard): characters that are not in the
      table map to themselves. */
  function Fold(t: seq<Mapping>, c: int): int {
    if t == [] then c else if t[|t| - 1].src == c then t[|t| - 1].dst else Fold(t[..|t| - 1], c)
  }

  predicate InTable(t: seq<Mapping>, c: int) {
    exists i :: 0 <= i < |t| && t[i].src == c
  }

  lemma {:induction false} Sorted(t: seq<Mapping>, i: nat, j: nat)
    requires Increasing(t) && i < j < |t|
    ensures t[i].src < t[j].src
    decreases j
  {
    if i < j - 1 {
      Sorted(t, i, j - 1);
    }
  }

  lemma {:induction false} FoldAt(t: seq<Mapping>, i: nat)
    requires Increasing(t) && i < |t|
    ensures Fold(t, t[i].src) == t[i].dst
  {
    if i < |t| - 1 {
      Sorted(t, i, |t| - 1);
      FoldAt(t[..|t| - 1], i);
    }
  }

  lemma {:induction false} FoldOutside(t: seq<Mapping>, c: int)
    requires !InTable(t, c)
    ensures Fold(t, c) == c
  {
    if t != [] {
      var n := |t| - 1;
      assert t == t[..n] + [t[n]] && [t[n]][0] == t[n];
      InPart(t[..n], [t[n]], c);
      FoldOutside(t[..|t| - 1], c);
    }
  }

  // ----- blocks -----

  function Shift(m: Mapping): int {
    m.dst - m.src
  }

  function Stride2(m: Mapping, n: Mapping): int {
    n.src - m.src
  }

  function Stride(b: seq<Mapping>): int
    requires |b| >= 2
  {
    Stride2(b[0], b[1])
  }

  /** All entries have the same shift and the same distance. */
  predicate Uniform(b: seq<Mapping>) {
    && b != [] && Increasing(b)
    && (forall i :: 0 <= i < |b| ==> Shift(b[i]) == Shift(b[0]))
    && (forall i :: 0 < i < |b| ==> Stride2(b[i - 1], b[i]) == Stride(b))
  }

  lemma {:induction false} EntryAt(b: seq<Mapping>, k: nat)
    requires Uniform(b) && |b| >= 2 && k < |b|
    ensures b[k].src == b[0].src + Stride(b) * k && Stride(b) > 0
  {
    if k > 0 {
      EntryAt(b, k - 1);
      assert Stride(b) * k == Stride(b) * (k - 1) + Stride(b);
    }
  }

  /** An entry is in the range of its block, and leaves the same remainder as the first. */
  lemma EntryInRange(b: seq<Mapping>, k: nat)
    requires Uniform(b) && |b| >= 2 && k < |b|
    ensures b[0].src <= b[k].src <= b[0].src + Stride(b) * (|b| - 1)
    ensures b[k].src % Stride(b) == b[0].src % Stride(b) && Stride(b) > 0
  {
    EntryAt(b, k);
    MulMono(Stride(b), 0, k);
    MulMono(Stride(b), k, |b| - 1);
    var s, q := Stride(b), b[0].src / Stride(b);
    assert b[k].src == s * (q + k) + b[0].src % s;
    DivUnique(s, q + k, b[0].src % s);
  }

  /** ... and whatever is in range with that remainder is an entry. */
  lemma RangeIsEntry(b: seq<Mapping>, c: int)
    requires Uniform(b) && |b| >= 2 && Stride(b) > 0
    requires b[0].src <= c <= b[0].src + Stride(b) * (|b| - 1) && c % Stride(b) == b[0].src % Stride(b)
    ensures InTable(b, c)
  {
    var s := Stride(b);
    var q0, q := b[0].src / s, c / s;
    var k := q - q0;
    assert c == b[0].src + s * k;
    if k < 0 {
      MulMono(s, k, -1);
    } else if k > |b| - 1 {
      MulMono(s, |b|, k);
    } else {
      EntryAt(b, k);
    }
  }

  /** The statements for a block. A block of one entry has no guard; for a stride of two with a
      shift of one the intervening characters map to themselves anyway; a stride of one needs
      no remainder. */
  function BlockCode(b: seq<Mapping>): seq<Stmt>
    requires Uniform(b)
  {
    if |b| == 1 then [IfEqual(b[0].src, b[0].dst)]
    else
      EntryAt(b, 1);
      var first, s := b[0].src, Stride(b);
      var last := first + s * (|b| - 1);
      [IfLess(first),
       if s == 2 && Shift(b[0]) == 1 && first % s == 0 then IfUpToOr1(last)
       else if s == 1 then IfUpTo(last, Shift(b[0]))
       else IfModulo(last, s, first % s, Shift(b[0]))]
  }

  /** The code for a block maps the block's entries as the table says; nothing above the block is
      caught, and everything else is passed on or maps to itself. */
  ghost predicate Covers(body: seq<Stmt>, t: seq<Mapping>) {
    && (forall i :: 0 <= i < |t| ==> Run(body, t[i].src) == Some(t[i].dst))
    && (forall c: int :: (t == [] || c > t[|t| - 1].src) ==> Run(body, c) == None)
    && (forall c: int :: !InTable(t, c) ==> Run(body, c) == None || Run(body, c) == Some(c))
  }

  lemma RunOne(s: Stmt, c: int)
    ensures Run([s], c) == RunStmt(s, c)
  {
    assert [s][..0] == [];
    assert Run([], c) == None;
  }

  lemma RunTwo(s: Stmt, t: Stmt, c: int)
    ensures Run([s, t], c) == if RunStmt(s, c).Some? then RunStmt(s, c) else RunStmt(t, c)
  {
    RunOne(s, c);
    assert [s, t][..1] == [s];
  }

  lemma BlockRun(b: seq<Mapping>, c: int)
    requires Uniform(b)
    ensures var code := BlockCode(b);
            Run(code, c)
            == if RunStmt(code[0], c).Some? || |code| == 1 then RunStmt(code[0], c) else RunStmt(code[1], c)
  {
    var code := BlockCode(b);
    if |b| == 1 {
      RunOne(code[0], c);
    } else {
      RunTwo(code[0], code[1], c);
      assert code == [code[0], code[1]];
    }
  }

  lemma BlockEntry(b: seq<Mapping>, i: nat)
    requires Uniform(b) && i < |b|
    ensures Run(BlockCode(b), b[i].src) == Some(b[i].dst)
  {
    BlockRun(b, b[i].src);
    if |b| > 1 {
      EntryRun(b, i);
    }
  }

  lemma BlockAbove(b: seq<Mapping>, c: int)
    requires Uniform(b) && c > b[|b| - 1].src
    ensures Run(BlockCode(b), c) == None
  {
    BlockRun(b, c);
    if |b| > 1 {
      EntryAt(b, |b| - 1);
      Sorted(b, 0, |b| - 1);
    }
  }

  lemma BlockOther(b: seq<Mapping>, c: int)
    requires Uniform(b) && !InTable(b, c)
    ensures Run(BlockCode(b), c) == None || Run(BlockCode(b), c) == Some(c)
  {
    BlockRun(b, c);
    if |b| == 1 {
      assert b[0].src != c;
    } else if c >= b[0].src {
      OtherRun(b, c);
    }
  }

  lemma BlockCovers(b: seq<Mapping>)
    requires Uniform(b)
    ensures Covers(BlockCode(b), b)
  {
    hide BlockCode, Run, InTable;
    forall i | 0 <= i < |b|
      ensures Run(BlockCode(b), b[i].src) == Some(b[i].dst)
    {
      BlockEntry(b, i);
    }
    forall c: int | c > b[|b| - 1].src
      ensures Run(BlockCode(b), c) == None
    {
      BlockAbove(b, c);
    }
    forall c: int | !InTable(b, c)
      ensures Run(BlockCode(b), c) == None || Run(BlockCode(b), c) == Some(c)
    {
      BlockOther(b, c);
    }
  }

  lemma EntryRun(b: seq<Mapping>, i: nat)
    requires Uniform(b) && |b| >= 2 && i < |b|
    ensures RunStmt(BlockCode(b)[0], b[i].src) == None && RunStmt(BlockCode(b)[1], b[i].src) == Some(b[i].dst)
  {
    EntryInRange(b, i);
    assert Shift(b[i]) == Shift(b[0]);
  }

  lemma OtherRun(b: seq<Mapping>, c: int)
    requires Uniform(b) && |b| >= 2 && c >= b[0].src && !InTable(b, c)
    ensures RunStmt(BlockCode(b)[1], c) == None || RunStmt(BlockCode(b)[1], c) == Some(c)
  {
    EntryAt(b, 1);
    if c <= b[0].src + Stride(b) * (|b| - 1) && c % Stride(b) == b[0].src % Stride(b) {
      RangeIsEntry(b, c);
    }
  }

  lemma InPart(t: seq<Mapping>, b: seq<Mapping>, c: int)
    ensures InTable(t + b, c) <==> InTable(t, c) || InTable(b, c)
  {
    var u := t + b;
    if i :| 0 <= i < |t| && t[i].src == c {
      assert u[i].src == c;
    }
    if i :| 0 <= i < |b| && b[i].src == c {
      assert u[|t| + i].src == c;
    }
  }

  /** Code for consecutive parts of a table, one after the other. */
  lemma CoversConcat(body: seq<Stmt>, t: seq<Mapping>, code: seq<Stmt>, b: seq<Mapping>)
    requires Covers(body, t) && Covers(code, b) && b != [] && Increasing(t + b)
    ensures Covers(body + code, t + b)
  {
    hide Run, InTable, Increasing;
    var u := t + b;
    forall i | 0 <= i < |u|
      ensures Run(body + code, u[i].src) == Some(u[i].dst)
    {
      RunConcat(body, code, u[i].src);
      if i < |t| {
        assert Run(body, t[i].src) == Some(t[i].dst);
      } else {
        assert Run(code, b[i - |t|].src) == Some(b[i - |t|].dst);
        if t != [] {
          Sorted(u, |t| - 1, i);
        }
      }
    }
    forall c: int | c > u[|u| - 1].src
      ensures Run(body + code, c) == None
    {
      RunConcat(body, code, c);
      if t != [] {
        Sorted(u, |t| - 1, |u| - 1);
      }
    }
    forall c: int | !InTable(u, c)
      ensures Run(body + code, c) == None || Run(body + code, c) == Some(c)
    {
      RunConcat(body, code, c);
      InPart(t, b, c);
    }
  }

  lemma CoversFold(body: seq<Stmt>, t: seq<Mapping>, c: int)
    requires Covers(body, t) && Increasing(t)
    ensures Call(body, c) == Fold(t, c)
  {
    if i :| 0 <= i < |t| && t[i].src == c {
      FoldAt(t, i);
    } else {
      FoldOutside(t, c);
    }
  }

  // ----- the generator -----

  method DumpBlock(body: seq<Stmt>, b: seq<Mapping>) returns (body': seq<Stmt>)
    requires Uniform(b)
    ensures body' == body + BlockCode(b)
  {
    if |b| == 1 {
      return body + [IfEqual(b[0].src, b[0].dst)];
    }
    EntryAt(b, 1);
    var first := b[0].src;
    var last := first + Stride(b) * (|b| - 1);
    var modulo := first % Stride(b);
    body' := body + [IfLess(first)];
    if Stride(b) == 2 && Shift(b[0]) == 1 && modulo == 0 {
      body' := body' + [IfUpToOr1(last)];
    } else if Stride(b) == 1 {
      body' := body' + [IfUpTo(last, Shift(b[0]))];
    } else {
      body' := body' + [IfModulo(last, Stride(b), modulo, Shift(b[0]))];
    }
  }

  /** The generated function computes the table, for every C. There is none, because the
      generator raises an exception, exactly when the table is empty or not increasing. */
  method Generate(t: seq<Mapping>) returns (r: Option<seq<Stmt>>)
    ensures r.Some? <==> t != [] && Increasing(t)
    ensures r.Some? ==> forall c: int :: Call(r.value, c) == Fold(t, c)
  {
    hide BlockCode, Covers, Uniform, Increasing, Call, Fold;
    var body: seq<Stmt> := [];
    var current: seq<Mapping> := [];
    var previous: int := -1;
    ghost var done: seq<Mapping> := [];
    NothingCovered();
    IncreasingStep(t, 0);
    for i := 0 to |t|
      invariant Increasing(t[..i]) && t[..i] == done + current && Covers(body, done)
      invariant i == 0 ==> current == [] && previous == -1
      invariant i > 0 ==>
                  current != [] && Uniform(current) && current[|current| - 1] == t[i - 1] && previous == t[i - 1].src
    {
      var m := t[i];
      if m.src <= previous {
        NotIncreasing(t, i);
        return None;
      }
      IncreasingStep(t, i);
      UniformStep(current, m);
      assert t[..i + 1] == done + current + [m];
      previous := m.src;
      assert t[..i + 1] == done + (current + [m]);
      if |current| == 0 {
        current := current + [m];
        assert current == [m];
      } else if Shift(current[0]) != Shift(m) {
        body := Finish(body, done, current, m);
        done := done + current;
        current := [m];
      } else if |current| == 1 || Stride(current) == Stride2(current[|current| - 1], m) {
        current := current + [m];
      } else {
        body := Finish(body, done, current, m);
        done := done + current;
        current := [m];
      }
    }
    if |current| == 0 {
      return None;
    }
    assert t[..|t|] == t;
    BlockCovers(current);
    CoversConcat(body, done, BlockCode(current), current);
    body := DumpBlock(body, current);
    forall c: int
      ensures Call(body, c) == Fold(t, c)
    {
      CoversFold(body, t, c);
    }
    return Some(body);
  }

  lemma IncreasingStep(t: seq<Mapping>, i: nat)
    requires i <= |t|
    ensures i == 0 ==> Increasing(t[..i])
    ensures i < |t| && Increasing(t[..i]) && (i > 0 ==> t[i - 1].src < t[i].src) ==> Increasing(t[..i + 1])
  {
  }

  lemma NotIncreasing(t: seq<Mapping>, i: nat)
    requires 0 < i < |t| && t[i].src <= t[i - 1].src
    ensures !Increasing(t)
  {
  }

  lemma UniformStep(b: seq<Mapping>, m: Mapping)
    ensures Uniform([m])
    ensures (Uniform(b) && b[|b| - 1].src < m.src && Shift(b[0]) == Shift(m)
             && (|b| == 1 || Stride(b) == Stride2(b[|b| - 1], m))) ==> Uniform(b + [m])
  {
  }

  lemma NothingCovered()
    ensures Covers([], [])
  {
  }

  /** Write out a block because the next entry m does not fit it. */
  method Finish(body: seq<Stmt>, ghost done: seq<Mapping>, current: seq<Mapping>, ghost m: Mapping)
      returns (body': seq<Stmt>)
    requires Covers(body, done) && Uniform(current) && Increasing(done + current)
    ensures Covers(body', done + current)
  {
    BlockCovers(current);
    CoversConcat(body, done, BlockCode(current), current);
    body' := DumpBlock(body, current);
  }
}
