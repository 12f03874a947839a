/** The chunked processing of llvm/utils/demangle_tree.py: files come directory by directory and are
    processed in chunks, but every directory is reported once and as a whole. */
module Demangle {
  import opened Machine

  /** A file, by the directory it was found in and its name there. Its path is what normpath makes
      of the two. */
  datatype File = File(dir: string, name: string)

  /** The directory part of the path. The path of a file in "." is its name alone. */
  function Dirname(f: File): string {
    if f.dir == "." then "" else f.dir
  }

  /** What the demangler says about a file. */
  datatype Outcome = Outcome(crashed: bool, nsymbols: nat, errors: set<string>)

  type Demangler = File -> Outcome

  datatype Result = Result(crashed: seq<File>, nsymbols: nat, errors: set<string>, nfiles: nat)

  const NOTHING: Result := Result([], 0, {}, 0)

  /** A directory as os.walk gives it after normpath, with the names of its object files. */
  datatype Listing = Listing(root: string, names: seq<string>)

  /** A directory with files that are still to be processed. */
  datatype Pending = Pending(dir: string, files: seq<File>)

  datatype Row = Row(dir: string, result: Result)

  function Files(root: string, names: seq<string>): seq<File> {
    seq(|names|, i requires 0 <= i < |names| => File(root, names[i]))
  }

  function PendingOf(l: Listing): Pending {
    Pending(l.root, Files(l.root, l.names))
  }

  function Pendings(dirs: seq<Listing>): seq<Pending> {
    seq(|dirs|, i requires 0 <= i < |dirs| => PendingOf(dirs[i]))
  }

  // ----- sums -----

  function ProcessFile(d: Demangler, f: File): Result {
    var o := d(f);
    if o.crashed then NOTHING.(crashed := [f]) else NOTHING.(nsymbols := o.nsymbols, errors := o.errors)
  }

  function Add(a: Result, b: Result): Result {
    Result(a.crashed + b.crashed, a.nsymbols + b.nsymbols, a.errors + b.errors, a.nfiles + b.nfiles)
  }

  function SumFiles(d: Demangler, fs: seq<File>): Result {
    if fs == [] then NOTHING else Add(SumFiles(d, fs[..|fs| - 1]), ProcessFile(d, fs[|fs| - 1]))
  }

  /** The whole result of a list of files. */
  function Total(d: Demangler, fs: seq<File>): Result {
    SumFiles(d, fs).(nfiles := |fs|)
  }

  /** All files, directory by directory. */
  function Flat(ps: seq<Pending>): seq<File> {
    if ps == [] then [] else Flat(ps[..|ps| - 1]) + ps[|ps| - 1].files
  }

  function Rows(d: Demangler, ps: seq<Pending>): seq<Row> {
    seq(|ps|, i requires 0 <= i < |ps| => Row(ps[i].dir, Total(d, ps[i].files)))
  }

  lemma AddLaws(a: Result, b: Result, c: Result)
    ensures Add(Add(a, b), c) == Add(a, Add(b, c))
    ensures Add(a, NOTHING) == a == Add(NOTHING, a)
  {
  }

  lemma {:induction false} SumConcat(d: Demangler, a: seq<File>, b: seq<File>)
    ensures SumFiles(d, a + b) == Add(SumFiles(d, a), SumFiles(d, b))
    decreases |b|
  {
    hide Add, ProcessFile;
    if b == [] {
      assert a + b == a;
      AddLaws(SumFiles(d, a), NOTHING, NOTHING);
    } else {
      var n := |b| - 1;
      SumConcat(d, a, b[..n]);
      assert (a + b)[..|a| + n] == a + b[..n];
      AddLaws(SumFiles(d, a), SumFiles(d, b[..n]), ProcessFile(d, b[n]));
    }
  }

  lemma {:induction false} SumHasNoFiles(d: Demangler, a: seq<File>)
    ensures SumFiles(d, a).nfiles == 0
  {
    if a != [] {
      SumHasNoFiles(d, a[..|a| - 1]);
    }
  }

  /** Totals add up. */
  lemma TotalConcat(d: Demangler, a: seq<File>, b: seq<File>)
    ensures Total(d, a + b) == Add(Total(d, a), Total(d, b))
    ensures Total(d, a + b) == Add(Total(d, a).(nfiles := |a| + |b|), SumFiles(d, b))
  {
    hide SumFiles;
    SumConcat(d, a, b);
    SumHasNoFiles(d, b);
  }

  lemma FlatAppend(ps: seq<Pending>, p: Pending)
    ensures Flat(ps + [p]) == Flat(ps) + p.files
  {
    assert (ps + [p])[..|ps|] == ps;
  }

  /** The files of one directory among others. */
  function InDir(fs: seq<File>, dir: string): seq<File> {
    if fs == [] then []
    else InDir(fs[..|fs| - 1], dir) + if fs[|fs| - 1].dir == dir then [fs[|fs| - 1]] else []
  }

  lemma {:induction false} InDirConcat(a: seq<File>, b: seq<File>, dir: string)
    ensures InDir(a + b, dir) == InDir(a, dir) + InDir(b, dir)
    decreases |b|
  {
    if b == [] {
      assert a + b == a;
    } else {
      hide InDir;
      var n := |b| - 1;
      InDirConcat(a, b[..n], dir);
      InDirAppend(a + b[..n], b[n], dir);
      InDirAppend(b[..n], b[n], dir);
      assert a + b == a + b[..n] + [b[n]] && b == b[..n] + [b[n]];
      Assoc(InDir(a, dir), InDir(b[..n], dir), if b[n].dir == dir then [b[n]] else []);
    }
  }

  lemma InDirAppend(a: seq<File>, f: File, dir: string)
    ensures InDir(a + [f], dir) == InDir(a, dir) + if f.dir == dir then [f] else []
  {
    assert (a + [f])[..|a|] == a;
  }

  lemma Assoc<T>(a: seq<T>, b: seq<T>, c: seq<T>)
    ensures a + (b + c) == (a + b) + c
  {
  }

  /** The files of a directory list lie in it. */
  predicate Placed(p: Pending) {
    forall i :: 0 <= i < |p.files| ==> p.files[i].dir == p.dir
  }

  lemma {:induction false} InDirPlaced(fs: seq<File>, dir: string, other: string)
    requires forall i :: 0 <= i < |fs| ==> fs[i].dir == other
    ensures InDir(fs, dir) == if dir == other then fs else []
  {
    if fs != [] {
      InDirPlaced(fs[..|fs| - 1], dir, other);
      assert fs == fs[..|fs| - 1] + [fs[|fs| - 1]];
    }
  }

  ghost predicate AllPlaced(ps: seq<Pending>) {
    && (forall i :: 0 <= i < |ps| ==> Placed(ps[i]) && ps[i].files != [] && ps[i].dir != "")
    && (forall i, j :: 0 <= i < j < |ps| ==> ps[i].dir != ps[j].dir)
  }

  lemma {:induction false} InDirFlat(ps: seq<Pending>, i: nat)
    requires AllPlaced(ps) && i < |ps|
    ensures InDir(Flat(ps), ps[i].dir) == ps[i].files
    decreases |ps|
  {
    hide InDir;
    var n := |ps| - 1;
    InDirConcat(Flat(ps[..n]), ps[n].files, ps[i].dir);
    InDirPlaced(ps[n].files, ps[i].dir, ps[n].dir);
    if i < n {
      InDirFlat(ps[..n], i);
      assert ps[..n][i] == ps[i];
    } else {
      NotInDir(ps[..n], ps[n].dir);
    }
  }

  lemma {:induction false} NotInDir(ps: seq<Pending>, dir: string)
    requires AllPlaced(ps) && forall i :: 0 <= i < |ps| ==> ps[i].dir != dir
    ensures InDir(Flat(ps), dir) == []
    decreases |ps|
  {
    if ps != [] {
      hide InDir;
      var n := |ps| - 1;
      NotInDir(ps[..n], dir);
      InDirConcat(Flat(ps[..n]), ps[n].files, dir);
      InDirPlaced(ps[n].files, dir, ps[n].dir);
    }
  }

  function CountFiles(ps: seq<Pending>): nat {
    if ps == [] then 0 else |ps[0].files| + CountFiles(ps[1..])
  }

  /** The directories as they were before a part of the first had been processed. */
  function Restore(ps: seq<Pending>, part: seq<File>): seq<Pending> {
    if ps == [] then [] else [Pending(ps[0].dir, part + ps[0].files)] + ps[1..]
  }

  lemma RestoreNothing(ps: seq<Pending>)
    ensures Restore(ps, []) == ps
  {
    if ps != [] {
      assert [] + ps[0].files == ps[0].files;
      assert ps == [ps[0]] + ps[1..];
    }
  }

  /** Rows for directories with files, or without. */
  function Select(rows: seq<Row>, filled: bool): seq<Row> {
    if rows == [] then []
    else
      var r := rows[|rows| - 1];
      Select(rows[..|rows| - 1], filled) + if (r.result.nfiles > 0) == filled then [r] else []
  }

  lemma SelectAppend(rows: seq<Row>, r: Row, filled: bool)
    ensures Select(rows + [r], filled) == Select(rows, filled) + if (r.result.nfiles > 0) == filled then [r] else []
  {
    assert (rows + [r])[..|rows|] == rows;
  }

  lemma RowsAppend(d: Demangler, ps: seq<Pending>, p: Pending)
    ensures Rows(d, ps + [p]) == Rows(d, ps) + [Row(p.dir, Total(d, p.files))]
  {
  }

  // ----- the parts that a chunk takes -----

  /** The directories that a chunk has taken files from, with all their files that have been taken by
      now; of the last one there may be more. */
  function Whole(fulls: seq<Pending>, incomplete: bool): seq<Pending> {
    if incomplete && fulls != [] then fulls[..|fulls| - 1] else fulls
  }

  /** What has been taken before of the directory that comes next. */
  function Before(fulls: seq<Pending>, incomplete: bool, part: seq<File>): seq<File> {
    if fulls == [] then part else if incomplete then fulls[|fulls| - 1].files else []
  }

  /** The result that a directory starts with in a chunk: its files are counted already. */
  function Start(d: Demangler, fulls: seq<Pending>, part: seq<File>, i: nat): Result
    requires i < |fulls|
  {
    Total(d, if i == 0 then part else []).(nfiles := |fulls[i].files|)
  }

  ghost predicate Keyed(fulls: seq<Pending>, orderedDirs: seq<string>, results: map<string, Result>) {
    && "" !in results && |orderedDirs| == |fulls| && (forall i :: 0 <= i < |fulls| ==> orderedDirs[i] == fulls[i].dir)
    && (forall i :: 0 <= i < |fulls| ==> fulls[i].dir in results)
  }

  /** What has been taken so far in a chunk, and with which results it starts. */
  ghost predicate Taken(d: Demangler, fulls: seq<Pending>, part: seq<File>, objs: seq<File>,
                        orderedDirs: seq<string>, results: map<string, Result>) {
    && Keyed(fulls, orderedDirs, results)
    && (forall i :: 0 <= i < |fulls| ==> results[fulls[i].dir] == Start(d, fulls, part, i))
    && (if fulls == [] then objs == []
        else Flat(fulls) == part + objs && part <= fulls[0].files && |part| < |fulls[0].files|)
  }

  lemma TakenStep(d: Demangler, fulls: seq<Pending>, part: seq<File>, objs: seq<File>,
                  orderedDirs: seq<string>, results: map<string, Result>, dir: string, re: Result, fs: seq<File>)
    requires Taken(d, fulls, part, objs, orderedDirs, results) && fs != [] && dir != ""
    requires forall i :: 0 <= i < |fulls| ==> fulls[i].dir != dir
    requires re == (if fulls == [] then Total(d, part) else NOTHING)
    ensures Taken(d, fulls + [Pending(dir, Before(fulls, false, part) + fs)], part, objs + fs,
                  orderedDirs + [dir], results[dir := re.(nfiles := re.nfiles + |fs|)])
  {
    hide Flat, Total;
    var p := Pending(dir, Before(fulls, false, part) + fs);
    var fulls' := fulls + [p];
    TotalOfNone(d);
    forall i | 0 <= i < |fulls|
      ensures Start(d, fulls', part, i) == Start(d, fulls, part, i)
    {
      assert fulls'[i] == fulls[i];
    }
    TakenFlat(fulls, part, objs, dir, fs);
    TotalFiles(d, part);
  }

  lemma TakenFlat(fulls: seq<Pending>, part: seq<File>, objs: seq<File>, dir: string, fs: seq<File>)
    requires if fulls == [] then objs == [] else Flat(fulls) == part + objs
    ensures Flat(fulls + [Pending(dir, Before(fulls, false, part) + fs)]) == part + (objs + fs)
  {
    hide Flat;
    var p := Pending(dir, Before(fulls, false, part) + fs);
    FlatAppend(fulls, p);
    TotalOfNothing();
    Assoc(part, objs, fs);
  }

  lemma TotalOfNothing()
    ensures Flat([]) == []
  {
  }

  /** Dividing up the directories between those taken and those still pending. */
  ghost predicate Divides(r0: seq<Pending>, fulls: seq<Pending>, incomplete: bool, part: seq<File>,
                          pending: seq<Pending>) {
    && r0 == Whole(fulls, incomplete) + Restore(pending, Before(fulls, incomplete, part))
    && (incomplete ==> fulls != [] && pending != [] && pending[0].dir == fulls[|fulls| - 1].dir)
    && (forall i :: 0 <= i < |pending| ==> pending[i].files != [])
    && (forall i :: 0 <= i < |fulls| ==> fulls[i].files != [])
  }

  /** Taking all files, or some, of the first pending directory. */
  lemma TakeSome(r0: seq<Pending>, fulls: seq<Pending>, part: seq<File>, pending: seq<Pending>, n: nat)
    requires Divides(r0, fulls, false, part, pending) && pending != [] && 0 < n <= |pending[0].files|
    ensures var p := Pending(pending[0].dir, Before(fulls, false, part) + pending[0].files[..n]);
            if n == |pending[0].files| then Divides(r0, fulls + [p], false, part, pending[1..])
            else Divides(r0, fulls + [p], true, part, pending[0 := Pending(pending[0].dir, pending[0].files[n..])])
  {
    hide Restore, Whole, Before;
    var fs, b := pending[0].files, Before(fulls, false, part);
    var p := Pending(pending[0].dir, b + fs[..n]);
    WholeOf(fulls, p, part);
    if n == |fs| {
      assert fs[..n] == fs;
      RestoreFirst(pending, b);
      Assoc(fulls, [p], pending[1..]);
    } else {
      assert b + fs[..n] + fs[n..] == b + fs;
      RestoreRest(pending, b, n);
    }
  }

  lemma WholeOf(fulls: seq<Pending>, p: Pending, part: seq<File>)
    ensures Whole(fulls + [p], false) == fulls + [p] && Whole(fulls + [p], true) == fulls == Whole(fulls, false)
    ensures Before(fulls + [p], false, part) == [] && Before(fulls + [p], true, part) == p.files
  {
    assert (fulls + [p])[..|fulls|] == fulls;
  }

  lemma RestoreFirst(pending: seq<Pending>, b: seq<File>)
    requires pending != []
    ensures Restore(pending, b) == [Pending(pending[0].dir, b + pending[0].files)] + Restore(pending[1..], [])
    ensures Restore(pending[1..], []) == pending[1..]
  {
    RestoreNothing(pending[1..]);
  }

  lemma RestoreRest(pending: seq<Pending>, b: seq<File>, n: nat)
    requires pending != [] && n <= |pending[0].files|
    ensures var fs := pending[0].files;
            Restore(pending[0 := Pending(pending[0].dir, fs[n..])], b + fs[..n]) == Restore(pending, b)
  {
    var fs := pending[0].files;
    assert b + fs[..n] + fs[n..] == b + fs;
    assert pending[0 := Pending(pending[0].dir, fs[n..])][1..] == pending[1..];
  }

  /** The directories taken from are different, and their files lie in them. */
  lemma TakenPlaced(r0: seq<Pending>, fulls: seq<Pending>, incomplete: bool, part: seq<File>, pending: seq<Pending>)
    requires AllPlaced(r0) && Divides(r0, fulls, incomplete, part, pending)
    ensures AllPlaced(fulls) && |fulls| <= |r0| && forall i :: 0 <= i < |fulls| ==> fulls[i].dir == r0[i].dir
    ensures !incomplete && pending != [] ==> pending[0].dir != ""
    ensures !incomplete && pending != [] ==> forall i :: 0 <= i < |fulls| ==> fulls[i].dir != pending[0].dir
  {
    forall i | 0 <= i < |fulls|
      ensures i < |r0| && fulls[i].dir == r0[i].dir && fulls[i].files <= r0[i].files
    {
      if incomplete && i == |fulls| - 1 {
        assert r0[i] == Restore(pending, fulls[i].files)[0];
      } else {
        assert r0[i] == Whole(fulls, incomplete)[i];
      }
    }
    if !incomplete && pending != [] {
      assert r0[|fulls|] == Restore(pending, Before(fulls, incomplete, part))[0];
    }
    forall i | 0 <= i < |fulls|
      ensures Placed(fulls[i])
    {
      assert Placed(r0[i]);
      forall k | 0 <= k < |fulls[i].files|
        ensures fulls[i].files[k].dir == fulls[i].dir
      {
        assert r0[i].files[k].dir == r0[i].dir;
      }
    }
  }

  lemma {:induction false} InSomeDir(ps: seq<Pending>, k: nat)
    requires AllPlaced(ps) && k < |Flat(ps)|
    ensures exists i :: 0 <= i < |ps| && ps[i].dir == Flat(ps)[k].dir
    decreases |ps|
  {
    var n := |ps| - 1;
    if k < |Flat(ps[..n])| {
      InSomeDir(ps[..n], k);
      var i :| 0 <= i < n && ps[..n][i].dir == Flat(ps[..n])[k].dir;
      assert ps[i].dir == Flat(ps)[k].dir;
    } else {
      assert Placed(ps[n]);
    }
  }

  /** Adding the files of a chunk to what the directories started with gives their totals. */
  lemma ChunkTotals(d: Demangler, fulls: seq<Pending>, part: seq<File>, objs: seq<File>, i: nat)
    requires AllPlaced(fulls) && i < |fulls| && Flat(fulls) == part + objs
    requires |part| < |fulls[0].files| && part <= fulls[0].files
    ensures Add(Start(d, fulls, part, i), SumFiles(d, InDir(objs, fulls[i].dir))) == Total(d, fulls[i].files)
  {
    hide InDir, Flat, Add, SumFiles;
    var dir := fulls[i].dir;
    InDirFlat(fulls, i);
    InDirConcat(part, objs, dir);
    assert Placed(fulls[0]);
    InDirPlaced(part, dir, fulls[0].dir);
    var before := if i == 0 then part else [];
    assert InDir(part, dir) == before;
    TotalConcat(d, before, InDir(objs, dir));
  }

  // ----- the current directory -----

  /** No file was found in the current directory. */
  ghost predicate NoDot(fs: seq<File>) {
    forall i :: 0 <= i < |fs| ==> fs[i].dir != "."
  }

  /** No row is for files in the current directory. */
  ghost predicate NoDotRows(rows: seq<Row>) {
    forall i :: 0 <= i < |rows| && rows[i].result.nfiles > 0 ==> rows[i].dir != "."
  }

  ghost predicate HasDot(ps: seq<Pending>) {
    exists i :: 0 <= i < |ps| && ps[i].dir == "." && ps[i].files != []
  }

  lemma {:induction false} FlatNoDot(ps: seq<Pending>)
    requires NoDot(Flat(ps)) && forall i :: 0 <= i < |ps| ==> Placed(ps[i])
    ensures !HasDot(ps)
  {
    if ps != [] {
      var n, fs := |ps| - 1, Flat(ps);
      assert fs[..|Flat(ps[..n])|] == Flat(ps[..n]);
      FlatNoDot(ps[..n]);
      assert ps[n].files != [] ==> ps[n].dir != "." by {
        if ps[n].files != [] {
          assert Placed(ps[n]) && fs[|fs| - |ps[n].files|] == ps[n].files[0];
        }
      }
      forall i | 0 <= i < |ps| && ps[i].dir == "."
        ensures ps[i].files == []
      {
        if i < n {
          assert ps[..n][i] == ps[i];
        }
      }
    }
  }

  lemma {:induction false} SelectRow(rows: seq<Row>, i: nat)
    requires i < |rows| && rows[i].result.nfiles > 0
    ensures rows[i] in Select(rows, true)
  {
    if i < |rows| - 1 {
      SelectRow(rows[..|rows| - 1], i);
    }
  }

  /** Only completed directories have rows with files. */
  lemma RowsNoDot(d: Demangler, rows: seq<Row>, completed: seq<Pending>)
    requires Select(rows, true) == Rows(d, completed) && AllPlaced(completed) && NoDot(Flat(completed))
    ensures NoDotRows(rows)
  {
    hide Select, Flat, Total;
    FlatNoDot(completed);
    forall i | 0 <= i < |rows| && rows[i].result.nfiles > 0
      ensures rows[i].dir != "."
    {
      SelectRow(rows, i);
      var k :| 0 <= k < |completed| && Rows(d, completed)[k] == rows[i];
      assert completed[k].files != [];
    }
  }

  // ----- the context -----

  class MapContext {
    var rincomplete: Option<Result>
    var rcumulative: Result
    var pendingObjs: seq<Pending>
    var npending: nat
    var rows: seq<Row>
    /** The directories that are complete, and the processed part of the first pending one. */
    ghost var completed: seq<Pending>
    ghost var part: seq<File>
    /** The directories without files. */
    ghost var empties: seq<string>
    /** The files that were processed, in order. */
    ghost var processed: seq<File>

    constructor ()
      ensures rincomplete == None && rcumulative == NOTHING && pendingObjs == [] && npending == 0
      ensures rows == [] && completed == [] && part == [] && processed == [] && empties == []
    {
      rincomplete, rcumulative, pendingObjs, npending := None, NOTHING, [], 0;
      rows, completed, part, processed, empties := [], [], [], [], [];
    }

    /** All directories that were handed over, in order. */
    ghost function Fed(): seq<Pending>
      reads this
    {
      completed + Restore(pendingObjs, part)
    }

    /** The counter is right, results so far are those of the complete directories, and the result
        that is kept is that of the processed part. */
    ghost predicate Valid(d: Demangler)
      reads this
    {
      && npending == CountFiles(pendingObjs)
      && (forall i :: 0 <= i < |pendingObjs| ==> pendingObjs[i].files != [])
      && AllPlaced(Fed())
      && rcumulative == Total(d, Flat(completed))
      && processed == Flat(completed) + part && NoDot(processed)
      && (pendingObjs == [] ==> part == [])
      && rincomplete == (if part == [] then None else Some(Total(d, part)))
      && Select(rows, true) == Rows(d, completed)
      && Select(rows, false) == EmptyRows(empties)
    }

    /** Take up to chunkSize files from the front of the pending directories. */
    method TakeObjs(d: Demangler, chunkSize: nat)
      returns (objs: seq<File>, orderedDirs: seq<string>, dirResults: map<string, Result>, incomplete: bool,
               ghost fulls: seq<Pending>)
      requires Valid(d)
      modifies `pendingObjs, `npending, `rincomplete
      ensures Divides(old(Restore(pendingObjs, part)), fulls, incomplete, part, pendingObjs)
      ensures Taken(d, fulls, part, objs, orderedDirs, dirResults)
      ensures fulls == [] ==> objs == [] && pendingObjs == old(pendingObjs) && rincomplete == old(rincomplete)
      ensures fulls != [] ==> rincomplete == None
      ensures npending == CountFiles(pendingObjs) && (|objs| == chunkSize || npending == 0)
      ensures |objs| + npending == old(npending) && |objs| <= chunkSize
    {
      hide Restore, Start, Taken, Whole, Before, AllPlaced, Divides, Total;
      objs, orderedDirs, dirResults, incomplete, fulls := [], [], map[], false, [];
      ghost var r0 := Restore(pendingObjs, part);
      NothingTaken(d, pendingObjs, part, completed);
      while npending > 0 && |objs| < chunkSize
        invariant Divides(r0, fulls, incomplete, part, pendingObjs)
                  && Taken(d, fulls, part, objs, orderedDirs, dirResults)
        invariant fulls == [] ==> objs == [] && pendingObjs == old(pendingObjs) && rincomplete == old(rincomplete)
        invariant fulls != [] ==> rincomplete == None
        invariant npending == CountFiles(pendingObjs) && |objs| <= chunkSize && |objs| + npending == old(npending)
        invariant incomplete ==> |objs| == chunkSize
        decreases npending
      {
        TakenPlaced(r0, fulls, incomplete, part, pendingObjs);
        FirstHasFiles(r0, fulls, incomplete, part, pendingObjs);
        var thisDir := pendingObjs[0].dir;
        orderedDirs := orderedDirs + [thisDir];
        var re := NOTHING;
        if rincomplete.Some? {
          re := rincomplete.value;
          rincomplete := None;
        }
        TotalOfNone(d);
        var nneeded := chunkSize - |objs|;
        var objsThisDir := pendingObjs[0].files;
        var navail := |objsThisDir|;
        var ntaken := if nneeded < navail then nneeded else navail;
        var taken := objsThisDir[..ntaken];
        TakeSome(r0, fulls, part, pendingObjs, ntaken);
        TakenStep(d, fulls, part, objs, orderedDirs[..|orderedDirs| - 1], dirResults, thisDir, re, taken);
        objs := objs + taken;
        npending := npending - ntaken;
        if ntaken == navail {
          pendingObjs := pendingObjs[1..];
        } else {
          CountRest(pendingObjs, ntaken);
          pendingObjs := pendingObjs[0 := Pending(thisDir, objsThisDir[ntaken..])];
          incomplete := true;
        }
        re := re.(nfiles := re.nfiles + ntaken);
        dirResults := dirResults[thisDir := re];
        fulls := fulls + [Pending(thisDir, Before(fulls, false, part) + taken)];
      }
    }

    /** Add the result of every file to that of the directory in its path. That fails exactly if a
        file is in the current directory. */
    method AddAll(d: Demangler, objs: seq<File>, results0: map<string, Result>, orderedDirs: seq<string>,
                  ghost fulls: seq<Pending>)
      returns (ok: bool, results: map<string, Result>)
      requires AllPlaced(fulls) && Taken(d, fulls, part, objs, orderedDirs, results0)
      ensures ok <==> NoDot(objs)
      ensures ok ==> Keyed(fulls, orderedDirs, results)
      ensures ok ==> forall i :: 0 <= i < |fulls| ==> results[fulls[i].dir] == Total(d, fulls[i].files)
    {
      hide AllPlaced, Total, Flat, Add, ProcessFile, SumsAll, Keyed;
      results := results0;
      NoSums(d, fulls, part, objs, orderedDirs, results);
      assert objs[..0] == [];
      for j := 0 to |objs|
        invariant SumsAll(d, fulls, part, objs[..j], results)
        invariant "" !in results && forall k :: 0 <= k < j ==> objs[k].dir != "."
      {
        TakenObj(d, fulls, part, objs, orderedDirs, results0, objs[..j], results, j);
        var mr := ProcessFile(d, objs[j]);
        var resultDir := Dirname(objs[j]);
        if resultDir !in results {
          return false, results;
        }
        ghost var before := results;
        results := results[resultDir := Add(results[resultDir], mr)];
        AddOne(d, fulls, part, objs, j, before, results);
      }
      assert objs[..|objs|] == objs;
      SumsComplete(d, fulls, part, objs, orderedDirs, results0, results);
      return true, results;
    }

    /** Report the complete directories, and keep the result of one that is not. */
    method Finish(d: Demangler, dirResults: map<string, Result>, orderedDirs0: seq<string>, incomplete: bool,
                  ghost fulls: seq<Pending>)
      requires Keyed(fulls, orderedDirs0, dirResults)
      requires forall i :: 0 <= i < |fulls| ==>
                 dirResults[fulls[i].dir] == Total(d, fulls[i].files) && fulls[i].files != []
      requires incomplete ==> fulls != []
      requires rcumulative == Total(d, Flat(completed)) && Select(rows, true) == Rows(d, completed)
      modifies `rincomplete, `rcumulative, `rows, `completed
      ensures completed == old(completed) + Whole(fulls, incomplete)
      ensures rcumulative == Total(d, Flat(completed)) && Select(rows, true) == Rows(d, completed)
      ensures Select(rows, false) == old(Select(rows, false))
      ensures rincomplete == if incomplete then Some(Total(d, fulls[|fulls| - 1].files)) else old(rincomplete)
    {
      hide Total, Flat, Select, Rows, Add;
      var orderedDirs := orderedDirs0;
      if incomplete {
        rincomplete := Some(dirResults[orderedDirs[|orderedDirs| - 1]]);
        orderedDirs := orderedDirs[..|orderedDirs| - 1];
      }
      ghost var whole := Whole(fulls, incomplete);
      ghost var old_completed := completed;
      assert completed + whole[..0] == completed;
      for k := 0 to |orderedDirs|
        invariant completed == old_completed + whole[..k]
        invariant rcumulative == Total(d, Flat(completed)) && Select(rows, true) == Rows(d, completed)
        invariant Select(rows, false) == old(Select(rows, false))
        invariant rincomplete == if incomplete then Some(Total(d, fulls[|fulls| - 1].files)) else old(rincomplete)
      {
        var c := orderedDirs[k];
        var re := dirResults[c];
        ghost var p := whole[k];
        assert re == Total(d, p.files) && c == p.dir;
        FlatAppend(completed, p);
        TotalConcat(d, Flat(completed), p.files);
        RowsAppend(d, completed, p);
        TotalFiles(d, p.files);
        rcumulative := Add(rcumulative, re);
        SelectAppend(rows, Row(c, re), true);
        SelectAppend(rows, Row(c, re), false);
        rows := rows + [Row(c, re)];
        assert old_completed + whole[..k + 1] == old_completed + whole[..k] + [p];
        completed := completed + [p];
      }
      assert whole[..|whole|] == whole;
    }

    /** Process the next files, as many as chunkSize or all that are left. The result is false for
        a missing key; then one of the directories is the current one, and nothing is reported. */
    method ProcessOneChunk(d: Demangler, chunkSize: nat) returns (ok: bool)
      requires Valid(d) && chunkSize > 0
      modifies this
      ensures ok ==> Valid(d) && Fed() == old(Fed()) && empties == old(empties)
      ensures ok ==> npending == if old(npending) <= chunkSize then 0 else old(npending) - chunkSize
      ensures ok ==> old(processed) <= processed && |processed| == |old(processed)| + (old(npending) - npending)
      ensures !ok ==> HasDot(old(Fed())) && rows == old(rows) && rcumulative == old(rcumulative) && NoDotRows(rows)
    {
      hide Restore, Flat, Total, Select, Rows, Whole, Before, AllPlaced, CountFiles, HasDot, NoDot, NoDotRows;
      var objs, orderedDirs, dirResults, incomplete;
      ghost var fulls, r0 := [], Restore(pendingObjs, part);
      NothingTaken(d, pendingObjs, part, completed);
      NoDotSoFar(d);
      objs, orderedDirs, dirResults, incomplete, fulls := TakeObjs(d, chunkSize);
      TakenPlaced(r0, fulls, incomplete, part, pendingObjs);
      ok, dirResults := AddAll(d, objs, dirResults, orderedDirs, fulls);
      if !ok {
        DotFed(completed, r0, fulls, part, objs);
        return;
      }
      HaveFiles(fulls);
      Finish(d, dirResults, orderedDirs, incomplete, fulls);
      ghost var part0 := part;
      part := Before(fulls, incomplete, part);
      NoDotConcat(processed, objs);
      processed := processed + objs;
      ChunkDone(old(completed), r0, fulls, incomplete, part0, pendingObjs, objs);
      PartIs(fulls, incomplete, part0);
    }

    lemma NoDotSoFar(d: Demangler)
      requires Valid(d)
      ensures NoDotRows(rows)
    {
      hide Restore, Flat, Total, Select, Rows, AllPlaced, NoDotRows;
      PlacedParts(completed, Restore(pendingObjs, part));
      assert processed[..|Flat(completed)|] == Flat(completed);
      RowsNoDot(d, rows, completed);
    }

    lemma StartsValid(d: Demangler)
      requires rincomplete == None && rcumulative == NOTHING && pendingObjs == [] && npending == 0
      requires rows == [] && completed == [] && part == [] && processed == [] && empties == []
      ensures Valid(d) && Fed() == []
    {
      assert Flat([]) + [] == [];
    }

    /** When no file is pending, everything is complete. */
    lemma EndsComplete(d: Demangler)
      requires Valid(d) && npending == 0
      ensures pendingObjs == [] && rincomplete == None && completed == Fed()
      ensures processed == Flat(Fed()) && rcumulative == Total(d, Flat(Fed())) && NoDot(processed)
      ensures Select(rows, true) == Rows(d, Fed()) && Select(rows, false) == EmptyRows(empties)
    {
      NonePending(pendingObjs);
      assert completed + [] == completed;
      assert Flat(completed) + [] == Flat(completed);
    }

    method ProcessPendingFiles(d: Demangler, chunkSize: nat) returns (ok: bool)
      requires Valid(d) && chunkSize > 0
      modifies this
      ensures ok ==> Valid(d) && Fed() == old(Fed()) && empties == old(empties) && npending < chunkSize
      ensures !ok ==> HasDot(old(Fed())) && NoDotRows(rows)
    {
      hide Valid, Fed, HasDot, NoDotRows;
      ok := true;
      while npending >= chunkSize
        invariant ok && Valid(d) && Fed() == old(Fed()) && empties == old(empties)
        decreases npending
      {
        ok := ProcessOneChunk(d, chunkSize);
        if !ok {
          return;
        }
      }
    }

    /** Hand over a directory. One without files is reported at once. */
    method AddDirectory(d: Demangler, l: Listing, chunkSize: nat) returns (ok: bool)
      requires Valid(d) && chunkSize > 0 && npending < chunkSize && l.root != ""
      requires forall i :: 0 <= i < |Fed()| ==> Fed()[i].dir != l.root
      modifies this
      ensures ok ==> Valid(d) && npending < chunkSize
      ensures ok ==> Fed() == old(Fed()) + if l.names != [] then [PendingOf(l)] else []
      ensures ok ==> empties == old(empties) + if l.names == [] then [l.root] else []
      ensures !ok ==> HasDot(old(Fed()) + [PendingOf(l)]) && NoDotRows(rows)
    {
      hide Placed, Select, Rows, Total, AllPlaced, Flat, Restore, CountFiles, HasDot, NoDot, NoDotRows;
      var pending: seq<File> := [];
      for i := 0 to |l.names|
        invariant pending == Files(l.root, l.names[..i])
      {
        pending := pending + [File(l.root, l.names[i])];
      }
      assert l.names[..|l.names|] == l.names;
      if |pending| == 0 {
        EmptyRowsAppend(empties, l.root);
        SelectAppend(rows, Row(l.root, NOTHING), true);
        SelectAppend(rows, Row(l.root, NOTHING), false);
        rows := rows + [Row(l.root, NOTHING)];
        empties := empties + [l.root];
        ok := true;
      } else {
        ghost var p := PendingOf(l);
        ListingPlaced(l);
        FedAppend(completed, pendingObjs, part, p);
        CountAppend(pendingObjs, p);
        npending := npending + |pending|;
        pendingObjs := pendingObjs + [Pending(l.root, pending)];
        ok := ProcessPendingFiles(d, chunkSize);
      }
    }
  }

  lemma ListingPlaced(l: Listing)
    ensures Placed(PendingOf(l))
  {
  }

  lemma NoDotConcat(a: seq<File>, b: seq<File>)
    requires NoDot(a) && NoDot(b)
    ensures NoDot(a + b)
  {
  }

  /** A file in the current directory comes from a directory that was handed over. */
  lemma DotFed(completed: seq<Pending>, r0: seq<Pending>, fulls: seq<Pending>, part: seq<File>, objs: seq<File>)
    requires AllPlaced(completed + r0) && AllPlaced(fulls) && |fulls| <= |r0|
    requires forall i :: 0 <= i < |fulls| ==> fulls[i].dir == r0[i].dir
    requires !NoDot(objs) && (fulls == [] ==> objs == []) && (fulls != [] ==> Flat(fulls) == part + objs)
    ensures HasDot(completed + r0)
  {
    hide Flat, Placed;
    var j :| 0 <= j < |objs| && objs[j].dir == ".";
    ObjInDir(fulls, part, objs, j);
    var i :| 0 <= i < |fulls| && fulls[i].dir == objs[j].dir;
    assert (completed + r0)[|completed| + i] == r0[i];
  }

  ghost predicate SumsAll(d: Demangler, fulls: seq<Pending>, part: seq<File>, objs: seq<File>,
                          results: map<string, Result>)
  {
    forall i :: 0 <= i < |fulls| ==> Sums(d, fulls, part, objs, results, i)
  }

  /** One more file of a chunk. */
  lemma AddOne(d: Demangler, fulls: seq<Pending>, part: seq<File>, objs: seq<File>, j: nat,
               results: map<string, Result>, results': map<string, Result>)
    requires j < |objs| && objs[j].dir in results && SumsAll(d, fulls, part, objs[..j], results)
    requires results' == results[objs[j].dir := Add(results[objs[j].dir], ProcessFile(d, objs[j]))]
    ensures SumsAll(d, fulls, part, objs[..j + 1], results')
  {
    hide Start, SumFiles, InDir, Add, ProcessFile;
    var next := objs[..j + 1];
    forall i | 0 <= i < |fulls|
      ensures Sums(d, fulls, part, next, results', i)
    {
      assert Sums(d, fulls, part, objs[..j], results, i);
      NextSum(d, Start(d, fulls, part, i), objs, j, fulls[i].dir);
    }
  }

  lemma NoSums(d: Demangler, fulls: seq<Pending>, part: seq<File>, objs: seq<File>, orderedDirs: seq<string>,
               results: map<string, Result>)
    requires Taken(d, fulls, part, objs, orderedDirs, results)
    ensures SumsAll(d, fulls, part, [], results) && "" !in results
  {
    hide Start, SumFiles, InDir, Add, Flat;
    forall i | 0 <= i < |fulls|
      ensures Sums(d, fulls, part, [], results, i)
    {
      NoSum(d, Start(d, fulls, part, i), fulls[i].dir);
    }
  }

  /** Every file of a chunk is in a directory that was taken from. */
  lemma TakenObj(d: Demangler, fulls: seq<Pending>, part: seq<File>, objs: seq<File>, orderedDirs: seq<string>,
                 results0: map<string, Result>, done: seq<File>, results: map<string, Result>, j: nat)
    requires AllPlaced(fulls) && Taken(d, fulls, part, objs, orderedDirs, results0)
    requires SumsAll(d, fulls, part, done, results) && j < |objs|
    ensures objs[j].dir in results
  {
    hide Start, SumFiles, InDir, Add, Flat, AllPlaced;
    ObjInDir(fulls, part, objs, j);
    var i :| 0 <= i < |fulls| && fulls[i].dir == objs[j].dir;
    assert Sums(d, fulls, part, done, results, i);
  }

  /** When all files have been added, the results are the totals. */
  lemma SumsComplete(d: Demangler, fulls: seq<Pending>, part: seq<File>, objs: seq<File>, orderedDirs: seq<string>,
                     results0: map<string, Result>, results: map<string, Result>)
    requires AllPlaced(fulls) && Taken(d, fulls, part, objs, orderedDirs, results0)
    requires SumsAll(d, fulls, part, objs, results) && "" !in results
    ensures Keyed(fulls, orderedDirs, results)
    ensures forall i :: 0 <= i < |fulls| ==> results[fulls[i].dir] == Total(d, fulls[i].files)
  {
    hide AllPlaced, Start, Total, SumFiles, InDir, Flat, Add;
    forall i | 0 <= i < |fulls|
      ensures fulls[i].dir in results && results[fulls[i].dir] == Total(d, fulls[i].files)
    {
      assert Sums(d, fulls, part, objs, results, i);
      ChunkTotals(d, fulls, part, objs, i);
    }
  }

  lemma {:induction false} FlatConcat(a: seq<Pending>, b: seq<Pending>)
    ensures Flat(a + b) == Flat(a) + Flat(b)
    decreases |b|
  {
    if b == [] {
      assert a + b == a;
    } else {
      hide Flat;
      var n := |b| - 1;
      FlatConcat(a, b[..n]);
      FlatAppend(a + b[..n], b[n]);
      FlatAppend(b[..n], b[n]);
      assert b == b[..n] + [b[n]] && a + b == a + b[..n] + [b[n]];
    }
  }

  /** A chunk moves files from the pending to the processed ones, and changes nothing else. */
  lemma ChunkDone(completed: seq<Pending>, r0: seq<Pending>, fulls: seq<Pending>, incomplete: bool, part: seq<File>,
                  pending: seq<Pending>, objs: seq<File>)
    requires Divides(r0, fulls, incomplete, part, pending)
    requires if fulls == [] then objs == [] else Flat(fulls) == part + objs
    ensures var whole, part' := Whole(fulls, incomplete), Before(fulls, incomplete, part);
            && completed + whole + Restore(pending, part') == completed + r0
            && Flat(completed + whole) + part' == Flat(completed) + part + objs
            && (forall i :: 0 <= i < |pending| ==> pending[i].files != [])
  {
    hide Restore, Flat;
    var whole, part' := Whole(fulls, incomplete), Before(fulls, incomplete, part);
    assert completed + whole + Restore(pending, part') == completed + (whole + Restore(pending, part'));
    if fulls == [] {
      assert completed + whole == completed;
    } else {
      FlatSplit(fulls, incomplete, part);
      FlatConcat(completed, whole);
      Regroup(Flat(completed), Flat(whole), part', part, objs);
    }
  }

  lemma FlatSplit(fulls: seq<Pending>, incomplete: bool, part: seq<File>)
    requires fulls != []
    ensures Flat(Whole(fulls, incomplete)) + Before(fulls, incomplete, part) == Flat(fulls)
  {
    if incomplete {
      var whole := Whole(fulls, incomplete);
      assert fulls == whole + [fulls[|fulls| - 1]];
      FlatAppend(whole, fulls[|fulls| - 1]);
    }
  }

  lemma Regroup(a: seq<File>, b: seq<File>, c: seq<File>, p: seq<File>, o: seq<File>)
    requires b + c == p + o
    ensures a + b + c == a + p + o
  {
    assert a + b + c == a + (b + c) && a + p + o == a + (p + o);
  }

  /** What the result of a directory has grown to. */
  ghost predicate Sums(d: Demangler, fulls: seq<Pending>, part: seq<File>, objs: seq<File>,
                       results: map<string, Result>, i: nat)
    requires i < |fulls|
  {
    && fulls[i].dir in results
    && results[fulls[i].dir] == Add(Start(d, fulls, part, i), SumFiles(d, InDir(objs, fulls[i].dir)))
  }

  lemma NoSum(d: Demangler, r: Result, dir: string)
    ensures Add(r, SumFiles(d, InDir([], dir))) == r
  {
    AddLaws(r, NOTHING, NOTHING);
  }

  lemma NextSum(d: Demangler, r: Result, objs: seq<File>, j: nat, dir: string)
    requires j < |objs|
    ensures var s, s' := Add(r, SumFiles(d, InDir(objs[..j], dir))), Add(r, SumFiles(d, InDir(objs[..j + 1], dir)));
            s' == if objs[j].dir == dir then Add(s, ProcessFile(d, objs[j])) else s
  {
    hide Add, ProcessFile;
    var fs := InDir(objs[..j], dir);
    assert objs[..j + 1][..j] == objs[..j];
    if objs[j].dir == dir {
      assert (fs + [objs[j]])[..|fs|] == fs;
      AddLaws(r, SumFiles(d, fs), ProcessFile(d, objs[j]));
    } else {
      assert fs + [] == fs;
    }
  }

  lemma ObjInDir(fulls: seq<Pending>, part: seq<File>, objs: seq<File>, j: nat)
    requires AllPlaced(fulls) && j < |objs| && (fulls == [] ==> objs == [])
             && (fulls != [] ==> Flat(fulls) == part + objs)
    ensures exists i :: 0 <= i < |fulls| && fulls[i].dir == objs[j].dir
  {
    hide AllPlaced, Flat;
    InSomeDir(fulls, |part| + j);
    assert (part + objs)[|part| + j] == objs[j];
  }

  lemma TotalFiles(d: Demangler, fs: seq<File>)
    ensures Total(d, fs).nfiles == |fs|
  {
  }

  lemma FedAppend(completed: seq<Pending>, pending: seq<Pending>, part: seq<File>, p: Pending)
    requires pending == [] ==> part == []
    requires AllPlaced(completed + Restore(pending, part)) && Placed(p) && p.files != [] && p.dir != ""
    requires var fed := completed + Restore(pending, part); forall i :: 0 <= i < |fed| ==> fed[i].dir != p.dir
    ensures completed + Restore(pending + [p], part) == completed + Restore(pending, part) + [p]
    ensures AllPlaced(completed + Restore(pending + [p], part))
  {
    hide Placed;
    if pending == [] {
      assert [] + p.files == p.files;
    } else {
      assert (pending + [p])[1..] == pending[1..] + [p];
    }
  }

  lemma {:induction false} CountAppend(ps: seq<Pending>, p: Pending)
    ensures CountFiles(ps + [p]) == CountFiles(ps) + |p.files|
  {
    if ps == [] {
      assert [] + [p] == [p] && [p][1..] == [];
    } else {
      CountAppend(ps[1..], p);
      assert (ps + [p])[1..] == ps[1..] + [p];
    }
  }

  function NonEmpty(dirs: seq<Pending>): seq<Pending> {
    if dirs == [] then []
    else NonEmpty(dirs[..|dirs| - 1]) + if dirs[|dirs| - 1].files != [] then [dirs[|dirs| - 1]] else []
  }

  function EmptyDirs(dirs: seq<Pending>): seq<string> {
    if dirs == [] then []
    else EmptyDirs(dirs[..|dirs| - 1]) + if dirs[|dirs| - 1].files == [] then [dirs[|dirs| - 1].dir] else []
  }

  lemma {:induction false} NonEmptyFlat(dirs: seq<Pending>)
    ensures Flat(NonEmpty(dirs)) == Flat(dirs)
  {
    if dirs != [] {
      var n := |dirs| - 1;
      NonEmptyFlat(dirs[..n]);
      if dirs[n].files == [] {
        assert NonEmpty(dirs) == NonEmpty(dirs[..n]) && Flat(dirs) == Flat(dirs[..n]);
      } else {
        FlatAppend(NonEmpty(dirs[..n]), dirs[n]);
      }
    }
  }

  lemma {:induction false} NotAmong(dirs: seq<Pending>, dir: string)
    requires forall i :: 0 <= i < |dirs| ==> dirs[i].dir != dir
    ensures forall k :: 0 <= k < |NonEmpty(dirs)| ==> NonEmpty(dirs)[k].dir != dir
  {
    if dirs != [] {
      NotAmong(dirs[..|dirs| - 1], dir);
    }
  }

  /** What has been handed over comes from the list. */
  lemma {:induction false} NonEmptyFrom(dirs: seq<Pending>, i: nat)
    requires i < |NonEmpty(dirs)|
    ensures exists k :: 0 <= k < |dirs| && dirs[k] == NonEmpty(dirs)[i] && dirs[k].files != []
  {
    var n := |dirs| - 1;
    if i < |NonEmpty(dirs[..n])| {
      NonEmptyFrom(dirs[..n], i);
      var k :| 0 <= k < n && dirs[..n][k] == NonEmpty(dirs[..n])[i] && dirs[..n][k].files != [];
      assert dirs[k] == NonEmpty(dirs)[i];
    } else {
      assert dirs[n] == NonEmpty(dirs)[i];
    }
  }

  lemma DotListed(dirs: seq<Listing>, i: nat)
    requires i < |dirs| && HasDot(NonEmpty(Pendings(dirs[..i])) + [PendingOf(dirs[i])])
    ensures AnyDot(dirs)
  {
    hide NonEmpty;
    var ps := NonEmpty(Pendings(dirs[..i]));
    var qs := ps + [PendingOf(dirs[i])];
    var k :| 0 <= k < |qs| && qs[k].dir == "." && qs[k].files != [];
    if k < |ps| {
      NonEmptyFrom(Pendings(dirs[..i]), k);
      var m :| 0 <= m < i && Pendings(dirs[..i])[m] == ps[k];
      assert dirs[m].root == "." && dirs[m].names != [];
    } else {
      assert dirs[i].root == "." && dirs[i].names != [];
    }
  }

  /** There are object files in the current directory itself. */
  predicate AnyDot(dirs: seq<Listing>) {
    exists i :: 0 <= i < |dirs| && dirs[i].root == "." && dirs[i].names != []
  }

  lemma NotYetFed(dirs: seq<Listing>, i: nat)
    requires i < |dirs| && forall j, k :: 0 <= j < k < |dirs| ==> dirs[j].root != dirs[k].root
    ensures forall k :: 0 <= k < |NonEmpty(Pendings(dirs[..i]))| ==>
                          NonEmpty(Pendings(dirs[..i]))[k].dir != dirs[i].root
  {
    NotAmong(Pendings(dirs[..i]), dirs[i].root);
  }

  lemma FedStep(dirs: seq<Listing>, i: nat)
    requires i < |dirs|
    ensures var ps, p := Pendings(dirs[..i]), PendingOf(dirs[i]);
            && NonEmpty(Pendings(dirs[..i + 1])) == NonEmpty(ps) + (if dirs[i].names != [] then [p] else [])
            && EmptyDirs(Pendings(dirs[..i + 1]))
               == EmptyDirs(ps) + (if dirs[i].names == [] then [dirs[i].root] else [])
  {
    assert Pendings(dirs[..i + 1])[..i] == Pendings(dirs[..i]);
  }

  /** If everything was processed, nothing was in the current directory. */
  lemma AllNoDot(dirs: seq<Listing>)
    requires NoDot(Flat(Pendings(dirs)))
    ensures !AnyDot(dirs)
  {
    FlatNoDot(Pendings(dirs));
    forall i | 0 <= i < |dirs| && dirs[i].root == "."
      ensures dirs[i].names == []
    {
      assert Pendings(dirs)[i] == PendingOf(dirs[i]);
    }
  }

  /** Over any list of directories. The run is cut short by a missing key if and only if there are
      object files in the current directory itself, and then no row is for them. Otherwise every
      file is processed exactly once and in order, every directory with files is reported once with
      its whole total, every other one once as empty, and the cumulative result is that of all files. */
  method Go(d: Demangler, dirs: seq<Listing>, poolSize: nat) returns (ok: bool, cxt: MapContext)
    requires poolSize > 0 && forall i :: 0 <= i < |dirs| ==> dirs[i].root != ""
    requires forall i, j :: 0 <= i < j < |dirs| ==> dirs[i].root != dirs[j].root
    ensures ok <==> !AnyDot(dirs)
    ensures !ok ==> NoDotRows(cxt.rows)
    ensures ok ==> cxt.npending == 0 && cxt.pendingObjs == [] && cxt.rincomplete == None
    ensures ok ==> cxt.processed == Flat(Pendings(dirs)) && cxt.rcumulative == Total(d, Flat(Pendings(dirs)))
    ensures ok ==> Select(cxt.rows, true) == Rows(d, NonEmpty(Pendings(dirs)))
    ensures ok ==> Select(cxt.rows, false) == EmptyRows(EmptyDirs(Pendings(dirs)))
  {
    hide Placed, Select, Rows, Total, Flat, EmptyRows, MapContext.Valid, MapContext.Fed, NonEmpty, EmptyDirs, Pendings,
         HasDot, AnyDot, NoDot, NoDotRows;
    cxt := new MapContext();
    cxt.StartsValid(d);
    NoneFed();
    assert dirs[..0] == [];
    for i := 0 to |dirs|
      invariant fresh(cxt) && cxt.Valid(d) && cxt.npending < poolSize
      invariant cxt.Fed() == NonEmpty(Pendings(dirs[..i])) && cxt.empties == EmptyDirs(Pendings(dirs[..i]))
    {
      NotYetFed(dirs, i);
      FedStep(dirs, i);
      ok := cxt.AddDirectory(d, dirs[i], poolSize);
      if !ok {
        DotListed(dirs, i);
        return;
      }
    }
    assert dirs[..|dirs|] == dirs;
    ok := cxt.ProcessOneChunk(d, poolSize);
    if !ok {
      DotAmong(dirs);
      return;
    }
    cxt.EndsComplete(d);
    NonEmptyFlat(Pendings(dirs));
    AllNoDot(dirs);
  }

  lemma NoneFed()
    ensures NonEmpty(Pendings([])) == [] && EmptyDirs(Pendings([])) == []
  {
  }

  lemma DotAmong(dirs: seq<Listing>)
    requires HasDot(NonEmpty(Pendings(dirs)))
    ensures AnyDot(dirs)
  {
    hide NonEmpty;
    var ps := NonEmpty(Pendings(dirs));
    var k :| 0 <= k < |ps| && ps[k].dir == "." && ps[k].files != [];
    NonEmptyFrom(Pendings(dirs), k);
    var m :| 0 <= m < |dirs| && Pendings(dirs)[m] == ps[k];
    assert dirs[m].root == "." && dirs[m].names != [];
  }

  /** For example, a single file in the current directory. */
  method CurrentDirectory(d: Demangler, name: string, poolSize: nat) returns (ok: bool)
    requires poolSize > 0
    ensures !ok
  {
    var dirs := [Listing(".", [name])];
    var cxt;
    ok, cxt := Go(d, dirs, poolSize);
    assert dirs[0].root == "." && dirs[0].names != [];
  }

  lemma NonePending(ps: seq<Pending>)
    requires CountFiles(ps) == 0 && forall i :: 0 <= i < |ps| ==> ps[i].files != []
    ensures ps == []
  {
  }

  lemma PartIs(fulls: seq<Pending>, incomplete: bool, part: seq<File>)
    ensures Before(fulls, incomplete, part) ==
            if fulls == [] then part else if incomplete then fulls[|fulls| - 1].files else []
  {
  }

  lemma HaveFiles(ps: seq<Pending>)
    requires AllPlaced(ps)
    ensures forall i :: 0 <= i < |ps| ==> ps[i].files != []
  {
  }

  lemma NothingTaken(d: Demangler, pending: seq<Pending>, part: seq<File>, completed: seq<Pending>)
    requires AllPlaced(completed + Restore(pending, part))
    requires forall i :: 0 <= i < |pending| ==> pending[i].files != []
    ensures Divides(Restore(pending, part), [], false, part, pending) && Taken(d, [], part, [], [], map[])
    ensures AllPlaced(Restore(pending, part))
  {
    hide Restore;
    assert [] + Restore(pending, part) == Restore(pending, part);
    PlacedParts(completed, Restore(pending, part));
  }

  lemma PlacedParts(a: seq<Pending>, b: seq<Pending>)
    requires AllPlaced(a + b)
    ensures AllPlaced(a) && AllPlaced(b)
  {
    hide Placed;
    var c := a + b;
    forall i | 0 <= i < |b|
      ensures Placed(b[i]) && b[i].files != [] && b[i].dir != ""
    {
      assert c[|a| + i] == b[i];
    }
    forall i | 0 <= i < |a|
      ensures Placed(a[i]) && a[i].files != [] && a[i].dir != ""
    {
      assert c[i] == a[i];
    }
    forall i, j | 0 <= i < j < |b|
      ensures b[i].dir != b[j].dir
    {
      assert c[|a| + i] == b[i] && c[|a| + j] == b[j];
    }
    forall i, j | 0 <= i < j < |a|
      ensures a[i].dir != a[j].dir
    {
      assert c[i] == a[i] && c[j] == a[j];
    }
  }

  lemma FirstHasFiles(r0: seq<Pending>, fulls: seq<Pending>, incomplete: bool, part: seq<File>, pending: seq<Pending>)
    requires Divides(r0, fulls, incomplete, part, pending)
    ensures pending != [] ==> pending[0].files != []
  {
  }

  lemma TotalOfNone(d: Demangler)
    ensures Total(d, []) == NOTHING && Flat([]) == []
  {
  }

  lemma CountRest(ps: seq<Pending>, n: nat)
    requires ps != [] && n <= |ps[0].files|
    ensures CountFiles(ps[0 := Pending(ps[0].dir, ps[0].files[n..])]) == CountFiles(ps) - n
  {
    assert ps[0 := Pending(ps[0].dir, ps[0].files[n..])][1..] == ps[1..];
  }

  lemma EmptyRowsAppend(dirs: seq<string>, dir: string)
    ensures EmptyRows(dirs + [dir]) == EmptyRows(dirs) + [Row(dir, NOTHING)]
  {
  }

  function EmptyRows(dirs: seq<string>): seq<Row> {
    seq(|dirs|, i requires 0 <= i < |dirs| => Row(dirs[i], NOTHING))
  }
}
