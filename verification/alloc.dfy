/** The heap discipline of the code between two collections: allocation by bumping a pointer,
    the heap-limit test, alignment by a bitwise or, and the store list. */
module Allocation {
  import opened Arith
  import opened Machine
  import opened CFG

  datatype Heap = Heap(regs: seq<Val>, mem: Mem)

  /** What a program does to the heap between collections. */
  datatype Op = New(alloc: AllocOp, vals: seq<Val>) | Assign(setter: SetterOp, vals: seq<Val>)

  function Step(tgt: Target, h: Heap, op: Op): (h': Heap)
    requires tgt.wordSz > 0 && |h.regs| == NUM_REGS
    ensures |h'.regs| == NUM_REGS
  {
    match op
    case New(alloc, vals) =>
      var a := Allocate(tgt, alloc, vals, h.regs[ALLOC_PTR], h.mem);
      Heap(h.regs[ALLOC_PTR := a.next], a.mem)
    case Assign(setter, vals) =>
      var a := Set(tgt, setter, vals, h.regs, h.mem);
      Heap(a.regs, a.mem)
  }

  function Exec(tgt: Target, h: Heap, ops: seq<Op>): (h': Heap)
    requires tgt.wordSz > 0 && |h.regs| == NUM_REGS
    ensures |h'.regs| == NUM_REGS
  {
    if ops == [] then h else Step(tgt, Exec(tgt, h, ops[..|ops| - 1]), ops[|ops| - 1])
  }

  // ----- what an operation asks for -----

  predicate Logs(op: Op) {
    op.Assign? && (op.setter == UPDATE || op.setter == ASSIGN)
  }

  predicate StoresTo(op: Op) {
    op.Assign? && op.setter != SET_HDLR && op.setter != SET_VAR
  }

  /** The address that an assignment stores to. */
  function Address(tgt: Target, op: Op): Val {
    if !op.Assign? then 0
    else
      match op.setter
      case UNBOXED_UPDATE => Index(tgt, Arg(op.vals, 0), tgt.wordSz, Arg(op.vals, 1))
      case UPDATE => Index(tgt, Arg(op.vals, 0), tgt.wordSz, Arg(op.vals, 1))
      case UNBOXED_ASSIGN => Arg(op.vals, 0)
      case ASSIGN => Arg(op.vals, 0)
      case RAW_UPDATE(ty) => Index(tgt, Arg(op.vals, 0), SizeOf(tgt, ty), Arg(op.vals, 1))
      case RAW_STORE(ty) => Index(tgt, Arg(op.vals, 0), 1, Arg(op.vals, 1))
      case SET_HDLR => 0
      case SET_VAR => 0
  }

  /** Where the data of an operation at ap begins: past the padding, for an aligned object. */
  function Start(tgt: Target, op: Op, ap: Val): Val {
    if op.New? && op.alloc.RAW_ALLOC? then TagAddress(tgt, ap, op.alloc.tag.Some?, op.alloc.align) else ap
  }

  /** How many bytes the emitted code allocates from there on. */
  function Size(tgt: Target, op: Op): nat
    requires tgt.wordSz > 0
  {
    match op
    case New(SPECIAL, _) => 2 * tgt.wordSz
    case New(RECORD(_), vals) => tgt.wordSz * (|vals| + 1)
    case New(RAW_RECORD(_, fields), _) => tgt.wordSz + tgt.wordSz * RoundUp(FieldsEnd(tgt, fields), tgt.wordSz)
    case New(RAW_ALLOC(_, _, len), _) => len + tgt.wordSz
    case Assign(_, _) => if Logs(op) then 2 * tgt.wordSz else 0
  }

  /** How far the operation moves the allocation pointer, if addresses do not wrap around. */
  function Bump(tgt: Target, op: Op, ap: Val): int
    requires tgt.wordSz > 0
  {
    Start(tgt, op, ap) - ap + Size(tgt, op)
  }

  function Total(tgt: Target, h: Heap, ops: seq<Op>): int
    requires tgt.wordSz > 0 && |h.regs| == NUM_REGS
  {
    if ops == [] then 0
    else Total(tgt, h, ops[..|ops| - 1])
         + Bump(tgt, ops[|ops| - 1], Exec(tgt, h, ops[..|ops| - 1]).regs[ALLOC_PTR])
  }

  // ----- bitwise or -----

  lemma {:induction false} BitOrAtLeast(a: nat, b: nat)
    ensures BitOr(a, b) >= a
  {
    if a != 0 && b != 0 {
      BitOrAtLeast(a / 2, b / 2);
    }
  }

  lemma {:induction false} BitOrAtMost(a: nat, b: nat)
    ensures BitOr(a, b) <= a + b
  {
    if a != 0 && b != 0 {
      BitOrAtMost(a / 2, b / 2);
    }
  }

  /** One step of the bitwise or. */
  lemma OrStep(y: nat, x0: nat, c: nat, b0: nat)
    requires x0 < 2 && b0 < 2
    ensures BitOr(2 * y + x0, 2 * c + b0) == 2 * BitOr(y, c) + Max(x0, b0)
  {
    var x, b := 2 * y + x0, 2 * c + b0;
    assert x / 2 == y && x % 2 == x0 && b / 2 == c && b % 2 == b0;
    if x == 0 || b == 0 {
      assert BitOr(y, c) == if x == 0 then c else y;
    }
  }

  lemma OrZero(x: nat)
    ensures BitOr(x, 0) == x
  {
  }

  /** Setting bits j to k - 1 of a multiple of 2^j. */
  lemma {:induction false} OrMask(x: nat, j: nat, k: nat)
    requires j <= k && Mask(x, j) == 0
    ensures Pow2(j) <= Pow2(k) && Mask(x, k) <= x
    ensures BitOr(x, Pow2(k) - Pow2(j)) == x - Mask(x, k) + (Pow2(k) - Pow2(j))
    decreases k
  {
    hide BitOr;
    if k == j {
      OrZero(x);
    } else {
      var y, p := x / 2, Pow2(k - 1);
      if j > 0 {
        OrMask(y, j - 1, k - 1);
        OrStep(y, 0, p - Pow2(j - 1), 0);
      } else {
        OrMask(y, 0, k - 1);
        OrStep(y, x % 2, p - 1, 1);
      }
    }
  }

  lemma MaskStep(y: nat, x0: nat, j: nat)
    requires x0 < 2 && j > 0
    ensures Mask(2 * y + x0, j) == 2 * Mask(y, j - 1) + x0
  {
    assert (2 * y + x0) / 2 == y && (2 * y + x0) % 2 == x0;
  }

  lemma MaskOrStep(y: nat, x0: nat, c: nat, b0: nat, j: nat)
    requires x0 < 2 && b0 < 2 && j > 0 && Mask(BitOr(y, c), j - 1) == BitOr(Mask(y, j - 1), Mask(c, j - 1))
    ensures Mask(BitOr(2 * y + x0, 2 * c + b0), j) == BitOr(Mask(2 * y + x0, j), Mask(2 * c + b0, j))
  {
    hide BitOr, Mask;
    OrStep(y, x0, c, b0);
    MaskStep(y, x0, j);
    MaskStep(c, b0, j);
    MaskStep(BitOr(y, c), Max(x0, b0), j);
    OrStep(Mask(y, j - 1), x0, Mask(c, j - 1), b0);
  }

  /** The low bits of a bitwise or. */
  lemma {:induction false} MaskOr(x: nat, b: nat, j: nat)
    ensures Mask(BitOr(x, b), j) == BitOr(Mask(x, j), Mask(b, j))
    decreases j
  {
    if j == 0 {
      OrZero(0);
    } else {
      hide BitOr, Mask;
      MaskOr(x / 2, b / 2, j - 1);
      MaskOrStep(x / 2, x % 2, b / 2, b % 2, j);
      assert 2 * (x / 2) + x % 2 == x && 2 * (b / 2) + b % 2 == b;
    }
  }

  lemma WordIsPow2(tgt: Target)
    requires tgt.Valid()
    ensures tgt.wordSz == Pow2(if tgt.wordSz == 8 then 3 else 2)
  {
    assert Pow2(2) == 4 && Pow2(3) == 8;
  }

  /** Would an object whose descriptor is at b be aligned? */
  predicate AlignedAt(w: nat, b: Val, p: nat)
    requires p > 0
  {
    (b + w) % p == 0
  }

  lemma WordMultiples(w: nat, a: int, b: int)
    requires w > 0 && a % w == 0
    ensures (a + b) % w == b % w
    ensures (w * b) % w == 0
  {
    var q, k := a / w, b / w;
    MulAdd(w, q, k);
    DivUnique(w, q + k, b % w);
    DivUnique(w, b, 0);
  }

  lemma WordDivides(tgt: Target, a: Val, k: nat)
    requires tgt.Valid() && Pow2(k) > tgt.wordSz && AlignedAt(tgt.wordSz, a, Pow2(k))
    ensures a % tgt.wordSz == 0
  {
    var w := tgt.wordSz;
    var j := if w == 8 then 3 else 2;
    WordIsPow2(tgt);
    Pow2Mono(k, j);
    hide Pow2, Mask;
    ModPow2(a + w, k);
    LowerMask(a + w, j, k);
    ModPow2(a + w, j);
    WordMultiples(w, 0, 1);
    WordMultiples(w, w, a);
  }

  /** The remainder of a bitwise or, by the word size. */
  lemma WordOr(tgt: Target, x: nat, b: nat)
    requires tgt.Valid()
    ensures BitOr(x, b) % tgt.wordSz == BitOr(x % tgt.wordSz, b % tgt.wordSz)
  {
    hide BitOr, Pow2, Mask;
    var j := if tgt.wordSz == 8 then 3 else 2;
    WordIsPow2(tgt);
    MaskOr(x, b, j);
    ModPow2(x, j);
    ModPow2(b, j);
    ModPow2(BitOr(x, b), j);
  }

  /** A greater power of two is a multiple of the word size. */
  lemma WordDividesPow2(tgt: Target, k: nat)
    requires tgt.Valid() && Pow2(k) > tgt.wordSz
    ensures Pow2(k) % tgt.wordSz == 0 && (Pow2(k) - tgt.wordSz) % tgt.wordSz == 0
  {
    var w := tgt.wordSz;
    var j := if w == 8 then 3 else 2;
    WordIsPow2(tgt);
    Pow2Mono(k, j);
    hide Pow2, Mask;
    DivUnique(Pow2(k), 1, 0);
    ModPow2(Pow2(k), k);
    LowerMask(Pow2(k), j, k);
    ModPow2(Pow2(k), j);
    var q: int := Pow2(k) / w;
    MulAdd(w, q, -1);
    DivUnique(w, q - 1, 0);
  }

  /** An object that asks for an alignment above the word size is aligned if and only if the allocation
      pointer was a multiple of the word, and then it starts at the first address from there on whose next
      word is a multiple of the alignment. */
  lemma AlignedObject(tgt: Target, ap: Val, k: nat)
    requires tgt.Valid() && Pow2(k) > tgt.wordSz
    ensures var a := TagAddress(tgt, ap, true, Pow2(k));
            && (AlignedAt(tgt.wordSz, a, Pow2(k)) <==> ap % tgt.wordSz == 0)
            && (ap % tgt.wordSz == 0 ==>
                  && ap <= a <= ap + Pow2(k) - tgt.wordSz
                  && forall b: nat :: ap <= b < a ==> !AlignedAt(tgt.wordSz, b, Pow2(k)))
  {
    hide BitOr, AlignedAt, Pow2, Mask;
    var a := TagAddress(tgt, ap, true, Pow2(k));
    if ap % tgt.wordSz == 0 {
      WordAlignedObject(tgt, ap, k);
    } else if AlignedAt(tgt.wordSz, a, Pow2(k)) {
      WordDivides(tgt, a, k);
      WordOr(tgt, ap, Pow2(k) - tgt.wordSz);
      WordDividesPow2(tgt, k);
      OrZero(ap % tgt.wordSz);
    }
  }

  lemma WordAlignedObject(tgt: Target, ap: Val, k: nat)
    requires tgt.Valid() && Pow2(k) > tgt.wordSz && ap % tgt.wordSz == 0
    ensures var a := TagAddress(tgt, ap, true, Pow2(k));
            && AlignedAt(tgt.wordSz, a, Pow2(k)) && ap <= a <= ap + Pow2(k) - tgt.wordSz
            && forall b: nat :: ap <= b < a ==> !AlignedAt(tgt.wordSz, b, Pow2(k))
  {
    hide BitOr, AlignedAt, Pow2, Mask;
    WordIsPow2(tgt);
    var j := if tgt.wordSz == 8 then 3 else 2;
    Pow2Mono(k, j);
    ModPow2(ap, j);
    ModPow2(ap, k);
    OrMask(ap, j, k);
    MultipleOfWord(ap, j, k);
    FirstAligned(ap, Pow2(k), tgt.wordSz, ap - Mask(ap, k) + (Pow2(k) - tgt.wordSz));
  }

  lemma FirstAligned(ap: nat, p: nat, w: nat, a: nat)
    requires 0 < w < p && ap % p <= p - w && a == ap - ap % p + (p - w)
    ensures AlignedAt(w, a, p) && ap <= a <= ap + p - w
    ensures forall b: nat :: ap <= b < a ==> !AlignedAt(w, b, p)
  {
    var q := ap / p;
    DivMod(ap, p);
    MulNext(p, q);
    DivUnique(p, q + 1, 0);
    forall b: nat | ap <= b < a
      ensures !AlignedAt(w, b, p)
    {
      DivUnique(p, q, b + w - p * q);
    }
  }

  /** The low k bits of a multiple of 2^j are at most 2^k - 2^j. */
  lemma {:induction false} MultipleOfWord(x: nat, j: nat, k: nat)
    requires j <= k && Mask(x, j) == 0
    ensures Mask(x, k) <= Pow2(k) - Pow2(j)
    decreases k
  {
    if j > 0 {
      MultipleOfWord(x / 2, j - 1, k - 1);
    } else if k > 0 {
      MultipleOfWord(x / 2, 0, k - 1);
    }
  }

  // ----- the heap-limit test -----

  lemma IndexExact(tgt: Target, base: Val, scale: nat, idx: Val)
    requires base + scale * idx < tgt.Modulus()
    ensures Index(tgt, base, scale, idx) == base + scale * idx
  {
  }

  /** The sum that the test computes does not wrap around, or wraps around to a number above the
      limit all the same. */
  predicate LimitMeaningful(tgt: Target, amt: nat, ap: Val, limit: Val) {
    || amt <= tgt.allocSlop
    || ap + (amt - tgt.allocSlop) < tgt.Modulus()
    || ap + (amt - tgt.allocSlop) - tgt.Modulus() > limit
  }

  /** A request fits if it ends within the slop past the limit; a request below the slop counts
      as the slop. */
  predicate Fits(tgt: Target, amt: nat, ap: Val, limit: Val) {
    ap + Max(amt, tgt.allocSlop) <= limit + tgt.allocSlop
  }

  /** The test passes exactly the requests that fit, if and only if its sum is meaningful. */
  lemma LimitExact(tgt: Target, amt: nat, regs: seq<Val>)
    requires tgt.Valid() && |regs| == NUM_REGS
    requires regs[ALLOC_PTR] < tgt.Modulus() && regs[LIMIT_PTR] < tgt.Modulus() && amt < tgt.Modulus()
    ensures (!LimitReached(tgt, amt, regs) <==> Fits(tgt, amt, regs[ALLOC_PTR], regs[LIMIT_PTR]))
            <==> LimitMeaningful(tgt, amt, regs[ALLOC_PTR], regs[LIMIT_PTR])
  {
    if amt > tgt.allocSlop {
      var sum, p := regs[ALLOC_PTR] + (amt - tgt.allocSlop), tgt.Modulus();
      assert Index(tgt, regs[ALLOC_PTR], 1, amt - tgt.allocSlop) == if sum < p then sum else sum - p;
    }
  }

  /** When it is not, a request passes that does not fit: for example one of a word more than the
      slop, with the pointer in the last word of the address space and the limit a word below. */
  lemma LimitWraps(tgt: Target, regs: seq<Val>)
    requires tgt.Valid() && |regs| == NUM_REGS
    requires regs[ALLOC_PTR] == tgt.Modulus() - 8 && regs[LIMIT_PTR] == tgt.Modulus() - 16
    ensures regs[ALLOC_PTR] % tgt.wordSz == 0 && regs[LIMIT_PTR] % tgt.wordSz == 0
    ensures !LimitReached(tgt, tgt.allocSlop + 8, regs)
    ensures !Fits(tgt, tgt.allocSlop + 8, regs[ALLOC_PTR], regs[LIMIT_PTR])
    ensures !LimitMeaningful(tgt, tgt.allocSlop + 8, regs[ALLOC_PTR], regs[LIMIT_PTR])
  {
    var p := tgt.Modulus();
    assert (p - 8 + 1 * 8) % p == 0;
  }

  // ----- one operation -----

  /** Memory is as it was, outside [lo, hi). */
  ghost predicate OnlyWithin(mem: Mem, mem': Mem, lo: int, hi: int) {
    forall x: nat :: !(lo <= x < hi) ==> Read(mem', x) == Read(mem, x)
  }

  lemma StoreWordsStep(tgt: Target, mem: Mem, p: Val, vals: seq<Val>)
    requires tgt.Valid() && p + tgt.wordSz * (|vals| + 1) < tgt.Modulus() && vals != []
    ensures var n := |vals| - 1;
            StoreWords(tgt, mem, p, vals) == StoreWords(tgt, mem, p, vals[..n])[p + tgt.wordSz * |vals| := vals[n]]
  {
    IndexExact(tgt, p, tgt.wordSz, |vals|);
  }

  lemma WithinUpdate(mem: Mem, mem': Mem, lo: int, mid: int, hi: int, x: Val, v: Val)
    requires OnlyWithin(mem, mem', lo, mid) && mid <= hi && lo <= x < hi
    ensures OnlyWithin(mem, mem'[x := v], lo, hi)
  {
  }

  lemma {:induction false} StoreWordsFrame(tgt: Target, mem: Mem, p: Val, vals: seq<Val>)
    requires tgt.Valid() && p + tgt.wordSz * (|vals| + 1) < tgt.Modulus()
    ensures OnlyWithin(mem, StoreWords(tgt, mem, p, vals), p + tgt.wordSz, p + tgt.wordSz * (|vals| + 1))
  {
    if vals != [] {
      hide StoreWords, OnlyWithin;
      var n, w := |vals| - 1, tgt.wordSz;
      MulNext(w, n);
      MulNext(w, n + 1);
      MulMono(w, 1, n + 1);
      StoreWordsFrame(tgt, mem, p, vals[..n]);
      StoreWordsStep(tgt, mem, p, vals);
      WithinUpdate(mem, StoreWords(tgt, mem, p, vals[..n]), p + w, p + w * (n + 1), p + w * (n + 2),
                   p + w * (n + 1), vals[n]);
    }
  }

  lemma {:induction false} StoreWordsAt(tgt: Target, mem: Mem, p: Val, vals: seq<Val>, k: nat)
    requires tgt.Valid() && p + tgt.wordSz * (|vals| + 1) < tgt.Modulus() && k < |vals|
    ensures Read(StoreWords(tgt, mem, p, vals), p + tgt.wordSz * (k + 1)) == vals[k]
  {
    hide StoreWords;
    var n, w := |vals| - 1, tgt.wordSz;
    StoreWordsStep(tgt, mem, p, vals);
    if k < n {
      MulNext(w, n + 1);
      MulNext(w, k + 1);
      MulMono(w, k + 2, n + 1);
      StoreWordsAt(tgt, mem, p, vals[..n], k);
    }
  }

  /** Where the k-th field of a raw record is, relative to the object. */
  function Offset(tgt: Target, fields: seq<Ty>, k: nat): nat
    requires k < |fields|
  {
    RoundUp(FieldsEnd(tgt, fields[..k]), FieldSize(tgt, fields[k]))
  }

  lemma RoundUpBounds(n: nat, a: nat)
    requires a > 0
    ensures n <= RoundUp(n, a) < n + a && RoundUp(n, a) % a == 0
  {
    FloorMultiple(n + a - 1, a, (n + a - 1) / a);
  }

  lemma FloorMultiple(m: nat, a: nat, q: nat)
    requires a > 0 && q == m / a
    ensures m - a < q * a <= m && (q * a) % a == 0
  {
    assert m == a * q + m % a;
    DivUnique(a, q, 0);
  }

  /** Every field is aligned to its size and lies behind the fields before it. */
  lemma {:induction false} OffsetsAscend(tgt: Target, fields: seq<Ty>, k: nat)
    requires k < |fields|
    ensures Offset(tgt, fields, k) % FieldSize(tgt, fields[k]) == 0
    ensures FieldsEnd(tgt, fields[..k]) <= Offset(tgt, fields, k)
    ensures Offset(tgt, fields, k) + FieldSize(tgt, fields[k]) <= FieldsEnd(tgt, fields)
    ensures forall i :: 0 <= i < k ==> Offset(tgt, fields, i) + FieldSize(tgt, fields[i]) <= Offset(tgt, fields, k)
  {
    RoundUpBounds(FieldsEnd(tgt, fields[..k]), FieldSize(tgt, fields[k]));
    FieldsEndMono(tgt, fields, k + 1);
    assert fields[..k + 1][..k] == fields[..k];
    forall i | 0 <= i < k
      ensures Offset(tgt, fields, i) + FieldSize(tgt, fields[i]) <= Offset(tgt, fields, k)
    {
      OffsetsAscend(tgt, fields[..k], i);
      assert fields[..k][..i] == fields[..i];
    }
  }

  lemma {:induction false} FieldsEndMono(tgt: Target, fields: seq<Ty>, k: nat)
    requires k <= |fields|
    ensures FieldsEnd(tgt, fields[..k]) <= FieldsEnd(tgt, fields)
  {
    if k == |fields| {
      assert fields[..k] == fields;
    } else {
      var n := |fields| - 1;
      FieldsEndMono(tgt, fields[..n], k);
      assert fields[..n][..k] == fields[..k];
      RoundUpBounds(FieldsEnd(tgt, fields[..n]), FieldSize(tgt, fields[n]));
    }
  }

  lemma StoreFieldsStep(tgt: Target, mem: Mem, obj: Val, fields: seq<Ty>, vals: seq<Val>)
    requires tgt.Valid() && obj + FieldsEnd(tgt, fields) < tgt.Modulus() && fields != []
    ensures var n := |fields| - 1;
            && StoreFields(tgt, mem, obj, fields, vals)
               == StoreFields(tgt, mem, obj, fields[..n], vals)[obj + Offset(tgt, fields, n) := Arg(vals, n)]
            && FieldsEnd(tgt, fields[..n]) <= Offset(tgt, fields, n) < FieldsEnd(tgt, fields)
  {
    hide RoundUp, FieldSize, Index;
    var n := |fields| - 1;
    OffsetsAscend(tgt, fields, n);
    FieldSizePositive(tgt, fields[n]);
    IndexExact(tgt, obj, 1, Offset(tgt, fields, n));
  }

  lemma {:induction false} StoreFieldsFrame(tgt: Target, mem: Mem, obj: Val, fields: seq<Ty>, vals: seq<Val>)
    requires tgt.Valid() && obj + FieldsEnd(tgt, fields) < tgt.Modulus()
    ensures OnlyWithin(mem, StoreFields(tgt, mem, obj, fields, vals), obj, obj + FieldsEnd(tgt, fields))
  {
    hide Offset, FieldSize;
    if fields != [] {
      hide FieldsEnd, StoreFields;
      StoreFieldsStep(tgt, mem, obj, fields, vals);
      StoreFieldsFrame(tgt, mem, obj, fields[..|fields| - 1], vals);
    }
  }

  lemma {:induction false} StoreFieldsAt(tgt: Target, mem: Mem, obj: Val, fields: seq<Ty>, vals: seq<Val>, k: nat)
    requires tgt.Valid() && obj + FieldsEnd(tgt, fields) < tgt.Modulus() && k < |fields|
    ensures Read(StoreFields(tgt, mem, obj, fields, vals), obj + Offset(tgt, fields, k)) == Arg(vals, k)
  {
    hide Offset, FieldSize, FieldsEnd, StoreFields;
    StoreFieldsStep(tgt, mem, obj, fields, vals);
    var n := |fields| - 1;
    if k < n {
      StoreFieldsAt(tgt, mem, obj, fields[..n], vals, k);
      OffsetOfPrefix(tgt, fields, n, k);
      OffsetsAscend(tgt, fields, n);
      FieldSizePositive(tgt, fields[k]);
    }
  }

  lemma OffsetOfPrefix(tgt: Target, fields: seq<Ty>, n: nat, k: nat)
    requires k < n <= |fields|
    ensures Offset(tgt, fields[..n], k) == Offset(tgt, fields, k)
  {
    assert fields[..n][..k] == fields[..k];
  }

  lemma FieldSizePositive(tgt: Target, ty: Ty)
    ensures FieldSize(tgt, ty) > 0
  {
  }

  /** The memory that an operation at ap may change: what it allocates, and the address it
      assigns to. */
  predicate Touches(tgt: Target, op: Op, ap: Val, x: nat)
    requires tgt.wordSz > 0
  {
    (Start(tgt, op, ap) <= x < ap + Bump(tgt, op, ap)) || (StoresTo(op) && x == Address(tgt, op))
  }

  lemma BumpPositive(tgt: Target, op: Op, ap: Val)
    requires tgt.Valid()
    ensures ap <= Start(tgt, op, ap) <= ap + Bump(tgt, op, ap)
  {
    if op.New? && op.alloc.RAW_ALLOC? {
      BitOrAtLeast(ap, Max(op.alloc.align, tgt.wordSz) - tgt.wordSz);
    }
  }

  /** An operation moves the pointer by its bump and touches nothing else. */
  lemma StepFrame(tgt: Target, h: Heap, op: Op)
    requires tgt.Valid() && |h.regs| == NUM_REGS
    requires h.regs[ALLOC_PTR] + Bump(tgt, op, h.regs[ALLOC_PTR]) < tgt.Modulus()
    ensures var ap, h' := h.regs[ALLOC_PTR], Step(tgt, h, op);
            && h'.regs[ALLOC_PTR] == ap + Bump(tgt, op, ap)
            && h'.regs[STORE_PTR] == (if Logs(op) then ap else h.regs[STORE_PTR])
            && forall x: nat :: !Touches(tgt, op, ap, x) ==> Read(h'.mem, x) == Read(h.mem, x)
  {
    hide RoundUp, RecordAt, RawRecordAt, RawAllocAt, RecordStore, TagAddress, Index;
    var ap := h.regs[ALLOC_PTR];
    BumpPositive(tgt, op, ap);
    match op
    case New(SPECIAL, vals) => RecordFrame(tgt, ap, h.mem, Arg(vals, 0), [Arg(vals, 1)]);
    case New(RECORD(desc), vals) => RecordFrame(tgt, ap, h.mem, desc, vals);
    case New(RAW_RECORD(desc, fields), vals) => RawRecordFrame(tgt, ap, h.mem, desc, fields, vals);
    case New(RAW_ALLOC(tag, align, len), vals) => RawAllocFrame(tgt, ap, h.mem, tag, align, len);
    case Assign(_, _) =>
      if Logs(op) {
        LogFrame(tgt, Address(tgt, op), h.regs, h.mem);
      }
  }

  lemma RawAllocFrame(tgt: Target, ap: Val, mem: Mem, tag: Option<Val>, align: nat, len: nat)
    requires tgt.Valid() && TagAddress(tgt, ap, tag.Some?, align) + (len + tgt.wordSz) < tgt.Modulus()
    ensures var a, d := RawAllocAt(tgt, ap, mem, tag, align, len), TagAddress(tgt, ap, tag.Some?, align);
            && a.obj == d + tgt.wordSz && a.next == a.obj + len
            && OnlyWithin(mem, a.mem, d, a.obj)
            && (tag.Some? ==> Read(a.mem, d) == tag.value)
  {
    var d := TagAddress(tgt, ap, tag.Some?, align);
    IndexExact(tgt, d, tgt.wordSz, 1);
    IndexExact(tgt, d, 1, len + tgt.wordSz);
  }

  lemma LogFrame(tgt: Target, adr: Val, regs: seq<Val>, mem: Mem)
    requires tgt.Valid() && |regs| == NUM_REGS && regs[ALLOC_PTR] + 2 * tgt.wordSz < tgt.Modulus()
    ensures var a, ap := RecordStore(tgt, adr, regs, mem), regs[ALLOC_PTR];
            && a.regs[ALLOC_PTR] == ap + 2 * tgt.wordSz && a.regs[STORE_PTR] == ap
            && Read(a.mem, ap) == adr && Read(a.mem, ap + tgt.wordSz) == regs[STORE_PTR]
            && OnlyWithin(mem, a.mem, ap, ap + 2 * tgt.wordSz)
  {
    IndexExact(tgt, regs[ALLOC_PTR], tgt.wordSz, 0);
    IndexExact(tgt, regs[ALLOC_PTR], tgt.wordSz, 1);
    IndexExact(tgt, regs[ALLOC_PTR], tgt.wordSz, 2);
  }

  lemma RecordFrame(tgt: Target, ap: Val, mem: Mem, desc: Val, vals: seq<Val>)
    requires tgt.Valid() && ap + tgt.wordSz * (|vals| + 1) < tgt.Modulus()
    ensures var a := RecordAt(tgt, ap, mem, desc, vals);
            && a.obj == ap + tgt.wordSz && a.next == ap + tgt.wordSz * (|vals| + 1)
            && OnlyWithin(mem, a.mem, ap, a.next)
            && Read(a.mem, ap) == desc
            && forall k :: 0 <= k < |vals| ==> Read(a.mem, a.obj + tgt.wordSz * k) == vals[k]
  {
    var w, mem' := tgt.wordSz, mem[ap := desc];
    hide StoreWords, Index;
    MulMono(w, 1, |vals| + 1);
    StoreWordsFrame(tgt, mem', ap, vals);
    IndexExact(tgt, ap, w, 1);
    IndexExact(tgt, ap, w, |vals| + 1);
    forall k | 0 <= k < |vals|
      ensures Read(StoreWords(tgt, mem', ap, vals), ap + w + w * k) == vals[k]
    {
      MulNext(w, k);
      StoreWordsAt(tgt, mem', ap, vals, k);
    }
  }

  lemma RawRecordFrame(tgt: Target, ap: Val, mem: Mem, desc: Val, fields: seq<Ty>, vals: seq<Val>)
    requires tgt.Valid()
    requires ap + tgt.wordSz + tgt.wordSz * RoundUp(FieldsEnd(tgt, fields), tgt.wordSz) < tgt.Modulus()
    ensures var a, end := RawRecordAt(tgt, ap, mem, desc, fields, vals), RoundUp(FieldsEnd(tgt, fields), tgt.wordSz);
            && a.obj == ap + tgt.wordSz && a.next == a.obj + tgt.wordSz * end
            && OnlyWithin(mem, a.mem, ap, a.obj + end)
            && Read(a.mem, ap) == desc && end <= tgt.wordSz * end
            && forall k: nat :: k < |fields| ==> Read(a.mem, a.obj + Offset(tgt, fields, k)) == Arg(vals, k)
  {
    hide RoundUp, Index, Offset, FieldsEnd, StoreFields;
    var w, mem', end := tgt.wordSz, mem[ap := desc], RoundUp(FieldsEnd(tgt, fields), tgt.wordSz);
    RoundUpBounds(FieldsEnd(tgt, fields), w);
    assert end <= w * end;
    IndexExact(tgt, ap, w, 1);
    IndexExact(tgt, ap + w, w, end);
    StoreFieldsFrame(tgt, mem', ap + w, fields, vals);
    forall k: nat | k < |fields|
      ensures Read(StoreFields(tgt, mem', ap + w, fields, vals), ap + w + Offset(tgt, fields, k)) == Arg(vals, k)
    {
      StoreFieldsAt(tgt, mem', ap + w, fields, vals, k);
    }
  }

  lemma RoundUpZero(a: nat)
    requires a > 0
    ensures RoundUp(0, a) == 0
  {
    DivUnique(a, 0, a - 1);
  }

  /** The pointer moves past a raw record by exactly the record's size, descriptor included,
      if and only if the record has no fields. Otherwise the bump, which counts words where
      the size counts bytes, leaves a gap. */
  lemma RawRecordBump(tgt: Target, ap: Val, mem: Mem, desc: Val, fields: seq<Ty>, vals: seq<Val>)
    requires tgt.Valid()
    requires ap + tgt.wordSz + tgt.wordSz * RoundUp(FieldsEnd(tgt, fields), tgt.wordSz) < tgt.Modulus()
    ensures var a, end := RawRecordAt(tgt, ap, mem, desc, fields, vals), RoundUp(FieldsEnd(tgt, fields), tgt.wordSz);
            && a.next - (a.obj + end) == (tgt.wordSz - 1) * end
            && (a.next == a.obj + end <==> fields == [])
  {
    hide RoundUp, RawRecordAt;
    RawRecordFrame(tgt, ap, mem, desc, fields, vals);
    RoundUpBounds(FieldsEnd(tgt, fields), tgt.wordSz);
    if fields == [] {
      RoundUpZero(tgt.wordSz);
    } else {
      OffsetsAscend(tgt, fields, 0);
      FieldSizePositive(tgt, fields[0]);
    }
  }

  /** For example, a record of one 64-bit number takes 64 bytes of fields instead of 8. */
  lemma RawRecordExample(tgt: Target, ap: Val, mem: Mem, v: Val)
    requires tgt.Valid() && tgt.wordSz == 8 && ap == 0x1000
    ensures RawRecordAt(tgt, ap, mem, 7, [INT(64)], [v]).obj == 0x1008
    ensures RawRecordAt(tgt, ap, mem, 7, [INT(64)], [v]).next == 0x1008 + 64
  {
    assert FieldsEnd(tgt, []) == 0;
    assert FieldsEnd(tgt, [INT(64)]) == 8;
  }

  /** What a new object holds at first: its descriptor, and its fields at their offsets. */
  ghost predicate Initialised(tgt: Target, alloc: AllocOp, vals: seq<Val>, ap: Val, mem: Mem) {
    match alloc
    case SPECIAL => Read(mem, ap) == Arg(vals, 0) && Read(mem, ap + tgt.wordSz) == Arg(vals, 1)
    case RECORD(desc) =>
      Read(mem, ap) == desc
      && forall k :: 0 <= k < |vals| ==> Read(mem, ap + tgt.wordSz + tgt.wordSz * k) == vals[k]
    case RAW_RECORD(desc, fields) =>
      Read(mem, ap) == desc
      && forall k: nat :: k < |fields| ==> Read(mem, ap + tgt.wordSz + Offset(tgt, fields, k)) == Arg(vals, k)
    case RAW_ALLOC(tag, align, len) =>
      tag.Some? ==> Read(mem, TagAddress(tgt, ap, true, align)) == tag.value
  }

  lemma NewInitialised(tgt: Target, h: Heap, alloc: AllocOp, vals: seq<Val>)
    requires tgt.Valid() && |h.regs| == NUM_REGS
    requires h.regs[ALLOC_PTR] + Bump(tgt, New(alloc, vals), h.regs[ALLOC_PTR]) < tgt.Modulus()
    ensures Initialised(tgt, alloc, vals, h.regs[ALLOC_PTR], Step(tgt, h, New(alloc, vals)).mem)
    ensures Allocate(tgt, alloc, vals, h.regs[ALLOC_PTR], h.mem).obj
            == Start(tgt, New(alloc, vals), h.regs[ALLOC_PTR]) + tgt.wordSz
  {
    hide RoundUp, RecordAt, RawRecordAt, RawAllocAt, TagAddress, Index, FieldsEnd, Offset;
    var ap := h.regs[ALLOC_PTR];
    match alloc
    case SPECIAL =>
      RecordFrame(tgt, ap, h.mem, Arg(vals, 0), [Arg(vals, 1)]);
      assert [Arg(vals, 1)][0] == Arg(vals, 1) && ap + tgt.wordSz + tgt.wordSz * 0 == ap + tgt.wordSz;
    case RECORD(desc) => RecordFrame(tgt, ap, h.mem, desc, vals);
    case RAW_RECORD(desc, fields) => RawRecordFrame(tgt, ap, h.mem, desc, fields, vals);
    case RAW_ALLOC(tag, align, len) => RawAllocFrame(tgt, ap, h.mem, tag, align, len);
  }

  // ----- runs -----

  /** The allocation pointer before the i-th operation. */
  function Ap(tgt: Target, h: Heap, ops: seq<Op>, i: nat): Val
    requires tgt.wordSz > 0 && |h.regs| == NUM_REGS && i <= |ops|
  {
    Exec(tgt, h, ops[..i]).regs[ALLOC_PTR]
  }

  ghost predicate NoWrap(tgt: Target, h: Heap, ops: seq<Op>) {
    tgt.Valid() && |h.regs| == NUM_REGS && h.regs[ALLOC_PTR] + Total(tgt, h, ops) < tgt.Modulus()
  }

  lemma {:induction false} TotalMono(tgt: Target, h: Heap, ops: seq<Op>, i: nat)
    requires tgt.Valid() && |h.regs| == NUM_REGS && i <= |ops|
    ensures 0 <= Total(tgt, h, ops[..i]) <= Total(tgt, h, ops)
  {
    hide Exec, Bump;
    if i == |ops| {
      assert ops[..i] == ops;
      if ops != [] {
        var n := i - 1;
        TotalMono(tgt, h, ops[..n], n);
        assert ops[..n][..n] == ops[..n];
        BumpPositive(tgt, ops[n], Exec(tgt, h, ops[..n]).regs[ALLOC_PTR]);
      }
    } else {
      var n := |ops| - 1;
      TotalMono(tgt, h, ops[..n], i);
      assert ops[..n][..i] == ops[..i];
      BumpPositive(tgt, ops[n], Exec(tgt, h, ops[..n]).regs[ALLOC_PTR]);
    }
  }

  /** The pointer is where unbounded arithmetic puts it. */
  lemma {:induction false} ApExact(tgt: Target, h: Heap, ops: seq<Op>)
    requires NoWrap(tgt, h, ops)
    ensures Exec(tgt, h, ops).regs[ALLOC_PTR] == h.regs[ALLOC_PTR] + Total(tgt, h, ops)
  {
    hide Bump, Step;
    if ops != [] {
      var n := |ops| - 1;
      TotalMono(tgt, h, ops, n);
      ApExact(tgt, h, ops[..n]);
      StepFrame(tgt, Exec(tgt, h, ops[..n]), ops[n]);
    }
  }

  /** The i-th operation of a run. */
  lemma StepAt(tgt: Target, h: Heap, ops: seq<Op>, i: nat)
    requires NoWrap(tgt, h, ops) && i < |ops|
    ensures Exec(tgt, h, ops[..i + 1]) == Step(tgt, Exec(tgt, h, ops[..i]), ops[i])
    ensures Ap(tgt, h, ops, i) + Bump(tgt, ops[i], Ap(tgt, h, ops, i)) == Ap(tgt, h, ops, i + 1) < tgt.Modulus()
    ensures Start(tgt, ops[i], Ap(tgt, h, ops, i)) <= Ap(tgt, h, ops, i + 1)
  {
    hide Step, Bump, Start;
    assert ops[..i + 1][..i] == ops[..i];
    TotalMono(tgt, h, ops, i + 1);
    TotalMono(tgt, h, ops[..i + 1], i);
    ApExact(tgt, h, ops[..i + 1]);
    ApExact(tgt, h, ops[..i]);
    BumpPositive(tgt, ops[i], Ap(tgt, h, ops, i));
  }

  lemma {:induction false} ApMono(tgt: Target, h: Heap, ops: seq<Op>, i: nat, j: nat)
    requires NoWrap(tgt, h, ops) && i <= j <= |ops|
    ensures Ap(tgt, h, ops, i) <= Ap(tgt, h, ops, j)
    decreases j - i
  {
    hide Exec, Bump, Start;
    if i < j {
      StepAt(tgt, h, ops, i);
      BumpPositive(tgt, ops[i], Ap(tgt, h, ops, i));
      ApMono(tgt, h, ops, i + 1, j);
    }
  }

  /** The i-th operation allocates [Lo, Hi). */
  function Lo(tgt: Target, h: Heap, ops: seq<Op>, i: nat): Val
    requires tgt.wordSz > 0 && |h.regs| == NUM_REGS && i < |ops|
  {
    Start(tgt, ops[i], Ap(tgt, h, ops, i))
  }

  function Hi(tgt: Target, h: Heap, ops: seq<Op>, i: nat): Val
    requires tgt.wordSz > 0 && |h.regs| == NUM_REGS && i < |ops|
  {
    Ap(tgt, h, ops, i + 1)
  }

  /** What any two operations allocate is disjoint, and later is higher up. */
  lemma ObjectsDisjoint(tgt: Target, h: Heap, ops: seq<Op>, i: nat, j: nat)
    requires NoWrap(tgt, h, ops) && i < j < |ops|
    ensures Lo(tgt, h, ops, i) <= Hi(tgt, h, ops, i) <= Lo(tgt, h, ops, j) <= Hi(tgt, h, ops, j)
  {
    hide Exec, Bump, Start;
    StepAt(tgt, h, ops, i);
    StepAt(tgt, h, ops, j);
    ApMono(tgt, h, ops, i + 1, j);
    BumpPositive(tgt, ops[j], Ap(tgt, h, ops, j));
  }

  predicate Assigned(tgt: Target, ops: seq<Op>, x: nat) {
    exists i :: 0 <= i < |ops| && StoresTo(ops[i]) && Address(tgt, ops[i]) == x
  }

  /** If nothing in between touches x, it keeps its value. */
  lemma {:induction false} Unchanged(tgt: Target, h: Heap, ops: seq<Op>, i: nat, j: nat, x: nat)
    requires NoWrap(tgt, h, ops) && i <= j <= |ops|
    requires forall k :: i <= k < j ==> !Touches(tgt, ops[k], Ap(tgt, h, ops, k), x)
    ensures Read(Exec(tgt, h, ops[..j]).mem, x) == Read(Exec(tgt, h, ops[..i]).mem, x)
    decreases j
  {
    hide Exec, Bump, Start, Step, Touches;
    if i < j {
      Unchanged(tgt, h, ops, i, j - 1, x);
      StepAt(tgt, h, ops, j - 1);
      StepFrame(tgt, Exec(tgt, h, ops[..j - 1]), ops[j - 1]);
    }
  }

  /** When the heap-limit test for amt is negative, the operations that follow may allocate
      amt bytes in all: nothing but what they allocate and assign to changes, and everything
      they allocate is below the limit plus the slop. */
  lemma HeapSafe(tgt: Target, h: Heap, ops: seq<Op>, amt: nat)
    requires tgt.Valid() && |h.regs| == NUM_REGS && !LimitReached(tgt, amt, h.regs)
    requires h.regs[ALLOC_PTR] < tgt.Modulus() && amt < tgt.Modulus()
    requires LimitMeaningful(tgt, amt, h.regs[ALLOC_PTR], h.regs[LIMIT_PTR])
    requires Total(tgt, h, ops) <= amt && h.regs[LIMIT_PTR] + tgt.allocSlop < tgt.Modulus()
    ensures forall i: nat :: i < |ops| ==>
              h.regs[ALLOC_PTR] <= Lo(tgt, h, ops, i) <= Hi(tgt, h, ops, i) <= h.regs[LIMIT_PTR] + tgt.allocSlop
    ensures forall x: nat ::
              !(h.regs[ALLOC_PTR] <= x < h.regs[LIMIT_PTR] + tgt.allocSlop) && !Assigned(tgt, ops, x)
              ==> Read(Exec(tgt, h, ops).mem, x) == Read(h.mem, x)
  {
    hide Exec, Bump, Start, Step, Total, Index;
    LimitExact(tgt, amt, h.regs);
    var ap, top := h.regs[ALLOC_PTR], h.regs[LIMIT_PTR] + tgt.allocSlop;
    forall i: nat | i < |ops|
      ensures ap <= Lo(tgt, h, ops, i) <= Hi(tgt, h, ops, i) <= top
    {
      RunStarts(tgt, h, ops);
      StepAt(tgt, h, ops, i);
      ApMono(tgt, h, ops, 0, i);
      ApMono(tgt, h, ops, i + 1, |ops|);
      BumpPositive(tgt, ops[i], Ap(tgt, h, ops, i));
    }
    forall x: nat | !(ap <= x < top) && !Assigned(tgt, ops, x)
      ensures Read(Exec(tgt, h, ops).mem, x) == Read(h.mem, x)
    {
      RunStarts(tgt, h, ops);
      forall k | 0 <= k < |ops|
        ensures !Touches(tgt, ops[k], Ap(tgt, h, ops, k), x)
      {
        StepAt(tgt, h, ops, k);
        assert ap <= Lo(tgt, h, ops, k) <= Hi(tgt, h, ops, k) <= top;
      }
      Unchanged(tgt, h, ops, 0, |ops|, x);
    }
  }

  lemma RunStarts(tgt: Target, h: Heap, ops: seq<Op>)
    requires NoWrap(tgt, h, ops)
    ensures Exec(tgt, h, ops[..0]) == h && ops[..|ops|] == ops && Ap(tgt, h, ops, 0) == h.regs[ALLOC_PTR]
    ensures Ap(tgt, h, ops, |ops|) == h.regs[ALLOC_PTR] + Total(tgt, h, ops)
  {
    ApExact(tgt, h, ops);
    assert ops[..|ops|] == ops;
  }

  /** What an operation has put into its object stays there, except where a later assignment
      stores something else. */
  lemma ContentsSurvive(tgt: Target, h: Heap, ops: seq<Op>, i: nat, x: nat)
    requires NoWrap(tgt, h, ops) && i < |ops| && Lo(tgt, h, ops, i) <= x < Hi(tgt, h, ops, i)
    requires !Assigned(tgt, ops[i + 1..], x)
    ensures Read(Exec(tgt, h, ops).mem, x) == Read(Exec(tgt, h, ops[..i + 1]).mem, x)
  {
    hide Exec, Bump, Start, Step, Total, Index;
    forall k | i + 1 <= k < |ops|
      ensures !Touches(tgt, ops[k], Ap(tgt, h, ops, k), x)
    {
      assert ops[i + 1..][k - (i + 1)] == ops[k];
      ObjectsDisjoint(tgt, h, ops, i, k);
      StepAt(tgt, h, ops, k);
    }
    Unchanged(tgt, h, ops, i + 1, |ops|, x);
    assert ops[..|ops|] == ops;
  }

  // ----- alignment over runs -----

  /** The allocation pointer modulo the word size after an operation, from r before it. Only raw objects
      change it: their length is not rounded, and an alignment sets bits. */
  function PhaseStep(w: nat, r: nat, op: Op): nat
    requires w > 0
  {
    match op
    case New(RAW_ALLOC(tag, align, len), _) =>
      ((if tag.Some? && align > w then BitOr(r, align % w) else r) + len) % w
    case _ => r
  }

  function Phase(w: nat, r: nat, ops: seq<Op>): nat
    requires w > 0
  {
    if ops == [] then r else PhaseStep(w, Phase(w, r, ops[..|ops| - 1]), ops[|ops| - 1])
  }

  lemma BumpPhase(tgt: Target, op: Op, ap: Val)
    requires tgt.Valid()
    ensures (ap + Bump(tgt, op, ap)) % tgt.wordSz == PhaseStep(tgt.wordSz, ap % tgt.wordSz, op)
  {
    hide BitOr, RoundUp, FieldsEnd;
    var w := tgt.wordSz;
    match op
    case New(RAW_ALLOC(tag, align, len), _) => RawPhase(tgt, tag, align, len, ap);
    case New(SPECIAL, _) => WordsPhase(w, ap, 2);
    case New(RECORD(_), vals) => WordsPhase(w, ap, |vals| + 1);
    case New(RAW_RECORD(_, fields), _) =>
      var n := RoundUp(FieldsEnd(tgt, fields), w);
      MulAdd(w, 1, n);
      WordsPhase(w, ap, n + 1);
    case Assign(_, _) => WordsPhase(w, ap, 2);
  }

  /** Whole words do not change the remainder. */
  lemma WordsPhase(w: nat, ap: nat, n: int)
    requires w > 0
    ensures (ap + w * n) % w == ap % w
  {
    WordMultiples(w, 0, n);
    WordMultiples(w, w * n, ap);
  }

  lemma AddPhase(w: nat, a: nat, len: nat)
    requires w > 0
    ensures (a + len) % w == (a % w + len) % w
  {
    DivMod(a, w);
    WordsPhase(w, a % w + len, a / w);
  }

  lemma TagPhase(tgt: Target, ap: Val, tagged: bool, align: nat)
    requires tgt.Valid()
    ensures var w := tgt.wordSz;
            TagAddress(tgt, ap, tagged, align) % w == if tagged && align > w then BitOr(ap % w, align % w) else ap % w
  {
    hide BitOr;
    var w := tgt.wordSz;
    if tagged && align > w {
      WordOr(tgt, ap, align - w);
      WordsPhase(w, align - w, 1);
    }
  }

  lemma RawPhase(tgt: Target, tag: Option<Val>, align: nat, len: nat, ap: Val)
    requires tgt.Valid()
    ensures var w, a := tgt.wordSz, TagAddress(tgt, ap, tag.Some?, align);
            (a + (len + w)) % w == ((if tag.Some? && align > w then BitOr(ap % w, align % w) else ap % w) + len) % w
  {
    hide BitOr, TagAddress;
    var w, a := tgt.wordSz, TagAddress(tgt, ap, tag.Some?, align);
    TagPhase(tgt, ap, tag.Some?, align);
    AddPhase(w, a, len);
    WordsPhase(w, a + len, 1);
  }

  /** The remainder of the allocation pointer anywhere in a run is that of its start, changed by the raw
      objects in between. */
  lemma {:induction false} ApPhase(tgt: Target, h: Heap, ops: seq<Op>, i: nat)
    requires NoWrap(tgt, h, ops) && i <= |ops|
    ensures Ap(tgt, h, ops, i) % tgt.wordSz == Phase(tgt.wordSz, h.regs[ALLOC_PTR] % tgt.wordSz, ops[..i])
  {
    hide Exec, Bump, Step, PhaseStep;
    if i == 0 {
      RunStarts(tgt, h, ops);
    } else {
      ApPhase(tgt, h, ops, i - 1);
      StepAt(tgt, h, ops, i - 1);
      BumpPhase(tgt, ops[i - 1], Ap(tgt, h, ops, i - 1));
      assert ops[..i][..i - 1] == ops[..i - 1];
    }
  }

  /** The lengths of all raw objects. */
  function RawBytes(ops: seq<Op>): nat {
    if ops == [] then 0
    else
      var op := ops[|ops| - 1];
      RawBytes(ops[..|ops| - 1]) + if op.New? && op.alloc.RAW_ALLOC? then op.alloc.len else 0
  }

  /** Alignments, where asked for, are multiples of the word size, as powers of two are. */
  predicate WordAligns(w: nat, op: Op)
    requires w > 0
  {
    op.New? && op.alloc.RAW_ALLOC? && op.alloc.tag.Some? && op.alloc.align > w ==> op.alloc.align % w == 0
  }

  lemma StepSum(w: nat, x: nat, op: Op)
    requires w > 0 && WordAligns(w, op)
    ensures PhaseStep(w, x % w, op) == (x + RawBytes([op])) % w
  {
    hide BitOr;
    assert [op][..0] == [];
    if op.New? && op.alloc.RAW_ALLOC? {
      OrZero(x % w);
      AddPhase(w, x, op.alloc.len);
    }
  }

  /** ... then the remainder is that of the start and the lengths of all raw objects together. */
  lemma {:induction false} PhaseSum(w: nat, r: nat, ops: seq<Op>)
    requires r < w && forall i :: 0 <= i < |ops| ==> WordAligns(w, ops[i])
    ensures Phase(w, r, ops) == (r + RawBytes(ops)) % w
  {
    hide PhaseStep;
    if ops == [] {
      DivUnique(w, 0, r);
    } else {
      var n := |ops| - 1;
      PhaseSum(w, r, ops[..n]);
      StepSum(w, r + RawBytes(ops[..n]), ops[n]);
      assert [ops[n]][..0] == [];
    }
  }

  /** Where in a run an object that asks for an alignment above the word size gets it: if and only if what was
      allocated before it left the allocation pointer on a multiple of the word. */
  lemma AlignedIffPhase(tgt: Target, h: Heap, ops: seq<Op>, i: nat, k: nat)
    requires NoWrap(tgt, h, ops) && i < |ops|
    requires ops[i].New? && ops[i].alloc.RAW_ALLOC? && ops[i].alloc.tag.Some?
    requires ops[i].alloc.align == Pow2(k) > tgt.wordSz
    ensures var a := Allocate(tgt, ops[i].alloc, ops[i].vals, Ap(tgt, h, ops, i), Exec(tgt, h, ops[..i]).mem);
            var r := h.regs[ALLOC_PTR] % tgt.wordSz;
            && a.obj == Lo(tgt, h, ops, i) + tgt.wordSz
            && (a.obj % Pow2(k) == 0 <==> Phase(tgt.wordSz, r, ops[..i]) == 0)
  {
    hide Exec, BitOr, Step, Allocate, Bump, Total, Phase;
    ApPhase(tgt, h, ops, i);
    AlignedObject(tgt, Ap(tgt, h, ops, i), k);
    StepAt(tgt, h, ops, i);
    NewInitialised(tgt, Exec(tgt, h, ops[..i]), ops[i].alloc, ops[i].vals);
  }

  /** ... that is, for alignments by powers of two, if and only if the raw objects before it fill, together with
      the start, whole words. */
  lemma AlignedIffWholeWords(tgt: Target, h: Heap, ops: seq<Op>, i: nat, k: nat)
    requires NoWrap(tgt, h, ops) && i < |ops| && forall j :: 0 <= j < |ops| ==> WordAligns(tgt.wordSz, ops[j])
    requires ops[i].New? && ops[i].alloc.RAW_ALLOC? && ops[i].alloc.tag.Some?
    requires ops[i].alloc.align == Pow2(k) > tgt.wordSz
    ensures (Lo(tgt, h, ops, i) + tgt.wordSz) % Pow2(k) == 0
            <==> (h.regs[ALLOC_PTR] + RawBytes(ops[..i])) % tgt.wordSz == 0
  {
    hide Exec, BitOr, Step, Allocate, Bump, Total, Phase, RawBytes;
    var w, ap, n := tgt.wordSz, h.regs[ALLOC_PTR], RawBytes(ops[..i]);
    AlignedIffPhase(tgt, h, ops, i, k);
    PhaseSum(w, ap % w, ops[..i]);
    AddPhase(w, ap, n);
  }

  /** For example, a spilled object of 9 bytes makes the next object miss its boundary of 16 bytes, although
      the allocation pointer started on a multiple of the word. */
  lemma NineBytes(tgt: Target, h: Heap, len: nat)
    requires tgt.Valid() && |h.regs| == NUM_REGS && h.regs[ALLOC_PTR] % tgt.wordSz == 0
    requires h.regs[ALLOC_PTR] + len + 64 < tgt.Modulus()
    ensures var ops := [New(RAW_ALLOC(None, tgt.wordSz, 9), []), New(RAW_ALLOC(Some(0), 16, len), [])];
            NoWrap(tgt, h, ops) && (Lo(tgt, h, ops, 1) + tgt.wordSz) % 16 != 0
  {
    hide Exec, BitOr;
    var ops := [New(RAW_ALLOC(None, tgt.wordSz, 9), []), New(RAW_ALLOC(Some(0), 16, len), [])];
    assert ops[..1][..0] == [] && ops[..1] == [ops[0]];
    assert Pow2(4) == 16;
    BitOrAtMost(Ap(tgt, h, ops, 1), 16 - tgt.wordSz);
    assert Total(tgt, h, ops[..1]) == 9 + tgt.wordSz;
    assert Bump(tgt, ops[1], Ap(tgt, h, ops, 1)) <= 16 + len;
    AlignedIffPhase(tgt, h, ops, 1, 4);
  }

  /** Raw objects have whole words, and an alignment, where one is asked for, is a power of two
      above the word size. */
  ghost predicate WellSized(tgt: Target, op: Op)
    requires tgt.wordSz > 0
  {
    op.New? && op.alloc.RAW_ALLOC? ==>
      && op.alloc.len % tgt.wordSz == 0
      && (op.alloc.tag.Some? && op.alloc.align > tgt.wordSz ==> exists k: nat :: op.alloc.align == Pow2(k))
  }

  lemma {:induction false} WellSizedPhase(tgt: Target, ops: seq<Op>)
    requires tgt.Valid() && forall k :: 0 <= k < |ops| ==> WellSized(tgt, ops[k])
    ensures Phase(tgt.wordSz, 0, ops) == 0
  {
    if ops != [] {
      hide Pow2, BitOr;
      var op := ops[|ops| - 1];
      WellSizedPhase(tgt, ops[..|ops| - 1]);
      assert WellSized(tgt, op);
      OrZero(0);
      if op.New? && op.alloc.RAW_ALLOC? && op.alloc.tag.Some? && op.alloc.align > tgt.wordSz {
        var k: nat :| op.alloc.align == Pow2(k);
        WordDividesPow2(tgt, k);
      }
    }
  }

  /** So where raw objects have whole words, every object that asks for an alignment above the word size is on
      such a boundary, wherever in the run it is allocated, and no boundary before it was free. */
  lemma ObjectsAligned(tgt: Target, h: Heap, ops: seq<Op>, i: nat, k: nat)
    requires NoWrap(tgt, h, ops) && i < |ops| && h.regs[ALLOC_PTR] % tgt.wordSz == 0
    requires forall j :: 0 <= j < |ops| ==> WellSized(tgt, ops[j])
    requires ops[i].New? && ops[i].alloc.RAW_ALLOC? && ops[i].alloc.tag.Some?
    requires ops[i].alloc.align == Pow2(k) > tgt.wordSz
    ensures var a := Allocate(tgt, ops[i].alloc, ops[i].vals, Ap(tgt, h, ops, i), Exec(tgt, h, ops[..i]).mem);
            && a.obj == Lo(tgt, h, ops, i) + tgt.wordSz && a.obj % Pow2(k) == 0
            && forall b: nat :: Ap(tgt, h, ops, i) <= b < Lo(tgt, h, ops, i) ==> !AlignedAt(tgt.wordSz, b, Pow2(k))
  {
    hide Exec, BitOr, WellSized, Step, Allocate, Bump, Total, Phase;
    WellSizedPhase(tgt, ops[..i]);
    ApPhase(tgt, h, ops, i);
    AlignedObject(tgt, Ap(tgt, h, ops, i), k);
    AlignedIffPhase(tgt, h, ops, i, k);
  }

  // ----- the store list -----

  /** The first n addresses on the list from p, and the link after them. */
  function Walk(tgt: Target, mem: Mem, p: Val, n: nat): (adrs: seq<Val>)
    ensures |adrs| == n
    decreases n
  {
    if n == 0 then [] else [Read(mem, p)] + Walk(tgt, mem, Read(mem, p + tgt.wordSz), n - 1)
  }

  function LinkAfter(tgt: Target, mem: Mem, p: Val, n: nat): Val
    decreases n
  {
    if n == 0 then p else LinkAfter(tgt, mem, Read(mem, p + tgt.wordSz), n - 1)
  }

  /** The addresses of all logged assignments, newest first. */
  function Logged(tgt: Target, ops: seq<Op>): seq<Val> {
    if ops == [] then []
    else
      var last := ops[|ops| - 1];
      (if Logs(last) then [Address(tgt, last)] else []) + Logged(tgt, ops[..|ops| - 1])
  }

  /** The list cells, newest first. */
  function Cells(tgt: Target, h: Heap, ops: seq<Op>): (cells: seq<Val>)
    requires tgt.wordSz > 0 && |h.regs| == NUM_REGS
    ensures |cells| == |Logged(tgt, ops)|
  {
    if ops == [] then []
    else
      var n := |ops| - 1;
      (if Logs(ops[n]) then [Ap(tgt, h, ops, n)] else []) + Cells(tgt, h, ops[..n])
  }

  ghost predicate Linked(tgt: Target, mem: Mem, p: Val, cells: seq<Val>, adrs: seq<Val>, end: Val)
    requires |cells| == |adrs|
    decreases |cells|
  {
    if cells == [] then p == end
    else
      p == cells[0] && Read(mem, p) == adrs[0]
      && Linked(tgt, mem, Read(mem, p + tgt.wordSz), cells[1..], adrs[1..], end)
  }

  lemma {:induction false} LinkedWalk(tgt: Target, mem: Mem, p: Val, cells: seq<Val>, adrs: seq<Val>, end: Val)
    requires |cells| == |adrs| && Linked(tgt, mem, p, cells, adrs, end)
    ensures Walk(tgt, mem, p, |adrs|) == adrs && LinkAfter(tgt, mem, p, |adrs|) == end
    decreases |cells|
  {
    if cells != [] {
      LinkedWalk(tgt, mem, Read(mem, p + tgt.wordSz), cells[1..], adrs[1..], end);
    }
  }

  lemma {:induction false} LinkedSame(tgt: Target, mem: Mem, mem': Mem, p: Val, cells: seq<Val>, adrs: seq<Val>,
                                      end: Val)
    requires |cells| == |adrs| && Linked(tgt, mem, p, cells, adrs, end)
    requires forall c :: c in cells ==>
               Read(mem', c) == Read(mem, c) && Read(mem', c + tgt.wordSz) == Read(mem, c + tgt.wordSz)
    ensures Linked(tgt, mem', p, cells, adrs, end)
    decreases |cells|
  {
    if cells != [] {
      assert cells[0] in cells && forall c :: c in cells[1..] ==> c in cells;
      LinkedSame(tgt, mem, mem', Read(mem, p + tgt.wordSz), cells[1..], adrs[1..], end);
    }
  }

  /** An address that the program may assign to at the i-th operation: outside the memory
      allocated since the start, or in an object allocated before. */
  ghost predicate InObject(tgt: Target, h: Heap, ops: seq<Op>, i: nat, x: Val)
    requires tgt.wordSz > 0 && |h.regs| == NUM_REGS && i < |ops|
  {
    || !(h.regs[ALLOC_PTR] <= x < Hi(tgt, h, ops, i))
    || exists k: nat :: k < i && ops[k].New? && Lo(tgt, h, ops, k) <= x < Hi(tgt, h, ops, k)
  }

  ghost predicate StoresIntoObjects(tgt: Target, h: Heap, ops: seq<Op>)
    requires tgt.wordSz > 0 && |h.regs| == NUM_REGS
  {
    forall i: nat :: i < |ops| && StoresTo(ops[i]) ==> InObject(tgt, h, ops, i, Address(tgt, ops[i]))
  }

  /** No list cell is part of an object. */
  lemma ObjectsAreNotCells(tgt: Target, h: Heap, ops: seq<Op>, i: nat, j: nat, x: Val)
    requires NoWrap(tgt, h, ops) && j <= i < |ops| && Logs(ops[j]) && InObject(tgt, h, ops, i, x)
    ensures !(Ap(tgt, h, ops, j) <= x < Ap(tgt, h, ops, j) + 2 * tgt.wordSz)
    ensures Ap(tgt, h, ops, j) + 2 * tgt.wordSz == Hi(tgt, h, ops, j)
  {
    hide Exec, Total;
    StepAt(tgt, h, ops, j);
    RunStarts(tgt, h, ops);
    ApMono(tgt, h, ops, 0, j);
    ApMono(tgt, h, ops, j + 1, i + 1);
    if h.regs[ALLOC_PTR] <= x < Hi(tgt, h, ops, i) {
      var k: nat :| k < i && ops[k].New? && Lo(tgt, h, ops, k) <= x < Hi(tgt, h, ops, k);
      if k < j {
        ObjectsDisjoint(tgt, h, ops, k, j);
      } else {
        ObjectsDisjoint(tgt, h, ops, j, k);
      }
    }
  }

  lemma {:induction false} CellsAre(tgt: Target, h: Heap, ops: seq<Op>, n: nat, c: Val)
    requires tgt.wordSz > 0 && |h.regs| == NUM_REGS && n <= |ops| && c in Cells(tgt, h, ops[..n])
    ensures exists j: nat :: j < n && Logs(ops[j]) && c == Ap(tgt, h, ops, j)
  {
    assert ops[..n][..n - 1] == ops[..n - 1];
    if !(Logs(ops[n - 1]) && c == Ap(tgt, h, ops, n - 1)) {
      CellsAre(tgt, h, ops, n - 1, c);
    }
  }

  /** What a step leaves of the cells made before it. */
  lemma CellsKept(tgt: Target, h: Heap, ops: seq<Op>, n: nat, c: Val)
    requires NoWrap(tgt, h, ops) && n < |ops| && StoresIntoObjects(tgt, h, ops) && c in Cells(tgt, h, ops[..n])
    ensures var mem, mem' := Exec(tgt, h, ops[..n]).mem, Exec(tgt, h, ops[..n + 1]).mem;
            Read(mem', c) == Read(mem, c) && Read(mem', c + tgt.wordSz) == Read(mem, c + tgt.wordSz)
  {
    hide Exec, Step, Total, Bump, Start, InObject;
    CellsAre(tgt, h, ops, n, c);
    var j: nat :| j < n && Logs(ops[j]) && c == Ap(tgt, h, ops, j);
    var op, ap := ops[n], Ap(tgt, h, ops, n);
    StepAt(tgt, h, ops, n);
    CellSize(tgt, h, ops, j);
    ApMono(tgt, h, ops, j + 1, n);
    BumpPositive(tgt, op, ap);
    if StoresTo(op) {
      ObjectsAreNotCells(tgt, h, ops, n, j, Address(tgt, op));
    }
    StepFrame(tgt, Exec(tgt, h, ops[..n]), op);
  }

  lemma CellSize(tgt: Target, h: Heap, ops: seq<Op>, j: nat)
    requires NoWrap(tgt, h, ops) && j < |ops| && Logs(ops[j])
    ensures Ap(tgt, h, ops, j + 1) == Ap(tgt, h, ops, j) + 2 * tgt.wordSz
  {
    hide Exec, Total;
    StepAt(tgt, h, ops, j);
  }

  /** The cell that a logged assignment adds. */
  lemma CellAdded(tgt: Target, h: Heap, ops: seq<Op>, n: nat)
    requires NoWrap(tgt, h, ops) && n < |ops| && StoresIntoObjects(tgt, h, ops) && Logs(ops[n])
    ensures var h0, h' := Exec(tgt, h, ops[..n]), Exec(tgt, h, ops[..n + 1]);
            && h'.regs[STORE_PTR] == Ap(tgt, h, ops, n)
            && Read(h'.mem, Ap(tgt, h, ops, n)) == Address(tgt, ops[n])
            && Read(h'.mem, Ap(tgt, h, ops, n) + tgt.wordSz) == h0.regs[STORE_PTR]
  {
    hide Exec, Total, InObject, RecordStore, Index;
    StepAt(tgt, h, ops, n);
    CellSize(tgt, h, ops, n);
    ObjectsAreNotCells(tgt, h, ops, n, n, Address(tgt, ops[n]));
    var h0 := Exec(tgt, h, ops[..n]);
    LogFrame(tgt, Address(tgt, ops[n]), h0.regs, h0.mem);
  }

  lemma CellsStep(tgt: Target, h: Heap, ops: seq<Op>, n: nat)
    requires tgt.wordSz > 0 && |h.regs| == NUM_REGS && n < |ops|
    ensures Cells(tgt, h, ops[..n + 1]) == (if Logs(ops[n]) then [Ap(tgt, h, ops, n)] else []) + Cells(tgt, h, ops[..n])
    ensures Logged(tgt, ops[..n + 1]) == (if Logs(ops[n]) then [Address(tgt, ops[n])] else []) + Logged(tgt, ops[..n])
  {
    assert ops[..n + 1][..n] == ops[..n];
  }

  lemma LinkedCons(tgt: Target, mem: Mem, p: Val, cells: seq<Val>, adrs: seq<Val>, end: Val)
    requires |cells| == |adrs| && Linked(tgt, mem, Read(mem, p + tgt.wordSz), cells, adrs, end)
    ensures Linked(tgt, mem, p, [p] + cells, [Read(mem, p)] + adrs, end)
  {
    assert ([p] + cells)[1..] == cells && ([Read(mem, p)] + adrs)[1..] == adrs;
  }

  /** The list before a step is still a list after it. */
  lemma ListKept(tgt: Target, h: Heap, ops: seq<Op>, n: nat, end: Val)
    requires NoWrap(tgt, h, ops) && n < |ops| && StoresIntoObjects(tgt, h, ops)
    requires var h0 := Exec(tgt, h, ops[..n]);
             Linked(tgt, h0.mem, h0.regs[STORE_PTR], Cells(tgt, h, ops[..n]), Logged(tgt, ops[..n]), end)
    ensures var h0, h' := Exec(tgt, h, ops[..n]), Exec(tgt, h, ops[..n + 1]);
            Linked(tgt, h'.mem, h0.regs[STORE_PTR], Cells(tgt, h, ops[..n]), Logged(tgt, ops[..n]), end)
  {
    hide Exec, Linked, Cells, Logged, Ap, Total, StoresIntoObjects, Read;
    var h0, h' := Exec(tgt, h, ops[..n]), Exec(tgt, h, ops[..n + 1]);
    var cells, adrs := Cells(tgt, h, ops[..n]), Logged(tgt, ops[..n]);
    forall c | c in cells
      ensures Read(h'.mem, c) == Read(h0.mem, c) && Read(h'.mem, c + tgt.wordSz) == Read(h0.mem, c + tgt.wordSz)
    {
      CellsKept(tgt, h, ops, n, c);
    }
    LinkedSame(tgt, h0.mem, h'.mem, h0.regs[STORE_PTR], cells, adrs, end);
  }

  lemma NotLogged(tgt: Target, h: Heap, ops: seq<Op>, n: nat)
    requires NoWrap(tgt, h, ops) && n < |ops| && !Logs(ops[n])
    ensures Exec(tgt, h, ops[..n + 1]).regs[STORE_PTR] == Exec(tgt, h, ops[..n]).regs[STORE_PTR]
  {
    hide Exec, Step, Total, Bump, Start;
    StepAt(tgt, h, ops, n);
    StepFrame(tgt, Exec(tgt, h, ops[..n]), ops[n]);
  }

  /** The list that the store pointer leads to after the first n operations. */
  ghost predicate ListAt(tgt: Target, h: Heap, ops: seq<Op>, n: nat)
    requires tgt.wordSz > 0 && |h.regs| == NUM_REGS && n <= |ops|
  {
    var h' := Exec(tgt, h, ops[..n]);
    Linked(tgt, h'.mem, h'.regs[STORE_PTR], Cells(tgt, h, ops[..n]), Logged(tgt, ops[..n]), h.regs[STORE_PTR])
  }

  lemma ListGrows(tgt: Target, h: Heap, ops: seq<Op>, n: nat)
    requires NoWrap(tgt, h, ops) && n < |ops| && StoresIntoObjects(tgt, h, ops)
    requires ListAt(tgt, h, ops, n) && Logs(ops[n])
    ensures ListAt(tgt, h, ops, n + 1)
  {
    hide Total, StoresIntoObjects, Exec, Linked, Cells, Logged, Ap, Read, Logs, Address;
    ListKept(tgt, h, ops, n, h.regs[STORE_PTR]);
    CellsStep(tgt, h, ops, n);
    CellAdded(tgt, h, ops, n);
    LinkedCons(tgt, Exec(tgt, h, ops[..n + 1]).mem, Ap(tgt, h, ops, n), Cells(tgt, h, ops[..n]),
               Logged(tgt, ops[..n]), h.regs[STORE_PTR]);
  }

  lemma ListStays(tgt: Target, h: Heap, ops: seq<Op>, n: nat)
    requires NoWrap(tgt, h, ops) && n < |ops| && StoresIntoObjects(tgt, h, ops)
    requires ListAt(tgt, h, ops, n) && !Logs(ops[n])
    ensures ListAt(tgt, h, ops, n + 1)
  {
    hide Total, StoresIntoObjects, Exec, Linked, Cells, Logged, Ap, Read, Logs, Address;
    ListKept(tgt, h, ops, n, h.regs[STORE_PTR]);
    CellsStep(tgt, h, ops, n);
    NotLogged(tgt, h, ops, n);
    assert [] + Cells(tgt, h, ops[..n]) == Cells(tgt, h, ops[..n]);
    assert [] + Logged(tgt, ops[..n]) == Logged(tgt, ops[..n]);
  }

  lemma {:induction false} CellsLinked(tgt: Target, h: Heap, ops: seq<Op>, n: nat)
    requires NoWrap(tgt, h, ops) && n <= |ops| && StoresIntoObjects(tgt, h, ops)
    ensures ListAt(tgt, h, ops, n)
  {
    if n > 0 {
      hide ListAt, StoresIntoObjects, Logs;
      CellsLinked(tgt, h, ops, n - 1);
      if Logs(ops[n - 1]) {
        ListGrows(tgt, h, ops, n - 1);
      } else {
        ListStays(tgt, h, ops, n - 1);
      }
    }
  }

  /** Between collections, the list from the store pointer has exactly the addresses of all
      logged assignments, newest first, in front of the list from before; no allocation and
      no assignment to an object changes it. */
  lemma StoreListComplete(tgt: Target, h: Heap, ops: seq<Op>)
    requires NoWrap(tgt, h, ops) && StoresIntoObjects(tgt, h, ops)
    ensures var h', n := Exec(tgt, h, ops), |Logged(tgt, ops)|;
            && Walk(tgt, h'.mem, h'.regs[STORE_PTR], n) == Logged(tgt, ops)
            && LinkAfter(tgt, h'.mem, h'.regs[STORE_PTR], n) == h.regs[STORE_PTR]
  {
    hide Exec, Linked, StoresIntoObjects;
    CellsLinked(tgt, h, ops, |ops|);
    assert ops[..|ops|] == ops;
    var h' := Exec(tgt, h, ops);
    LinkedWalk(tgt, h'.mem, h'.regs[STORE_PTR], Cells(tgt, h, ops), Logged(tgt, ops), h.regs[STORE_PTR]);
  }
}
