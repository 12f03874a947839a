/** Arbitrary-precision integers of the pickle format (smlnj/lib-codegen/asdl-integer.cpp): the
    conversion from 7-bit groups to 32-bit digits, and conversions to machine integers. */
module AsdlIntegers {
  import opened Arith
  import opened Machine

  type Byte = x: int | 0 <= x < 256

  const B32: nat := 0x1_0000_0000

  /** The number that the groups make up, most significant first. */
  function Groups(gs: seq<nat>): nat {
    if gs == [] then 0 else Groups(gs[..|gs| - 1]) * 128 + gs[|gs| - 1]
  }

  /** The number that the digits make up, most significant first. */
  function Digits(ds: seq<nat>): nat {
    if ds == [] then 0 else Digits(ds[..|ds| - 1]) * B32 + ds[|ds| - 1]
  }

  ghost predicate DigitsOK(ds: seq<nat>) {
    forall i :: 0 <= i < |ds| ==> ds[i] < B32
  }

  /** Number of bytes up to the first without a continuation bit; none if all have one. */
  function Extent(bytes: seq<Byte>): Option<nat> {
    if bytes == [] then None
    else if bytes[0] < 128 then Some(1)
    else
      var r := Extent(bytes[1..]);
      if r.Some? then Some(r.value + 1) else None
  }

  /** The groups: six bits of the first byte, seven of each other byte. */
  function GroupsOf(bytes: seq<Byte>): seq<nat> {
    seq(|bytes|, i requires 0 <= i < |bytes| => if i == 0 then bytes[i] % 64 else bytes[i] % 128)
  }

  lemma {:induction false} ExtentAt(bytes: seq<Byte>, n: nat)
    requires n < |bytes| && forall i :: 0 <= i < n ==> bytes[i] >= 128
    ensures bytes[n] < 128 ==> Extent(bytes) == Some(n + 1)
    ensures bytes[n] >= 128 && n + 1 == |bytes| ==> Extent(bytes) == None
    decreases n
  {
    if n > 0 {
      ExtentAt(bytes[1..], n - 1);
    }
  }

  /** Read the sign and the groups. None stands for the end of input, where the program exits. */
  method ReadGroups(bytes: seq<Byte>) returns (r: Option<(bool, seq<nat>)>, n: nat)
    ensures r.Some? <==> Extent(bytes).Some?
    ensures r.Some? ==> Extent(bytes) == Some(n) && 0 < n <= |bytes|
                        && r.value.0 == (bytes[0] / 64 % 2 == 1) && r.value.1 == GroupsOf(bytes[..n])
  {
    if bytes == [] {
      return None, 0;
    }
    var b := bytes[0];
    var sign := b / 64 % 2 == 1;
    var digits := [b % 64];
    n := 1;
    while b >= 128
      invariant 0 < n <= |bytes| && b == bytes[n - 1] && digits == GroupsOf(bytes[..n])
      invariant forall i :: 0 <= i < n - 1 ==> bytes[i] >= 128
      decreases |bytes| - n
    {
      if n == |bytes| {
        ExtentAt(bytes, n - 1);
        return None, n;
      }
      b := bytes[n];
      digits := digits + [b % 128];
      n := n + 1;
    }
    ExtentAt(bytes, n - 1);
    return Some((sign, digits)), n;
  }

  // ----- significant bits -----

  /** The number of significant bits. */
  function BitLength(b: nat): (n: nat)
    ensures b == 0 <==> n == 0
  {
    if b == 0 then 0 else BitLength(b / 2) + 1
  }

  lemma {:induction false} BitLengthBounds(b: nat)
    ensures b < Pow2(BitLength(b)) && (b > 0 ==> Pow2(BitLength(b) - 1) <= b)
  {
    if b > 0 {
      BitLengthBounds(b / 2);
    }
  }

  /** Seven bits for each group, but only the significant ones for the first. */
  function NBits(gs: seq<nat>): nat
    requires gs != []
  {
    (|gs| - 1) * 7 + BitLength(gs[0])
  }

  /** A number from 2^n to 2^(n + 1) has n + 1 bits. */
  lemma {:induction false} BitLengthIs(b: nat, n: nat)
    requires Pow2(n) <= b < 2 * Pow2(n)
    ensures BitLength(b) == n + 1
    decreases n
  {
    if n > 0 {
      BitLengthIs(b / 2, n - 1);
    } else {
      assert b == 1 && BitLength(0) == 0;
    }
  }

  /** The number of significant bits of a six-bit number. */
  method FirstBits(b: nat) returns (n: nat)
    requires b < 64
    ensures n == BitLength(b) <= 6
  {
    hide BitLength;
    PowersTo7();
    if b > 0x1f {
      n := 6;
    } else if b > 0xf {
      n := 5;
    } else if b > 0x7 {
      n := 4;
    } else if b > 0x3 {
      n := 3;
    } else if b > 0x1 {
      n := 2;
    } else if b > 0x0 {
      n := 1;
    } else {
      n := 0;
    }
    if n > 0 {
      BitLengthIs(b, n - 1);
    }
  }

  lemma PowersTo7()
    ensures Pow2(0) == 1 && Pow2(1) == 2 && Pow2(2) == 4 && Pow2(3) == 8 && Pow2(4) == 16 && Pow2(5) == 32
    ensures Pow2(6) == 64 && Pow2(7) == 128
  {
  }

  lemma Pow32()
    ensures Pow2(32) == B32
  {
    PowersTo7();
    assert Pow2(8) == 256 && Pow2(16) == 65536 by {
      assert Pow2(10) == 1024 && Pow2(12) == 4096 && Pow2(14) == 16384;
    }
    assert Pow2(20) == 0x10_0000 && Pow2(24) == 0x100_0000 && Pow2(28) == 0x1000_0000;
  }

  /** Shifting by the size of a group or of a digit. */
  lemma ShlGroup(x: nat)
    ensures Shl(x, 7) == 128 * x && Shl(x, 32) == B32 * x
  {
    hide Shl, Pow2;
    PowersTo7();
    Pow32();
    ShlMul(x, 7);
    ShlMul(x, 32);
  }

  // ----- repacking -----

  /** The whole number so far: the digits written, then w in what is used of the current digit. */
  ghost predicate Packed(p: nat, ds: seq<nat>, w: nat, avail: nat) {
    avail <= 32 && w < Pow2(32 - avail) && p == Shl(Digits(ds), 32 - avail) + w
  }

  /** w shifted left by k bits, or-ed with v, in 32 bits. */
  function ShiftOr(w: nat, k: nat, v: nat): nat {
    BitOr(Shl(w, k) % B32, v)
  }

  lemma {:induction false} OrLow(w: nat, k: nat, v: nat)
    requires v < Pow2(k)
    ensures BitOr(Shl(w, k), v) == Shl(w, k) + v
    decreases k
  {
    if k > 0 {
      OrLow(w, k - 1, v / 2);
      OrBit(Shl(w, k - 1), v);
    }
  }

  lemma OrBit(x: nat, v: nat)
    requires BitOr(x, v / 2) == x + v / 2
    ensures BitOr(2 * x, v) == 2 * x + v
  {
    assert (2 * x) / 2 == x && (2 * x) % 2 == 0;
  }

  /** Shifting loses nothing when k bits are available. */
  lemma ShiftOrExact(w: nat, k: nat, v: nat, avail: nat)
    requires k <= avail <= 32 && w < Pow2(32 - avail) && v < Pow2(k)
    ensures ShiftOr(w, k, v) == Shl(w, k) + v < Pow2(32 - (avail - k))
    ensures ShiftOr(w, k, v) < B32
  {
    hide Pow2, Shl, BitOr;
    ShlBelow(w, v, 32 - avail, k);
    Pow2Mono(32, 32 - (avail - k));
    Pow32();
    OrLow(w, k, v);
  }

  lemma DigitsAppend(ds: seq<nat>, w: nat)
    ensures Digits(ds + [w]) == Digits(ds) * B32 + w
  {
    assert (ds + [w])[..|ds|] == ds;
  }

  lemma PackFits(p: nat, ds: seq<nat>, w: nat, avail: nat, b: nat)
    requires Packed(p, ds, w, avail) && avail >= 7 && b < 128
    ensures Packed(p * 128 + b, ds, ShiftOr(w, 7, b), avail - 7)
  {
    PowersTo7();
    hide Pow2, Shl, ShiftOr, Digits;
    ShiftOrExact(w, 7, b, avail);
    ShlShl(Digits(ds), 32 - avail, 7);
    ShlGroup(Shl(Digits(ds), 32 - avail));
    ShlGroup(w);
  }

  lemma PackSplits(p: nat, ds: seq<nat>, w: nat, avail: nat, b: nat)
    requires Packed(p, ds, w, avail) && avail < 7 && b < 128
    ensures var e := 7 - avail;
            && Packed(p * 128 + b, ds + [ShiftOr(w, avail, Shr(b, e))], Mask(b, e), 32 - e)
            && ShiftOr(w, avail, Shr(b, e)) < B32
  {
    PowersTo7();
    hide Pow2, Shl, ShiftOr, Digits, Shr, Mask;
    var e := 7 - avail;
    var d, bh := Digits(ds), Shr(b, e);
    Parts(b, e);
    ShrBelow(b, avail, e);
    ShiftOrExact(w, avail, bh, avail);
    DigitsAppend(ds, Shl(w, avail) + bh);
    ShlGroup(d);
    ShlGroup(Shl(d, 32 - avail));
    ShlGroup(w);
    ShlShl(d, 32 - avail, 7);
    ShlShl(d, 32, e);
    ShlShl(w, avail, e);
    ShlAdd(Shl(d, 32), Shl(w, avail) + bh, e);
    ShlAdd(Shl(w, avail), bh, e);
  }

  /** Add the groups after the first to digits that already hold the first. */
  method PackRest(gs: seq<nat>, ds0: seq<nat>, w0: nat, avail0: nat, ghost n: nat)
    returns (ds: seq<nat>, avail: nat)
    requires gs != [] && forall i :: 0 < i < |gs| ==> gs[i] < 128
    requires DigitsOK(ds0) && Packed(Groups(gs[..1]), ds0, w0, avail0)
    requires |ds0| < n && avail0 + 32 * (n - 1 - |ds0|) == 7 * (|gs| - 1)
    ensures DigitsOK(ds) && Digits(ds) == Groups(gs) && |ds| == n && avail == 0
  {
    hide Packed, ShiftOr, Groups, Digits, Shr, Mask;
    ds, avail := ds0, avail0;
    var w: nat := w0;
    var idx: nat := 1;
    AvailAtMost32(Groups(gs[..1]), ds, w, avail);
    while idx < |gs|
      invariant 1 <= idx <= |gs| && DigitsOK(ds) && Packed(Groups(gs[..idx]), ds, w, avail) && avail <= 32
      invariant |ds| < n && avail + 32 * (n - 1 - |ds|) == 7 * (|gs| - idx)
    {
      var b := gs[idx];
      NextGroup(gs, idx);
      if avail >= 7 {
        PackFits(Groups(gs[..idx]), ds, w, avail, b);
        w := ShiftOr(w, 7, b);
        avail := avail - 7;
      } else {
        var excess := 7 - avail;
        PackSplits(Groups(gs[..idx]), ds, w, avail, b);
        ds := ds + [ShiftOr(w, avail, Shr(b, excess))];
        avail := 32 - excess;
        w := Mask(b, excess);
      }
      idx := idx + 1;
    }
    assert gs[..|gs|] == gs;
    PackedFull(Groups(gs), ds, w);
    ds := ds + [w];
  }

  lemma AvailAtMost32(p: nat, ds: seq<nat>, w: nat, avail: nat)
    requires Packed(p, ds, w, avail)
    ensures avail <= 32
  {
  }

  /** Groups of seven bits as digits of 32 bits. The digits denote the same number, there are as
      few as the number of bits allows, and the last one is filled exactly. */
  method Repack(gs: seq<nat>) returns (ds: seq<nat>)
    requires gs != [] && gs[0] < 64 && forall i :: 0 < i < |gs| ==> gs[i] < 128
    ensures DigitsOK(ds) && Digits(ds) == Groups(gs) && |ds| == (NBits(gs) + 31) / 32
    ensures gs[0] != 0 ==> ds != [] && ds[0] != 0
  {
    hide Pow2, Packed, Groups, Digits, Shr, Mask, BitLength;
    ds := [];
    var b := gs[0];
    BitLengthBounds(b);
    var firstBits := FirstBits(b);
    var bits := (|gs| - 1) * 7 + firstBits;
    FirstGroup(gs);
    if bits == 0 {
      assert gs[..1] == gs;
      NoDigits();
      return;
    }
    var w, avail;
    ds, w, avail := FirstDigit(b, firstBits, bits);
    ds, avail := PackRest(gs, ds, w, avail, (bits + 31) / 32);
    if gs[0] != 0 {
      TopDigit(gs, ds, firstBits, bits);
    }
  }

  /** The first group fills the first digit, or part of it, or more. */
  method FirstDigit(b: nat, firstBits: nat, bits: nat) returns (ds: seq<nat>, w: nat, avail: nat)
    requires b < Pow2(firstBits) && firstBits <= 6 && bits > 0 && firstBits <= bits
    ensures DigitsOK(ds) && Packed(b, ds, w, avail) && |ds| < (bits + 31) / 32
    ensures avail + 32 * ((bits + 31) / 32 - 1 - |ds|) == bits - firstBits
  {
    hide Pow2, Packed, Shr, Mask;
    ds := [];
    avail := bits % 32;
    if avail == 0 {
      avail := 32;
    }
    assert bits == avail + 32 * ((bits + 31) / 32 - 1);
    w := b;
    if avail < firstBits {
      var k := firstBits - avail;
      FirstSplits(b, firstBits, avail);
      ds := ds + [Shr(w, k)];
      assert ds == [Shr(b, k)];
      w := Mask(w, k);
      avail := 32 - k;
    } else {
      FirstFits(b, firstBits, avail);
      avail := avail - firstBits;
    }
  }

  lemma FirstGroup(gs: seq<nat>)
    requires gs != []
    ensures Groups(gs[..1]) == gs[0]
  {
    assert gs[..1][..0] == [];
  }

  lemma NextGroup(gs: seq<nat>, i: nat)
    requires i < |gs|
    ensures Groups(gs[..i + 1]) == Groups(gs[..i]) * 128 + gs[i]
  {
    assert gs[..i + 1][..i] == gs[..i];
  }

  lemma {:induction false} ShlZero(k: nat)
    ensures Shl(0, k) == 0
  {
    if k > 0 {
      ShlZero(k - 1);
    }
  }

  lemma NoDigits()
    ensures Digits([]) == 0
  {
  }

  lemma PackedFull(p: nat, ds: seq<nat>, w: nat)
    requires Packed(p, ds, w, 0)
    ensures Digits(ds + [w]) == p && w < B32
  {
    hide Pow2, Shl, Digits;
    Pow32();
    ShlGroup(Digits(ds));
    DigitsAppend(ds, w);
  }

  lemma FirstFits(b: nat, firstBits: nat, avail: nat)
    requires b < Pow2(firstBits) && firstBits <= avail <= 32
    ensures Packed(b, [], b, avail - firstBits)
  {
    hide Pow2, Shl;
    Pow2Mono(32 - (avail - firstBits), firstBits);
    NoDigits();
    ShlZero(32 - (avail - firstBits));
  }

  lemma FirstSplits(b: nat, firstBits: nat, avail: nat)
    requires b < Pow2(firstBits) && avail < firstBits <= 6
    ensures var k := firstBits - avail;
            Packed(b, [Shr(b, k)], Mask(b, k), 32 - k) && Shr(b, k) < B32
  {
    hide Pow2, Shl, Shr, Mask, Digits;
    var k := firstBits - avail;
    var h := Shr(b, k);
    Parts(b, k);
    ShrBelow(b, avail, k);
    Pow32();
    Pow2Mono(32, avail);
    NoDigits();
    DigitsAppend([], h);
    assert [] + [h] == [h] && Digits([h]) == h && 32 - (32 - k) == k;
  }

  // ----- no leading zero -----

  /** A group or a digit more. */
  lemma Pow2Plus(k: nat)
    ensures Pow2(k + 7) == 128 * Pow2(k) && Pow2(k + 32) == B32 * Pow2(k)
  {
    hide Pow2, Shl;
    ShlOne(k);
    ShlOne(k + 7);
    ShlOne(k + 32);
    ShlShl(1, k, 7);
    ShlShl(1, k, 32);
    ShlGroup(Pow2(k));
  }

  lemma {:induction false} GroupsAtLeast(gs: seq<nat>, k: nat)
    requires gs != [] && gs[0] >= Pow2(k)
    ensures Groups(gs) >= Pow2(k + 7 * (|gs| - 1))
  {
    hide Pow2;
    var n := |gs| - 1;
    if n == 0 {
      assert gs[..0] == [];
    } else {
      GroupsAtLeast(gs[..n], k);
      Pow2Plus(k + 7 * (n - 1));
    }
  }

  lemma {:induction false} DigitsBelow(ds: seq<nat>)
    requires DigitsOK(ds)
    ensures Digits(ds) < Pow2(32 * |ds|)
    ensures ds != [] && ds[0] == 0 ==> Digits(ds) < Pow2(32 * (|ds| - 1))
  {
    if ds != [] {
      var n := |ds| - 1;
      DigitsBelow(ds[..n]);
      Pow2Plus(32 * n);
      if n > 0 {
        Pow2Plus(32 * (n - 1));
      }
    }
  }

  lemma TopDigit(gs: seq<nat>, ds: seq<nat>, firstBits: nat, bits: nat)
    requires gs != [] && firstBits > 0 && gs[0] >= Pow2(firstBits - 1) && bits == (|gs| - 1) * 7 + firstBits
    requires DigitsOK(ds) && Digits(ds) == Groups(gs) && |ds| == (bits + 31) / 32
    ensures ds != [] && ds[0] != 0
  {
    GroupsAtLeast(gs, firstBits - 1);
    DigitsBelow(ds);
    Pow2Mono(bits - 1, 32 * (|ds| - 1));
  }

  // ----- integers -----

  /** Sign and magnitude. */
  datatype Integer = Integer(sign: bool, digits: seq<nat>) {
    ghost predicate Valid() {
      DigitsOK(digits)
    }

    function Value(): int {
      var n: int := Digits(digits);
      if sign then -n else n
    }

    predicate NoLeadingZero() {
      digits == [] || digits[0] != 0
    }
  }

  /** Read an integer from the front of a stream: its magnitude is what the groups denote. If its
      first group is not zero, it has no leading zero digit. */
  method ReadInteger(bytes: seq<Byte>) returns (r: Option<Integer>, n: nat)
    ensures r.Some? <==> Extent(bytes).Some?
    ensures r.Some? ==>
              && Extent(bytes) == Some(n) && 0 < n <= |bytes| && r.value.Valid()
              && r.value.sign == (bytes[0] / 64 % 2 == 1)
              && Digits(r.value.digits) == Groups(GroupsOf(bytes[..n]))
              && |r.value.digits| == (NBits(GroupsOf(bytes[..n])) + 31) / 32
              && (bytes[0] % 64 != 0 ==> r.value.NoLeadingZero())
  {
    hide Groups, Digits, BitLength;
    var g;
    g, n := ReadGroups(bytes);
    if g == None {
      return None, n;
    }
    var ds := Repack(g.value.1);
    return Some(Integer(g.value.0, ds)), n;
  }

  /** Two's complement with the given modulus, as conversions and negation wrap around. */
  function Signed(x: int, modulus: nat): int
    requires modulus > 0
  {
    (x + modulus / 2) % modulus - modulus / 2
  }

  const B64: nat := 0x1_0000_0000_0000_0000

  /** A number in range is its own conversion, and the least number its own negation. */
  lemma SignedExact(x: int)
    requires x >= 0
    ensures x < 0x8000_0000 ==> Signed(x, B32) == x && Signed(-x, B32) == -x
    ensures x == 0x8000_0000 ==> Signed(x, B32) == -x == Signed(-Signed(x, B32), B32)
    ensures x < 0x8000_0000_0000_0000 ==> Signed(x, B64) == x && Signed(-x, B64) == -x
    ensures x == 0x8000_0000_0000_0000 ==> Signed(x, B64) == -x == Signed(-Signed(x, B64), B64)
  {
  }

  lemma DigitsShort(ds: seq<nat>)
    ensures |ds| == 0 ==> Digits(ds) == 0
    ensures |ds| == 1 ==> Digits(ds) == ds[0]
    ensures |ds| == 2 ==> Digits(ds) == ds[0] * B32 + ds[1]
  {
    if |ds| == 1 {
      assert ds[..0] == [];
    } else if |ds| == 2 {
      assert ds[..1][..0] == [];
    }
  }

  /** The result is true for failure. The conversion succeeds exactly for the values of 32 bits
      that are given by at most one digit. */
  method ToInt32(i: Integer) returns (fails: bool, n: int)
    requires i.Valid()
    ensures fails <==> |i.digits| > 1 || !(-0x8000_0000 <= i.Value() < 0x8000_0000)
    ensures !fails ==> n == i.Value()
  {
    hide Digits, Signed;
    DigitsShort(i.digits);
    SignedExact(if i.digits == [] then 0 else i.digits[0]);
    n := 0;
    if |i.digits| == 0 {
      fails := false;
    } else if |i.digits| > 1 {
      fails := true;
    } else if i.sign {
      if i.digits[0] <= 0x8000_0000 {
        n := Signed(-Signed(i.digits[0], B32), B32);
        fails := false;
      } else {
        fails := true;
      }
    } else if i.digits[0] < 0x8000_0000 {
      n := Signed(i.digits[0], B32);
      fails := false;
    } else {
      fails := true;
    }
  }

  method ToInt64(i: Integer) returns (fails: bool, n: int)
    requires i.Valid()
    ensures fails <==> |i.digits| > 2 || !(-0x8000_0000_0000_0000 <= i.Value() < 0x8000_0000_0000_0000)
    ensures !fails ==> n == i.Value()
  {
    hide Digits, Signed;
    DigitsShort(i.digits);
    SignedExact(Digits(i.digits));
    n := 0;
    if |i.digits| == 0 {
      return false, n;
    } else if |i.digits| == 1 {
      n := if i.sign then Signed(-Signed(i.digits[0], B64), B64) else Signed(i.digits[0], B64);
      return false, n;
    } else if |i.digits| == 2 {
      assert i.digits[0] * B32 + i.digits[1] < B64;
      var un := (i.digits[0] * B32 + i.digits[1]) % B64;
      if i.sign {
        if un <= 0x8000_0000_0000_0000 {
          n := Signed(-Signed(un, B64), B64);
          return false, n;
        }
      } else if un <= 0x7fff_ffff_ffff_ffff {
        n := Signed(un, B64);
        return false, n;
      }
    }
    return true, n;
  }

  /** Without a leading zero digit, a value of 32 or 64 bits has at most one or two digits; so the
      conversions then succeed for all values that fit. */
  lemma FitsShort(i: Integer)
    requires i.Valid() && i.NoLeadingZero()
    ensures -0x8000_0000 <= i.Value() < 0x8000_0000 ==> |i.digits| <= 1
    ensures -0x8000_0000_0000_0000 <= i.Value() < 0x8000_0000_0000_0000 ==> |i.digits| <= 2
  {
    if |i.digits| > 0 {
      DigitsAbove(i.digits);
      Pow32();
      Pow2Plus(32);
      hide Pow2;
      if |i.digits| > 1 {
        Pow2Mono(32 * (|i.digits| - 1), 32);
      }
      if |i.digits| > 2 {
        Pow2Mono(32 * (|i.digits| - 1), 64);
      }
    }
  }

  lemma {:induction false} DigitsAbove(ds: seq<nat>)
    requires ds != [] && ds[0] != 0
    ensures Digits(ds) >= Pow2(32 * (|ds| - 1))
  {
    var n := |ds| - 1;
    if n > 0 {
      DigitsAbove(ds[..n]);
      Pow2Plus(32 * (n - 1));
    } else {
      DigitsShort(ds);
    }
  }

  /** An integer that was read from n bytes and whose value fits is given too many digits, so that
      ToInt32 or ToInt64 rejects it, if and only if its first group is zero and there are at least
      six bytes, or eleven. */
  lemma FitsButRejected(bytes: seq<Byte>, n: nat, i: Integer)
    requires 0 < n <= |bytes| && i.Valid() && |i.digits| == (NBits(GroupsOf(bytes[..n])) + 31) / 32
    requires bytes[0] % 64 != 0 ==> i.NoLeadingZero()
    ensures -0x8000_0000 <= i.Value() < 0x8000_0000 ==>
              (|i.digits| > 1 <==> bytes[0] % 64 == 0 && n >= 6)
    ensures -0x8000_0000_0000_0000 <= i.Value() < 0x8000_0000_0000_0000 ==>
              (|i.digits| > 2 <==> bytes[0] % 64 == 0 && n >= 11)
  {
    hide Integer.Value;
    if bytes[0] % 64 == 0 {
      assert NBits(GroupsOf(bytes[..n])) == (n - 1) * 7;
    } else {
      FitsShort(i);
    }
  }

  /** For example, six bytes whose value is five. */
  method LeadingZeros() returns (fails: bool, value: int)
    ensures fails && value == 5
  {
    var bytes: seq<Byte> := [0x80, 0x80, 0x80, 0x80, 0x80, 5];
    SixBytes();
    var r, n := ReadInteger(bytes);
    assert bytes[..6] == bytes;
    var i := r.value;
    value := i.Value();
    var converted;
    fails, converted := ToInt32(i);
  }

  lemma SixBytes()
    ensures var bytes: seq<Byte> := [0x80, 0x80, 0x80, 0x80, 0x80, 5];
            Extent(bytes) == Some(6) && Groups(GroupsOf(bytes)) == 5 && NBits(GroupsOf(bytes)) == 35
  {
    var bytes: seq<Byte> := [0x80, 0x80, 0x80, 0x80, 0x80, 5];
    var gs := GroupsOf(bytes);
    assert gs == [0, 0, 0, 0, 0, 5];
    ExtentAt(bytes, 5);
    assert gs[..5] == [0, 0, 0, 0, 0];
    ZeroGroups(gs[..5]);
  }

  lemma {:induction false} ZeroGroups(gs: seq<nat>)
    requires forall i :: 0 <= i < |gs| ==> gs[i] == 0
    ensures Groups(gs) == 0
  {
    if gs != [] {
      ZeroGroups(gs[..|gs| - 1]);
    }
  }

  /** The unsigned conversion ignores the sign. */
  method ToUInt32(i: Integer) returns (fails: bool, n: nat)
    requires i.Valid()
    ensures fails <==> |i.digits| > 1
    ensures !fails ==> n == Digits(i.digits)
    ensures !fails ==> (n == i.Value() <==> !i.sign || i.Value() == 0)
  {
    DigitsShort(i.digits);
    if |i.digits| == 0 {
      return false, 0;
    } else if |i.digits| == 1 {
      return false, i.digits[0];
    }
    return true, 0;
  }
}
