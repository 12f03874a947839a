/** The section allocator of the in-memory object file (smlnj/lib-codegen/object-file.cpp). */
module Sections {
  import opened Arith
  import opened Machine

  // ----- alignment -----

  /** x with its last k bits cleared: x & ~(2^k - 1). */
  function ClearLow(x: nat, k: nat): nat {
    if k == 0 then x else 2 * ClearLow(x / 2, k - 1)
  }

  /** Alignments are powers of two; they are given by their logarithm. */
  function AlignBy(n: nat, k: nat): nat {
    ClearLow(n + (Pow2(k) - 1), k)
  }

  lemma {:induction false} ClearLowBounds(x: nat, k: nat)
    ensures x - Pow2(k) < ClearLow(x, k) <= x && ClearLow(x, k) % Pow2(k) == 0
    decreases k
  {
    if k > 0 {
      ClearLowBounds(x / 2, k - 1);
      DoubleMultiple(ClearLow(x / 2, k - 1), Pow2(k - 1));
    }
  }

  lemma DoubleMultiple(c: nat, p: nat)
    requires p > 0 && c % p == 0
    ensures (2 * c) % (2 * p) == 0
  {
    var q := c / p;
    assert c == p * q;
    assert 2 * (p * q) == (2 * p) * q;
    DivUnique(2 * p, q, 0);
  }

  /** The least multiple of 2^k that is at least n. */
  lemma AlignByLeast(n: nat, k: nat)
    ensures n <= AlignBy(n, k) < n + Pow2(k) && AlignBy(n, k) % Pow2(k) == 0
  {
    ClearLowBounds(n + (Pow2(k) - 1), k);
  }

  lemma MultipleAdd(a: nat, b: nat, p: nat)
    requires p > 0 && b % p == 0
    ensures (a + b) % p == a % p
  {
    DivMod(a, p);
    DivMod(b, p);
    var q, k, r := a / p, b / p, a % p;
    MulAdd(p, q, k);
    DivUnique(p, q + k, r);
  }

  /** A multiple of 2^k is a multiple of every lower power. */
  lemma LowerPower(x: nat, j: nat, k: nat)
    requires j <= k && x % Pow2(k) == 0
    ensures x % Pow2(j) == 0
  {
    hide Pow2, Mask;
    ModPow2(x, k);
    LowerMask(x, j, k);
    ModPow2(x, j);
  }

  // ----- sections -----

  /** An allocated block. */
  datatype Block = Block(ptr: nat, size: nat) {
    function End(): nat { ptr + size }
  }

  /** The blocks lie in [lo, hi), one behind the other. */
  ghost predicate Stacked(bs: seq<Block>, lo: nat, hi: nat) {
    && (forall i :: 0 <= i < |bs| ==> lo <= bs[i].ptr && bs[i].End() <= hi)
    && (forall i, j :: 0 <= i < j < |bs| ==> bs[i].End() <= bs[j].ptr)
  }

  /** data is the address of the section, zero before one is assigned. */
  class Section {
    var data: nat
    var szb: nat
    var paddedSzb: nat
    ghost var blocks: seq<Block>

    ghost predicate Valid()
      reads this
    {
      szb <= paddedSzb && Stacked(blocks, data, data + szb)
    }

    constructor ()
      ensures Valid() && data == szb == paddedSzb == 0 && blocks == []
    {
      data, szb, paddedSzb, blocks := 0, 0, 0, [];
    }

    method SetSize(n: nat, k: nat)
      modifies `paddedSzb
      ensures paddedSzb == AlignBy(n, k)
    {
      paddedSzb := AlignBy(n, k);
    }

    function Top(): nat
      reads this
    {
      data + paddedSzb
    }

    /** None when the space that is left does not suffice, where an assertion fails. */
    method Alloc(nb: nat, k: nat) returns (r: Option<nat>)
      requires Valid() && data != 0
      modifies this
      ensures Valid() && data == old(data) && paddedSzb == old(paddedSzb)
      ensures r.Some? <==> AlignBy(old(szb), k) + AlignBy(nb, k) <= paddedSzb
      ensures r.Some? ==> blocks == old(blocks) + [Block(r.value, nb)] && r.value % Pow2(k) == data % Pow2(k)
      ensures r.Some? ==> data + old(szb) <= r.value < data + old(szb) + Pow2(k)
      ensures r.None? ==> szb == old(szb) && blocks == old(blocks)
    {
      AlignByLeast(szb, k);
      AlignByLeast(nb, k);
      if AlignBy(szb, k) + AlignBy(nb, k) > paddedSzb {
        return None;
      }
      var ptr := data + AlignBy(szb, k);
      MultipleAdd(data, AlignBy(szb, k), Pow2(k));
      szb := (ptr - data) + AlignBy(nb, k);
      blocks := blocks + [Block(ptr, nb)];
      return Some(ptr);
    }
  }

  // ----- the memory manager -----

  function MaxOf(a: nat, b: nat, c: nat): (m: nat)
    ensures m >= 3 && m >= a && m >= b && m >= c && m in {3, a, b, c}
  {
    Max(Max(Max(3, a), b), c)
  }

  class MemManager {
    const baseAlign: nat
    const code: Section
    const roData: Section
    const rwData: Section
    var mem: nat
    var base: nat
    ghost var totalSize: nat
    ghost var maxAlign: nat

    constructor (baseAlign: nat)
      ensures Fresh() && this.baseAlign == baseAlign
      ensures fresh(code) && fresh(roData) && fresh(rwData)
    {
      this.baseAlign := baseAlign;
      code := new Section();
      roData := new Section();
      rwData := new Section();
      mem, base, totalSize, maxAlign := 0, 0, 0, 0;
    }

    ghost predicate Fresh()
      reads this, code, roData, rwData
    {
      && code != roData && code != rwData && roData != rwData && mem == 0
      && code.Valid() && roData.Valid() && rwData.Valid()
      && code.blocks == roData.blocks == rwData.blocks == [] && code.szb == roData.szb == rwData.szb == 0
    }

    function Size(): nat
      reads code, roData, rwData
    {
      code.paddedSzb + roData.paddedSzb + rwData.paddedSzb
    }

    /** The sections follow one another in the owned memory, from an aligned address on. */
    ghost predicate Reserved()
      reads this, code, roData, rwData
    {
      && code != roData && code != rwData && roData != rwData
      && code.Valid() && roData.Valid() && rwData.Valid()
      && 0 < mem <= base && base % Pow2(baseAlign) == 0 && base + Size() <= mem + totalSize
      && code.data == base && roData.data == code.Top() && rwData.data == roData.Top()
      && code.paddedSzb % Pow2(maxAlign) == 0 && roData.paddedSzb % Pow2(maxAlign) == 0
    }

    /** addr is where the memory of the requested size turns out to be. */
    method ReserveAllocationSpace(codeSzb: nat, codeAlign: nat, roDataSzb: nat, roDataAlign: nat,
                                  rwDataSzb: nat, rwDataAlign: nat, addr: nat)
      requires Fresh() && addr > 0
      modifies this, code, roData, rwData
      ensures Reserved() && maxAlign == MaxOf(codeAlign, roDataAlign, rwDataAlign)
      ensures totalSize == Size() + Pow2(baseAlign) - 1 && mem == addr
      ensures code.paddedSzb == AlignBy(codeSzb, maxAlign) && roData.paddedSzb == AlignBy(roDataSzb, maxAlign)
      ensures rwData.paddedSzb == AlignBy(rwDataSzb, maxAlign)
      ensures code.paddedSzb >= codeSzb && roData.paddedSzb >= roDataSzb && rwData.paddedSzb >= rwDataSzb
      ensures code.blocks == roData.blocks == rwData.blocks == [] && code.szb == roData.szb == rwData.szb == 0
    {
      hide AlignBy, Pow2, Stacked;
      SetSizes(codeSzb, codeAlign, roDataSzb, roDataAlign, rwDataSzb, rwDataAlign);
      AlignByLeast(codeSzb, maxAlign);
      AlignByLeast(roDataSzb, maxAlign);
      AlignByLeast(rwDataSzb, maxAlign);
      totalSize := Size() + Pow2(baseAlign) - 1;
      mem := addr;
      AlignByLeast(mem, baseAlign);
      base := AlignBy(mem, baseAlign);
      Place(code, base);
      Place(roData, code.Top());
      Place(rwData, roData.Top());
    }

    /** Give an empty section its address. */
    method Place(s: Section, addr: nat)
      requires s.Valid() && s.blocks == [] && s.szb == 0
      modifies s`data
      ensures s.Valid() && s.data == addr
    {
      s.data := addr;
    }

    /** All sections are padded to the greatest alignment. */
    method SetSizes(codeSzb: nat, codeAlign: nat, roDataSzb: nat, roDataAlign: nat, rwDataSzb: nat, rwDataAlign: nat)
      requires Fresh()
      modifies this`maxAlign, code`paddedSzb, roData`paddedSzb, rwData`paddedSzb
      ensures Fresh() && maxAlign == MaxOf(codeAlign, roDataAlign, rwDataAlign)
      ensures code.paddedSzb == AlignBy(codeSzb, maxAlign) && roData.paddedSzb == AlignBy(roDataSzb, maxAlign)
      ensures rwData.paddedSzb == AlignBy(rwDataSzb, maxAlign)
    {
      hide AlignBy, Pow2;
      var m := 3;
      if codeAlign > m { m := codeAlign; }
      if roDataAlign > m { m := roDataAlign; }
      if rwDataAlign > m { m := rwDataAlign; }
      code.SetSize(codeSzb, m);
      roData.SetSize(roDataSzb, m);
      rwData.SetSize(rwDataSzb, m);
      maxAlign := m;
    }

    method AllocateCodeSection(n: nat, k: nat) returns (r: Option<nat>)
      requires Reserved()
      modifies code
      ensures Reserved() && code.data == old(code.data) && code.paddedSzb == old(code.paddedSzb)
      ensures r.Some? <==> AlignBy(old(code.szb), k) + AlignBy(n, k) <= code.paddedSzb
      ensures r.Some? ==> code.blocks == old(code.blocks) + [Block(r.value, n)]
      ensures r.Some? ==> r.value % Pow2(k) == code.data % Pow2(k)
      ensures r.None? ==> code.blocks == old(code.blocks) && code.szb == old(code.szb)
    {
      r := code.Alloc(n, k);
    }

    method AllocateDataSection(n: nat, k: nat, readOnly: bool) returns (r: Option<nat>)
      requires Reserved()
      modifies roData, rwData
      ensures Reserved()
      ensures var s := if readOnly then roData else rwData;
              && s.data == old(s.data) && s.paddedSzb == old(s.paddedSzb)
              && (r.Some? <==> AlignBy(old(s.szb), k) + AlignBy(n, k) <= s.paddedSzb)
              && (r.Some? ==> s.blocks == old(s.blocks) + [Block(r.value, n)])
              && (r.Some? ==> r.value % Pow2(k) == s.data % Pow2(k))
              && (r.None? ==> s.blocks == old(s.blocks) && s.szb == old(s.szb))
      ensures if readOnly then unchanged(rwData) else unchanged(roData)
    {
      if readOnly {
        r := roData.Alloc(n, k);
      } else {
        r := rwData.Alloc(n, k);
      }
    }

    /** All blocks of all sections, in the order of their addresses. */
    ghost function Blocks(): seq<Block>
      reads this, code, roData, rwData
    {
      code.blocks + roData.blocks + rwData.blocks
    }

    /** Whatever sequence of requests was accepted, all blocks are inside the owned memory and
        their own section, and no two of them overlap. */
    lemma BlocksDisjoint()
      requires Reserved()
      ensures Stacked(Blocks(), mem, mem + totalSize)
      ensures Stacked(code.blocks, code.data, code.Top()) && Stacked(roData.blocks, roData.data, roData.Top())
      ensures Stacked(rwData.blocks, rwData.data, rwData.Top())
    {
      StackedConcat(code.blocks, roData.blocks, code.data, roData.data, rwData.data);
      StackedConcat(code.blocks + roData.blocks, rwData.blocks, code.data, rwData.data, rwData.Top());
    }

    /** A multiple of 2^k from the start of a section is an absolute multiple of 2^k, if and only if
        the sizes of the sections before it add up to one, provided that 2^k is at most the alignment
        of the base. */
    lemma AlignedIff(k: nat)
      requires Reserved() && k <= baseAlign
      ensures code.data % Pow2(k) == 0
      ensures roData.data % Pow2(k) == 0 <==> code.paddedSzb % Pow2(k) == 0
      ensures rwData.data % Pow2(k) == 0 <==> (code.paddedSzb + roData.paddedSzb) % Pow2(k) == 0
    {
      LowerPower(base, k, baseAlign);
      MultipleAdd(code.paddedSzb, base, Pow2(k));
      MultipleAdd(code.paddedSzb + roData.paddedSzb, base, Pow2(k));
    }

    /** That is so for all alignments up to the greatest one that was reserved for. */
    lemma AlignedUpToReserved(k: nat)
      requires Reserved() && k <= baseAlign && k <= maxAlign
      ensures code.data % Pow2(k) == 0 && roData.data % Pow2(k) == 0 && rwData.data % Pow2(k) == 0
    {
      AlignedIff(k);
      LowerPower(code.paddedSzb, k, maxAlign);
      LowerPower(roData.paddedSzb, k, maxAlign);
      MultipleAdd(code.paddedSzb, roData.paddedSzb, Pow2(k));
    }
  }

  lemma StackedConcat(a: seq<Block>, b: seq<Block>, lo: nat, mid: nat, hi: nat)
    requires Stacked(a, lo, mid) && Stacked(b, mid, hi) && lo <= mid <= hi
    ensures Stacked(a + b, lo, hi)
  {
  }

  /** An alignment up to the base alignment alone is not enough: with 8 bytes of code and nothing
      reserved beyond an alignment of 8, a block of read-only data that asks for an alignment of
      16 is put at an odd multiple of 8, although the base is aligned by 16. */
  method Misaligned(addr: nat) returns (m: MemManager, r: Option<nat>)
    requires addr > 0
    ensures m.Reserved() && m.baseAlign == 4 && m.base % 16 == 0
    ensures r.Some? && m.roData.blocks == [Block(r.value, 16)] && r.value % 16 == 8
  {
    hide Pow2, AlignBy, Stacked;
    SmallAligned();
    m := new MemManager(4);
    m.ReserveAllocationSpace(8, 3, 64, 3, 0, 3, addr);
    assert m.roData.data == m.base + 8;
    r := m.AllocateDataSection(16, 4, true);
    Halfway(m.base, r.value, Pow2(4));
  }

  lemma Halfway(base: nat, x: nat, p: nat)
    requires p == 16 && base % p == 0 && x % p == (base + 8) % p
    ensures base % 16 == 0 && x % 16 == 8
  {
  }

  lemma SmallAligned()
    ensures Pow2(4) == 16 && AlignBy(8, 3) == 8 && AlignBy(64, 3) == 64 && AlignBy(0, 4) == 0 && AlignBy(16, 4) == 16
  {
    assert ClearLow(15, 4) == 0 && ClearLow(31, 4) == 16 && ClearLow(15, 3) == 8 && ClearLow(71, 3) == 64;
  }
}
