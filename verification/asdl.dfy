/** The pickle format for small integers and strings (smlnj/lib-codegen/asdl.cpp). */
module Asdl {
  import opened Machine
  import opened AsdlIntegers

  const B29: int := 0x2000_0000
  const B30: nat := 0x4000_0000

  /** Conversion to unsigned char. */
  function Char(x: nat): Byte {
    x % 256
  }

  // ----- the format -----

  /** The last n bytes of a number, most significant first. */
  function LowBytes(x: nat, n: nat): seq<Byte> {
    if n == 0 then [] else LowBytes(x / 256, n - 1) + [Char(x)]
  }

  /** How many bytes follow the first, when the first has room for values below `room`. */
  function Extra(x: nat, room: nat): nat {
    if x < room then 0 else if x < room * 256 then 1 else if x < room * 65536 then 2 else 3
  }

  /** The first byte holds the number of bytes that follow, the flag, and the highest bits. */
  function Number(x: nat, room: nat, flag: nat): seq<Byte>
    requires room == 32 || room == 64
  {
    var n := Extra(x, room);
    [Char(64 * n + flag + High(x, n))] + LowBytes(x, n)
  }

  function High(x: nat, n: nat): nat {
    if n == 0 then x else High(x / 256, n - 1)
  }

  function IntBytes(i: int): seq<Byte> {
    if i < 0 then Number(-(i + 1), 32, 32) else Number(i, 32, 0)
  }

  function UIntBytes(u: nat): seq<Byte> {
    Number(u, 64, 0)
  }

  function StringBytes(s: seq<Byte>): seq<Byte> {
    UIntBytes(|s|) + s
  }

  // ----- writing -----

  class OutStream {
    var bytes: seq<Byte>

    constructor ()
      ensures bytes == []
    {
      bytes := [];
    }

    method PutB(x: nat)
      modifies this
      ensures bytes == old(bytes) + [Char(x)]
    {
      bytes := bytes + [Char(x)];
    }
  }

  method WriteInt(os: OutStream, i: int)
    requires -B29 <= i < B29
    modifies os
    ensures os.bytes == old(os.bytes) + IntBytes(i)
  {
    hide Char, LowBytes, High;
    var sign: nat, ui: nat;
    if i < 0 {
      sign := 0x20;
      ui := -(i + 1);
    } else {
      sign := 0;
      ui := i;
    }
    BytesOf(ui);
    if ui <= 0x1f {
      os.PutB(sign + ui);
    } else if ui <= 0x1fff {
      os.PutB(0x40 + sign + ui / 256);
      os.PutB(ui);
    } else if ui <= 0x1fffff {
      os.PutB(0x80 + sign + ui / 65536);
      os.PutB(ui / 256);
      os.PutB(ui);
    } else {
      os.PutB(0xc0 + sign + ui / 0x100_0000);
      os.PutB(ui / 65536);
      os.PutB(ui / 256);
      os.PutB(ui);
    }
  }

  lemma BytesOf1(x: nat)
    ensures LowBytes(x, 1) == [Char(x)] && High(x, 1) == x / 256
  {
    assert LowBytes(x / 256, 0) == [];
  }

  lemma BytesOf2(x: nat)
    ensures LowBytes(x, 2) == [Char(x / 256), Char(x)] && High(x, 2) == x / 65536
  {
    hide Char;
    BytesOf1(x / 256);
    assert x / 256 / 256 == x / 65536;
    assert LowBytes(x, 2) == LowBytes(x / 256, 1) + [Char(x)];
  }

  lemma BytesOf3(x: nat)
    ensures LowBytes(x, 3) == [Char(x / 65536), Char(x / 256), Char(x)] && High(x, 3) == x / 0x100_0000
  {
    hide Char;
    BytesOf2(x / 256);
    assert x / 256 / 256 == x / 65536 && x / 256 / 65536 == x / 0x100_0000;
    assert LowBytes(x, 3) == LowBytes(x / 256, 2) + [Char(x)];
  }

  lemma BytesOf(x: nat)
    ensures LowBytes(x, 0) == [] && High(x, 0) == x
    ensures LowBytes(x, 1) == [Char(x)] && High(x, 1) == x / 256
    ensures LowBytes(x, 2) == [Char(x / 256), Char(x)] && High(x, 2) == x / 65536
    ensures LowBytes(x, 3) == [Char(x / 65536), Char(x / 256), Char(x)] && High(x, 3) == x / 0x100_0000
  {
    hide Char;
    BytesOf1(x);
    BytesOf2(x);
    BytesOf3(x);
  }

  method WriteUInt(os: OutStream, ui: nat)
    requires ui < B30
    modifies os
    ensures os.bytes == old(os.bytes) + UIntBytes(ui)
  {
    hide Char, LowBytes, High;
    BytesOf(ui);
    if ui <= 0x3f {
      os.PutB(ui);
    } else if ui <= 0x3fff {
      os.PutB(0x40 + ui / 256);
      os.PutB(ui);
    } else if ui <= 0x3fffff {
      os.PutB(0x80 + ui / 65536);
      os.PutB(ui / 256);
      os.PutB(ui);
    } else {
      os.PutB(0xc0 + ui / 0x100_0000);
      os.PutB(ui / 65536);
      os.PutB(ui / 256);
      os.PutB(ui);
    }
  }

  method WriteString(os: OutStream, s: seq<Byte>)
    requires |s| < B30
    modifies os
    ensures os.bytes == old(os.bytes) + StringBytes(s)
  {
    WriteUInt(os, |s|);
    for i := 0 to |s|
      invariant os.bytes == old(os.bytes) + UIntBytes(|s|) + s[..i]
    {
      os.PutB(s[i]);
    }
  }

  // ----- reading -----

  class InStream {
    var rest: seq<Byte>

    constructor (data: seq<Byte>)
      ensures rest == data
    {
      rest := data;
    }

    /** None at the end of the data, where the program exits. */
    method GetB() returns (b: Option<Byte>)
      modifies this
      ensures if old(rest) == [] then b == None && rest == [] else b == Some(old(rest)[0]) && rest == old(rest)[1..]
    {
      if rest == [] {
        return None;
      }
      b := Some(rest[0]);
      rest := rest[1..];
    }
  }

  datatype Parsed<+T> = Parsed(value: T, rest: seq<Byte>)

  /** Shift n more bytes into v. */
  function ShiftIn(v: nat, n: nat, bytes: seq<Byte>): Option<Parsed<nat>>
    decreases n
  {
    if n == 0 then Some(Parsed(v, bytes))
    else if bytes == [] then None
    else ShiftIn(v * 256 + bytes[0], n - 1, bytes[1..])
  }

  function ParseInt(bytes: seq<Byte>): Option<Parsed<int>> {
    if bytes == [] then None
    else
      var r := ShiftIn(bytes[0] % 32, bytes[0] / 64, bytes[1..]);
      if r.None? then None
      else Some(Parsed(if bytes[0] / 32 % 2 == 1 then -1 - r.value.value else r.value.value, r.value.rest))
  }

  function ParseUInt(bytes: seq<Byte>): Option<Parsed<nat>> {
    if bytes == [] then None else ShiftIn(bytes[0] % 64, bytes[0] / 64, bytes[1..])
  }

  function ParseString(bytes: seq<Byte>): Option<Parsed<seq<Byte>>> {
    var r := ParseUInt(bytes);
    if r.None? || r.value.value > |r.value.rest| then None
    else Some(Parsed(r.value.rest[..r.value.value], r.value.rest[r.value.value..]))
  }

  /** The cases of the switch fall through: as many bytes are read as the first byte says. */
  method ReadMore(s: InStream, v0: nat, n: nat) returns (v: Option<nat>)
    requires n <= 3
    modifies s
    ensures var r := ShiftIn(v0, n, old(s.rest));
            if r.Some? then v == Some(r.value.value) && s.rest == r.value.rest else v == None
  {
    var w: nat, k: nat := v0, n;
    while k > 0
      invariant k <= n && ShiftIn(w, k, s.rest) == ShiftIn(v0, n, old(s.rest))
    {
      var b := s.GetB();
      if b == None {
        return None;
      }
      w, k := w * 256 + b.value, k - 1;
    }
    return Some(w);
  }

  method ReadInt(s: InStream) returns (r: Option<int>)
    modifies s
    ensures var p := ParseInt(old(s.rest));
            if p.Some? then r == Some(p.value.value) && s.rest == p.value.rest else r == None
  {
    var b0 := s.GetB();
    if b0 == None {
      return None;
    }
    var v := ReadMore(s, b0.value % 32, b0.value / 64);
    if v == None {
      return None;
    }
    if b0.value / 32 % 2 != 0 {
      return Some(-1 - v.value);
    }
    return Some(v.value);
  }

  method ReadUInt(s: InStream) returns (r: Option<nat>)
    modifies s
    ensures var p := ParseUInt(old(s.rest));
            if p.Some? then r == Some(p.value.value) && s.rest == p.value.rest else r == None
  {
    var b0 := s.GetB();
    if b0 == None {
      return None;
    }
    r := ReadMore(s, b0.value % 64, b0.value / 64);
  }

  method ReadString(s: InStream) returns (r: Option<seq<Byte>>)
    modifies s
    ensures var p := ParseString(old(s.rest));
            if p.Some? then r == Some(p.value.value) && s.rest == p.value.rest else r == None
  {
    var len := ReadUInt(s);
    if len == None {
      return None;
    }
    ghost var data := s.rest;
    var result: seq<Byte> := [];
    for i := 0 to len.value
      invariant i <= |data| && s.rest == data[i..] && result == data[..i]
    {
      var c := s.GetB();
      if c == None {
        return None;
      }
      result := result + [c.value];
    }
    return Some(result);
  }

  // ----- round trips -----

  lemma {:induction false} ShiftInLow(v: nat, x: nat, n: nat, rest: seq<Byte>)
    requires n <= 3 && v == High(x, n)
    ensures ShiftIn(v, n, LowBytes(x, n) + rest) == Some(Parsed(x, rest))
    decreases n
  {
    if n == 0 {
      assert [] + rest == rest;
    } else {
      ShiftInLow(v, x / 256, n - 1, [Char(x)] + rest);
      assert LowBytes(x, n) + rest == LowBytes(x / 256, n - 1) + ([Char(x)] + rest);
      ShiftInAdd(v, n - 1, LowBytes(x, n) + rest, x / 256, [Char(x)] + rest);
      assert ([Char(x)] + rest)[1..] == rest;
    }
  }

  /** Shifting in n bytes and then one more. */
  lemma {:induction false} ShiftInAdd(v: nat, n: nat, bytes: seq<Byte>, w: nat, rest: seq<Byte>)
    requires ShiftIn(v, n, bytes) == Some(Parsed(w, rest)) && rest != []
    ensures var u: nat := w * 256 + rest[0]; ShiftIn(v, n + 1, bytes) == Some(Parsed(u, rest[1..]))
    decreases n
  {
    if n > 0 {
      ShiftInAdd(v * 256 + bytes[0], n - 1, bytes[1..], w, rest);
    } else {
      var u: nat := w * 256 + rest[0];
      assert ShiftIn(u, 0, bytes[1..]) == Some(Parsed(u, rest[1..]));
    }
  }

  lemma HighFits(x: nat, room: nat)
    requires (room == 32 || room == 64) && x < room * 0x100_0000
    ensures High(x, Extra(x, room)) < room
  {
    BytesOf(x);
  }

  /** The first byte gives back the number of bytes, the flag and the highest bits. */
  lemma FirstByte(n: nat, flag: nat, h: nat, room: nat)
    requires n <= 3 && ((room == 32 && (flag == 0 || flag == 32)) || (room == 64 && flag == 0)) && h < room
    ensures var b := Char(64 * n + flag + h);
            && b / 64 == n && b % room == h && (room == 32 ==> (b / 32 % 2 == 1 <==> flag == 32))
  {
  }

  lemma NumberBack(x: nat, room: nat, flag: nat, rest: seq<Byte>)
    requires ((room == 32 && (flag == 0 || flag == 32)) || (room == 64 && flag == 0)) && x < room * 0x100_0000
    ensures var bytes := Number(x, room, flag) + rest;
            && ShiftIn(bytes[0] % room, bytes[0] / 64, bytes[1..]) == Some(Parsed(x, rest))
            && (room == 32 ==> (bytes[0] / 32 % 2 == 1 <==> flag == 32))
  {
    hide LowBytes, High, ShiftIn;
    var n := Extra(x, room);
    HighFits(x, room);
    FirstByte(n, flag, High(x, n), room);
    ShiftInLow(High(x, n), x, n, rest);
    var bytes := Number(x, room, flag) + rest;
    assert bytes[1..] == LowBytes(x, n) + rest;
  }

  lemma IntBack(i: int, rest: seq<Byte>)
    requires -B29 <= i < B29
    ensures ParseInt(IntBytes(i) + rest) == Some(Parsed(i, rest))
  {
    if i < 0 {
      NumberBack(-(i + 1), 32, 32, rest);
    } else {
      NumberBack(i, 32, 0, rest);
    }
  }

  lemma UIntBack(u: nat, rest: seq<Byte>)
    requires u < B30
    ensures ParseUInt(UIntBytes(u) + rest) == Some(Parsed(u, rest))
  {
    NumberBack(u, 64, 0, rest);
  }

  lemma StringBack(s: seq<Byte>, rest: seq<Byte>)
    requires |s| < B30
    ensures ParseString(StringBytes(s) + rest) == Some(Parsed(s, rest))
  {
    UIntBack(|s|, s + rest);
    assert StringBytes(s) + rest == UIntBytes(|s|) + (s + rest);
  }

  // ----- whole streams -----

  datatype Item = Int(i: int) | UInt(u: nat) | Str(s: seq<Byte>) {
    predicate Valid() {
      match this
      case Int(i) => -B29 <= i < B29
      case UInt(u) => u < B30
      case Str(s) => |s| < B30
    }
  }

  function ItemBytes(x: Item): seq<Byte> {
    match x
    case Int(i) => IntBytes(i)
    case UInt(u) => UIntBytes(u)
    case Str(s) => StringBytes(s)
  }

  function ItemsBytes(xs: seq<Item>): seq<Byte> {
    if xs == [] then [] else ItemBytes(xs[0]) + ItemsBytes(xs[1..])
  }

  /** Write items of the three kinds one after the other. */
  method WriteItems(os: OutStream, xs: seq<Item>)
    requires forall k :: 0 <= k < |xs| ==> xs[k].Valid()
    modifies os
    ensures os.bytes == old(os.bytes) + ItemsBytes(xs)
  {
    hide IntBytes, UIntBytes, StringBytes;
    assert xs[0..] == xs;
    for k := 0 to |xs|
      invariant os.bytes + ItemsBytes(xs[k..]) == old(os.bytes) + ItemsBytes(xs)
    {
      ghost var before := os.bytes;
      assert xs[k..][1..] == xs[k + 1..] && xs[k].Valid();
      match xs[k] {
        case Int(i) => WriteInt(os, i);
        case UInt(u) => WriteUInt(os, u);
        case Str(s) => WriteString(os, s);
      }
      assert os.bytes + ItemsBytes(xs[k + 1..]) == before + (ItemBytes(xs[k]) + ItemsBytes(xs[k + 1..]));
    }
  }

  datatype Kind = IntKind | UIntKind | StrKind

  function KindOf(x: Item): Kind {
    match x
    case Int(_) => IntKind
    case UInt(_) => UIntKind
    case Str(_) => StrKind
  }

  function KindsOf(xs: seq<Item>): seq<Kind> {
    seq(|xs|, i requires 0 <= i < |xs| => KindOf(xs[i]))
  }

  function ParseItem(kind: Kind, bytes: seq<Byte>): Option<Parsed<Item>> {
    match kind
    case IntKind => var r := ParseInt(bytes); if r.Some? then Some(Parsed(Int(r.value.value), r.value.rest)) else None
    case UIntKind =>
      var r := ParseUInt(bytes);
      if r.Some? then Some(Parsed(UInt(r.value.value), r.value.rest)) else None
    case StrKind =>
      var r := ParseString(bytes);
      if r.Some? then Some(Parsed(Str(r.value.value), r.value.rest)) else None
  }

  /** Read items of the given kinds after those in xs. */
  function ParseItems(kinds: seq<Kind>, xs: seq<Item>, bytes: seq<Byte>): Option<Parsed<seq<Item>>> {
    if kinds == [] then Some(Parsed(xs, bytes))
    else
      var r := ParseItem(kinds[0], bytes);
      if r.None? then None else ParseItems(kinds[1..], xs + [r.value.value], r.value.rest)
  }

  method ReadItems(s: InStream, kinds: seq<Kind>) returns (xs: Option<seq<Item>>)
    modifies s
    ensures var p := ParseItems(kinds, [], old(s.rest));
            if p.Some? then xs == Some(p.value.value) && s.rest == p.value.rest else xs == None
  {
    var zs: seq<Item> := [];
    assert kinds[0..] == kinds;
    for k := 0 to |kinds|
      invariant ParseItems(kinds[k..], zs, s.rest) == ParseItems(kinds, [], old(s.rest))
    {
      assert kinds[k..][0] == kinds[k] && kinds[k..][1..] == kinds[k + 1..];
      match kinds[k] {
        case IntKind =>
          var r := ReadInt(s);
          if r == None {
            return None;
          }
          zs := zs + [Int(r.value)];
        case UIntKind =>
          var r := ReadUInt(s);
          if r == None {
            return None;
          }
          zs := zs + [UInt(r.value)];
        case StrKind =>
          var r := ReadString(s);
          if r == None {
            return None;
          }
          zs := zs + [Str(r.value)];
      }
    }
    return Some(zs);
  }

  lemma ItemBack(x: Item, rest: seq<Byte>)
    requires x.Valid()
    ensures ParseItem(KindOf(x), ItemBytes(x) + rest) == Some(Parsed(x, rest))
  {
    match x
    case Int(i) => IntBack(i, rest);
    case UInt(u) => UIntBack(u, rest);
    case Str(s) => StringBack(s, rest);
  }

  lemma {:induction false} ItemsBackFrom(xs: seq<Item>, ys: seq<Item>, rest: seq<Byte>)
    requires forall k :: 0 <= k < |xs| ==> xs[k].Valid()
    ensures ParseItems(KindsOf(xs), ys, ItemsBytes(xs) + rest) == Some(Parsed(ys + xs, rest))
    decreases |xs|
  {
    hide ParseItem, ItemBytes, KindOf;
    if xs == [] {
      assert ys + xs == ys && ItemsBytes(xs) + rest == rest;
    } else {
      var tail := ItemsBytes(xs[1..]) + rest;
      ItemBack(xs[0], tail);
      assert ItemsBytes(xs) + rest == ItemBytes(xs[0]) + tail;
      assert KindsOf(xs)[1..] == KindsOf(xs[1..]);
      ItemsBackFrom(xs[1..], ys + [xs[0]], rest);
      assert ys + [xs[0]] + xs[1..] == ys + xs;
    }
  }

  /** Any sequence of small integers and strings reads back from its bytes as the same sequence,
      and what follows it is left alone. */
  lemma ItemsBack(xs: seq<Item>, rest: seq<Byte>)
    requires forall k :: 0 <= k < |xs| ==> xs[k].Valid()
    ensures ParseItems(KindsOf(xs), [], ItemsBytes(xs) + rest) == Some(Parsed(xs, rest))
  {
    ItemsBackFrom(xs, [], rest);
    assert [] + xs == xs;
  }
}
