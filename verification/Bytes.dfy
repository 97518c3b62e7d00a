/** Bytes, fixed-width integers and the little-endian layout every protocol here uses. */
module Bytes {
  type byte = b: int | 0 <= b < 0x100
  type u16 = v: int | 0 <= v < 0x1_0000
  type u32 = v: int | 0 <= v < 0x1_0000_0000
  type u64 = v: int | 0 <= v < 0x1_0000_0000_0000_0000
  type int64 = v: int | -0x8000_0000_0000_0000 <= v < 0x8000_0000_0000_0000

  datatype Option<+T> = None | Some(value: T)

  function Pow256(n: nat): (r: nat)
    ensures r > 0
  {
    if n == 0 then 1 else 256 * Pow256(n - 1)
  }

  /** The n low bytes of v, least significant first. */
  function ToLE(v: nat, n: nat): (s: seq<byte>)
    ensures |s| == n
  {
    if n == 0 then [] else [v % 256] + ToLE(v / 256, n - 1)
  }

  function FromLE(s: seq<byte>): nat {
    if s == [] then 0 else s[0] + 256 * FromLE(s[1..])
  }

  lemma {:induction false} FromToLE(v: nat, n: nat)
    requires v < Pow256(n)
    ensures FromLE(ToLE(v, n)) == v
  {
    if n > 0 {
      assert ToLE(v, n)[1..] == ToLE(v / 256, n - 1);
      FromToLE(v / 256, n - 1);
    }
  }

  lemma {:induction false} ToFromLE(s: seq<byte>)
    ensures FromLE(s) < Pow256(|s|)
    ensures ToLE(FromLE(s), |s|) == s
  {
    if s != [] {
      var rest := FromLE(s[1..]);
      ToFromLE(s[1..]);
      assert (s[0] + 256 * rest) / 256 == rest;
      assert s == [s[0]] + s[1..];
    }
  }

  lemma Widths()
    ensures Pow256(2) == 0x1_0000
    ensures Pow256(4) == 0x1_0000_0000
    ensures Pow256(8) == 0x1_0000_0000_0000_0000
  {
    assert Pow256(3) == 0x100_0000;
    assert Pow256(5) == 0x100_0000_0000;
    assert Pow256(6) == 0x1_0000_0000_0000;
    assert Pow256(7) == 0x100_0000_0000_0000;
  }

  /** Four- and eight-byte fields as the readers see them. */
  function U32(s: seq<byte>): u32
    requires |s| == 4
  {
    ToFromLE(s); Widths(); FromLE(s)
  }

  function U64(s: seq<byte>): u64
    requires |s| == 8
  {
    ToFromLE(s); Widths(); FromLE(s)
  }

  function U16(s: seq<byte>): u16
    requires |s| == 2
  {
    ToFromLE(s); Widths(); FromLE(s)
  }

  /** The two halves of a concatenation, located inside a longer buffer. */
  lemma Located<T>(data: seq<T>, p: nat, front: seq<T>, back: seq<T>)
    requires p + |front| + |back| <= |data|
    requires data[p..p + |front| + |back|] == front + back
    ensures data[p..p + |front|] == front
    ensures data[p + |front|..p + |front| + |back|] == back
  {
    var both := data[p..p + |front| + |back|];
    assert data[p..p + |front|] == both[..|front|];
    assert data[p + |front|..p + |front| + |back|] == both[|front|..];
  }

  /** Conversion of a signed 64-bit value to its two's-complement pattern and back. */
  function Unsigned(v: int64): u64 {
    if v < 0 then v + 0x1_0000_0000_0000_0000 else v
  }

  function Signed(v: u64): int64 {
    if v >= 0x8000_0000_0000_0000 then v - 0x1_0000_0000_0000_0000 else v
  }

  /** Bitwise exclusive or of non-negative integers. */
  function Xor(a: nat, b: nat): nat
    decreases a + b
  {
    if a == 0 then b else if b == 0 then a
    else (a + b) % 2 + 2 * Xor(a / 2, b / 2)
  }

  /** 32-bit FNV-1a, as used by the packet checksums and the key inventory. */
  function Fnv(s: seq<byte>): u32 {
    if s == [] then 2166136261
    else (Xor(Fnv(s[..|s| - 1]), s[|s| - 1]) * 16777619) % 0x1_0000_0000
  }

  /** The wrapped difference of two tick counts. */
  function Age(now: u32, since: u32): u32 {
    (now - since) % 0x1_0000_0000
  }

  // ---- Single bits of a word -------------------------------------------------------------------------

  predicate Bit(w: nat, k: nat)
    decreases k
  {
    if k == 0 then w % 2 == 1 else Bit(w / 2, k - 1)
  }

  function SetBit(w: nat, k: nat): nat
    decreases k
  {
    if k == 0 then w - w % 2 + 1 else w % 2 + 2 * SetBit(w / 2, k - 1)
  }

  function Pow2(n: nat): nat {
    if n == 0 then 1 else 2 * Pow2(n - 1)
  }

  lemma {:induction false} SetBitSets(w: nat, k: nat, j: nat)
    ensures Bit(SetBit(w, k), j) <==> j == k || Bit(w, j)
    decreases k
  {
    if k > 0 && j > 0 {
      SetBitSets(w / 2, k - 1, j - 1);
      assert SetBit(w, k) / 2 == SetBit(w / 2, k - 1);
    } else if k == 0 && j > 0 {
      assert SetBit(w, k) / 2 == w / 2;
    }
  }

  lemma Halves(w: nat, half: nat)
    requires w < 2 * half
    ensures w / 2 < half && w - w % 2 + 1 < 2 * half
    ensures forall v: nat :: v < half ==> w % 2 + 2 * v < 2 * half
  {}

  lemma {:induction false} SetBitFits(w: nat, k: nat, n: nat)
    requires w < Pow2(n) && k < n
    ensures SetBit(w, k) < Pow2(n)
    decreases k
  {
    var half := Pow2(n - 1);
    assert Pow2(n) == 2 * half;
    Halves(w, half);
    if k > 0 {
      SetBitFits(w / 2, k - 1, n - 1);
    }
  }
}
