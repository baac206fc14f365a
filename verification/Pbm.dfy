/** `write_pbm` of `ensotrace`: thresholding an image into the rows of a binary PBM, eight pixels to a
    byte, the leftmost in the high bit, each row padded to whole bytes. */
module Pbm {
  import opened BoxBlur

  type Byte = bv8

  // ---------------------------------------------------------------- bits

  function Mask(j: nat): Byte
    requires j < 8
  {
    (0x80 as bv8) >> j
  }

  predicate HasBit(b: Byte, j: nat)
    requires j < 8
  {
    b & Mask(j) != 0
  }

  function One(b: bool): nat {
    if b then 1 else 0
  }

  /** The number of set bits of a byte. */
  function Ones(b: Byte): nat {
    One(HasBit(b, 0)) + One(HasBit(b, 1)) + One(HasBit(b, 2)) + One(HasBit(b, 3))
    + One(HasBit(b, 4)) + One(HasBit(b, 5)) + One(HasBit(b, 6)) + One(HasBit(b, 7))
  }

  lemma MaskTable()
    ensures Mask(0) == 0x80 && Mask(1) == 0x40 && Mask(2) == 0x20 && Mask(3) == 0x10
    ensures Mask(4) == 0x08 && Mask(5) == 0x04 && Mask(6) == 0x02 && Mask(7) == 0x01
  {
  }

  lemma MasksApart(j: nat, k: nat)
    requires j < 8 && k < 8
    ensures Mask(j) & Mask(k) == if j == k then Mask(j) else 0
    ensures Mask(j) != 0
  {
    MaskTable();
  }

  lemma OrAnd(b: Byte, m: Byte, n: Byte)
    ensures (b | m) & n == (b & n) | (m & n)
  {
  }

  lemma OrZero(b: Byte, m: Byte)
    ensures b | 0 == b && ((b | m) == 0 <==> b == 0 && m == 0)
  {
  }

  /** Or-ing a mask sets that bit and no other. */
  lemma SetsBit(b: Byte, j: nat, k: nat)
    requires j < 8 && k < 8
    ensures HasBit(b | Mask(j), k) <==> HasBit(b, k) || j == k
  {
    MasksApart(j, k);
    OrAnd(b, Mask(j), Mask(k));
    OrZero(b & Mask(k), Mask(j) & Mask(k));
  }

  lemma SetsOne(b: Byte, j: nat)
    requires j < 8 && !HasBit(b, j)
    ensures Ones(b | Mask(j)) == Ones(b) + 1
  {
    hide HasBit, Mask;
    forall k: nat | k < 8 ensures HasBit(b | Mask(j), k) <==> HasBit(b, k) || j == k {
      SetsBit(b, j, k);
    }
  }

  // ---------------------------------------------------------------- bitmaps

  /** Bit `x` of the row whose bytes start at `base`. */
  predicate Bit(data: seq<Byte>, base: nat, x: nat)
    requires base + x / 8 < |data|
  {
    HasBit(data[base + x / 8], x % 8)
  }

  /** The number of set bits. */
  function SetBits(data: seq<Byte>): nat {
    if data == [] then 0 else SetBits(data[..|data| - 1]) + Ones(data[|data| - 1])
  }

  lemma {:induction false} SetBitsUpdate(data: seq<Byte>, i: nat, b: Byte)
    requires i < |data|
    ensures SetBits(data[i := b]) + Ones(data[i]) == SetBits(data) + Ones(b)
  {
    hide Ones;
    var n := |data| - 1;
    if i < n {
      SetBitsUpdate(data[..n], i, b);
      assert data[i := b][..n] == data[..n][i := b];
    } else {
      assert data[i := b][..n] == data[..n];
    }
  }

  lemma {:induction false} NoSetBits(data: seq<Byte>)
    requires forall i: nat :: i < |data| ==> data[i] == 0
    ensures SetBits(data) == 0
  {
    if data != [] {
      NoSetBits(data[..|data| - 1]);
      ZeroByte();
    }
  }

  lemma ZeroByte()
    ensures forall j: nat :: j < 8 ==> !HasBit(0, j)
    ensures Ones(0) == 0
  {
    forall j: nat | j < 8 ensures !HasBit(0, j) {
      assert 0 & Mask(j) == 0;
    }
  }

  lemma SetBit(data: seq<Byte>, base: nat, x: nat)
    requires base + x / 8 < |data| && !Bit(data, base, x)
    ensures var after := data[base + x / 8 := data[base + x / 8] | Mask(x % 8)];
            && SetBits(after) == SetBits(data) + 1
            && forall k: nat :: base + k / 8 < |data| ==> (Bit(after, base, k) <==> Bit(data, base, k) || k == x)
  {
    hide Ones, SetBits, HasBit, Mask;
    var i, j := base + x / 8, x % 8;
    var b := data[i];
    var after := data[i := b | Mask(j)];
    SetBitsUpdate(data, i, b | Mask(j));
    SetsOne(b, j);
    forall k: nat | base + k / 8 < |data| ensures Bit(after, base, k) <==> Bit(data, base, k) || k == x {
      if k / 8 == x / 8 {
        SetsBit(b, j, k % 8);
      }
    }
  }

  // ---------------------------------------------------------------- the loops

  /** The least number of bytes that holds a row of `w` pixels. */
  function Stride(w: nat): (n: nat)
    ensures w <= 8 * n < w + 8
  {
    (w + 7) / 8
  }

  lemma InRow(base: nat, x: nat, w: nat)
    requires x < w
    ensures base <= base + x / 8 < base + Stride(w) && x < 8 * Stride(w)
    ensures forall k: nat :: k < 8 * Stride(w) ==> base + k / 8 < base + Stride(w)
  {
  }

  lemma ClearRow(data: seq<Byte>, base: nat, w: nat)
    requires base + Stride(w) <= |data|
    requires forall i: nat :: base <= i < base + Stride(w) ==> data[i] == 0
    ensures forall x: nat :: x < 8 * Stride(w) ==> base + x / 8 < |data| && !Bit(data, base, x)
  {
    ZeroByte();
    hide HasBit;
  }

  /** The inner loop: one row of pixels into `Stride(w)` zero bytes. */
  method PackRow(data: array<Byte>, base: nat, blurred: seq<real>, src: nat, w: nat, cut: real) returns (on: nat)
    requires base + Stride(w) <= data.Length && src + w <= |blurred|
    requires forall i: nat :: base <= i < base + Stride(w) ==> data[i] == 0
    modifies data
    ensures forall i: nat :: i < base || base + Stride(w) <= i < data.Length ==> data[i] == old(data[i])
    ensures forall x: nat :: x < 8 * Stride(w) ==>
              (Bit(data[..], base, x) <==> x < w && blurred[src + x] >= cut)
    ensures SetBits(data[..]) == old(SetBits(data[..])) + on
  {
    hide SetBits, HasBit, Ones, Mask, Bit, Stride;
    on := 0;
    ClearRow(data[..], base, w);
    for x := 0 to w
      invariant forall i: nat :: i < base || base + Stride(w) <= i < data.Length ==> data[i] == old(data[i])
      invariant forall k: nat :: k < 8 * Stride(w) ==>
                  (Bit(data[..], base, k) <==> k < x && blurred[src + k] >= cut)
      invariant SetBits(data[..]) == old(SetBits(data[..])) + on
    {
      if blurred[src + x] >= cut {
        ghost var before := data[..];
        InRow(base, x, w);
        SetBit(before, base, x);
        data[base + x / 8] := data[base + x / 8] | Mask(x % 8);
        assert data[..] == before[base + x / 8 := before[base + x / 8] | Mask(x % 8)];
        on := on + 1;
      }
    }
  }

  ghost predicate RowPacked(data: seq<Byte>, blurred: seq<real>, w: nat, y: nat, cut: real) {
    && Start(y, Stride(w)) + Stride(w) <= |data|
    && Start(y, w) + w <= |blurred|
    && forall x: nat :: x < 8 * Stride(w) ==>
         (Bit(data, Start(y, Stride(w)), x) <==> x < w && blurred[Start(y, w) + x] >= cut)
  }

  /** The packed bitmap is the thresholded image: pixel (x, y) is bit x of row y, and the padding of
      every row is clear. */
  ghost predicate IsBitmap(data: seq<Byte>, blurred: seq<real>, w: nat, h: nat, cut: real) {
    && |data| == Stride(w) * h
    && forall y: nat :: y < h ==> RowPacked(data, blurred, w, y, cut)
  }

  /** The outer loop. */
  method PackRows(w: nat, h: nat, blurred: seq<real>, cut: real, data: array<Byte>) returns (on: nat)
    requires |blurred| == Start(h, w) && data.Length == Start(h, Stride(w))
    requires forall i: nat :: i < data.Length ==> data[i] == 0
    modifies data
    ensures forall y: nat :: y < h ==> RowPacked(data[..], blurred, w, y, cut)
    ensures on == SetBits(data[..])
  {
    hide SetBits, HasBit, Ones, Mask, Stride, Start;
    NoSetBits(data[..]);
    on := 0;
    for y := 0 to h
      invariant forall v: nat :: v < y ==> RowPacked(data[..], blurred, w, v, cut)
      invariant forall i: nat :: Start(y, Stride(w)) <= i < data.Length ==> data[i] == 0
      invariant on == SetBits(data[..])
    {
      NextStart(y, Stride(w));
      StartsApart(y, h, Stride(w));
      StartsApart(y, h, w);
      ghost var before := data[..];
      var ink := PackRow(data, Start(y, Stride(w)), blurred, Start(y, w), w, cut);
      on := on + ink;
      forall v: nat | v < y ensures RowPacked(data[..], blurred, w, v, cut) {
        StartsApart(v, y, Stride(w));
        SameRow(before, data[..], blurred, w, v, cut);
      }
    }
  }

  method WritePbm(w: nat, h: nat, blurred: seq<real>, cut: real) returns (data: seq<Byte>, on: nat)
    requires |blurred| == w * h
    ensures IsBitmap(data, blurred, w, h, cut)
    ensures on == SetBits(data)
  {
    hide Stride;
    var bytes := new Byte[Stride(w) * h](_ => 0);
    on := PackRows(w, h, blurred, cut, bytes);
    data := bytes[..];
  }

  lemma SameRow(before: seq<Byte>, after: seq<Byte>, blurred: seq<real>, w: nat, y: nat, cut: real)
    requires RowPacked(before, blurred, w, y, cut) && |after| == |before|
    requires forall i: nat :: i < Start(y, Stride(w)) + Stride(w) ==> after[i] == before[i]
    ensures RowPacked(after, blurred, w, y, cut)
  {
    hide HasBit, Start, Stride;
    forall x: nat | x < 8 * Stride(w)
      ensures Bit(after, Start(y, Stride(w)), x) <==> Bit(before, Start(y, Stride(w)), x)
    {
    }
  }

  /** A lower threshold only adds ink: the heavier weight of the stroke contains the lighter one. */
  lemma LowerCutAddsInk(light: seq<Byte>, heavy: seq<Byte>, blurred: seq<real>, w: nat, h: nat, high: real, low: real)
    requires IsBitmap(light, blurred, w, h, high) && IsBitmap(heavy, blurred, w, h, low) && low <= high
    ensures forall i: nat, j: nat :: i < |light| && j < 8 && HasBit(light[i], j) ==> HasBit(heavy[i], j)
  {
    hide HasBit;
    forall i: nat, j: nat | i < |light| && j < 8 && HasBit(light[i], j) ensures HasBit(heavy[i], j) {
      var y := RowOfByte(i, Stride(w), h);
      var x := 8 * (i - Start(y, Stride(w))) + j;
      assert RowPacked(light, blurred, w, y, high) && RowPacked(heavy, blurred, w, y, low);
      assert Bit(light, Start(y, Stride(w)), x);
      assert Bit(heavy, Start(y, Stride(w)), x);
    }
  }

  function RowOfByte(i: nat, stride: nat, h: nat): (y: nat)
    requires i < stride * h
    ensures y < h && Start(y, stride) <= i < Start(y, stride) + stride
  {
    assert h > 0;
    if i >= stride * (h - 1) then h - 1 else RowOfByte(i, stride, h - 1)
  }
}
