/**
 Little-endian integers and packed structures of them, as `struct` formats starting with "<" lay them out.
 */
module LittleEndian {

  type byte = x: int | 0 <= x < 256

  function Pow256(n: nat): (p: nat)
    ensures p > 0
  {
    if n == 0 then 1 else 256 * Pow256(n - 1)
  }

  lemma Powers()
    ensures Pow256(2) == 0x1_0000 && Pow256(4) == 0x1_0000_0000 && Pow256(8) == 0x1_0000_0000_0000_0000
  {
    assert Pow256(2) == 256 * Pow256(1) && Pow256(3) == 256 * Pow256(2) && Pow256(4) == 256 * Pow256(3);
    assert Pow256(5) == 256 * Pow256(4) && Pow256(6) == 256 * Pow256(5);
    assert Pow256(7) == 256 * Pow256(6) && Pow256(8) == 256 * Pow256(7);
  }

  /** The low `n` bytes of `v`, least significant first. */
  function Le(n: nat, v: nat): (b: seq<byte>)
    ensures |b| == n
  {
    if n == 0 then [] else [v % 256] + Le(n - 1, v / 256)
  }

  function FromLe(b: seq<byte>): nat {
    if b == [] then 0 else b[0] + 256 * FromLe(b[1..])
  }

  /** Decoding undoes encoding of a number that fits. */
  lemma {:induction false} FromLeLe(n: nat, v: nat)
    requires v < Pow256(n)
    ensures FromLe(Le(n, v)) == v
  {
    if n > 0 {
      FromLeLe(n - 1, v / 256);
      assert Le(n, v)[1..] == Le(n - 1, v / 256);
    }
  }

  /** Encoding undoes decoding, and what was decoded fits. */
  lemma {:induction false} LeFromLe(b: seq<byte>)
    ensures FromLe(b) < Pow256(|b|) && Le(|b|, FromLe(b)) == b
  {
    if b != [] {
      LeFromLe(b[1..]);
      var t := FromLe(b[1..]);
      assert (b[0] + 256 * t) % 256 == b[0] && (b[0] + 256 * t) / 256 == t;
    }
  }

  lemma LowByte(low: nat, high: nat)
    ensures (low + 256 * high) % 256 == low % 256 && (low + 256 * high) / 256 == low / 256 + high
  {
  }

  /** A number made of a low and a high part is stored low part first. */
  lemma {:induction false} LeJoin(m: nat, n: nat, low: nat, high: nat)
    requires low < Pow256(m)
    ensures Le(m + n, low + Pow256(m) * high) == Le(m, low) + Le(n, high)
  {
    if m == 0 {
      assert low + Pow256(0) * high == high;
    } else {
      var p := Pow256(m - 1);
      var v := low + Pow256(m) * high;
      assert v == low + 256 * (p * high) by {
        assert Pow256(m) * high == 256 * p * high;
      }
      LowByte(low, p * high);
      LeJoin(m - 1, n, low / 256, high);
    }
  }

  /** A structure member: unsigned or two's complement, of a number of bytes. */
  datatype Field = U(width: nat) | S(width: nat)

  predicate Fits(f: Field, v: int) {
    match f
    case U(w) => 0 <= v < Pow256(w)
    case S(w) => 0 <= 2 * v + Pow256(w) && 2 * v < Pow256(w)
  }

  function EncodeField(f: Field, v: int): (b: seq<byte>)
    requires Fits(f, v)
    ensures |b| == f.width
  {
    Le(f.width, if v < 0 then v + Pow256(f.width) else v)
  }

  function DecodeField(f: Field, b: seq<byte>): int {
    var u := FromLe(b);
    if f.S? && 2 * u >= Pow256(f.width) then u - Pow256(f.width) else u
  }

  lemma DecodeEncodeField(f: Field, v: int)
    requires Fits(f, v)
    ensures DecodeField(f, EncodeField(f, v)) == v
  {
    FromLeLe(f.width, if v < 0 then v + Pow256(f.width) else v);
  }

  lemma EncodeDecodeField(f: Field, b: seq<byte>)
    requires |b| == f.width
    ensures Fits(f, DecodeField(f, b)) && EncodeField(f, DecodeField(f, b)) == b
  {
    LeFromLe(b);
  }

  function SizeOf(fs: seq<Field>): nat {
    if fs == [] then 0 else fs[0].width + SizeOf(fs[1..])
  }

  predicate AllFit(fs: seq<Field>, vs: seq<int>) {
    |fs| == |vs| && forall i :: 0 <= i < |fs| ==> Fits(fs[i], vs[i])
  }

  function PackStruct(fs: seq<Field>, vs: seq<int>): (b: seq<byte>)
    requires AllFit(fs, vs)
    ensures |b| == SizeOf(fs)
  {
    if fs == [] then [] else EncodeField(fs[0], vs[0]) + PackStruct(fs[1..], vs[1..])
  }

  function UnpackStruct(fs: seq<Field>, b: seq<byte>): (vs: seq<int>)
    requires |b| >= SizeOf(fs)
    ensures |vs| == |fs|
  {
    if fs == [] then []
    else [DecodeField(fs[0], b[..fs[0].width])] + UnpackStruct(fs[1..], b[fs[0].width..])
  }

  /** Unpacking a packed structure, whatever follows it, gives back every value. */
  lemma {:induction false} UnpackPack(fs: seq<Field>, vs: seq<int>, rest: seq<byte>)
    requires AllFit(fs, vs)
    ensures UnpackStruct(fs, PackStruct(fs, vs) + rest) == vs
  {
    if fs != [] {
      var e, p := EncodeField(fs[0], vs[0]), PackStruct(fs[1..], vs[1..]);
      var b := PackStruct(fs, vs) + rest;
      assert b == e + (p + rest);
      assert b[..fs[0].width] == e && b[fs[0].width..] == p + rest;
      DecodeEncodeField(fs[0], vs[0]);
      UnpackPack(fs[1..], vs[1..], rest);
    }
  }

  /** Packing what was unpacked reproduces the bytes. */
  lemma {:induction false} PackUnpack(fs: seq<Field>, b: seq<byte>)
    requires |b| >= SizeOf(fs)
    ensures AllFit(fs, UnpackStruct(fs, b)) && PackStruct(fs, UnpackStruct(fs, b)) == b[..SizeOf(fs)]
  {
    if fs != [] {
      var w := fs[0].width;
      PackUnpack(fs[1..], b[w..]);
      EncodeDecodeField(fs[0], b[..w]);
      var vs := UnpackStruct(fs, b);
      assert vs[1..] == UnpackStruct(fs[1..], b[w..]);
      assert b[..SizeOf(fs)] == b[..w] + b[w..][..SizeOf(fs[1..])];
    }
  }
}
