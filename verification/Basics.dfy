/** Byte strings: the big-endian integer packings the wire format, the nonces and the
    message log share, and the lexicographic order used to compare peer ids. */
module Basics {

  datatype Option<+T> = None | Some(value: T)

  /** A UDP endpoint. */
  datatype Addr = Addr(host: string, port: nat)

  type byte = b: int | 0 <= b < 256

  type Bytes = seq<byte>

  type MessageId = string

  /** Hops a resolve request may still make when it is sent. */
  const MAX_TTL: nat := 5

  const TWO_16: nat := 0x1_0000
  const TWO_32: nat := 0x1_0000_0000
  const TWO_64: nat := 0x1_0000_0000_0000_0000

  function Pow256(width: nat): nat {
    if width == 0 then 1 else 256 * Pow256(width - 1)
  }

  lemma WidthLimits()
    ensures Pow256(2) == TWO_16 && Pow256(4) == TWO_32 && Pow256(8) == TWO_64
  {
    assert Pow256(3) == 0x100_0000 && Pow256(6) == 0x1_0000_0000_0000 && Pow256(7) == 0x100_0000_0000_0000;
  }

  /** A number as `width` bytes, the most significant first. */
  function Packed(n: nat, width: nat): (b: Bytes)
    ensures |b| == width
  {
    if width == 0 then [] else Packed(n / 256, width - 1) + [n % 256]
  }

  function Unpacked(b: Bytes): nat {
    if b == [] then 0 else 256 * Unpacked(b[..|b| - 1]) + (b[|b| - 1] as int)
  }

  lemma {:induction false} UnpackedBound(b: Bytes)
    ensures Unpacked(b) < Pow256(|b|)
  {
    if b != [] {
      UnpackedBound(b[..|b| - 1]);
    }
  }

  /** Packing loses nothing of a number that fits. */
  lemma {:induction false} UnpackedPacked(n: nat, width: nat)
    requires n < Pow256(width)
    ensures Unpacked(Packed(n, width)) == n
  {
    if width > 0 {
      var b := Packed(n, width);
      UnpackedPacked(n / 256, width - 1);
      assert b[..|b| - 1] == Packed(n / 256, width - 1);
    }
  }

  /** Every byte string is the packing of the number it is read as. */
  lemma {:induction false} PackedUnpacked(b: Bytes)
    ensures Packed(Unpacked(b), |b|) == b
  {
    if b != [] {
      var rest, last := b[..|b| - 1], b[|b| - 1] as int;
      PackedUnpacked(rest);
      assert Unpacked(b) / 256 == Unpacked(rest) && Unpacked(b) % 256 == last;
      assert b == rest + [last];
    }
  }

  function U16(n: nat): (b: Bytes)
    requires n < TWO_16
    ensures |b| == 2
  {
    Packed(n, 2)
  }

  function Read16(b: Bytes): (n: nat)
    requires |b| == 2
    ensures n < TWO_16
  {
    UnpackedBound(b);
    WidthLimits();
    Unpacked(b)
  }

  lemma Read16U16(n: nat)
    requires n < TWO_16
    ensures Read16(U16(n)) == n
  {
    WidthLimits();
    UnpackedPacked(n, 2);
  }

  lemma U16Read16(b: Bytes)
    requires |b| == 2
    ensures U16(Read16(b)) == b
  {
    PackedUnpacked(b);
  }

  function U32(n: nat): (b: Bytes)
    requires n < TWO_32
    ensures |b| == 4
  {
    Packed(n, 4)
  }

  function Read32(b: Bytes): (n: nat)
    requires |b| == 4
    ensures n < TWO_32
  {
    UnpackedBound(b);
    WidthLimits();
    Unpacked(b)
  }

  lemma Read32U32(n: nat)
    requires n < TWO_32
    ensures Read32(U32(n)) == n
  {
    WidthLimits();
    UnpackedPacked(n, 4);
  }

  lemma U32Read32(b: Bytes)
    requires |b| == 4
    ensures U32(Read32(b)) == b
  {
    PackedUnpacked(b);
  }

  function U64(n: nat): (b: Bytes)
    requires n < TWO_64
    ensures |b| == 8
  {
    Packed(n, 8)
  }

  function Read64(b: Bytes): (n: nat)
    requires |b| == 8
    ensures n < TWO_64
  {
    UnpackedBound(b);
    WidthLimits();
    Unpacked(b)
  }

  lemma Read64U64(n: nat)
    requires n < TWO_64
    ensures Read64(U64(n)) == n
  {
    WidthLimits();
    UnpackedPacked(n, 8);
  }

  lemma U64Read64(b: Bytes)
    requires |b| == 8
    ensures U64(Read64(b)) == b
  {
    PackedUnpacked(b);
  }

  /** Python's `<` on byte strings. */
  predicate Less(a: Bytes, b: Bytes) {
    if b == [] then false
    else if a == [] then true
    else a[0] < b[0] || (a[0] == b[0] && Less(a[1..], b[1..]))
  }

  /** `<` on byte strings is a strict total order's comparison: of two different strings exactly one is less. */
  lemma {:induction false} LessTrichotomy(a: Bytes, b: Bytes)
    ensures a != b ==> (Less(a, b) <==> !Less(b, a))
    ensures !Less(a, a)
  {
    if a != [] {
      if b != [] {
        LessTrichotomy(a[1..], b[1..]);
        assert a[0] == b[0] && a[1..] == b[1..] ==> a == [a[0]] + a[1..] == b;
      } else {
        LessTrichotomy(a[1..], []);
      }
    }
  }

  lemma SubsetSize<T>(a: set<T>, b: set<T>)
    requires a <= b
    ensures |a| <= |b|
  {
    assert b == a + (b - a);
  }

  lemma RemovalSize<K, V>(m: map<K, V>, k: K)
    ensures |m - {k}| <= |m|
  {
    SubsetSize((m - {k}).Keys, m.Keys);
  }

  lemma UpdateSize<K, V>(m: map<K, V>, k: K, v: V)
    ensures |m[k := v]| <= |m| + 1
  {
    assert m[k := v].Keys == m.Keys + {k};
  }

  lemma Associative<T>(a: seq<T>, b: seq<T>, c: seq<T>)
    ensures (a + b) + c == a + (b + c)
  {
  }
}
