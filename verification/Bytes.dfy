/** Bytes, and numbers packed into them with the most significant byte first. */
module Bytes {

  type byte = b: int | 0 <= b < 256

  function Pow256(w: nat): nat {
    if w == 0 then 1 else 256 * Pow256(w - 1)
  }

  function Pack(n: nat, w: nat): (b: seq<byte>)
    ensures |b| == w
  {
    if w == 0 then [] else Pack(n / 256, w - 1) + [n % 256]
  }

  function Unpack(b: seq<byte>): nat {
    if b == [] then 0 else 256 * Unpack(b[..|b| - 1]) + b[|b| - 1]
  }

  lemma {:induction false} UnpackPack(n: nat, w: nat)
    requires n < Pow256(w)
    ensures Unpack(Pack(n, w)) == n
  {
    if w > 0 {
      UnpackPack(n / 256, w - 1);
      var b := Pack(n, w);
      assert b[..|b| - 1] == Pack(n / 256, w - 1);
    }
  }

  /** The most significant byte comes first. */
  lemma BigEndian(b: seq<byte>)
    requires |b| == 4 || |b| == 8
    ensures |b| == 4 ==>
      Unpack(b) == 0x100_0000 * (b[0] as int) + 0x1_0000 * (b[1] as int) + 0x100 * (b[2] as int) + b[3]
    ensures |b| == 8 ==> Unpack(b) == 0x1_0000_0000 * Unpack(b[..4]) + Unpack(b[4..])
  {
    if |b| == 4 {
      FourMore([], b);
      assert [] + b == b;
    } else {
      UnpackAppend(b[..4], b[4..]);
      assert b == b[..4] + b[4..];
    }
  }

  lemma UnpackAppend(a: seq<byte>, b: seq<byte>)
    requires |b| == 4
    ensures Unpack(a + b) == 0x1_0000_0000 * Unpack(a) + Unpack(b)
  {
    FourMore(a, b);
    FourMore([], b);
    assert [] + b == b;
  }

  lemma FourMore(a: seq<byte>, b: seq<byte>)
    requires |b| == 4
    ensures Unpack(a + b) == 0x1_0000_0000 * Unpack(a) + 0x100_0000 * (b[0] as int) + 0x1_0000 * (b[1] as int)
         + 0x100 * (b[2] as int) + b[3]
  {
    UpToMore(a, b, 0);
    UpToMore(a, b, 1);
    UpToMore(a, b, 2);
    UpToMore(a, b, 3);
    assert UpTo(a, b, 4) == Unpack(a + b) by {
      assert b[..4] == b;
    }
    assert UpTo(a, b, 0) == Unpack(a) by {
      assert a + b[..0] == a;
    }
    Horner(UpTo(a, b, 0), UpTo(a, b, 1), UpTo(a, b, 2), UpTo(a, b, 3), UpTo(a, b, 4), b[0], b[1], b[2], b[3]);
  }

  lemma Horner(u: int, v: int, w: int, x: int, y: int, p: int, q: int, r: int, s: int)
    requires v == 256 * u + p && w == 256 * v + q && x == 256 * w + r && y == 256 * x + s
    ensures y == 0x1_0000_0000 * u + 0x100_0000 * p + 0x1_0000 * q + 0x100 * r + s
  {
  }

  ghost function UpTo(a: seq<byte>, b: seq<byte>, i: nat): nat
    requires i <= |b|
  {
    Unpack(a + b[..i])
  }

  lemma UpToMore(a: seq<byte>, b: seq<byte>, i: nat)
    requires i < |b|
    ensures UpTo(a, b, i + 1) == 256 * UpTo(a, b, i) + b[i]
  {
    var t := a + b[..i + 1];
    assert t[..|t| - 1] == a + b[..i] && t[|t| - 1] == b[i];
  }

  lemma Pow256Values()
    ensures Pow256(4) == 0x1_0000_0000
    ensures Pow256(8) == 0x1_0000_0000_0000_0000
  {
    assert Pow256(2) == 0x1_0000;
    assert Pow256(4) == 256 * (256 * Pow256(2));
    assert Pow256(6) == 256 * (256 * Pow256(4));
    assert Pow256(8) == 256 * (256 * Pow256(6));
  }

  /** Eight bytes, two's complement. */
  function PackSigned(m: int): (b: seq<byte>)
    requires -0x8000_0000_0000_0000 <= m < 0x8000_0000_0000_0000
    ensures |b| == 8
  {
    Pack(if m < 0 then m + 0x1_0000_0000_0000_0000 else m, 8)
  }

  function UnpackSigned(b: seq<byte>): int {
    var u := Unpack(b);
    if u >= 0x8000_0000_0000_0000 then u - 0x1_0000_0000_0000_0000 else u
  }

  lemma SignedRoundTrip(m: int)
    requires -0x8000_0000_0000_0000 <= m < 0x8000_0000_0000_0000
    ensures UnpackSigned(PackSigned(m)) == m
  {
    Pow256Values();
    UnpackPack(if m < 0 then m + 0x1_0000_0000_0000_0000 else m, 8);
  }

  /** Byte-wise order. */
  predicate BytesLeq(a: seq<byte>, b: seq<byte>) {
    a == [] || (b != [] && (a[0] < b[0] || (a[0] == b[0] && BytesLeq(a[1..], b[1..]))))
  }

  /** A prefix comes first, and otherwise the bytes with the smaller first one that differs. */
  lemma {:induction false} BytesLeqMeaning(a: seq<byte>, b: seq<byte>)
    ensures BytesLeq(a, b)
            <==> a <= b || exists k :: 0 <= k < |a| && k < |b| && a[..k] == b[..k] && a[k] < b[k]
  {
    if a != [] && b != [] && a[0] == b[0] {
      BytesLeqMeaning(a[1..], b[1..]);
      if k :| 0 <= k < |a| - 1 && k < |b| - 1 && a[1..][..k] == b[1..][..k] && a[1..][k] < b[1..][k] {
        assert a[..k + 1] == [a[0]] + a[1..][..k] && b[..k + 1] == [b[0]] + b[1..][..k];
        assert a[k + 1] < b[k + 1];
      }
      if k :| 0 <= k < |a| && k < |b| && a[..k] == b[..k] && a[k] < b[k] {
        assert k > 0 && a[1..][..k - 1] == a[..k][1..] && b[1..][..k - 1] == b[..k][1..];
        assert a[1..][k - 1] < b[1..][k - 1];
      }
      assert a == [a[0]] + a[1..] && b == [b[0]] + b[1..];
    } else if a != [] && b != [] && a[0] < b[0] {
      assert a[..0] == b[..0];
    }
  }

  lemma {:induction false} BytesLeqTotal(a: seq<byte>, b: seq<byte>)
    ensures BytesLeq(a, b) || BytesLeq(b, a)
  {
    if a != [] && b != [] && a[0] == b[0] {
      BytesLeqTotal(a[1..], b[1..]);
    }
  }

  lemma {:induction false} BytesLeqAntisymmetric(a: seq<byte>, b: seq<byte>)
    requires BytesLeq(a, b) && BytesLeq(b, a)
    ensures a == b
  {
    if a != [] {
      BytesLeqAntisymmetric(a[1..], b[1..]);
      assert a == [a[0]] + a[1..] && b == [b[0]] + b[1..];
    }
  }

  lemma {:induction false} BytesLeqTransitive(a: seq<byte>, b: seq<byte>, c: seq<byte>)
    requires BytesLeq(a, b) && BytesLeq(b, c)
    ensures BytesLeq(a, c)
  {
    if a != [] && a[0] == b[0] == c[0] {
      BytesLeqTransitive(a[1..], b[1..], c[1..]);
    }
  }
}
