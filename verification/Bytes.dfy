// Big-endian byte strings.
module Bytes {
  newtype byte = x: int | 0 <= x < 256

  function Pow256(n: nat): (p: nat)
    ensures p > 0
  {
    if n == 0 then 1 else 256 * Pow256(n - 1)
  }

  // The n low-order bytes of v, most significant first
  function ToBytes(v: nat, n: nat): (s: seq<byte>)
    ensures |s| == n
  {
    if n == 0 then [] else ToBytes(v / 256, n - 1) + [(v % 256) as byte]
  }

  function FromBytes(s: seq<byte>): nat {
    if s == [] then 0 else 256 * FromBytes(s[..|s| - 1]) + s[|s| - 1] as nat
  }

  lemma {:induction false} FromToBytes(v: nat, n: nat)
    requires v < Pow256(n)
    ensures FromBytes(ToBytes(v, n)) == v
  {
    if n > 0 {
      FromToBytes(v / 256, n - 1);
      assert ToBytes(v, n)[..n - 1] == ToBytes(v / 256, n - 1);
    }
  }

  lemma {:induction false} ToFromBytes(s: seq<byte>)
    ensures FromBytes(s) < Pow256(|s|)
    ensures ToBytes(FromBytes(s), |s|) == s
  {
    if s != [] {
      ToFromBytes(s[..|s| - 1]);
      assert FromBytes(s) / 256 == FromBytes(s[..|s| - 1]);
      assert s == s[..|s| - 1] + [s[|s| - 1]];
    }
  }

  // Narrower encodings are suffixes of wider ones.
  lemma {:induction false} LowBytes(v: nat, m: nat, n: nat)
    ensures ToBytes(v, m + n)[m..] == ToBytes(v, n)
  {
    if n > 0 {
      LowBytes(v / 256, m, n - 1);
      assert ToBytes(v, m + n) == ToBytes(v / 256, m + n - 1) + [(v % 256) as byte];
    }
  }

  lemma {:induction false} FromBytesConcat(s: seq<byte>, t: seq<byte>)
    ensures FromBytes(s + t) == FromBytes(s) * Pow256(|t|) + FromBytes(t)
  {
    if t == [] {
      assert s + t == s;
    } else {
      var n := |t| - 1;
      FromBytesConcat(s, t[..n]);
      assert (s + t)[..|s + t| - 1] == s + t[..n];
      assert FromBytes(s) * Pow256(|t|) == 256 * (FromBytes(s) * Pow256(n));
    }
  }

  predicate AllZero(s: seq<byte>) {
    forall i :: 0 <= i < |s| ==> s[i] == 0
  }

  lemma {:induction false} ZeroBytes(s: seq<byte>)
    ensures FromBytes(s) == 0 <==> AllZero(s)
  {
    if s != [] {
      var n := |s| - 1;
      ZeroBytes(s[..n]);
    }
  }

  // The first m of m + n bytes are zero exactly when the value fits in the last n.
  lemma HighBytesZero(v: nat, m: nat, n: nat)
    requires v < Pow256(m + n)
    ensures AllZero(ToBytes(v, m + n)[..m]) <==> v < Pow256(n)
  {
    hide ToBytes, FromBytes, Pow256;
    var s := ToBytes(v, m + n);
    FromToBytes(v, m + n);
    FromBytesConcat(s[..m], s[m..]);
    assert s == s[..m] + s[m..];
    ZeroBytes(s[..m]);
    ToFromBytes(s[m..]);
    var high := FromBytes(s[..m]);
    if high >= 1 { assert high * Pow256(n) >= Pow256(n); }
    assert high == 0 ==> high * Pow256(n) == 0;
  }

  const TWO_256: nat := 0x1_0000000000000000_0000000000000000_0000000000000000_0000000000000000

  lemma Pow256Values()
    ensures Pow256(1) == 0x100 && Pow256(8) == 0x1_0000000000000000
    ensures Pow256(20) == 0x1_00000000_0000000000000000_0000000000000000
    ensures Pow256(32) == TWO_256
  {
    assert Pow256(16) == Pow256(8) * 0x1_0000000000000000 by {
      assert Pow256(12) == 0x1_00000000_0000000000000000;
    }
    assert Pow256(24) == 0x1_0000000000000000_0000000000000000_0000000000000000;
  }
}
