// The two Noir circuits: the loops that lay out the preimages, and the assertions of main.
module Circuits {
  import opened PrimeField
  import opened Bytes
  import opened Packed

  type Hash = s: seq<byte> | |s| == 32 witness seq(32, _ => 0)

  // keccak256 is a parameter: nothing is assumed about it.
  type Keccak = seq<byte> -> Hash

  const TWO_64: nat := 0x1_0000000000000000
  const TWO_160: nat := 0x1_00000000_0000000000000000_0000000000000000

  // address, address, uint256, uint256, uint64, uint64, uint8, bytes32, bytes32
  const ORDER_WIDTHS: seq<nat> := [20, 20, 32, 32, 8, 8, 1, 32, 32]
  // address, address, uint256, uint256, uint64, uint64, uint64, bytes32, bytes32
  const DCA_WIDTHS: seq<nat> := [20, 20, 32, 32, 8, 8, 8, 32, 32]

  // Byte helpers of both circuits

  function U64ToBytesBe(v: nat): seq<byte>
    requires v < TWO_64
  {
    [ ((v / 0x100000000000000) % 256) as byte,
      ((v / 0x1000000000000) % 256) as byte,
      ((v / 0x10000000000) % 256) as byte,
      ((v / 0x100000000) % 256) as byte,
      ((v / 0x1000000) % 256) as byte,
      ((v / 0x10000) % 256) as byte,
      ((v / 0x100) % 256) as byte,
      (v % 256) as byte ]
  }

  lemma U64Bytes(v: nat)
    requires v < TWO_64
    ensures U64ToBytesBe(v) == ToBytes(v, 8)
  {
    Shifts(v);
    hide ToBytes;
    LastByte(v, 7);
    LastByte(v / 0x100, 6);
    LastByte(v / 0x10000, 5);
    LastByte(v / 0x1000000, 4);
    LastByte(v / 0x100000000, 3);
    LastByte(v / 0x10000000000, 2);
    LastByte(v / 0x1000000000000, 1);
    LastByte(v / 0x100000000000000, 0);
    assert ToBytes(v / 0x10000000000000000, 0) == [];
  }

  lemma LastByte(v: nat, n: nat)
    ensures ToBytes(v, n + 1) == ToBytes(v / 256, n) + [(v % 256) as byte]
  {}

  lemma Shifts(v: nat)
    ensures (v / 0x100) / 256 == v / 0x10000
    ensures (v / 0x10000) / 256 == v / 0x1000000
    ensures (v / 0x1000000) / 256 == v / 0x100000000
    ensures (v / 0x100000000) / 256 == v / 0x10000000000
    ensures (v / 0x10000000000) / 256 == v / 0x1000000000000
    ensures (v / 0x1000000000000) / 256 == v / 0x100000000000000
  {}

  function FieldToBytesBe(v: Fr): seq<byte> {
    ToBytes(v.v as nat, 32)
  }

  method FieldToAddressBytes(v: Fr) returns (out: array<byte>)
    ensures fresh(out) && out[..] == ToBytes(v.v as nat, 20)
  {
    hide ToBytes;
    var bytes := FieldToBytesBe(v);
    out := new byte[20](_ => 0);
    for i := 0 to 20
      invariant forall k :: 0 <= k < i ==> out[k] == bytes[12 + k]
    {
      out[i] := bytes[12 + i];
    }
    LowBytes(v.v as nat, 12, 20);
    assert out[..] == bytes[12..];
  }

  // One of the loops that copy a field's bytes to its place in the preimage
  method CopyInto(preimage: array<byte>, offset: nat, bytes: seq<byte>)
    requires offset + |bytes| <= preimage.Length
    modifies preimage
    ensures preimage[..] == old(preimage[..offset]) + bytes + old(preimage[offset + |bytes|..])
  {
    for i := 0 to |bytes|
      invariant forall k :: 0 <= k < preimage.Length ==>
        preimage[k] == if offset <= k < offset + i then bytes[k - offset] else old(preimage[k])
    {
      preimage[offset + i] := bytes[i];
    }
  }

  // compute_commitment of the order circuit, up to the hash
  method OrderPreimage(tokenIn: Fr, tokenOut: Fr, size: Fr, minOut: Fr, expiry: nat, price: nat,
                       direction: bool, nonce: Fr, userSecret: Fr) returns (preimage: array<byte>)
    requires expiry < TWO_64 && price < TWO_64
    ensures fresh(preimage) && preimage.Length == 185
    ensures preimage[..] == EncodePacked(ORDER_WIDTHS,
      OrderValues(tokenIn.v as nat, tokenOut.v as nat, size.v as nat, minOut.v as nat, expiry, price,
                  direction, nonce.v as nat, userSecret.v as nat))
  {
    hide ToBytes, U64ToBytesBe;
    var tokenInBytes := FieldToAddressBytes(tokenIn);
    var tokenOutBytes := FieldToAddressBytes(tokenOut);
    var sizeBytes := FieldToBytesBe(size);
    var minOutBytes := FieldToBytesBe(minOut);
    var expiryBytes := U64ToBytesBe(expiry);
    var priceBytes := U64ToBytesBe(price);
    var nonceBytes := FieldToBytesBe(nonce);
    var secretBytes := FieldToBytesBe(userSecret);
    U64Bytes(expiry);
    U64Bytes(price);
    ghost var a, b := tokenInBytes[..], tokenOutBytes[..];
    ghost var d: seq<byte> := [if direction then 1 else 0];

    preimage := new byte[185](_ => 0);
    CopyInto(preimage, 0, tokenInBytes[..]);
    CopyInto(preimage, 20, tokenOutBytes[..]);
    assert preimage[..40] == a + b;
    CopyInto(preimage, 40, sizeBytes);
    CopyInto(preimage, 72, minOutBytes);
    assert preimage[..104] == a + b + sizeBytes + minOutBytes;
    CopyInto(preimage, 104, expiryBytes);
    CopyInto(preimage, 112, priceBytes);
    assert preimage[..120] == a + b + sizeBytes + minOutBytes + expiryBytes + priceBytes;
    preimage[120] := if direction then 1 else 0;
    assert preimage[..121] == a + b + sizeBytes + minOutBytes + expiryBytes + priceBytes + d;
    CopyInto(preimage, 121, nonceBytes);
    CopyInto(preimage, 153, secretBytes);
    assert preimage[..] == a + b + sizeBytes + minOutBytes + expiryBytes + priceBytes + d + nonceBytes + secretBytes;
    DirectionByte(direction);
    NineSegments(ORDER_WIDTHS,
      OrderValues(tokenIn.v as nat, tokenOut.v as nat, size.v as nat, minOut.v as nat, expiry, price,
                  direction, nonce.v as nat, userSecret.v as nat));
  }

  lemma DirectionByte(direction: bool)
    ensures ToBytes(if direction then 1 else 0, 1) == [if direction then 1 else 0]
  {}

  lemma NineSegments(w: seq<nat>, v: seq<nat>)
    requires |w| == |v| == 9
    ensures EncodePacked(w, v) == ToBytes(v[0], w[0]) + ToBytes(v[1], w[1]) + ToBytes(v[2], w[2])
      + ToBytes(v[3], w[3]) + ToBytes(v[4], w[4]) + ToBytes(v[5], w[5]) + ToBytes(v[6], w[6])
      + ToBytes(v[7], w[7]) + ToBytes(v[8], w[8])
  {
    hide ToBytes, EncodePacked;
    ThreeSegments(w, v, 0);
    ThreeSegments(w, v, 3);
    ThreeSegments(w, v, 6);
    NoSegments(w, v);
    assert w[0..] == w && v[0..] == v;
    Flatten(ToBytes(v[0], w[0]), ToBytes(v[1], w[1]), ToBytes(v[2], w[2]), ToBytes(v[3], w[3]), ToBytes(v[4], w[4]),
            ToBytes(v[5], w[5]), ToBytes(v[6], w[6]), ToBytes(v[7], w[7]), ToBytes(v[8], w[8]));
  }

  lemma Flatten(a: seq<byte>, b: seq<byte>, c: seq<byte>, d: seq<byte>, e: seq<byte>, f: seq<byte>,
                g: seq<byte>, h: seq<byte>, i: seq<byte>)
    ensures a + b + c + (d + e + f + (g + h + i + [])) == a + b + c + d + e + f + g + h + i
  {
    assert g + h + i + [] == g + h + i;
    FlattenThree(d + e + f, g, h, i);
    FlattenThree(a + b + c, d, e, f);
    assert a + b + c + (d + e + f + (g + h + i)) == a + b + c + (d + e + f) + (g + h + i);
    FlattenThree(a + b + c + d + e + f, g, h, i);
  }

  lemma FlattenThree(s: seq<byte>, a: seq<byte>, b: seq<byte>, c: seq<byte>)
    ensures s + (a + b + c) == s + a + b + c
  {}

  lemma NoSegments(w: seq<nat>, v: seq<nat>)
    requires |w| == |v|
    ensures EncodePacked(w[|w|..], v[|w|..]) == []
  {}

  lemma ThreeSegments(w: seq<nat>, v: seq<nat>, i: nat)
    requires |w| == |v| && i + 3 <= |w|
    ensures EncodePacked(w[i..], v[i..])
         == ToBytes(v[i], w[i]) + ToBytes(v[i + 1], w[i + 1]) + ToBytes(v[i + 2], w[i + 2]) + EncodePacked(w[i + 3..], v[i + 3..])
  {
    hide ToBytes;
    assert w[i..][1..] == w[i + 1..] && w[i + 1..][1..] == w[i + 2..] && w[i + 2..][1..] == w[i + 3..];
    assert v[i..][1..] == v[i + 1..] && v[i + 1..][1..] == v[i + 2..] && v[i + 2..][1..] == v[i + 3..];
    assert EncodePacked(w[i + 1..], v[i + 1..]) == ToBytes(v[i + 1], w[i + 1]) + EncodePacked(w[i + 2..], v[i + 2..]);
    assert EncodePacked(w[i + 2..], v[i + 2..]) == ToBytes(v[i + 2], w[i + 2]) + EncodePacked(w[i + 3..], v[i + 3..]);
  }

  function OrderValues(tokenIn: nat, tokenOut: nat, size: nat, minOut: nat, expiry: nat, price: nat,
                       direction: bool, nonce: nat, userSecret: nat): (v: seq<nat>)
    ensures |v| == 9
  {
    [tokenIn, tokenOut, size, minOut, expiry, price, if direction then 1 else 0, nonce, userSecret]
  }

  // compute_commitment of the DCA circuit, up to the hash
  method DcaPreimage(tokenIn: Fr, tokenOut: Fr, size: Fr, minOut: Fr, scheduledLo: nat, scheduledHi: nat,
                     expiry: nat, nonce: Fr, userSecret: Fr) returns (preimage: array<byte>)
    requires scheduledLo < TWO_64 && scheduledHi < TWO_64 && expiry < TWO_64
    ensures fresh(preimage) && preimage.Length == 192
    ensures preimage[..] == EncodePacked(DCA_WIDTHS,
      [tokenIn.v as nat, tokenOut.v as nat, size.v as nat, minOut.v as nat, scheduledLo, scheduledHi, expiry,
       nonce.v as nat, userSecret.v as nat])
  {
    hide ToBytes, U64ToBytesBe;
    var tokenInBytes := FieldToAddressBytes(tokenIn);
    var tokenOutBytes := FieldToAddressBytes(tokenOut);
    var sizeBytes := FieldToBytesBe(size);
    var minOutBytes := FieldToBytesBe(minOut);
    var scheduledLoBytes := U64ToBytesBe(scheduledLo);
    var scheduledHiBytes := U64ToBytesBe(scheduledHi);
    var expiryBytes := U64ToBytesBe(expiry);
    var nonceBytes := FieldToBytesBe(nonce);
    var secretBytes := FieldToBytesBe(userSecret);
    U64Bytes(scheduledLo);
    U64Bytes(scheduledHi);
    U64Bytes(expiry);
    ghost var a, b := tokenInBytes[..], tokenOutBytes[..];

    preimage := new byte[192](_ => 0);
    CopyInto(preimage, 0, tokenInBytes[..]);
    CopyInto(preimage, 20, tokenOutBytes[..]);
    assert preimage[..40] == a + b;
    CopyInto(preimage, 40, sizeBytes);
    CopyInto(preimage, 72, minOutBytes);
    assert preimage[..104] == a + b + sizeBytes + minOutBytes;
    CopyInto(preimage, 104, scheduledLoBytes);
    CopyInto(preimage, 112, scheduledHiBytes);
    CopyInto(preimage, 120, expiryBytes);
    assert preimage[..128] == a + b + sizeBytes + minOutBytes + scheduledLoBytes + scheduledHiBytes + expiryBytes;
    CopyInto(preimage, 128, nonceBytes);
    CopyInto(preimage, 160, secretBytes);
    assert preimage[..]
        == a + b + sizeBytes + minOutBytes + scheduledLoBytes + scheduledHiBytes + expiryBytes + nonceBytes + secretBytes;
    NineSegments(DCA_WIDTHS,
      [tokenIn.v as nat, tokenOut.v as nat, size.v as nat, minOut.v as nat, scheduledLo, scheduledHi, expiry,
       nonce.v as nat, userSecret.v as nat]);
  }

  // compute_nullifier of both circuits, up to the hash
  method NullifierPreimage(userSecret: Fr, nonce: Fr) returns (preimage: array<byte>)
    ensures fresh(preimage) && preimage.Length == 64
    ensures preimage[..] == EncodePacked([32, 32], [userSecret.v as nat, nonce.v as nat])
  {
    hide ToBytes;
    var secretBytes := FieldToBytesBe(userSecret);
    var nonceBytes := FieldToBytesBe(nonce);
    preimage := new byte[64](_ => 0);
    CopyInto(preimage, 0, secretBytes);
    CopyInto(preimage, 32, nonceBytes);
    assert preimage[..] == secretBytes + nonceBytes;
    ghost var w: seq<nat>, v: seq<nat> := [32, 32], [userSecret.v as nat, nonce.v as nat];
    assert w[1..] == [32] && v[1..] == [nonce.v as nat] && w[1..][1..] == [] && v[1..][1..] == [];
    assert EncodePacked(w[1..], v[1..]) == nonceBytes;
  }
}
