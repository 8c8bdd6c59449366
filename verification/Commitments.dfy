// Commitments and nullifiers: computed off-chain with viem's encodePacked, recomputed in the
// circuits from field elements, and bound to the public inputs by the circuits' assertions.
module Commitments {
  import opened PrimeField
  import opened Bytes
  import opened Packed
  import opened Circuits

  datatype OrderFields = OrderFields(
    tokenIn: nat, tokenOut: nat, size: nat, minOut: nat, expiry: nat, price: nat,
    direction: bool, nonce: nat, userSecret: nat)

  datatype DcaFields = DcaFields(
    tokenIn: nat, tokenOut: nat, size: nat, minOut: nat, scheduledLo: nat, scheduledHi: nat, expiry: nat,
    nonce: nat, userSecret: nat)

  function OrderList(f: OrderFields): (v: seq<nat>)
    ensures |v| == 9
  {
    OrderValues(f.tokenIn, f.tokenOut, f.size, f.minOut, f.expiry, f.price, f.direction, f.nonce, f.userSecret)
  }

  function DcaList(f: DcaFields): (v: seq<nat>)
    ensures |v| == 9
  {
    [f.tokenIn, f.tokenOut, f.size, f.minOut, f.scheduledLo, f.scheduledHi, f.expiry, f.nonce, f.userSecret]
  }

  ghost predicate OrderInRange(f: OrderFields) {
    && f.tokenIn < TWO_160 && f.tokenOut < TWO_160 && f.size < TWO_256 && f.minOut < TWO_256
    && f.expiry < TWO_64 && f.price < TWO_64 && f.nonce < TWO_256 && f.userSecret < TWO_256
  }

  ghost predicate DcaInRange(f: DcaFields) {
    && f.tokenIn < TWO_160 && f.tokenOut < TWO_160 && f.size < TWO_256 && f.minOut < TWO_256
    && f.scheduledLo < TWO_64 && f.scheduledHi < TWO_64 && f.expiry < TWO_64
    && f.nonce < TWO_256 && f.userSecret < TWO_256
  }

  lemma OrderListInRange(f: OrderFields)
    requires OrderInRange(f)
    ensures InRange(ORDER_WIDTHS, OrderList(f)) && Total(ORDER_WIDTHS) == 185
  {
    hide Pow256, Total;
    Pow256Values();
    WidthTotals();
  }

  lemma DcaListInRange(f: DcaFields)
    requires DcaInRange(f)
    ensures InRange(DCA_WIDTHS, DcaList(f)) && Total(DCA_WIDTHS) == 192
  {
    hide Pow256, Total;
    Pow256Values();
    WidthTotals();
  }

  lemma WidthTotals()
    ensures Total(ORDER_WIDTHS) == 185 && Total(DCA_WIDTHS) == 192
  {
    TotalOfNine([20, 20, 32, 32, 8, 8, 1, 32, 32]);
    TotalOfNine([20, 20, 32, 32, 8, 8, 8, 32, 32]);
  }

  lemma TotalOfNine(w: seq<nat>)
    requires |w| == 9
    ensures Total(w) == w[0] + w[1] + w[2] + w[3] + w[4] + w[5] + w[6] + w[7] + w[8]
  {
    TotalFrom(w, 0);
    TotalFrom(w, 3);
    TotalFrom(w, 6);
    hide Total;
    assert w[0..] == w && w[9..] == [];
    NoTotal();
  }

  lemma NoTotal()
    ensures Total([]) == 0
  {}

  lemma TotalFrom(w: seq<nat>, i: nat)
    requires i + 3 <= |w|
    ensures Total(w[i..]) == w[i] + w[i + 1] + w[i + 2] + Total(w[i + 3..])
  {
    TotalFirst(w, i);
    TotalFirst(w, i + 1);
    TotalFirst(w, i + 2);
    hide Total;
  }

  lemma TotalFirst(w: seq<nat>, i: nat)
    requires i < |w|
    ensures Total(w[i..]) == w[i] + Total(w[i + 1..])
  {
    assert w[i..][1..] == w[i + 1..];
  }

  // reduceToField of a hash; in the circuit, Field::from_be_bytes of the same hash
  function ReduceToField(hash: Hash): Fr {
    Red(FromBytes(hash))
  }

  // commitmentHash and nullifierHash of the frontend
  function CommitmentHash(keccak: Keccak, f: OrderFields): Fr {
    ReduceToField(keccak(EncodePacked(ORDER_WIDTHS, OrderList(f))))
  }

  function DcaCommitmentHash(keccak: Keccak, f: DcaFields): Fr {
    ReduceToField(keccak(EncodePacked(DCA_WIDTHS, DcaList(f))))
  }

  function NullifierHash(keccak: Keccak, userSecret: nat, nonce: nat): Fr {
    ReduceToField(keccak(EncodePacked([32, 32], [userSecret, nonce])))
  }

  // What the circuit receives instead of the off-chain values: residues for the Field inputs
  function Residues(f: OrderFields): OrderFields {
    f.(size := f.size % MODULUS, minOut := f.minOut % MODULUS,
       nonce := f.nonce % MODULUS, userSecret := f.userSecret % MODULUS)
  }

  function DcaResidues(f: DcaFields): DcaFields {
    f.(size := f.size % MODULUS, minOut := f.minOut % MODULUS,
       nonce := f.nonce % MODULUS, userSecret := f.userSecret % MODULUS)
  }

  ghost predicate BelowModulus(size: nat, minOut: nat, nonce: nat, userSecret: nat) {
    size < MODULUS && minOut < MODULUS && nonce < MODULUS && userSecret < MODULUS
  }

  // compute_commitment and compute_nullifier of the circuits, with the hash
  method ComputeCommitment(keccak: Keccak, tokenIn: Fr, tokenOut: Fr, size: Fr, minOut: Fr, expiry: nat, price: nat,
                           direction: bool, nonce: Fr, userSecret: Fr) returns (h: Fr)
    requires expiry < TWO_64 && price < TWO_64
    ensures h == CommitmentHash(keccak, OrderFields(tokenIn.v as nat, tokenOut.v as nat, size.v as nat, minOut.v as nat,
                                                    expiry, price, direction, nonce.v as nat, userSecret.v as nat))
  {
    hide FromBytes, EncodePacked, Red;
    var preimage := OrderPreimage(tokenIn, tokenOut, size, minOut, expiry, price, direction, nonce, userSecret);
    h := Red(FromBytes(keccak(preimage[..])));
  }

  method ComputeDcaCommitment(keccak: Keccak, tokenIn: Fr, tokenOut: Fr, size: Fr, minOut: Fr, scheduledLo: nat,
                              scheduledHi: nat, expiry: nat, nonce: Fr, userSecret: Fr) returns (h: Fr)
    requires scheduledLo < TWO_64 && scheduledHi < TWO_64 && expiry < TWO_64
    ensures h == DcaCommitmentHash(keccak, DcaFields(tokenIn.v as nat, tokenOut.v as nat, size.v as nat, minOut.v as nat,
                                                     scheduledLo, scheduledHi, expiry, nonce.v as nat, userSecret.v as nat))
  {
    hide FromBytes, EncodePacked, Red;
    var preimage := DcaPreimage(tokenIn, tokenOut, size, minOut, scheduledLo, scheduledHi, expiry, nonce, userSecret);
    h := Red(FromBytes(keccak(preimage[..])));
  }

  method ComputeNullifier(keccak: Keccak, userSecret: Fr, nonce: Fr) returns (h: Fr)
    ensures h == NullifierHash(keccak, userSecret.v as nat, nonce.v as nat)
  {
    hide FromBytes, EncodePacked, Red;
    var preimage := NullifierPreimage(userSecret, nonce);
    h := Red(FromBytes(keccak(preimage[..])));
  }

  // The circuit hashes the same bytes as the frontend exactly when the four values that cross
  // the boundary as field elements are below the modulus.
  lemma OrderPreimagesAgree(f: OrderFields)
    requires OrderInRange(f)
    ensures EncodePacked(ORDER_WIDTHS, OrderList(Residues(f))) == EncodePacked(ORDER_WIDTHS, OrderList(f))
      <==> BelowModulus(f.size, f.minOut, f.nonce, f.userSecret)
  {
    hide EncodePacked, OrderList;
    ReducedIff(f.size);
    ReducedIff(f.minOut);
    ReducedIff(f.nonce);
    ReducedIff(f.userSecret);
    if EncodePacked(ORDER_WIDTHS, OrderList(Residues(f))) == EncodePacked(ORDER_WIDTHS, OrderList(f)) {
      OrderPreimageInjective(Residues(f), f);
    }
  }

  lemma DcaPreimagesAgree(f: DcaFields)
    requires DcaInRange(f)
    ensures EncodePacked(DCA_WIDTHS, DcaList(DcaResidues(f))) == EncodePacked(DCA_WIDTHS, DcaList(f))
      <==> BelowModulus(f.size, f.minOut, f.nonce, f.userSecret)
  {
    hide EncodePacked, DcaList;
    ReducedIff(f.size);
    ReducedIff(f.minOut);
    ReducedIff(f.nonce);
    ReducedIff(f.userSecret);
    if EncodePacked(DCA_WIDTHS, DcaList(DcaResidues(f))) == EncodePacked(DCA_WIDTHS, DcaList(f)) {
      DcaPreimageInjective(DcaResidues(f), f);
    }
  }

  lemma ReducedIff(x: nat)
    ensures x % MODULUS == x <==> x < MODULUS
    ensures x % MODULUS <= x
  {}

  // Where each field of an order and of a round stands in its preimage

  // Value k stands between the bounds k and k + 1, and that is all of the bytes.

  ghost predicate LaidOut(b: seq<byte>, bounds: seq<nat>, values: seq<nat>) {
    && |bounds| == |values| + 1 && |b| == bounds[|values|]
    && forall k :: 0 <= k < |values| ==> StandsAt(b, bounds, values, k)
  }

  ghost predicate StandsAt(b: seq<byte>, bounds: seq<nat>, values: seq<nat>, k: nat)
    requires k < |values| < |bounds|
  {
    bounds[k] <= bounds[k + 1] <= |b| && FromBytes(b[bounds[k]..bounds[k + 1]]) == values[k]
  }

  // Bound k + 1 is a width after bound k, and before the later widths.
  ghost predicate Spaced(w: seq<nat>, bounds: seq<nat>, k: nat)
    requires k < |w| < |bounds|
  {
    bounds[k] + w[k] == bounds[k + 1] && bounds[k + 1] + Total(w[k + 1..]) == Total(w)
  }

  lemma FieldsAt(w: seq<nat>, v: seq<nat>, bounds: seq<nat>)
    requires InRange(w, v) && |bounds| == |w| + 1 && bounds[|w|] == Total(w)
    requires forall k :: 0 <= k < |w| ==> Spaced(w, bounds, k)
    ensures LaidOut(EncodePacked(w, v), bounds, v)
  {
    hide EncodePacked, DecodePacked, FromBytes, Total, Pow256;
    DecodeEncoded(w, v);
    forall k | 0 <= k < |w| ensures StandsAt(EncodePacked(w, v), bounds, v, k) {
      assert Spaced(w, bounds, k);
      DecodedAt(w, EncodePacked(w, v), k);
    }
  }

  lemma TailTotals(w: seq<nat>)
    requires |w| == 9 && w[1] == 20 && w[2] == 32 && w[3] == 32 && w[4] == 8 && w[5] == 8 && w[7] == 32 && w[8] == 32
    ensures Total(w[9..]) == 0 && Total(w[8..]) == 32 && Total(w[7..]) == 64 && Total(w[6..]) == 64 + w[6]
    ensures Total(w[5..]) == 72 + w[6] && Total(w[4..]) == 80 + w[6] && Total(w[3..]) == 112 + w[6]
    ensures Total(w[2..]) == 144 + w[6] && Total(w[1..]) == 164 + w[6]
  {
    hide Total;
    assert w[9..] == [];
    NoTotal();
    TotalFirst(w, 8);
    TotalFirst(w, 7);
    TotalFirst(w, 6);
    TotalFirst(w, 5);
    TotalFirst(w, 4);
    TotalFirst(w, 3);
    TotalFirst(w, 2);
    TotalFirst(w, 1);
  }

  lemma OrderPreimageLayout(f: OrderFields)
    requires OrderInRange(f)
    ensures LaidOut(EncodePacked(ORDER_WIDTHS, OrderList(f)), [0, 20, 40, 72, 104, 112, 120, 121, 153, 185],
      [f.tokenIn, f.tokenOut, f.size, f.minOut, f.expiry, f.price, if f.direction then 1 else 0, f.nonce, f.userSecret])
  {
    hide EncodePacked, Total, InRange, LaidOut;
    OrderListInRange(f);
    var w, v := ORDER_WIDTHS, OrderList(f);
    TailTotals(w);
    FieldsAt(w, v, [0, 20, 40, 72, 104, 112, 120, 121, 153, 185]);
  }

  lemma DcaPreimageLayout(f: DcaFields)
    requires DcaInRange(f)
    ensures LaidOut(EncodePacked(DCA_WIDTHS, DcaList(f)), [0, 20, 40, 72, 104, 112, 120, 128, 160, 192],
      [f.tokenIn, f.tokenOut, f.size, f.minOut, f.scheduledLo, f.scheduledHi, f.expiry, f.nonce, f.userSecret])
  {
    hide EncodePacked, Total, InRange, LaidOut;
    DcaListInRange(f);
    var w, v := DCA_WIDTHS, DcaList(f);
    TailTotals(w);
    FieldsAt(w, v, [0, 20, 40, 72, 104, 112, 120, 128, 160, 192]);
  }

  // Distinct orders and distinct DCA rounds have distinct preimages, and every 185-byte string
  // whose direction byte is a boolean is the preimage of an order.
  lemma OrderPreimageInjective(f: OrderFields, f': OrderFields)
    requires OrderInRange(f) && OrderInRange(f')
    requires EncodePacked(ORDER_WIDTHS, OrderList(f)) == EncodePacked(ORDER_WIDTHS, OrderList(f'))
    ensures f == f'
  {
    hide EncodePacked;
    OrderListInRange(f);
    OrderListInRange(f');
    var v, w := OrderList(f), OrderList(f');
    EncodeInjective(ORDER_WIDTHS, v, w);
    assert v[0] == w[0] && v[1] == w[1] && v[2] == w[2] && v[3] == w[3] && v[4] == w[4];
    assert v[5] == w[5] && v[6] == w[6] && v[7] == w[7] && v[8] == w[8];
  }

  lemma DcaPreimageInjective(f: DcaFields, f': DcaFields)
    requires DcaInRange(f) && DcaInRange(f')
    requires EncodePacked(DCA_WIDTHS, DcaList(f)) == EncodePacked(DCA_WIDTHS, DcaList(f'))
    ensures f == f'
  {
    hide EncodePacked;
    DcaListInRange(f);
    DcaListInRange(f');
    var v, w := DcaList(f), DcaList(f');
    EncodeInjective(DCA_WIDTHS, v, w);
    assert v[0] == w[0] && v[1] == w[1] && v[2] == w[2] && v[3] == w[3] && v[4] == w[4];
    assert v[5] == w[5] && v[6] == w[6] && v[7] == w[7] && v[8] == w[8];
  }

  function OrderOf(v: seq<nat>): OrderFields
    requires |v| == 9
  {
    OrderFields(v[0], v[1], v[2], v[3], v[4], v[5], v[6] == 1, v[7], v[8])
  }

  lemma OrderPreimageOnto(s: seq<byte>)
    requires |s| == 185
    ensures |s| == Total(ORDER_WIDTHS) && |DecodePacked(ORDER_WIDTHS, s)| == 9
    ensures EncodePacked(ORDER_WIDTHS, OrderList(OrderOf(DecodePacked(ORDER_WIDTHS, s)))) == s
      <==> DecodePacked(ORDER_WIDTHS, s)[6] <= 1
  {
    hide EncodePacked, DecodePacked, Total;
    WidthTotals();
    EncodeDecoded(ORDER_WIDTHS, s);
    var v := DecodePacked(ORDER_WIDTHS, s);
    var w := OrderList(OrderOf(v));
    OnlyDirectionDiffers(v);
    if v[6] > 1 && EncodePacked(ORDER_WIDTHS, w) == s {
      EncodeInjective(ORDER_WIDTHS, v, w);
    }
  }

  lemma OnlyDirectionDiffers(v: seq<nat>)
    requires |v| == 9 && InRange(ORDER_WIDTHS, v)
    ensures InRange(ORDER_WIDTHS, OrderList(OrderOf(v)))
    ensures OrderList(OrderOf(v)) == v <==> v[6] <= 1
  {
    hide Pow256;
    Pow256Values();
    var w := OrderList(OrderOf(v));
    assert forall i :: 0 <= i < 9 && i != 6 ==> w[i] == v[i];
  }

  // The public inputs of both circuits; fillRef is the oracle price or the execution timestamp.
  datatype PublicInputs = PublicInputs(
    commitmentHash: Fr, fillRef: nat, nullifier: Fr, tokenIn: Fr, tokenOut: Fr, size: Fr, minOut: Fr, expiry: nat)

  datatype OrderWitness = OrderWitness(price: nat, direction: bool, nonce: Fr, userSecret: Fr)
  datatype DcaWitness = DcaWitness(scheduledLo: nat, scheduledHi: nat, nonce: Fr, userSecret: Fr)

  predicate AssertAddressField(v: Fr) {
    AllZero(FieldToBytesBe(v)[..12])
  }

  // The twelve high bytes are zero exactly for the 160-bit values.
  lemma AddressFieldIff(v: Fr)
    ensures AssertAddressField(v) <==> v.v as nat < TWO_160
  {
    hide ToBytes;
    Pow256Values();
    HighBytesZero(v.v as nat, 12, 20);
  }

  function OrderSeen(pub: PublicInputs, w: OrderWitness): OrderFields {
    OrderFields(pub.tokenIn.v as nat, pub.tokenOut.v as nat, pub.size.v as nat, pub.minOut.v as nat, pub.expiry,
                w.price, w.direction, w.nonce.v as nat, w.userSecret.v as nat)
  }

  function DcaSeen(pub: PublicInputs, w: DcaWitness): DcaFields {
    DcaFields(pub.tokenIn.v as nat, pub.tokenOut.v as nat, pub.size.v as nat, pub.minOut.v as nat,
              w.scheduledLo, w.scheduledHi, pub.expiry, w.nonce.v as nat, w.userSecret.v as nat)
  }

  // main of the order circuit: the u64 types and the assertions
  ghost predicate OrderMain(keccak: Keccak, pub: PublicInputs, w: OrderWitness) {
    && pub.fillRef < TWO_64 && pub.expiry < TWO_64 && w.price < TWO_64
    && AssertAddressField(pub.tokenIn)
    && AssertAddressField(pub.tokenOut)
    && CommitmentHash(keccak, OrderSeen(pub, w)) == pub.commitmentHash
    && (if !w.direction then pub.fillRef <= w.price else pub.fillRef >= w.price)
    && NullifierHash(keccak, w.userSecret.v as nat, w.nonce.v as nat) == pub.nullifier
  }

  // main of the DCA circuit
  ghost predicate DcaMain(keccak: Keccak, pub: PublicInputs, w: DcaWitness) {
    && pub.fillRef < TWO_64 && pub.expiry < TWO_64 && w.scheduledLo < TWO_64 && w.scheduledHi < TWO_64
    && AssertAddressField(pub.tokenIn)
    && AssertAddressField(pub.tokenOut)
    && DcaCommitmentHash(keccak, DcaSeen(pub, w)) == pub.commitmentHash
    && pub.fillRef >= w.scheduledLo
    && pub.fillRef <= w.scheduledHi
    && pub.fillRef < pub.expiry
    && NullifierHash(keccak, w.userSecret.v as nat, w.nonce.v as nat) == pub.nullifier
  }

  // The two preimages do not collide after reduction. This is the only thing ever asked of keccak.
  ghost predicate NoCollision(keccak: Keccak, s: seq<byte>, t: seq<byte>) {
    ReduceToField(keccak(s)) == ReduceToField(keccak(t)) ==> s == t
  }

  // A satisfied order circuit speaks about the very order its commitment was made for.
  lemma OrderBinding(keccak: Keccak, pub: PublicInputs, w: OrderWitness, f: OrderFields)
    requires OrderMain(keccak, pub, w) && OrderInRange(f)
    requires CommitmentHash(keccak, f) == pub.commitmentHash
    requires NoCollision(keccak, EncodePacked(ORDER_WIDTHS, OrderList(f)), EncodePacked(ORDER_WIDTHS, OrderList(OrderSeen(pub, w))))
    ensures OrderSeen(pub, w) == f
    ensures if !f.direction then pub.fillRef <= f.price else pub.fillRef >= f.price
  {
    hide EncodePacked, AssertAddressField, ReduceToField;
    AddressFieldIff(pub.tokenIn);
    AddressFieldIff(pub.tokenOut);
    OrderPreimageInjective(f, OrderSeen(pub, w));
  }

  lemma DcaBinding(keccak: Keccak, pub: PublicInputs, w: DcaWitness, f: DcaFields)
    requires DcaMain(keccak, pub, w) && DcaInRange(f)
    requires DcaCommitmentHash(keccak, f) == pub.commitmentHash
    requires NoCollision(keccak, EncodePacked(DCA_WIDTHS, DcaList(f)), EncodePacked(DCA_WIDTHS, DcaList(DcaSeen(pub, w))))
    ensures DcaSeen(pub, w) == f
    ensures f.scheduledLo <= pub.fillRef <= f.scheduledHi && pub.fillRef < f.expiry
  {
    hide EncodePacked, AssertAddressField, ReduceToField;
    AddressFieldIff(pub.tokenIn);
    AddressFieldIff(pub.tokenOut);
    DcaPreimageInjective(f, DcaSeen(pub, w));
  }

  // The inputs a registry builds for a strategy committed off-chain, and the owner's own witness
  function HonestInputs(commitmentHash: Fr, nullifier: Fr, tokenIn: nat, tokenOut: nat, size: nat, minOut: nat, expiry: nat,
                        fillRef: nat): PublicInputs {
    PublicInputs(commitmentHash, fillRef, nullifier, Red(tokenIn), Red(tokenOut), Red(size), Red(minOut), expiry)
  }

  function OwnWitness(f: OrderFields): OrderWitness {
    OrderWitness(f.price, f.direction, Red(f.nonce), Red(f.userSecret))
  }

  function OwnDcaWitness(f: DcaFields): DcaWitness {
    DcaWitness(f.scheduledLo, f.scheduledHi, Red(f.nonce), Red(f.userSecret))
  }

  // The owner's own witness satisfies the circuit for this fill reference.

  ghost predicate OrderProvable(keccak: Keccak, f: OrderFields, fillRef: nat) {
    OrderMain(keccak,
              HonestInputs(CommitmentHash(keccak, f), NullifierHash(keccak, f.userSecret, f.nonce),
                           f.tokenIn, f.tokenOut, f.size, f.minOut, f.expiry, fillRef),
              OwnWitness(f))
  }

  ghost predicate DcaProvable(keccak: Keccak, f: DcaFields, fillRef: nat) {
    DcaMain(keccak,
            HonestInputs(DcaCommitmentHash(keccak, f), NullifierHash(keccak, f.userSecret, f.nonce),
                         f.tokenIn, f.tokenOut, f.size, f.minOut, f.expiry, fillRef),
            OwnDcaWitness(f))
  }

  lemma HonestOrderSeen(pub: PublicInputs, w: OrderWitness, f: OrderFields)
    requires OrderInRange(f) && BelowModulus(f.size, f.minOut, f.nonce, f.userSecret)
    requires pub.tokenIn == Red(f.tokenIn) && pub.tokenOut == Red(f.tokenOut) && pub.size == Red(f.size)
    requires pub.minOut == Red(f.minOut) && pub.expiry == f.expiry
    requires w == OwnWitness(f)
    ensures OrderSeen(pub, w) == f
  {}

  lemma HonestDcaSeen(pub: PublicInputs, w: DcaWitness, f: DcaFields)
    requires DcaInRange(f) && BelowModulus(f.size, f.minOut, f.nonce, f.userSecret)
    requires pub.tokenIn == Red(f.tokenIn) && pub.tokenOut == Red(f.tokenOut) && pub.size == Red(f.size)
    requires pub.minOut == Red(f.minOut) && pub.expiry == f.expiry
    requires w == OwnDcaWitness(f)
    ensures DcaSeen(pub, w) == f
  {}

  // The owner can prove an order exactly when the price is on the committed side of the limit...
  lemma HonestOrderProvesIff(keccak: Keccak, f: OrderFields, fillRef: nat)
    requires OrderInRange(f) && BelowModulus(f.size, f.minOut, f.nonce, f.userSecret) && fillRef < TWO_64
    ensures OrderProvable(keccak, f, fillRef) <==> if !f.direction then fillRef <= f.price else fillRef >= f.price
  {
    var pub := HonestInputs(CommitmentHash(keccak, f), NullifierHash(keccak, f.userSecret, f.nonce),
                            f.tokenIn, f.tokenOut, f.size, f.minOut, f.expiry, fillRef);
    var w := OwnWitness(f);
    hide AssertAddressField, CommitmentHash, NullifierHash;
    HonestOrderSeen(pub, w, f);
    AddressFieldIff(pub.tokenIn);
    AddressFieldIff(pub.tokenOut);
  }

  // ...and a DCA round exactly when the time is in the committed window and before the expiry.
  lemma HonestDcaProvesIff(keccak: Keccak, f: DcaFields, fillRef: nat)
    requires DcaInRange(f) && BelowModulus(f.size, f.minOut, f.nonce, f.userSecret) && fillRef < TWO_64
    ensures DcaProvable(keccak, f, fillRef) <==> f.scheduledLo <= fillRef <= f.scheduledHi && fillRef < f.expiry
  {
    var pub := HonestInputs(DcaCommitmentHash(keccak, f), NullifierHash(keccak, f.userSecret, f.nonce),
                            f.tokenIn, f.tokenOut, f.size, f.minOut, f.expiry, fillRef);
    var w := OwnDcaWitness(f);
    hide AssertAddressField, DcaCommitmentHash, NullifierHash;
    HonestDcaSeen(pub, w, f);
    AddressFieldIff(pub.tokenIn);
    AddressFieldIff(pub.tokenOut);
  }
}
