// loadProof: the fixed layout of a serialised proof, its size formula, and its printer.
module ProofCodec {
  import opened Honk
  import opened PrimeField
  import opened Bytes
  import opened Wrappers

  // EC base field order
  const Q: nat := 21888242871839275222246405745257275088696311157297823662689037894645226208583

  datatype G1Point = G1Point(x: nat, y: nat)

  datatype ZKProof = ZKProof(
    pairingPointObject: seq<Fr>,
    geminiMaskingPoly: G1Point,
    w1: G1Point, w2: G1Point, w3: G1Point, w4: G1Point,
    lookupReadCounts: G1Point, lookupReadTags: G1Point, lookupInverses: G1Point,
    zPerm: G1Point,
    libraCommitments: seq<G1Point>,
    libraSum: Fr,
    sumcheckUnivariates: seq<seq<Fr>>,
    libraEvaluation: Fr,
    sumcheckEvaluations: seq<Fr>,
    geminiFoldComms: seq<G1Point>,
    geminiAEvaluations: seq<Fr>,
    libraPolyEvals: seq<Fr>,
    shplonkQ: G1Point,
    kzgQuotient: G1Point)

  // The memory a fresh proof struct starts from: everything zero
  const NO_POINT := G1Point(0, 0)
  const EMPTY_PROOF := ZKProof(
    seq(8, _ => ZERO), NO_POINT, NO_POINT, NO_POINT, NO_POINT, NO_POINT, NO_POINT, NO_POINT, NO_POINT, NO_POINT,
    seq(3, _ => NO_POINT), ZERO, seq(25, _ => seq(9, _ => ZERO)), ZERO, seq(42, _ => ZERO),
    seq(24, _ => NO_POINT), seq(25, _ => ZERO), seq(4, _ => ZERO), NO_POINT, NO_POINT)

  // calculateProofSize
  function CalculateProofSize(logN: nat): nat
    requires logN >= 1
  {
    var proofLength := NUM_WITNESS_ENTITIES * NUM_ELEMENTS_COMM;
    var proofLength := proofLength + NUM_ELEMENTS_COMM * 3;
    var proofLength := proofLength + logN * ZK_BATCHED_RELATION_PARTIAL_LENGTH * NUM_ELEMENTS_FR;
    var proofLength := proofLength + NUMBER_OF_ENTITIES_ZK * NUM_ELEMENTS_FR;
    var proofLength := proofLength + NUM_ELEMENTS_FR * 2;
    var proofLength := proofLength + logN * NUM_ELEMENTS_FR;
    var proofLength := proofLength + NUM_LIBRA_EVALUATIONS * NUM_ELEMENTS_FR;
    var proofLength := proofLength + (logN - 1) * NUM_ELEMENTS_COMM;
    var proofLength := proofLength + NUM_ELEMENTS_COMM * 2;
    var proofLength := proofLength + PAIRING_POINTS_SIZE;
    proofLength * 32
  }

  // One field of the serialisation: a pairing limb, a scalar, or a curve point
  datatype Item = Limb(limb: Fr) | Scalar(scalar: Fr) | Point(point: G1Point)
  datatype Kind = LowLimb | HighLimb | ScalarKind | PointKind

  const LOW_LIMB_BOUND: nat := 0x10000000000000000000000000000000000
  const HIGH_LIMB_BOUND: nat := 0x1000000000000000000000000000000

  function ItemCount(logN: nat): nat {
    69 + 11 * logN
  }

  // What stands at position i of the serialisation
  function KindAt(i: nat, logN: nat): Kind {
    if i < 8 then (if i % 2 == 0 then LowLimb else HighLimb)
    else if i < 18 then PointKind
    else if i < 62 + 9 * logN then ScalarKind
    else if i < 63 + 10 * logN then PointKind
    else if i < 67 + 11 * logN then ScalarKind
    else PointKind
  }

  function Size(kind: Kind): nat {
    if kind == PointKind then 64 else 32
  }

  predicate ItemOk(item: Item, kind: Kind) {
    match kind
    case LowLimb => item.Limb? && item.limb.v as nat < LOW_LIMB_BOUND
    case HighLimb => item.Limb? && item.limb.v as nat < HIGH_LIMB_BOUND
    case ScalarKind => item.Scalar?
    case PointKind => item.Point? && item.point.x < Q && item.point.y < Q && item.point != NO_POINT
  }

  function ItemBytes(item: Item): seq<byte> {
    match item
    case Limb(v) => ToBytes(v.v as nat, 32)
    case Scalar(v) => ToBytes(v.v as nat, 32)
    case Point(pt) => ToBytes(pt.x, 32) + ToBytes(pt.y, 32)
  }

  function PrintItems(items: seq<Item>): seq<byte> {
    if items == [] then [] else PrintItems(items[..|items| - 1]) + ItemBytes(items[|items| - 1])
  }

  // The bytes before position i
  function Offset(i: nat, logN: nat): nat {
    if i == 0 then 0 else Offset(i - 1, logN) + Size(KindAt(i - 1, logN))
  }

  ghost predicate Fits(items: seq<Item>, logN: nat) {
    && |items| <= ItemCount(logN)
    && forall i :: 0 <= i < |items| ==> ItemOk(items[i], KindAt(i, logN))
  }

  // The field of the struct that is serialised at position i
  function ItemAt(p: ZKProof, logN: nat, i: nat): Item
    requires ShapeOk(p, logN) && i < ItemCount(logN)
  {
    if i < 8 then Limb(p.pairingPointObject[i])
    else if i == 8 then Point(p.geminiMaskingPoly)
    else if i == 9 then Point(p.w1)
    else if i == 10 then Point(p.w2)
    else if i == 11 then Point(p.w3)
    else if i == 12 then Point(p.lookupReadCounts)
    else if i == 13 then Point(p.lookupReadTags)
    else if i == 14 then Point(p.w4)
    else if i == 15 then Point(p.lookupInverses)
    else if i == 16 then Point(p.zPerm)
    else if i == 17 then Point(p.libraCommitments[0])
    else if i == 18 then Scalar(p.libraSum)
    else if i < 19 + 9 * logN then Scalar(p.sumcheckUnivariates[(i - 19) / 9][(i - 19) % 9])
    else if i < 61 + 9 * logN then Scalar(p.sumcheckEvaluations[i - 19 - 9 * logN])
    else if i == 61 + 9 * logN then Scalar(p.libraEvaluation)
    else if i == 62 + 9 * logN then Point(p.libraCommitments[1])
    else if i == 63 + 9 * logN then Point(p.libraCommitments[2])
    else if i < 63 + 10 * logN then Point(p.geminiFoldComms[i - 64 - 9 * logN])
    else if i < 63 + 11 * logN then Scalar(p.geminiAEvaluations[i - 63 - 10 * logN])
    else if i < 67 + 11 * logN then Scalar(p.libraPolyEvals[i - 63 - 11 * logN])
    else if i == 67 + 11 * logN then Point(p.shplonkQ)
    else Point(p.kzgQuotient)
  }

  predicate ShapeOk(p: ZKProof, logN: nat) {
    && 1 <= logN <= CONST_PROOF_SIZE_LOG_N
    && |p.pairingPointObject| == 8 && |p.libraCommitments| == 3
    && |p.sumcheckUnivariates| == 25 && (forall i :: 0 <= i < 25 ==> |p.sumcheckUnivariates[i]| == 9)
    && |p.sumcheckEvaluations| == 42 && |p.geminiFoldComms| == 24
    && |p.geminiAEvaluations| == 25 && |p.libraPolyEvals| == 4
  }

  // The array entries beyond logN are never written.
  predicate TailsZero(p: ZKProof, logN: nat)
    requires ShapeOk(p, logN)
  {
    && (forall i :: logN <= i < 25 ==> p.sumcheckUnivariates[i] == seq(9, _ => ZERO))
    && (forall i :: logN - 1 <= i < 24 ==> p.geminiFoldComms[i] == NO_POINT)
    && (forall i :: logN <= i < 25 ==> p.geminiAEvaluations[i] == ZERO)
  }

  ghost function Items(p: ZKProof, logN: nat): (items: seq<Item>)
    requires ShapeOk(p, logN)
    ensures |items| == ItemCount(logN)
  {
    seq(ItemCount(logN), i requires 0 <= i < ItemCount(logN) => ItemAt(p, logN, i))
  }

  // A proof the verifier can hold: limbs and coordinates in range, no point at infinity
  ghost predicate Valid(p: ZKProof, logN: nat) {
    ShapeOk(p, logN) && TailsZero(p, logN) && Fits(Items(p, logN), logN)
  }

  // The printer
  ghost function Print(p: ZKProof, logN: nat): seq<byte>
    requires ShapeOk(p, logN)
  {
    PrintItems(Items(p, logN))
  }

  // Reading one item

  function BytesToFr(section: seq<byte>): Option<Fr> {
    var v := FromBytes(section);
    if v < MODULUS then Some(Fr(v as Residue)) else None
  }

  function BytesToG1Point(section: seq<byte>): Option<G1Point>
    requires |section| == 64
  {
    var x := FromBytes(section[0x00..0x20]);
    var y := FromBytes(section[0x20..0x40]);
    if !(x < Q && y < Q) then None
    else if x == 0 && y == 0 then None
    else Some(G1Point(x, y))
  }

  function BytesToLimb(section: seq<byte>, bound: nat): Option<Fr>
    requires bound <= MODULUS
  {
    var limb := FromBytes(section);
    if limb < bound then Some(Fr(limb as Residue)) else None
  }

  function ReadItem(section: seq<byte>, kind: Kind): Option<Item>
    requires |section| == Size(kind)
  {
    match kind
    case LowLimb => (match BytesToLimb(section, LOW_LIMB_BOUND) case Some(v) => Some(Limb(v)) case None => None)
    case HighLimb => (match BytesToLimb(section, HIGH_LIMB_BOUND) case Some(v) => Some(Limb(v)) case None => None)
    case ScalarKind => (match BytesToFr(section) case Some(v) => Some(Scalar(v)) case None => None)
    case PointKind => (match BytesToG1Point(section) case Some(v) => Some(Point(v)) case None => None)
  }

  lemma ItemSize(item: Item, kind: Kind)
    requires ItemOk(item, kind)
    ensures |ItemBytes(item)| == Size(kind)
  {}

  lemma ReadOfPrinted(item: Item, kind: Kind)
    requires ItemOk(item, kind)
    ensures |ItemBytes(item)| == Size(kind) && ReadItem(ItemBytes(item), kind) == Some(item)
  {
    hide ToBytes, FromBytes, Pow256;
    Pow256Values();
    match item
    case Limb(v) => FromToBytes(v.v as nat, 32);
    case Scalar(v) => FromToBytes(v.v as nat, 32);
    case Point(pt) =>
      FromToBytes(pt.x, 32);
      FromToBytes(pt.y, 32);
      assert ItemBytes(item)[0x00..0x20] == ToBytes(pt.x, 32);
      assert ItemBytes(item)[0x20..0x40] == ToBytes(pt.y, 32);
  }

  lemma PrintOfRead(section: seq<byte>, kind: Kind)
    requires |section| == Size(kind) && ReadItem(section, kind).Some?
    ensures ItemOk(ReadItem(section, kind).value, kind) && ItemBytes(ReadItem(section, kind).value) == section
  {
    hide ToBytes, FromBytes, Pow256;
    if kind == PointKind {
      ToFromBytes(section[0x00..0x20]);
      ToFromBytes(section[0x20..0x40]);
      assert section == section[0x00..0x20] + section[0x20..0x40];
    } else {
      ToFromBytes(section);
    }
  }

  lemma {:induction false} PrintLength(items: seq<Item>, logN: nat)
    requires Fits(items, logN)
    ensures |PrintItems(items)| == Offset(|items|, logN)
  {
    hide ItemBytes, ItemOk, KindAt;
    if items != [] {
      var n := |items| - 1;
      PrintLength(items[..n], logN);
      ItemSize(items[n], KindAt(n, logN));
    }
  }

  lemma {:induction false} PrintPrefix(items: seq<Item>, n: nat)
    requires n <= |items|
    ensures PrintItems(items[..n]) <= PrintItems(items)
  {
    hide ItemBytes;
    if n == |items| {
      assert items[..n] == items;
    } else {
      var m := |items| - 1;
      PrintPrefix(items[..m], n);
      assert items[..m][..n] == items[..n];
    }
  }

  // Where the sections of the layout start
  lemma {:induction false} OffsetClosed(i: nat, logN: nat)
    requires 1 <= logN && i <= ItemCount(logN)
    ensures Offset(i, logN) ==
      if i <= 8 then 32 * i
      else if i <= 18 then 64 * i - 256
      else if i <= 62 + 9 * logN then 32 * i + 320
      else if i <= 63 + 10 * logN then 64 * i - 1664 - 288 * logN
      else if i <= 67 + 11 * logN then 32 * i + 352 + 32 * logN
      else 64 * i - 1792 - 320 * logN
  {
    if i > 0 { OffsetClosed(i - 1, logN); }
  }

  // The layout takes exactly the number of bytes the size formula says.
  lemma LayoutSize(p: ZKProof, logN: nat)
    requires Valid(p, logN)
    ensures |Print(p, logN)| == CalculateProofSize(logN)
  {
    PrintLength(Items(p, logN), logN);
    OffsetClosed(ItemCount(logN), logN);
  }

  lemma {:induction false} PrintItemsInjective(items: seq<Item>, others: seq<Item>, logN: nat)
    requires Fits(items, logN) && Fits(others, logN) && |items| == |others|
    requires PrintItems(items) == PrintItems(others)
    ensures items == others
  {
    hide ItemBytes, ItemOk, KindAt, ReadItem;
    if items != [] {
      var n := |items| - 1;
      PrintLength(items[..n], logN);
      PrintLength(others[..n], logN);
      ReadOfPrinted(items[n], KindAt(n, logN));
      ReadOfPrinted(others[n], KindAt(n, logN));
      assert PrintItems(items[..n]) == PrintItems(items)[..Offset(n, logN)] == PrintItems(others[..n]);
      assert ItemBytes(items[n]) == PrintItems(items)[Offset(n, logN)..] == ItemBytes(others[n]);
      PrintItemsInjective(items[..n], others[..n], logN);
      assert items == items[..n] + [items[n]] && others == others[..n] + [others[n]];
    }
  }

  // Two valid proofs with the same items are the same struct.
  lemma ItemsInjective(p: ZKProof, q: ZKProof, logN: nat)
    requires Valid(p, logN) && Valid(q, logN) && Items(p, logN) == Items(q, logN)
    ensures p == q
  {
    hide Fits;
    forall i | 0 <= i < ItemCount(logN) ensures ItemAt(p, logN, i) == ItemAt(q, logN, i) {
      assert Items(p, logN)[i] == Items(q, logN)[i];
    }
    SameProofs(p, q, logN);
  }

  ghost predicate SameItems(p: ZKProof, q: ZKProof, logN: nat)
    requires ShapeOk(p, logN) && ShapeOk(q, logN)
  {
    forall i :: 0 <= i < ItemCount(logN) ==> ItemAt(p, logN, i) == ItemAt(q, logN, i)
  }

  lemma SameProofs(p: ZKProof, q: ZKProof, logN: nat)
    requires ShapeOk(p, logN) && ShapeOk(q, logN) && TailsZero(p, logN) && TailsZero(q, logN)
    requires SameItems(p, q, logN)
    ensures p == q
  {
    forall i | 0 <= i < 8 ensures p.pairingPointObject[i] == q.pairingPointObject[i] {
      assert ItemAt(p, logN, i) == ItemAt(q, logN, i);
    }
    assert ItemAt(p, logN, 18) == ItemAt(q, logN, 18);
    assert ItemAt(p, logN, 61 + 9 * logN) == ItemAt(q, logN, 61 + 9 * logN);
    forall i | 0 <= i < 25 ensures p.sumcheckUnivariates[i] == q.sumcheckUnivariates[i] {
      if i < logN {
        forall j | 0 <= j < 9 ensures p.sumcheckUnivariates[i][j] == q.sumcheckUnivariates[i][j] {
          var k := 19 + 9 * i + j;
          assert (k - 19) / 9 == i && (k - 19) % 9 == j;
          assert ItemAt(p, logN, k) == ItemAt(q, logN, k);
        }
      }
    }
    forall i | 0 <= i < 42 ensures p.sumcheckEvaluations[i] == q.sumcheckEvaluations[i] {
      assert ItemAt(p, logN, 19 + 9 * logN + i) == ItemAt(q, logN, 19 + 9 * logN + i);
    }
    forall i | 0 <= i < 25 ensures p.geminiAEvaluations[i] == q.geminiAEvaluations[i] {
      if i < logN { assert ItemAt(p, logN, 63 + 10 * logN + i) == ItemAt(q, logN, 63 + 10 * logN + i); }
    }
    forall i | 0 <= i < 4 ensures p.libraPolyEvals[i] == q.libraPolyEvals[i] {
      assert ItemAt(p, logN, 63 + 11 * logN + i) == ItemAt(q, logN, 63 + 11 * logN + i);
    }
    forall i | 8 <= i < 18 ensures ItemAt(p, logN, i) == ItemAt(q, logN, i) {}
    assert ItemAt(p, logN, 8) == ItemAt(q, logN, 8);
    assert ItemAt(p, logN, 9) == ItemAt(q, logN, 9);
    assert ItemAt(p, logN, 10) == ItemAt(q, logN, 10);
    assert ItemAt(p, logN, 11) == ItemAt(q, logN, 11);
    assert ItemAt(p, logN, 12) == ItemAt(q, logN, 12);
    assert ItemAt(p, logN, 13) == ItemAt(q, logN, 13);
    assert ItemAt(p, logN, 14) == ItemAt(q, logN, 14);
    assert ItemAt(p, logN, 15) == ItemAt(q, logN, 15);
    assert ItemAt(p, logN, 16) == ItemAt(q, logN, 16);
    assert ItemAt(p, logN, 17) == ItemAt(q, logN, 17);
    assert ItemAt(p, logN, 62 + 9 * logN) == ItemAt(q, logN, 62 + 9 * logN);
    assert ItemAt(p, logN, 63 + 9 * logN) == ItemAt(q, logN, 63 + 9 * logN);
    forall i | 0 <= i < 24 ensures p.geminiFoldComms[i] == q.geminiFoldComms[i] {
      if i < logN - 1 { assert ItemAt(p, logN, 64 + 9 * logN + i) == ItemAt(q, logN, 64 + 9 * logN + i); }
    }
    assert ItemAt(p, logN, 67 + 11 * logN) == ItemAt(q, logN, 67 + 11 * logN);
    assert ItemAt(p, logN, 68 + 11 * logN) == ItemAt(q, logN, 68 + 11 * logN);
  }

  // No two valid proofs print to the same bytes.
  lemma PrintInjective(p: ZKProof, q: ZKProof, logN: nat)
    requires Valid(p, logN) && Valid(q, logN) && Print(p, logN) == Print(q, logN)
    ensures p == q
  {
    PrintItemsInjective(Items(p, logN), Items(q, logN), logN);
    ItemsInjective(p, q, logN);
  }
}
