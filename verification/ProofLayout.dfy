// The byte offset at which each field of a proof stands, and is read from.
module ProofLayout {
  import opened PrimeField
  import opened Bytes
  import opened ProofCodec

  ghost predicate ScalarAt(bytes: seq<byte>, at: nat, v: Fr) {
    at + 32 <= |bytes| && FromBytes(bytes[at..at + 32]) == v.v as nat
  }

  ghost predicate PointAt(bytes: seq<byte>, at: nat, pt: G1Point) {
    at + 64 <= |bytes| && FromBytes(bytes[at..at + 32]) == pt.x && FromBytes(bytes[at + 32..at + 64]) == pt.y
  }

  // Item i stands between the offsets of i and i + 1.
  lemma Section(p: ZKProof, logN: nat, i: nat)
    requires Valid(p, logN) && i < ItemCount(logN)
    ensures Offset(i, logN) <= Offset(i + 1, logN) <= |Print(p, logN)|
    ensures Print(p, logN)[Offset(i, logN)..Offset(i + 1, logN)] == ItemBytes(ItemAt(p, logN, i))
  {
    hide ItemBytes, ItemAt, ItemOk, KindAt, ShapeOk, TailsZero;
    var items := Items(p, logN);
    PrintLength(items[..i], logN);
    PrintLength(items[..i + 1], logN);
    PrintPrefix(items, i + 1);
    assert items[..i + 1][..i] == items[..i];
    assert PrintItems(items[..i + 1]) == PrintItems(items[..i]) + ItemBytes(items[i]);
  }

  lemma ScalarStands(p: ZKProof, logN: nat, i: nat, v: Fr)
    requires Valid(p, logN) && i < ItemCount(logN) && (ItemAt(p, logN, i) == Limb(v) || ItemAt(p, logN, i) == Scalar(v))
    ensures ScalarAt(Print(p, logN), Offset(i, logN), v)
  {
    hide FromBytes, ToBytes, Pow256, ItemAt, Offset;
    Section(p, logN, i);
    Pow256Values();
    FromToBytes(v.v as nat, 32);
  }

  lemma PointStands(p: ZKProof, logN: nat, i: nat, pt: G1Point)
    requires Valid(p, logN) && i < ItemCount(logN) && ItemAt(p, logN, i) == Point(pt)
    ensures PointAt(Print(p, logN), Offset(i, logN), pt)
  {
    hide FromBytes, ToBytes, Pow256, ItemAt, Offset;
    Section(p, logN, i);
    assert ItemOk(Items(p, logN)[i], KindAt(i, logN));
    Pow256Values();
    FromToBytes(pt.x, 32);
    FromToBytes(pt.y, 32);
    var b := ItemBytes(Point(pt));
    assert b[..32] == ToBytes(pt.x, 32) && b[32..64] == ToBytes(pt.y, 32);
    var at, bytes := Offset(i, logN), Print(p, logN);
    assert bytes[at..at + 64][..32] == bytes[at..at + 32] && bytes[at..at + 64][32..64] == bytes[at + 32..at + 64];
  }

  // The limbs of the pairing points are below 2^136 and 2^120 in turn, and the coordinates of every
  // commitment are below the base field order and not both zero.
  lemma InBounds(p: ZKProof, logN: nat, i: nat)
    requires Valid(p, logN) && i < ItemCount(logN)
    ensures i < 8 ==> p.pairingPointObject[i].v as nat < if i % 2 == 0 then Pow256(17) else Pow256(15)
    ensures ItemAt(p, logN, i).Point? ==>
      var pt := ItemAt(p, logN, i).point; pt.x < Q && pt.y < Q && (pt.x != 0 || pt.y != 0)
  {
    assert ItemOk(Items(p, logN)[i], KindAt(i, logN));
    Pow256Of15();
  }

  lemma Pow256Of15()
    ensures Pow256(15) == HIGH_LIMB_BOUND && Pow256(17) == LOW_LIMB_BOUND
  {
    assert Pow256(3) == 0x1000000;
    assert Pow256(6) == 0x1000000000000;
    assert Pow256(9) == 0x1000000000000000000;
    assert Pow256(12) == 0x1000000000000000000000000;
    assert Pow256(15) == HIGH_LIMB_BOUND;
  }

  // The pairing point object, the ten leading commitments and the libra sum
  lemma HeadOffsets(p: ZKProof, logN: nat)
    requires Valid(p, logN)
    ensures var b := Print(p, logN);
      && (forall i :: 0 <= i < 8 ==> ScalarAt(b, 32 * i, p.pairingPointObject[i]))
      && (forall i :: 0 <= i < 10 ==> PointAt(b, 256 + 64 * i,
            [p.geminiMaskingPoly, p.w1, p.w2, p.w3, p.lookupReadCounts, p.lookupReadTags, p.w4,
             p.lookupInverses, p.zPerm, p.libraCommitments[0]][i]))
      && ScalarAt(b, 896, p.libraSum)
  {
    hide Offset, ScalarAt, PointAt, Fits, TailsZero;
    forall i | 0 <= i <= 18 ensures Offset(i, logN) == if i <= 8 then 32 * i else 64 * i - 256 { OffsetClosed(i, logN); }
    forall i | 0 <= i < 8 ensures ScalarAt(Print(p, logN), 32 * i, p.pairingPointObject[i]) {
      ScalarStands(p, logN, i, p.pairingPointObject[i]);
    }
    var points := [p.geminiMaskingPoly, p.w1, p.w2, p.w3, p.lookupReadCounts, p.lookupReadTags, p.w4,
                   p.lookupInverses, p.zPerm, p.libraCommitments[0]];
    forall i | 0 <= i < 10 ensures PointAt(Print(p, logN), 256 + 64 * i, points[i]) {
      PointStands(p, logN, 8 + i, points[i]);
    }
    ScalarStands(p, logN, 18, p.libraSum);
  }

  // The univariates and evaluations of sumcheck and the libra evaluation
  lemma SumcheckOffsets(p: ZKProof, logN: nat)
    requires Valid(p, logN)
    ensures var b := Print(p, logN);
      && (forall i, j :: 0 <= i < logN && 0 <= j < 9 ==> ScalarAt(b, 928 + 288 * i + 32 * j, p.sumcheckUnivariates[i][j]))
      && (forall k :: 0 <= k < 42 ==> ScalarAt(b, 928 + 288 * logN + 32 * k, p.sumcheckEvaluations[k]))
      && ScalarAt(b, 2272 + 288 * logN, p.libraEvaluation)
  {
    hide Offset, ScalarAt, Fits, TailsZero;
    forall i, j | 0 <= i < logN && 0 <= j < 9
      ensures ScalarAt(Print(p, logN), 928 + 288 * i + 32 * j, p.sumcheckUnivariates[i][j])
    {
      var k := 19 + 9 * i + j;
      assert (k - 19) / 9 == i && (k - 19) % 9 == j && k < 19 + 9 * logN;
      OffsetClosed(k, logN);
      ScalarStands(p, logN, k, p.sumcheckUnivariates[i][j]);
    }
    forall k | 0 <= k < 42 ensures ScalarAt(Print(p, logN), 928 + 288 * logN + 32 * k, p.sumcheckEvaluations[k]) {
      OffsetClosed(19 + 9 * logN + k, logN);
      ScalarStands(p, logN, 19 + 9 * logN + k, p.sumcheckEvaluations[k]);
    }
    OffsetClosed(61 + 9 * logN, logN);
    ScalarStands(p, logN, 61 + 9 * logN, p.libraEvaluation);
  }

  // The other libra commitments, the Gemini folds and evaluations
  lemma GeminiOffsets(p: ZKProof, logN: nat)
    requires Valid(p, logN)
    ensures var b := Print(p, logN);
      && (forall k :: 1 <= k < 3 ==> PointAt(b, 2240 + 288 * logN + 64 * k, p.libraCommitments[k]))
      && (forall k :: 0 <= k < logN - 1 ==> PointAt(b, 2432 + 288 * logN + 64 * k, p.geminiFoldComms[k]))
      && (forall k :: 0 <= k < logN ==> ScalarAt(b, 2368 + 352 * logN + 32 * k, p.geminiAEvaluations[k]))
  {
    hide Offset, ScalarAt, PointAt, Fits, TailsZero;
    OffsetClosed(62 + 9 * logN, logN);
    PointStands(p, logN, 62 + 9 * logN, p.libraCommitments[1]);
    OffsetClosed(63 + 9 * logN, logN);
    PointStands(p, logN, 63 + 9 * logN, p.libraCommitments[2]);
    forall k | 0 <= k < logN - 1 ensures PointAt(Print(p, logN), 2432 + 288 * logN + 64 * k, p.geminiFoldComms[k]) {
      OffsetClosed(64 + 9 * logN + k, logN);
      PointStands(p, logN, 64 + 9 * logN + k, p.geminiFoldComms[k]);
    }
    forall k | 0 <= k < logN ensures ScalarAt(Print(p, logN), 2368 + 352 * logN + 32 * k, p.geminiAEvaluations[k]) {
      OffsetClosed(63 + 10 * logN + k, logN);
      ScalarStands(p, logN, 63 + 10 * logN + k, p.geminiAEvaluations[k]);
    }
  }

  // The libra evaluations and the opening, with which the proof ends
  lemma OpeningOffsets(p: ZKProof, logN: nat)
    requires Valid(p, logN)
    ensures var b := Print(p, logN);
      && (forall k :: 0 <= k < 4 ==> ScalarAt(b, 2368 + 384 * logN + 32 * k, p.libraPolyEvals[k]))
      && (forall k :: 0 <= k < 2 ==> PointAt(b, 2496 + 384 * logN + 64 * k, [p.shplonkQ, p.kzgQuotient][k]))
      && |b| == 2624 + 384 * logN
  {
    hide Offset, ScalarAt, PointAt, Fits, TailsZero;
    forall k | 0 <= k < 4 ensures ScalarAt(Print(p, logN), 2368 + 384 * logN + 32 * k, p.libraPolyEvals[k]) {
      OffsetClosed(63 + 11 * logN + k, logN);
      ScalarStands(p, logN, 63 + 11 * logN + k, p.libraPolyEvals[k]);
    }
    OffsetClosed(67 + 11 * logN, logN);
    PointStands(p, logN, 67 + 11 * logN, p.shplonkQ);
    OffsetClosed(68 + 11 * logN, logN);
    PointStands(p, logN, 68 + 11 * logN, p.kzgQuotient);
    OffsetClosed(69 + 11 * logN, logN);
    Ends(p, logN);
  }

  lemma Ends(p: ZKProof, logN: nat)
    requires Valid(p, logN)
    ensures |Print(p, logN)| == Offset(69 + 11 * logN, logN)
  {
    PrintLength(Items(p, logN), logN);
  }
}
