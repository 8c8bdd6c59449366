// The loop that fills the proof struct, byte range by byte range.
module ProofLoader {
  import opened Honk
  import opened PrimeField
  import opened Bytes
  import opened Wrappers
  import opened ProofCodec

  // boundary is the end of the bytes of the items read so far, and p holds those items.
  ghost predicate Loaded(proof: seq<byte>, logN: nat, p: ZKProof, items: seq<Item>, boundary: nat) {
    && ShapeOk(p, logN) && TailsZero(p, logN)
    && Fits(items, logN)
    && (forall i :: 0 <= i < |items| ==> items[i] == ItemAt(p, logN, i))
    && boundary == |PrintItems(items)| && PrintItems(items) <= proof
  }

  // No valid proof prints to a prefix of these bytes.
  ghost predicate Hopeless(proof: seq<byte>, logN: nat) {
    forall p: ZKProof :: Valid(p, logN) ==> !(Print(p, logN) <= proof)
  }

  // The bytes of one field; None is a slice past the end of the calldata
  function Section(proof: seq<byte>, boundary: nat, size: nat): Option<seq<byte>> {
    if boundary + size <= |proof| then Some(proof[boundary..boundary + size]) else None
  }

  function ReadAt(proof: seq<byte>, boundary: nat, kind: Kind): Option<Item> {
    match Section(proof, boundary, Size(kind))
    case None => None
    case Some(section) => ReadItem(section, kind)
  }

  // Where a valid proof prints to a prefix of the bytes, its next item can be read.
  lemma NextItemReadable(proof: seq<byte>, logN: nat, all: seq<Item>, n: nat)
    requires Fits(all, logN) && n < |all| && PrintItems(all) <= proof
    ensures ReadAt(proof, Offset(n, logN), KindAt(n, logN)) == Some(all[n])
  {
    hide ReadItem, ItemBytes, ItemOk, ItemAt, KindAt;
    var kind := KindAt(n, logN);
    PrintPrefix(all, n + 1);
    PrintLength(all[..n], logN);
    ReadOfPrinted(all[n], kind);
    assert all[..n + 1][..n] == all[..n];
    assert PrintItems(all[..n + 1]) == PrintItems(all[..n]) + ItemBytes(all[n]);
    assert proof[Offset(n, logN)..Offset(n, logN) + Size(kind)] == ItemBytes(all[n]);
  }

  lemma Stuck(proof: seq<byte>, logN: nat, p: ZKProof, items: seq<Item>, boundary: nat)
    requires Loaded(proof, logN, p, items, boundary) && |items| < ItemCount(logN)
    requires ReadAt(proof, boundary, KindAt(|items|, logN)).None?
    ensures Hopeless(proof, logN)
  {
    hide ReadAt, PrintItems, ItemOk, ItemAt, KindAt, Offset;
    PrintLength(items, logN);
    forall q: ZKProof | Valid(q, logN) ensures !(Print(q, logN) <= proof) {
      if Print(q, logN) <= proof {
        NextItemReadable(proof, logN, Items(q, logN), |items|);
      }
    }
  }

  lemma Advance(proof: seq<byte>, logN: nat, p: ZKProof, items: seq<Item>, boundary: nat, q: ZKProof, item: Item)
    requires Loaded(proof, logN, p, items, boundary) && |items| < ItemCount(logN)
    requires ReadAt(proof, boundary, KindAt(|items|, logN)) == Some(item)
    requires ShapeOk(q, logN) && TailsZero(q, logN)
    requires forall i :: 0 <= i < |items| ==> ItemAt(q, logN, i) == ItemAt(p, logN, i)
    requires ItemAt(q, logN, |items|) == item
    ensures Loaded(proof, logN, q, items + [item], boundary + Size(KindAt(|items|, logN)))
  {
    hide ReadItem, ItemBytes, ItemOk, ItemAt, KindAt, ShapeOk, TailsZero;
    var kind := KindAt(|items|, logN);
    PrintOfRead(proof[boundary..boundary + Size(kind)], kind);
    assert (items + [item])[..|items|] == items;
  }

  // Reads of one field, as the helpers of the contract do them

  method ReadG1Point(proof: seq<byte>, boundary: nat, ghost logN: nat, ghost p: ZKProof, ghost items: seq<Item>)
    returns (r: Option<G1Point>)
    requires Loaded(proof, logN, p, items, boundary)
    requires |items| < ItemCount(logN) && KindAt(|items|, logN) == PointKind
    ensures r.None? ==> Hopeless(proof, logN)
    ensures r.Some? ==> ReadAt(proof, boundary, PointKind) == Some(Point(r.value))
  {
    hide Loaded, Hopeless;
    if boundary + 64 > |proof| {
      r := None;
    } else {
      r := BytesToG1Point(proof[boundary..boundary + 64]);
    }
    if r.None? { Stuck(proof, logN, p, items, boundary); }
  }

  method ReadFr(proof: seq<byte>, boundary: nat, ghost logN: nat, ghost p: ZKProof, ghost items: seq<Item>)
    returns (r: Option<Fr>)
    requires Loaded(proof, logN, p, items, boundary)
    requires |items| < ItemCount(logN) && KindAt(|items|, logN) == ScalarKind
    ensures r.None? ==> Hopeless(proof, logN)
    ensures r.Some? ==> ReadAt(proof, boundary, ScalarKind) == Some(Scalar(r.value))
  {
    hide Loaded, Hopeless;
    if boundary + 32 > |proof| {
      r := None;
    } else {
      r := BytesToFr(proof[boundary..boundary + 32]);
    }
    if r.None? { Stuck(proof, logN, p, items, boundary); }
  }

  datatype Cursor = Cursor(p: ZKProof, boundary: nat)

  method LoadPairingPoints(proof: seq<byte>, logN: nat) returns (r: Option<Cursor>, ghost items: seq<Item>)
    requires 1 <= logN <= CONST_PROOF_SIZE_LOG_N
    ensures r.Some? ==> |items| == 8 && Loaded(proof, logN, r.value.p, items, r.value.boundary)
    ensures r.None? ==> Hopeless(proof, logN)
  {
    hide ReadItem, PrintItems, BytesToLimb;
    var p, boundary := EMPTY_PROOF, 0;
    items := [];
    assert Loaded(proof, logN, p, items, boundary) by { EmptyLoaded(proof, logN); }
    for i := 0 to PAIRING_POINTS_SIZE
      invariant |items| == i && Loaded(proof, logN, p, items, boundary)
    {
      if boundary + 32 > |proof| {
        Stuck(proof, logN, p, items, boundary);
        return None, items;
      }
      var bound := if i % 2 == 0 then LOW_LIMB_BOUND else HIGH_LIMB_BOUND;
      var limb := BytesToLimb(proof[boundary..boundary + 32], bound);
      LimbRead(proof[boundary..boundary + 32], i);
      if limb.None? {
        Stuck(proof, logN, p, items, boundary);
        return None, items;
      }
      ghost var before := p;
      p := p.(pairingPointObject := p.pairingPointObject[i := limb.value]);
      Advance(proof, logN, before, items, boundary, p, Limb(limb.value));
      items := items + [Limb(limb.value)];
      boundary := boundary + 32;
    }
    return Some(Cursor(p, boundary)), items;
  }

  lemma EmptyLoaded(proof: seq<byte>, logN: nat)
    requires 1 <= logN <= CONST_PROOF_SIZE_LOG_N
    ensures Loaded(proof, logN, EMPTY_PROOF, [], 0)
  {}

  lemma LimbRead(section: seq<byte>, i: nat)
    requires |section| == 32 && i < 8
    ensures ReadItem(section, if i % 2 == 0 then LowLimb else HighLimb)
         == match BytesToLimb(section, if i % 2 == 0 then LOW_LIMB_BOUND else HIGH_LIMB_BOUND)
            case Some(v) => Some(Limb(v))
            case None => None
  {}

  // The masking commitment and the first three wires
  method LoadWitnessCommitments(proof: seq<byte>, logN: nat, c: Cursor, ghost before: seq<Item>)
    returns (r: Option<Cursor>, ghost items: seq<Item>)
    requires |before| == 8 && Loaded(proof, logN, c.p, before, c.boundary)
    ensures r.Some? ==> |items| == 12 && Loaded(proof, logN, r.value.p, items, r.value.boundary)
    ensures r.None? ==> Hopeless(proof, logN)
  {
    hide ReadAt, PrintItems, Hopeless, Fits;
    var p, boundary := c.p, c.boundary;
    items := before;

    var point := ReadG1Point(proof, boundary, logN, p, items);
    if point.None? { return None, items; }
    Advance(proof, logN, p, items, boundary, p.(geminiMaskingPoly := point.value), Point(point.value));
    p, items := p.(geminiMaskingPoly := point.value), items + [Point(point.value)];
    boundary := boundary + 64;

    point := ReadG1Point(proof, boundary, logN, p, items);
    if point.None? { return None, items; }
    Advance(proof, logN, p, items, boundary, p.(w1 := point.value), Point(point.value));
    p, items := p.(w1 := point.value), items + [Point(point.value)];
    boundary := boundary + 64;

    point := ReadG1Point(proof, boundary, logN, p, items);
    if point.None? { return None, items; }
    Advance(proof, logN, p, items, boundary, p.(w2 := point.value), Point(point.value));
    p, items := p.(w2 := point.value), items + [Point(point.value)];
    boundary := boundary + 64;

    point := ReadG1Point(proof, boundary, logN, p, items);
    if point.None? { return None, items; }
    Advance(proof, logN, p, items, boundary, p.(w3 := point.value), Point(point.value));
    p, items := p.(w3 := point.value), items + [Point(point.value)];
    boundary := boundary + 64;

    return Some(Cursor(p, boundary)), items;
  }

  method LoadHelperCommitments(proof: seq<byte>, logN: nat, c: Cursor, ghost before: seq<Item>)
    returns (r: Option<Cursor>, ghost items: seq<Item>)
    requires |before| == 12 && Loaded(proof, logN, c.p, before, c.boundary)
    ensures r.Some? ==> |items| == 17 && Loaded(proof, logN, r.value.p, items, r.value.boundary)
    ensures r.None? ==> Hopeless(proof, logN)
  {
    hide ReadAt, PrintItems, Hopeless, Fits;
    var p, boundary := c.p, c.boundary;
    items := before;

    var point := ReadG1Point(proof, boundary, logN, p, items);
    if point.None? { return None, items; }
    Advance(proof, logN, p, items, boundary, p.(lookupReadCounts := point.value), Point(point.value));
    p, items := p.(lookupReadCounts := point.value), items + [Point(point.value)];
    boundary := boundary + 64;

    point := ReadG1Point(proof, boundary, logN, p, items);
    if point.None? { return None, items; }
    Advance(proof, logN, p, items, boundary, p.(lookupReadTags := point.value), Point(point.value));
    p, items := p.(lookupReadTags := point.value), items + [Point(point.value)];
    boundary := boundary + 64;

    point := ReadG1Point(proof, boundary, logN, p, items);
    if point.None? { return None, items; }
    Advance(proof, logN, p, items, boundary, p.(w4 := point.value), Point(point.value));
    p, items := p.(w4 := point.value), items + [Point(point.value)];
    boundary := boundary + 64;

    point := ReadG1Point(proof, boundary, logN, p, items);
    if point.None? { return None, items; }
    Advance(proof, logN, p, items, boundary, p.(lookupInverses := point.value), Point(point.value));
    p, items := p.(lookupInverses := point.value), items + [Point(point.value)];
    boundary := boundary + 64;

    point := ReadG1Point(proof, boundary, logN, p, items);
    if point.None? { return None, items; }
    Advance(proof, logN, p, items, boundary, p.(zPerm := point.value), Point(point.value));
    p, items := p.(zPerm := point.value), items + [Point(point.value)];
    boundary := boundary + 64;

    return Some(Cursor(p, boundary)), items;
  }

  method LoadLibraHead(proof: seq<byte>, logN: nat, c: Cursor, ghost before: seq<Item>)
    returns (r: Option<Cursor>, ghost items: seq<Item>)
    requires |before| == 17 && Loaded(proof, logN, c.p, before, c.boundary)
    ensures r.Some? ==> |items| == 19 && Loaded(proof, logN, r.value.p, items, r.value.boundary)
    ensures r.None? ==> Hopeless(proof, logN)
  {
    hide ReadAt, PrintItems, Hopeless, Fits;
    var p, boundary := c.p, c.boundary;
    items := before;

    var point := ReadG1Point(proof, boundary, logN, p, items);
    if point.None? { return None, items; }
    ghost var q := p;
    p := p.(libraCommitments := p.libraCommitments[0 := point.value]);
    Advance(proof, logN, q, items, boundary, p, Point(point.value));
    items := items + [Point(point.value)];
    boundary := boundary + 64;

    var scalar := ReadFr(proof, boundary, logN, p, items);
    if scalar.None? { return None, items; }
    Advance(proof, logN, p, items, boundary, p.(libraSum := scalar.value), Scalar(scalar.value));
    p, items := p.(libraSum := scalar.value), items + [Scalar(scalar.value)];
    boundary := boundary + 32;

    return Some(Cursor(p, boundary)), items;
  }

  method LoadSumcheck(proof: seq<byte>, logN: nat, c: Cursor, ghost before: seq<Item>)
    returns (r: Option<Cursor>, ghost items: seq<Item>)
    requires |before| == 19 && Loaded(proof, logN, c.p, before, c.boundary)
    ensures r.Some? ==> |items| == 61 + 9 * logN && Loaded(proof, logN, r.value.p, items, r.value.boundary)
    ensures r.None? ==> Hopeless(proof, logN)
  {
    hide ReadAt, PrintItems, Hopeless, Fits;
    var p, boundary := c.p, c.boundary;
    items := before;
    for i := 0 to logN
      invariant |items| == 19 + 9 * i && Loaded(proof, logN, p, items, boundary)
    {
      for j := 0 to ZK_BATCHED_RELATION_PARTIAL_LENGTH
        invariant |items| == 19 + 9 * i + j && Loaded(proof, logN, p, items, boundary)
      {
        var scalar := ReadFr(proof, boundary, logN, p, items);
        if scalar.None? { return None, items; }
        ghost var q := p;
        p := p.(sumcheckUnivariates := p.sumcheckUnivariates[i := p.sumcheckUnivariates[i][j := scalar.value]]);
        RowMajor(i, j);
        Advance(proof, logN, q, items, boundary, p, Scalar(scalar.value));
        items := items + [Scalar(scalar.value)];
        boundary := boundary + 32;
      }
    }
    for i := 0 to NUMBER_OF_ENTITIES_ZK
      invariant |items| == 19 + 9 * logN + i && Loaded(proof, logN, p, items, boundary)
    {
      var scalar := ReadFr(proof, boundary, logN, p, items);
      if scalar.None? { return None, items; }
      ghost var q := p;
      p := p.(sumcheckEvaluations := p.sumcheckEvaluations[i := scalar.value]);
      Advance(proof, logN, q, items, boundary, p, Scalar(scalar.value));
      items := items + [Scalar(scalar.value)];
      boundary := boundary + 32;
    }
    return Some(Cursor(p, boundary)), items;
  }

  lemma RowMajor(i: nat, j: nat)
    requires j < 9
    ensures (9 * i + j) / 9 == i && (9 * i + j) % 9 == j
    ensures forall k: nat :: k < 9 * i + j ==> k / 9 != i || k % 9 != j
  {}

  method LoadGemini(proof: seq<byte>, logN: nat, c: Cursor, ghost before: seq<Item>)
    returns (r: Option<Cursor>, ghost items: seq<Item>)
    requires |before| == 61 + 9 * logN && Loaded(proof, logN, c.p, before, c.boundary)
    ensures r.Some? ==> |items| == 63 + 10 * logN && Loaded(proof, logN, r.value.p, items, r.value.boundary)
    ensures r.None? ==> Hopeless(proof, logN)
  {
    hide ReadAt, PrintItems, Hopeless, Fits;
    var p, boundary := c.p, c.boundary;
    items := before;

    var scalar := ReadFr(proof, boundary, logN, p, items);
    if scalar.None? { return None, items; }
    Advance(proof, logN, p, items, boundary, p.(libraEvaluation := scalar.value), Scalar(scalar.value));
    p, items := p.(libraEvaluation := scalar.value), items + [Scalar(scalar.value)];
    boundary := boundary + 32;

    var point := ReadG1Point(proof, boundary, logN, p, items);
    if point.None? { return None, items; }
    ghost var q := p;
    p := p.(libraCommitments := p.libraCommitments[1 := point.value]);
    Advance(proof, logN, q, items, boundary, p, Point(point.value));
    items := items + [Point(point.value)];
    boundary := boundary + 64;

    point := ReadG1Point(proof, boundary, logN, p, items);
    if point.None? { return None, items; }
    q := p;
    p := p.(libraCommitments := p.libraCommitments[2 := point.value]);
    Advance(proof, logN, q, items, boundary, p, Point(point.value));
    items := items + [Point(point.value)];
    boundary := boundary + 64;

    for i := 0 to logN - 1
      invariant |items| == 64 + 9 * logN + i && Loaded(proof, logN, p, items, boundary)
    {
      point := ReadG1Point(proof, boundary, logN, p, items);
      if point.None? { return None, items; }
      q := p;
      p := p.(geminiFoldComms := p.geminiFoldComms[i := point.value]);
      Advance(proof, logN, q, items, boundary, p, Point(point.value));
      items := items + [Point(point.value)];
      boundary := boundary + 64;
    }
    return Some(Cursor(p, boundary)), items;
  }

  method LoadOpenings(proof: seq<byte>, logN: nat, c: Cursor, ghost before: seq<Item>)
    returns (r: Option<Cursor>, ghost items: seq<Item>)
    requires |before| == 63 + 10 * logN && Loaded(proof, logN, c.p, before, c.boundary)
    ensures r.Some? ==> |items| == ItemCount(logN) && Loaded(proof, logN, r.value.p, items, r.value.boundary)
    ensures r.None? ==> Hopeless(proof, logN)
  {
    hide ReadAt, PrintItems, Hopeless, Fits;
    var p, boundary := c.p, c.boundary;
    items := before;
    for i := 0 to logN
      invariant |items| == 63 + 10 * logN + i && Loaded(proof, logN, p, items, boundary)
    {
      var scalar := ReadFr(proof, boundary, logN, p, items);
      if scalar.None? { return None, items; }
      ghost var q := p;
      p := p.(geminiAEvaluations := p.geminiAEvaluations[i := scalar.value]);
      Advance(proof, logN, q, items, boundary, p, Scalar(scalar.value));
      items := items + [Scalar(scalar.value)];
      boundary := boundary + 32;
    }
    for i := 0 to 4
      invariant |items| == 63 + 11 * logN + i && Loaded(proof, logN, p, items, boundary)
    {
      var scalar := ReadFr(proof, boundary, logN, p, items);
      if scalar.None? { return None, items; }
      ghost var q := p;
      p := p.(libraPolyEvals := p.libraPolyEvals[i := scalar.value]);
      Advance(proof, logN, q, items, boundary, p, Scalar(scalar.value));
      items := items + [Scalar(scalar.value)];
      boundary := boundary + 32;
    }

    var point := ReadG1Point(proof, boundary, logN, p, items);
    if point.None? { return None, items; }
    Advance(proof, logN, p, items, boundary, p.(shplonkQ := point.value), Point(point.value));
    p, items := p.(shplonkQ := point.value), items + [Point(point.value)];
    boundary := boundary + 64;

    point := ReadG1Point(proof, boundary, logN, p, items);
    if point.None? { return None, items; }
    Advance(proof, logN, p, items, boundary, p.(kzgQuotient := point.value), Point(point.value));
    p, items := p.(kzgQuotient := point.value), items + [Point(point.value)];
    boundary := boundary + 64;
    return Some(Cursor(p, boundary)), items;
  }

  // loadProof returns the one valid proof whose printed form the bytes start with, and reverts
  // when there is none. It looks at exactly calculateProofSize(logN) bytes.
  method LoadProof(proof: seq<byte>, logN: nat) returns (result: Option<ZKProof>)
    requires 1 <= logN <= CONST_PROOF_SIZE_LOG_N
    ensures result.Some? ==> Valid(result.value, logN) && Print(result.value, logN) <= proof
    ensures result.Some? ==> |Print(result.value, logN)| == CalculateProofSize(logN)
    ensures result.None? ==> Hopeless(proof, logN)
  {
    hide Loaded, Hopeless, PrintItems, ItemAt, Fits;
    var c, items := LoadPairingPoints(proof, logN);
    if c.None? { return None; }
    c, items := LoadWitnessCommitments(proof, logN, c.value, items);
    if c.None? { return None; }
    c, items := LoadHelperCommitments(proof, logN, c.value, items);
    if c.None? { return None; }
    c, items := LoadLibraHead(proof, logN, c.value, items);
    if c.None? { return None; }
    c, items := LoadSumcheck(proof, logN, c.value, items);
    if c.None? { return None; }
    c, items := LoadGemini(proof, logN, c.value, items);
    if c.None? { return None; }
    c, items := LoadOpenings(proof, logN, c.value, items);
    if c.None? { return None; }
    AllLoaded(proof, logN, c.value.p, items, c.value.boundary);
    return Some(c.value.p);
  }

  lemma AllLoaded(proof: seq<byte>, logN: nat, p: ZKProof, items: seq<Item>, boundary: nat)
    requires Loaded(proof, logN, p, items, boundary) && |items| == ItemCount(logN)
    ensures Valid(p, logN) && Print(p, logN) <= proof && |Print(p, logN)| == CalculateProofSize(logN)
  {
    hide PrintItems, ItemAt, KindAt, ItemOk;
    assert Items(p, logN) == items;
    LayoutSize(p, logN);
  }

  // verify first requires the exact length; then parsing and printing are inverse to each other.
  method LoadExact(proof: seq<byte>, logN: nat) returns (result: Option<ZKProof>)
    requires 1 <= logN <= CONST_PROOF_SIZE_LOG_N
    ensures result.Some? ==> Valid(result.value, logN) && Print(result.value, logN) == proof
    ensures forall p: ZKProof :: Valid(p, logN) && Print(p, logN) == proof ==> result == Some(p)
  {
    hide PrintItems, ItemAt, Fits, ShapeOk, TailsZero;
    if |proof| != CalculateProofSize(logN) {
      forall p: ZKProof | Valid(p, logN) && Print(p, logN) == proof ensures false {
        LayoutSize(p, logN);
      }
      return None;
    }
    result := LoadProof(proof, logN);
    forall p: ZKProof | Valid(p, logN) && Print(p, logN) == proof ensures result == Some(p) {
      assert Print(p, logN) <= proof;
      assert result.Some?;
      assert Print(result.value, logN) == proof;
      PrintInjective(p, result.value, logN);
    }
  }
}
