// Non-standard packed encoding (Solidity ABI specification, "Non-standard Packed Mode"): every
// value in the width of its type, most significant byte first, with nothing in between.
module Packed {
  import opened Bytes

  function Total(widths: seq<nat>): nat {
    if widths == [] then 0 else widths[0] + Total(widths[1..])
  }

  // Every value is in the range of its type.
  ghost predicate InRange(widths: seq<nat>, values: seq<nat>) {
    |widths| == |values| && forall i :: 0 <= i < |values| ==> values[i] < Pow256(widths[i])
  }

  function EncodePacked(widths: seq<nat>, values: seq<nat>): seq<byte>
    requires |widths| == |values|
  {
    if widths == [] then [] else ToBytes(values[0], widths[0]) + EncodePacked(widths[1..], values[1..])
  }

  function DecodePacked(widths: seq<nat>, s: seq<byte>): seq<nat>
    requires |s| == Total(widths)
  {
    if widths == [] then [] else [FromBytes(s[..widths[0]])] + DecodePacked(widths[1..], s[widths[0]..])
  }

  lemma {:induction false} EncodedLength(widths: seq<nat>, values: seq<nat>)
    requires |widths| == |values|
    ensures |EncodePacked(widths, values)| == Total(widths)
  {
    if widths != [] { EncodedLength(widths[1..], values[1..]); }
  }

  // Values in range are read back, so equal encodings mean equal values.
  lemma {:induction false} DecodeEncoded(widths: seq<nat>, values: seq<nat>)
    requires InRange(widths, values)
    ensures |EncodePacked(widths, values)| == Total(widths)
    ensures DecodePacked(widths, EncodePacked(widths, values)) == values
  {
    hide ToBytes, FromBytes, Pow256;
    EncodedLength(widths, values);
    if widths != [] {
      var s := EncodePacked(widths, values);
      assert s[..widths[0]] == ToBytes(values[0], widths[0]);
      assert s[widths[0]..] == EncodePacked(widths[1..], values[1..]);
      FromToBytes(values[0], widths[0]);
      DecodeEncoded(widths[1..], values[1..]);
    }
  }

  // Every byte string of the right length is the encoding of what it decodes to.
  lemma {:induction false} EncodeDecoded(widths: seq<nat>, s: seq<byte>)
    requires |s| == Total(widths)
    ensures InRange(widths, DecodePacked(widths, s))
    ensures EncodePacked(widths, DecodePacked(widths, s)) == s
  {
    hide ToBytes, FromBytes, Pow256;
    if widths != [] {
      ToFromBytes(s[..widths[0]]);
      EncodeDecoded(widths[1..], s[widths[0]..]);
      var values := DecodePacked(widths, s);
      assert values[1..] == DecodePacked(widths[1..], s[widths[0]..]);
      assert s == s[..widths[0]] + s[widths[0]..];
    }
  }

  lemma EncodeInjective(widths: seq<nat>, values: seq<nat>, others: seq<nat>)
    requires InRange(widths, values) && InRange(widths, others)
    requires EncodePacked(widths, values) == EncodePacked(widths, others)
    ensures values == others
  {
    DecodeEncoded(widths, values);
    DecodeEncoded(widths, others);
  }

  // Value i is read from the bytes that end where the later values start.
  lemma {:induction false} DecodedAt(widths: seq<nat>, s: seq<byte>, i: nat)
    requires |s| == Total(widths) && i < |widths|
    ensures |DecodePacked(widths, s)| == |widths| && Total(widths[i + 1..]) + widths[i] <= |s|
    ensures var end := |s| - Total(widths[i + 1..]);
      DecodePacked(widths, s)[i] == FromBytes(s[end - widths[i]..end])
    decreases |widths|
  {
    hide FromBytes;
    var rest := s[widths[0]..];
    if i == 0 {
      EncodeDecoded(widths, s);
      assert s[..widths[0]] == s[0..widths[0]];
    } else {
      DecodedAt(widths[1..], rest, i - 1);
      assert widths[1..][i..] == widths[i + 1..];
      var end := |s| - Total(widths[i + 1..]);
      assert s[end - widths[i]..end] == rest[end - widths[i] - widths[0]..end - widths[0]];
    }
  }
}
