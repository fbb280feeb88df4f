/** How the executor turns a string id into the contract's bytes32 id (internal/txmanager/executor.go). */
module ClaimEncoding {
  import opened Core

  /** Copies the id into a zeroed 32-byte array: longer ids are cut, shorter ones padded. */
  function EncodeId(id: IntentId): Word {
    seq(32, i requires 0 <= i < 32 => if i < |id| then id[i] else 0)
  }

  /** A byte string without its trailing zero bytes. */
  function Trimmed(b: Bytes): (t: Bytes)
    ensures t <= b
    ensures forall i | |t| <= i < |b| :: b[i] == 0
    ensures t != [] ==> t[|t| - 1] != 0
  {
    if b != [] && b[|b| - 1] == 0 then Trimmed(b[..|b| - 1]) else b
  }

  /** The part of an id that survives the encoding. */
  function Significant(id: IntentId): Bytes {
    Trimmed(if |id| <= 32 then id else id[..32])
  }

  lemma TrimmedIsUnique(b: Bytes, t: Bytes)
    requires t <= b && (forall i | |t| <= i < |b| :: b[i] == 0) && (t != [] ==> t[|t| - 1] != 0)
    ensures t == Trimmed(b)
  {
    var u := Trimmed(b);
    assert u != [] ==> b[|u| - 1] != 0;
    assert t != [] ==> b[|t| - 1] != 0;
    assert |t| == |u|;
    assert t == b[..|t|] == u;
  }

  /** What can be read back from a claim id is exactly the significant part. */
  lemma DecodeAfterEncode(id: IntentId)
    ensures Trimmed(EncodeId(id)) == Significant(id)
  {
    var cut := if |id| <= 32 then id else id[..32];
    assert cut <= EncodeId(id);
    TrimmedIsUnique(EncodeId(id), Trimmed(cut));
  }

  /** Nothing is lost iff the id has at most 32 bytes and does not end in a NUL. */
  lemma EncodingIsLosslessIff(id: IntentId)
    ensures Trimmed(EncodeId(id)) == id <==> |id| <= 32 && (id == [] || id[|id| - 1] != 0)
  {
    DecodeAfterEncode(id);
  }

  /** The exact collision class: two ids share a claim id iff their significant parts agree. */
  lemma SameClaimIdIff(a: IntentId, b: IntentId)
    ensures EncodeId(a) == EncodeId(b) <==> Significant(a) == Significant(b)
  {
    DecodeAfterEncode(a);
    DecodeAfterEncode(b);
    if Significant(a) == Significant(b) {
      var t, x, y := Significant(a), EncodeId(a), EncodeId(b);
      assert t <= x && t <= y;
      assert forall i | 0 <= i < 32 :: x[i] == if i < |t| then t[i] else 0;
      assert forall i | 0 <= i < 32 :: y[i] == if i < |t| then t[i] else 0;
    }
  }

  /** On ids of at most 32 bytes that do not end in a NUL the encoding is injective. */
  lemma ShortIdsDoNotCollide(a: IntentId, b: IntentId)
    requires |a| <= 32 && (a == [] || a[|a| - 1] != 0)
    requires |b| <= 32 && (b == [] || b[|b| - 1] != 0)
    requires EncodeId(a) == EncodeId(b)
    ensures a == b
  {
    EncodingIsLosslessIff(a);
    EncodingIsLosslessIff(b);
  }

  // ---- the recommended id format ------------------------------------------------------------------

  predicate IsHexDigit(b: Byte) {
    48 <= b <= 57 || 65 <= b <= 70 || 97 <= b <= 102
  }

  /** The 36-character text form of section 4 of RFC 9562: hyphens at 8, 13, 18 and 23, hex digits elsewhere. */
  predicate IsUuidText(id: IntentId) {
    && |id| == 36
    && forall i | 0 <= i < 36 :: if i in {8, 13, 18, 23} then id[i] == 45 else IsHexDigit(id[i])
  }

  /** Only the first 32 of the 36 characters reach the contract. */
  lemma UuidsCollideIff(a: IntentId, b: IntentId)
    requires IsUuidText(a) && IsUuidText(b)
    ensures EncodeId(a) == EncodeId(b) <==> a[..32] == b[..32]
  {
    assert EncodeId(a) == a[..32] && EncodeId(b) == b[..32];
  }

  /** Every UUID shares its claim id with another UUID, while the auctions of the two stay distinct. */
  lemma EveryUuidCollides(a: IntentId) returns (b: IntentId)
    requires IsUuidText(a)
    ensures IsUuidText(b) && a != b && EncodeId(a) == EncodeId(b)
  {
    b := a[35 := if a[35] == 48 then 49 else 48];
    assert a[35] != b[35];
    assert a[..32] == b[..32];
    UuidsCollideIff(a, b);
  }
}
