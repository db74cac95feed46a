/** What the object identifiers of the writer stand for (X.690, section 8.19). */
module Oids {
  import opened Contexts
  import opened CertTrees

  /** The number that subidentifier `k` holds: the first one, numbered 1, holds two arcs. */
  function Subid(arcs: seq<nat>, k: nat): nat
    requires 1 <= k < |arcs|
  {
    if k == 1 then 40 * arcs[0] + arcs[1] else arcs[k]
  }

  /** From byte `i` on come the arcs from `k` on, seven bits a byte, the first of them begun with `acc`; no padding. */
  predicate Spells(b: seq<u8>, i: nat, acc: nat, arcs: seq<nat>, k: nat)
    requires i <= |b| && 1 <= k
    decreases |b| - i
  {
    if i == |b| then acc == 0 && k == |arcs|
    else if b[i] >= 0x80 then (acc == 0 ==> b[i] > 0x80) && Spells(b, i + 1, 0x80 * acc + (b[i] - 0x80), arcs, k)
    else k < |arcs| && Subid(arcs, k) == 0x80 * acc + b[i] && Spells(b, i + 1, 0, arcs, k + 1)
  }

  /** The content bytes `b` are those of the identifier with these arcs. */
  predicate IsOid(b: seq<u8>, arcs: seq<nat>) {
    && |arcs| >= 2 && arcs[0] <= 2 && (arcs[0] < 2 ==> arcs[1] < 40)
    && Spells(b, 0, 0, arcs, 1)
  }

  // One lemma for each identifier, with its dotted form.

  /** tcg-dice-MultiTcbInfo */
  lemma MultiTcbInfoOid()
    ensures IsOid(MULTI_TCBINFO_OID, [2, 23, 133, 5, 4, 5])
  {
    var b, arcs := MULTI_TCBINFO_OID, [2, 23, 133, 5, 4, 5];
    assert Spells(b, 4, 0, arcs, 4);
    assert Spells(b, 2, 1, arcs, 2);
  }

  /** tcg-dice-Ueid */
  lemma UeidOid()
    ensures IsOid(UEID_OID, [2, 23, 133, 5, 4, 4])
  {
    var b, arcs := UEID_OID, [2, 23, 133, 5, 4, 4];
    assert Spells(b, 4, 0, arcs, 4);
    assert Spells(b, 2, 1, arcs, 2);
  }

  /** tcg-dice-kp-eca */
  lemma EcaOid()
    ensures IsOid(ECA_OID, [2, 23, 133, 5, 4, 100, 12])
  {
    var b, arcs := ECA_OID, [2, 23, 133, 5, 4, 100, 12];
    assert Spells(b, 5, 0, arcs, 5);
    assert Spells(b, 3, 0, arcs, 3);
    assert Spells(b, 1, 0, arcs, 2);
  }

  /** tcg-dice-kp-attestLoc */
  lemma AttestLocOid()
    ensures IsOid(ATTEST_LOC_OID, [2, 23, 133, 5, 4, 100, 9])
  {
    var b, arcs := ATTEST_LOC_OID, [2, 23, 133, 5, 4, 100, 9];
    assert Spells(b, 5, 0, arcs, 5);
    assert Spells(b, 3, 0, arcs, 3);
    assert Spells(b, 1, 0, arcs, 2);
  }

  /** id-signedData (RFC 5652, section 5.1) */
  lemma SignedDataOid()
    ensures IsOid(ID_SIGNED_DATA_OID, [1, 2, 840, 113549, 1, 7, 2])
  {
    var b, arcs := ID_SIGNED_DATA_OID, [1, 2, 840, 113549, 1, 7, 2];
    assert Spells(b, 7, 0, arcs, 5);
    assert Spells(b, 5, 887, arcs, 3);
    assert Spells(b, 3, 0, arcs, 3);
    assert Spells(b, 1, 0, arcs, 2);
  }

  /** id-data (RFC 5652, section 4) */
  lemma DataOid()
    ensures IsOid(ID_DATA_OID, [1, 2, 840, 113549, 1, 7, 1])
  {
    var b, arcs := ID_DATA_OID, [1, 2, 840, 113549, 1, 7, 1];
    assert Spells(b, 7, 0, arcs, 5);
    assert Spells(b, 5, 887, arcs, 3);
    assert Spells(b, 3, 0, arcs, 3);
    assert Spells(b, 1, 0, arcs, 2);
  }

  /** extensionRequest (RFC 2985, section 5.4.2) */
  lemma ExtensionRequestOid()
    ensures IsOid(EXTENSION_REQUEST_OID, [1, 2, 840, 113549, 1, 9, 14])
  {
    var b, arcs := EXTENSION_REQUEST_OID, [1, 2, 840, 113549, 1, 9, 14];
    assert Spells(b, 7, 0, arcs, 5);
    assert Spells(b, 5, 887, arcs, 3);
    assert Spells(b, 3, 0, arcs, 3);
    assert Spells(b, 1, 0, arcs, 2);
  }

  /** ecdsa-with-SHA256 */
  lemma EcdsaSha256Oid()
    ensures IsOid(SigOid(P256Sha256), [1, 2, 840, 10045, 4, 3, 2])
  {
    var b, arcs := SigOid(P256Sha256), [1, 2, 840, 10045, 4, 3, 2];
    assert Spells(b, 6, 0, arcs, 5);
    assert Spells(b, 4, 78, arcs, 3);
    assert Spells(b, 2, 6, arcs, 2);
  }

  /** ecdsa-with-SHA384 */
  lemma EcdsaSha384Oid()
    ensures IsOid(SigOid(P384Sha384), [1, 2, 840, 10045, 4, 3, 3])
  {
    var b, arcs := SigOid(P384Sha384), [1, 2, 840, 10045, 4, 3, 3];
    assert Spells(b, 6, 0, arcs, 5);
    assert Spells(b, 4, 78, arcs, 3);
    assert Spells(b, 2, 6, arcs, 2);
  }

  /** id-ml-dsa-87 */
  lemma Mldsa87Oid()
    ensures IsOid(SigOid(Mldsa87), [2, 16, 840, 1, 101, 3, 4, 3, 19])
  {
    var b, arcs := SigOid(Mldsa87), [2, 16, 840, 1, 101, 3, 4, 3, 19];
    assert Spells(b, 7, 0, arcs, 7);
    assert Spells(b, 5, 0, arcs, 5);
    assert Spells(b, 3, 0, arcs, 3);
    assert Spells(b, 1, 0, arcs, 2);
  }

  /** id-sha256 */
  lemma Sha256Oid()
    ensures IsOid(HashOid(P256Sha256), [2, 16, 840, 1, 101, 3, 4, 2, 1])
  {
    var b, arcs := HashOid(P256Sha256), [2, 16, 840, 1, 101, 3, 4, 2, 1];
    assert Spells(b, 7, 0, arcs, 7);
    assert Spells(b, 5, 0, arcs, 5);
    assert Spells(b, 3, 0, arcs, 3);
    assert Spells(b, 1, 0, arcs, 2);
  }

  /** id-sha384, which also goes with ML-DSA-87 */
  lemma Sha384Oid()
    ensures IsOid(HashOid(P384Sha384), [2, 16, 840, 1, 101, 3, 4, 2, 2]) && HashOid(Mldsa87) == HashOid(P384Sha384)
  {
    var b, arcs := HashOid(P384Sha384), [2, 16, 840, 1, 101, 3, 4, 2, 2];
    assert Spells(b, 7, 0, arcs, 7);
    assert Spells(b, 5, 0, arcs, 5);
    assert Spells(b, 3, 0, arcs, 3);
    assert Spells(b, 1, 0, arcs, 2);
  }

  /** id-ecPublicKey */
  lemma EcPublicKeyOid()
    ensures IsOid(EC_PUB_OID, [1, 2, 840, 10045, 2, 1])
  {
    var b, arcs := EC_PUB_OID, [1, 2, 840, 10045, 2, 1];
    assert Spells(b, 5, 0, arcs, 4);
    assert Spells(b, 3, 0, arcs, 3);
    assert Spells(b, 1, 0, arcs, 2);
  }

  /** prime256v1 */
  lemma Prime256Oid(key: PubKey)
    requires key.Ecdsa256Key?
    ensures IsOid(CurveOid(key), [1, 2, 840, 10045, 3, 1, 7])
  {
    var b, arcs := CurveOid(key), [1, 2, 840, 10045, 3, 1, 7];
    assert Spells(b, 6, 0, arcs, 5);
    assert Spells(b, 4, 78, arcs, 3);
    assert Spells(b, 2, 6, arcs, 2);
  }

  /** secp384r1 */
  lemma Secp384Oid(key: PubKey)
    requires key.Ecdsa384Key?
    ensures IsOid(CurveOid(key), [1, 3, 132, 0, 34])
  {
    var b, arcs := CurveOid(key), [1, 3, 132, 0, 34];
    assert Spells(b, 3, 0, arcs, 3);
    assert Spells(b, 1, 0, arcs, 2);
  }

  /** The extensions of RFC 5280, section 4.2.1. */
  lemma PkixOids()
    ensures IsOid(BASIC_CONSTRAINTS_OID, [2, 5, 29, 19]) && IsOid(KEY_USAGE_OID, [2, 5, 29, 15])
    ensures IsOid(EXTENDED_KEY_USAGE_OID, [2, 5, 29, 37]) && IsOid(SUBJECT_KEY_IDENTIFIER_OID, [2, 5, 29, 14])
    ensures IsOid(AUTHORITY_KEY_IDENTIFIER_OID, [2, 5, 29, 35]) && IsOid(SUBJECT_ALTERNATIVE_NAME_OID, [2, 5, 29, 17])
  {}

  /** The two attributes of a name: id-at-commonName and id-at-serialNumber. */
  lemma NameOids()
    ensures IsOid(RDN_COMMON_NAME_OID, [2, 5, 4, 3]) && IsOid(RDN_SERIALNUMBER_OID, [2, 5, 4, 5])
  {}
}
