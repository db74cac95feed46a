/** From a fresh writer to the finished document, and back through the parser. */
module Generate {
  import opened Bitmap
  import opened Contexts
  import opened ResponseBuffers
  import opened Der
  import opened CertTrees
  import opened CertForms
  import opened CertTheorems
  import opened CertReader
  import opened CertContents
  import opened CertWriters

  const SERIAL_SIZE := 20

  /** The parser finds the certificate or CSR in `b`, and nothing behind it. */
  ghost predicate SignedReadsBack(p: Profile, crit: bool, sign: Signer, payload: SignedPayload, issuer: Tlv, b: seq<u8>)
    requires payload.m.Valid()
  {
    exists sig :: Some(sig) == SignatureOver(sign, PayloadBytes(p, crit, payload), payload.CertReqInfo?)
                  && Parse(b) == Some((SignedTree(p, crit, payload, issuer, sig), []))
  }

  /** A text is the DER encoding of something. */
  ghost predicate Encodes(b: seq<u8>) {
    exists t :: WellTagged(t) && b == Enc(t)
  }

  function SignatureOver(sign: Signer, b: Option<seq<u8>>, derived: bool): Option<Signature> {
    if b.None? then None else sign(b.value, derived)
  }

  lemma SignedRoundTrip(p: Profile, crit: bool, sign: Signer, payload: SignedPayload, issuer: Tlv)
    requires payload.m.Valid() && Sized(payload.m) && IssuerIs(payload, issuer)
        && SignedBytes(p, crit, sign, payload).Some?
    ensures SignedReadsBack(p, crit, sign, payload, issuer, SignedBytes(p, crit, sign, payload).value) <==>
        WidthsMatch(payload.m)
  {
    hide PayloadBytes, SignedTree, Parse, WidthsMatch, MeasurementData.Valid, EncAll, SigTrees, IssuerIs, Sized;
    SignedFaithful(p, crit, sign, payload, issuer);
    var sig := SignatureOver(sign, PayloadBytes(p, crit, payload), payload.CertReqInfo?).value;
    assert Some(sig) == SignatureOver(sign, PayloadBytes(p, crit, payload), payload.CertReqInfo?);
  }

  /** What a fresh writer has delivered lies at the start of the view. */
  lemma Delivered(w: CertWriter, outside: seq<u8>, range: Option<(nat, nat)>, spec: Option<seq<u8>>, depth: nat,
      r: Result<nat, Error>)
    requires depth <= MAX_BACKTRACKS && w.Delivers(Draft([], [], range, outside, 0), spec, depth, r)
    ensures w.certificate.Outside() == outside
    ensures r.Ok? <==> spec.Some? && |spec.value| <= w.certificate.Capacity()
    ensures r.Ok? ==>
      && r.value == |spec.value| && w.certificate.View()[..r.value] == spec.value
      && w.backtracks == [] && w.savedOffset == None && w.offset == r.value && w.deepest == depth
    ensures r.Err? ==> r.error == CertSizeOverflow || (spec.None? && r.error in {X509InvalidWidth, Crypto})
  {
    assert r.Ok? ==> [] + spec.value == spec.value;
  }

  /** The certificate of a subject: the serial number is the start of the subject's own, if that is long enough.
      Success depends on the document and the room for it alone, and what was written is read back as its tree
      exactly when the SVN widths match. At most two sizes are open at once. */
  method GenerateCertificate(buf: ResponseBuffer, p: Profile, crit: bool, sign: Signer, issuerName: seq<u8>, name: Name,
                             key: PubKey, m: MeasurementData, validity: CertValidity)
      returns (r: Result<u32, Error>, ghost deepest: nat)
    requires m.Valid()
    modifies buf.data
    ensures buf.Outside() == old(buf.Outside())
    ensures |name.serial.bytes| < SERIAL_SIZE ==> r == Err(SerialNumberSliceOob) && buf.View() == old(buf.View())
    ensures |name.serial.bytes| >= SERIAL_SIZE ==>
      var spec := SignedBytes(p, crit, sign, Tbs(name.serial.bytes[..SERIAL_SIZE], issuerName, name, key, m, validity));
      && (r.Ok? <==> spec.Some? && |spec.value| <= buf.Capacity())
      && (r.Ok? ==> r.value == |spec.value| && buf.View()[..r.value] == spec.value && deepest == 2)
      && (r.Err? ==> r.error == CertSizeOverflow || (spec.None? && r.error in {X509InvalidWidth, Crypto}))
    ensures r.Ok? && Sized(m) ==>
      forall issuer :: WellTagged(issuer) && issuerName == Enc(issuer) ==>
        (SignedReadsBack(p, crit, sign, Tbs(name.serial.bytes[..SERIAL_SIZE], issuerName, name, key, m, validity),
            issuer, buf.View()[..r.value])
         <==> WidthsMatch(m))
    ensures r.Ok? && Sized(m) && WidthsMatch(m) && Encodes(issuerName) ==>
      SignedTells(buf.View()[..r.value], p, crit, sign,
                  Tbs(name.serial.bytes[..SERIAL_SIZE], issuerName, name, key, m, validity))
  {
    hide MeasurementData.Valid, SignedBytes, SignedReadsBack, Sized, WellTagged, WidthsMatch, SignedTells;
    deepest := 0;
    var w := new CertWriter(buf, p, crit);
    if |name.serial.bytes| < SERIAL_SIZE {
      return Err(SerialNumberSliceOob), 0;
    }
    var payload := Tbs(name.serial.bytes[..SERIAL_SIZE], issuerName, name, key, m, validity);
    ghost var d, spec := w.Now(), SignedBytes(p, crit, sign, payload);
    var n := w.EncodeSigned(sign, payload);
    Delivered(w, d.outside, None, spec, 2, n);
    if n.Err? {
      return Err(n.error), 0;
    }
    SignedShort(p, crit, sign, payload);
    forall issuer | Sized(m) && WellTagged(issuer) && issuerName == Enc(issuer)
      ensures SignedReadsBack(p, crit, sign, payload, issuer, spec.value) <==> WidthsMatch(m)
    {
      SignedRoundTrip(p, crit, sign, payload, issuer);
    }
    forall issuer | Sized(m) && WidthsMatch(m) && WellTagged(issuer) && issuerName == Enc(issuer)
      ensures SignedTells(spec.value, p, crit, sign, payload)
    {
      SignedRead(p, crit, sign, payload, issuer);
    }
    return Ok(n.value), w.deepest;
  }

  /** The CMS message around a CSR. Eight sizes are open at once; the stack holds ten. */
  method GenerateCms(buf: ResponseBuffer, p: Profile, crit: bool, sign: Signer, name: Name, key: PubKey,
                     m: MeasurementData, sid: SignerIdentifier)
      returns (r: Result<u32, Error>, ghost deepest: nat)
    requires m.Valid()
    modifies buf.data
    ensures buf.Outside() == old(buf.Outside())
    ensures var spec := CmsBytes(p, crit, sign, CertReqInfo(key, name, m), sid);
            && (r.Ok? <==> spec.Some? && |spec.value| <= buf.Capacity())
            && (r.Ok? ==> r.value == |spec.value| && buf.View()[..r.value] == spec.value && deepest == 8)
            && (r.Err? ==> r.error == CertSizeOverflow || (spec.None? && r.error in {X509InvalidWidth, Crypto}))
    ensures r.Ok? ==>
      forall issuer :: SidIssuerIs(sid, issuer) ==>
        CmsReadsBack(p, crit, sign, CertReqInfo(key, name, m), sid, issuer, buf.View()[..r.value])
    ensures r.Ok? && (exists issuer :: SidIssuerIs(sid, issuer)) ==>
      var csr := Carried(SignedData(buf.View()[..r.value]));
      && CmsTells(buf.View()[..r.value], p, sign, sid, csr)
      && (Sized(m) && WidthsMatch(m) ==> SignedTells(csr, p, crit, sign, CertReqInfo(key, name, m)))
  {
    hide MeasurementData.Valid, CmsBytes, CmsReadsBack, SidIssuerIs, Sized, WidthsMatch, SignedTells, CmsTells, Carried;
    hide SignedData;
    var w := new CertWriter(buf, p, crit);
    var payload := CertReqInfo(key, name, m);
    ghost var d, spec := w.Now(), CmsBytes(p, crit, sign, payload, sid);
    var n := w.EncodeCms(sign, payload, sid);
    Delivered(w, d.outside, w.csrRange, spec, 8, n);
    if n.Err? {
      return Err(n.error), 0;
    }
    CmsShort(p, crit, sign, payload, sid);
    forall issuer | SidIssuerIs(sid, issuer)
      ensures CmsReadsBack(p, crit, sign, payload, sid, issuer, spec.value)
    {
      CmsFaithful(p, crit, sign, payload, sid, issuer);
    }
    forall issuer | SidIssuerIs(sid, issuer)
      ensures var csr := Carried(SignedData(spec.value));
              && CmsTells(spec.value, p, sign, sid, csr)
              && (Sized(m) && WidthsMatch(m) ==> SignedTells(csr, p, crit, sign, payload))
    {
      CmsRead(p, crit, sign, payload, sid, issuer);
    }
    return Ok(n.value), w.deepest;
  }
}
