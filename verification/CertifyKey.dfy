/** CertifyKey as a whole: the document is written behind the header, then the handle is rolled, then the header is
    written. */
module KeyCertificates {
  import opened Bitmap
  import opened Contexts
  import opened Forest
  import opened States
  import opened Commands
  import opened ResponseBuffers
  import opened Der
  import opened CertTrees
  import opened CertForms
  import opened CertTheorems
  import opened CertReader
  import opened CertContents
  import opened RootToChild
  import opened Generate
  import opened Instance

  /** What key derivation and platform supply for the document. */
  datatype Supplies = Supplies(
    profile: Profile,
    crit: bool,
    sign: Signer,
    issuerName: seq<u8>,
    name: Name,
    key: PubKey,
    validity: CertValidity,
    sid: SignerIdentifier,
    ueid: seq<u8>,
    ski: seq<u8>,
    aki: seq<u8>,
    san: Option<OtherName>)

  /** A leaf document reports the nodes of the named context. */
  function LeafData(st: State, i: nat, s: Supplies): MeasurementData {
    MeasurementData(st.contexts, i, s.ueid, false, st.support.recursive, s.ski, s.aki, s.san)
  }

  /** The document for slot `i`: a certificate or a CMS message. */
  ghost function Document(st: State, i: nat, format: u32, s: Supplies): Option<seq<u8>>
    requires LeafData(st, i, s).Valid()
  {
    var m := LeafData(st, i, s);
    if format != 0 then CmsBytes(s.profile, s.crit, s.sign, CertReqInfo(s.key, s.name, m), s.sid)
    else if |s.name.serial.bytes| < SERIAL_SIZE then None
    else SignedBytes(s.profile, s.crit, s.sign,
        Tbs(s.name.serial.bytes[..SERIAL_SIZE], s.issuerName, s.name, s.key, m, s.validity))
  }

  lemma LeafValid(st: State, handle: Handle, format: u32, locality: u32, s: Supplies)
    requires WellFormed(st) && Certifiable(st, handle, format, locality).Ok?
    ensures LeafData(st, Certifiable(st, handle, format, locality).value, s).Valid()
  {
    hide WellFormed, FirstMatch, LocalityInUse, Rooted;
    WellFormedForest(st);
    ActivePosFacts(st.contexts, handle, locality);
    LiveRooted(st.contexts, Certifiable(st, handle, format, locality).value);
  }

  lemma DocumentNotEmpty(st: State, i: nat, format: u32, s: Supplies)
    requires LeafData(st, i, s).Valid() && Document(st, i, format, s).Some?
    ensures Document(st, i, format, s).value != []
  {
    hide MeasurementData.Valid, CmsBody, PayloadBytes, LengthBytes, EncAll, SigTrees, Enc;
  }

  /** What the document tells of: the contexts from the root down to the one that the handle names, and the subject's
      key and name. A CMS message carries it in a CSR. */
  ghost predicate TellsOf(b: seq<u8>, cs: seq<Context>, i: nat, recursive: bool, format: u32, s: Supplies)
    requires Rooted(cs, i)
  {
    var body := SignedPart(if format == 0 then b else Carried(SignedData(b)));
    && TcbsTell(Tcbs(if format == 0 then CertificateExtensions(body) else RequestedExtensions(body)), s.profile,
                Lineage(cs, i), recursive)
    && KeyTells(Kid(body, 0x30, if format == 0 then 6 else 2), s.profile, s.key)
    && NameTells(Kid(body, 0x30, if format == 0 then 5 else 1), s.name)
    && (format == 0 ==> |s.name.serial.bytes| >= SERIAL_SIZE
                        && Number(Kid(body, 0x30, 1)) == Value(s.name.serial.bytes[..SERIAL_SIZE]))
  }

  lemma DocumentTells(st: State, handle: Handle, format: u32, locality: u32, s: Supplies, issuer: Tlv)
    requires WellFormed(st) && Certifiable(st, handle, format, locality).Ok?
    requires var i := Certifiable(st, handle, format, locality).value;
             var m := LeafData(st, i, s);
             m.Valid() && Document(st, i, format, s).Some? && Sized(m) && WidthsMatch(m)
    requires if format == 0 then WellTagged(issuer) && s.issuerName == Enc(issuer) else SidIssuerIs(s.sid, issuer)
    ensures var pos := ActivePos(st.contexts, handle, locality);
            && pos.Ok? && Rooted(st.contexts, pos.value)
            && var doc := Document(st, pos.value, format, s).value;
               TellsOf(doc, st.contexts, pos.value, st.support.recursive, format, s)
  {
    hide WellFormed, Sized, WidthsMatch, SignedBytes, CmsBytes, CmsTells, Lineage, TcbsTell, Tcbs, OthersTell, Critical;
    hide Rooted, ActivePos, SignatureStands, Carried, SignedData, SignedPart, KeyTells, NameTells, WellTagged, Enc;
    var i := Certifiable(st, handle, format, locality).value;
    var m := LeafData(st, i, s);
    if format == 0 {
      SignedRead(s.profile, s.crit, s.sign,
          Tbs(s.name.serial.bytes[..SERIAL_SIZE], s.issuerName, s.name, s.key, m, s.validity), issuer);
    } else {
      CmsRead(s.profile, s.crit, s.sign, CertReqInfo(s.key, s.name, m), s.sid, issuer);
    }
  }

  /** Either kind of document, in a view that starts behind the header. */
  method GenerateDocument(view: ResponseBuffer, format: u32, s: Supplies, m: MeasurementData, ghost st: State,
      ghost i: nat)
      returns (r: Result<u32, Error>)
    requires m == LeafData(st, i, s) && m.Valid()
    modifies view.data
    ensures view.Outside() == old(view.Outside())
    ensures var doc := Document(st, i, format, s);
            && (r.Ok? <==> doc.Some? && |doc.value| <= view.Capacity())
            && (r.Ok? ==> r.value == |doc.value| && view.View()[..r.value] == doc.value)
  {
    hide MeasurementData.Valid, CmsBytes, SignedBytes, SignedReadsBack, CmsReadsBack, Sized, SidIssuerIs;
    ghost var deepest;
    if format == 0 {
      r, deepest := GenerateCertificate(view, s.profile, s.crit, s.sign, s.issuerName, s.name, s.key, m, s.validity);
    } else {
      r, deepest := GenerateCms(view, s.profile, s.crit, s.sign, s.name, s.key, m, s.sid);
    }
  }

  method WriteHeader(out: array<u8>, header: seq<u8>)
    requires |header| <= out.Length
    modifies out
    ensures out[..|header|] == header && out[|header|..] == old(out[|header|..])
  {
    var whole := new ResponseBuffer(out, 0);
    var w := whole.WriteAt(0, header);
    assert whole.View() == out[..] && old(out[..])[|header|..] == old(out[|header|..]);
  }

  lemma BehindHeader(t: seq<u8>, from: nat, n: nat)
    requires from + n <= |t|
    ensures t[from..from + n] == t[from..][..n]
  {}

  /** Succeeds only with header and document side by side; a failure leaves the state and the header's room as they
      were, so the handle is rolled only once the document is written. */
  method CertifyKeyInto(dpe: Dpe, out: array<u8>, headerSize: nat, header: (Handle, nat) -> seq<u8>, s: Supplies,
                        handle: Handle, format: u32, locality: u32)
      returns (r: Result<Response, Error>, ghost cert: Result<nat, Error>)
    requires dpe.Valid() && forall h, n :: |header(h, n)| == headerSize
    modifies dpe`drawn, dpe.contexts, out
    ensures Outcome(dpe.Now(), r) == CertifyKey(dpe.env, old(dpe.Now()), handle, format, cert, locality, true)
    ensures var st := old(dpe.Now()).st;
            var pos := Certifiable(st, handle, format, locality);
            pos.Ok? ==>
              && LeafData(st, pos.value, s).Valid()
              && var doc := Document(st, pos.value, format, s);
              && (cert.Ok? <==> doc.Some? && headerSize + |doc.value| <= out.Length)
              && (r.Ok? ==>
                    && cert == Ok(|doc.value|) && headerSize + |doc.value| <= out.Length
                    && r.value.CertifyKeyResp? && r.value.certSize == |doc.value|
                    && out[..headerSize] == header(r.value.handle, |doc.value|)
                    && out[headerSize..headerSize + |doc.value|] == doc.value)
    ensures r.Err? ==> dpe.Now().st == old(dpe.Now()).st
    ensures r.Err? ==> var room := if headerSize <= out.Length then headerSize else out.Length;
                       out[..room] == old(out[..])[..room]
  {
    hide WellFormed, MeasurementData.Valid, Document, Certifiable, RolledHandle, NewHandle;
    cert := Err(Certificate);
    ghost var st := dpe.Now().st;
    var pos := dpe.CheckCertifyKey(handle, format, locality);
    if pos.Err? {
      return Err(pos.error), cert;
    }
    LeafValid(st, handle, format, locality, s);
    var i := pos.value;
    ghost var room := if headerSize <= out.Length then headerSize else out.Length;
    var view := new ResponseBuffer(out, headerSize);
    assert view.Outside() == out[..room] && out.Length - view.Capacity() == room;
    var m := MeasurementData(dpe.contexts[..], i, s.ueid, false, dpe.support.recursive, s.ski, s.aki, s.san);
    var n := GenerateDocument(view, format, s, m, st, i);
    assert out[..room] == view.Outside() && out[room..] == view.View();
    if n.Err? {
      cert := Err(n.error);
      return Err(n.error), cert;
    }
    cert := Ok(n.value);
    ghost var doc := Document(st, i, format, s).value;
    DocumentNotEmpty(st, i, format, s);
    BehindHeader(out[..], headerSize, n.value);
    var c := dpe.RollOnetimeUseHandle(dpe.contexts[i]);
    if c.Err? {
      return Err(c.error), cert;
    }
    dpe.Store(i, c.value);
    WriteHeader(out, header(c.value.handle, n.value));
    BehindHeader(out[..], headerSize, n.value);
    return Ok(CertifyKeyResp(c.value.handle, n.value)), cert;
  }
}
