/** Whole certificates, CSRs and CMS messages: the bytes the writer lays down, and the trees they should encode. */
module CertForms {
  import opened Bitmap
  import opened Contexts
  import opened RootToChild
  import opened Der
  import opened CertTrees

  // ----- the MultiTcbInfo extension -----

  function Times(n: nat, size: nat): nat {
    n * size
  }

  /** The claimed size of the TCB infos: the number of nodes times the size for the first context of the array. */
  ghost function Claim(p: Profile, m: MeasurementData): nat
    requires m.Valid()
  {
    Times(|m.Nodes()|, TcbInfoSize(p, m.contexts[0].tci, m.supportsRecursive, true))
  }

  ghost function Infos(p: Profile, m: MeasurementData): seq<Tlv>
    requires m.Valid()
  {
    TcbInfos(p, m.Nodes(), m.supportsRecursive)
  }

  /** The claimed size is the real one. */
  ghost predicate Honest(p: Profile, m: MeasurementData)
    requires m.Valid()
  {
    Claim(p, m) == |EncAll(Infos(p, m))|
  }

  function MultiSize(crit: bool, claim: nat, tagged: bool): nat {
    ExtensionSize(MULTI_TCBINFO_OID, crit, StructureSize(claim, true), tagged)
  }

  function MultiBytes(crit: bool, claim: nat, infos: seq<Tlv>): seq<u8> {
    ExtensionHeader(MULTI_TCBINFO_OID, crit, StructureSize(claim, true)) + Header(SEQUENCE_TAG, claim) + EncAll(infos)
  }

  function MultiTree(crit: bool, infos: seq<Tlv>): Tlv {
    Extension(MULTI_TCBINFO_OID, crit, Enc(Node(SEQUENCE_TAG, infos)))
  }

  lemma MultiLayout(crit: bool, infos: seq<Tlv>)
    ensures Enc(MultiTree(crit, infos)) == MultiBytes(crit, |EncAll(infos)|, infos)
    ensures |Enc(MultiTree(crit, infos))| == MultiSize(crit, |EncAll(infos)|, true)
  {
    hide SizeWidth, LengthBytes, ExtensionHeader, Extension, ExtensionSize;
    NodeSize(SEQUENCE_TAG, infos);
    ExtensionLayout(MULTI_TCBINFO_OID, crit, Enc(Node(SEQUENCE_TAG, infos)));
  }

  // ----- extensions and attributes -----

  function UsageExtensions(m: MeasurementData): seq<Tlv> {
    [Extension(KEY_USAGE_OID, true, Enc(UsageContent(m.isCa))),
     Extension(EXTENDED_KEY_USAGE_OID, true, Enc(ExtendedUsageContent(m.isCa)))]
  }

  /** All extensions but the first. */
  function OtherExtensions(crit: bool, m: MeasurementData, x509: bool): seq<Tlv> {
    [Extension(UEID_OID, crit, Enc(UeidContent(m))),
     Extension(BASIC_CONSTRAINTS_OID, true, Enc(ConstraintsContent(m.isCa)))]
    + UsageExtensions(m) + SkiExtension(m, x509) + AkiExtension(m, x509) + SanExtension(m)
  }

  function OtherExtensionsSize(crit: bool, m: MeasurementData, x509: bool): nat {
    UeidSize(crit, m) + BasicConstraintsSize(m) + KeyUsageSize() + ExtendedKeyUsageSize(m)
    + SkiExtensionSize(m, x509) + AkiExtensionSize(m, x509) + SanExtensionSize(m)
  }

  lemma UsageLayout(m: MeasurementData)
    ensures |EncAll(UsageExtensions(m))| == KeyUsageSize() + ExtendedKeyUsageSize(m)
    ensures EncAll(UsageExtensions(m)) == Enc(UsageExtensions(m)[0]) + Enc(UsageExtensions(m)[1])
  {
    hide SizeWidth, LengthBytes, ExtensionHeader, Extension, ExtensionSize, PolicyOid;
    LeafSize(BIT_STRING_TAG, UsageContent(m.isCa).content);
    OneKid(SEQUENCE_TAG, Oid(PolicyOid(m.isCa)));
    ExtensionLayout(KEY_USAGE_OID, true, Enc(UsageContent(m.isCa)));
    ExtensionLayout(EXTENDED_KEY_USAGE_OID, true, Enc(ExtendedUsageContent(m.isCa)));
    EncAllTwo(UsageExtensions(m)[0], UsageExtensions(m)[1]);
  }

  lemma KeyIdExtensionsLayout(m: MeasurementData, x509: bool)
    ensures |EncAll(SkiExtension(m, x509))| == SkiExtensionSize(m, x509)
    ensures |EncAll(AkiExtension(m, x509))| == AkiExtensionSize(m, x509)
    ensures |EncAll(SanExtension(m))| == SanExtensionSize(m)
  {
    hide SizeWidth, LengthBytes, ExtensionHeader, Extension, ExtensionSize, OtherNameTree, OtherNameSize;
    ExtensionLayout(SUBJECT_KEY_IDENTIFIER_OID, false, Enc(Leaf(OCTET_STRING_TAG, m.ski)));
    LeafSize(OCTET_STRING_TAG, m.ski);
    OneKid(SEQUENCE_TAG, Leaf(CONTEXT_SPECIFIC, m.aki));
    ExtensionLayout(AUTHORITY_KEY_IDENTIFIER_OID, false, Enc(AkiContent(m)));
    if m.san.Some? {
      var o := m.san.value;
      OtherNameLayout(o);
      OneKid(SEQUENCE_TAG, OtherNameTree(o));
      ExtensionLayout(SUBJECT_ALTERNATIVE_NAME_OID, false, Enc(SanContent(o)));
      EncAllOne(SanExtension(m)[0]);
    }
    if x509 {
      EncAllOne(AkiExtension(m, x509)[0]);
      if m.isCa {
        EncAllOne(SkiExtension(m, x509)[0]);
      }
    }
  }

  lemma OtherExtensionsLayout(crit: bool, m: MeasurementData, x509: bool)
    ensures EncAll(OtherExtensions(crit, m, x509)) ==
            Enc(Extension(UEID_OID, crit, Enc(UeidContent(m))))
            + Enc(Extension(BASIC_CONSTRAINTS_OID, true, Enc(ConstraintsContent(m.isCa))))
            + EncAll(UsageExtensions(m)) + EncAll(SkiExtension(m, x509)) + EncAll(AkiExtension(m, x509))
            + EncAll(SanExtension(m))
    ensures |EncAll(OtherExtensions(crit, m, x509))| == OtherExtensionsSize(crit, m, x509)
  {
    hide SizeWidth, LengthBytes, ExtensionHeader, Extension, ExtensionSize, UsageExtensions, SkiExtension;
    hide AkiExtension, SanExtension;
    hide KeyUsageSize, ExtendedKeyUsageSize, SkiExtensionSize, AkiExtensionSize, SanExtensionSize, ConstraintsContent;
    OneKid(SEQUENCE_TAG, Leaf(OCTET_STRING_TAG, m.ueid));
    LeafSize(OCTET_STRING_TAG, m.ueid);
    ConstraintsLayout(m.isCa);
    ExtensionLayout(UEID_OID, crit, Enc(UeidContent(m)));
    ExtensionLayout(BASIC_CONSTRAINTS_OID, true, Enc(ConstraintsContent(m.isCa)));
    UsageLayout(m);
    KeyIdExtensionsLayout(m, x509);
    var a := [Extension(UEID_OID, crit, Enc(UeidContent(m))),
        Extension(BASIC_CONSTRAINTS_OID, true, Enc(ConstraintsContent(m.isCa)))];
    var b, c, d, e := UsageExtensions(m), SkiExtension(m, x509), AkiExtension(m, x509), SanExtension(m);
    EncAllTwo(a[0], a[1]);
    EncAllJoin(a, b);
    EncAllJoin(a + b, c);
    EncAllJoin(a + b + c, d);
    EncAllJoin(a + b + c + d, e);
  }

  function ExtensionsSize(crit: bool, claim: nat, m: MeasurementData, tagged: bool, explicit: bool, x509: bool): nat {
    StructureSize(StructureSize(MultiSize(crit, claim, true) + OtherExtensionsSize(crit, m, x509), explicit), tagged)
  }

  /** The extensions as written, for TCB infos of the claimed size. */
  function ExtensionsBytes(crit: bool, claim: nat, infos: seq<Tlv>, m: MeasurementData, x509: bool): seq<u8> {
    (if x509 then Header(CONTEXT_CONSTRUCTED + 3, ExtensionsSize(crit, claim, m, true, false, x509)) else [])
    + Header(SEQUENCE_TAG, ExtensionsSize(crit, claim, m, false, false, x509))
    + MultiBytes(crit, claim, infos) + EncAll(OtherExtensions(crit, m, x509))
  }

  function ExtensionList(crit: bool, infos: seq<Tlv>, m: MeasurementData, x509: bool): Tlv {
    Node(SEQUENCE_TAG, [MultiTree(crit, infos)] + OtherExtensions(crit, m, x509))
  }

  function ExtensionsTree(crit: bool, infos: seq<Tlv>, m: MeasurementData, x509: bool): Tlv {
    var list := ExtensionList(crit, infos, m, x509);
    if x509 then Node(CONTEXT_CONSTRUCTED + 3, [list]) else list
  }

  lemma ExtensionListLayout(crit: bool, infos: seq<Tlv>, m: MeasurementData, x509: bool)
    ensures var claim := |EncAll(infos)|;
            && Enc(ExtensionList(crit, infos, m, x509))
                == Header(SEQUENCE_TAG, ExtensionsSize(crit, claim, m, false, false, x509))
                                                           + MultiBytes(crit, claim, infos)
                                                           + EncAll(OtherExtensions(crit, m, x509))
            && |Enc(ExtensionList(crit, infos, m, x509))| == ExtensionsSize(crit, claim, m, true, false, x509)
  {
    hide SizeWidth, LengthBytes, MultiTree, MultiBytes, MultiSize, OtherExtensions, OtherExtensionsSize, Header, Enc;
    var others := OtherExtensions(crit, m, x509);
    MultiLayout(crit, infos);
    OtherExtensionsLayout(crit, m, x509);
    EncAllOne(MultiTree(crit, infos));
    EncAllJoin([MultiTree(crit, infos)], others);
    NodeSize(SEQUENCE_TAG, [MultiTree(crit, infos)] + others);
  }

  /** With the real size, the writer's bytes are the encoding of the tree, and the precomputed sizes are right. */
  lemma ExtensionsLayout(crit: bool, infos: seq<Tlv>, m: MeasurementData, x509: bool)
    ensures var claim := |EncAll(infos)|;
            && Enc(ExtensionsTree(crit, infos, m, x509)) == ExtensionsBytes(crit, claim, infos, m, x509)
            && |Enc(ExtensionList(crit, infos, m, x509))| == ExtensionsSize(crit, claim, m, true, false, x509)
  {
    hide SizeWidth, LengthBytes, MultiBytes, OtherExtensions, ExtensionsSize, ExtensionList, EncAll, Enc, Header;
    ExtensionListLayout(crit, infos, m, x509);
    OneKid(CONTEXT_CONSTRUCTED + 3, ExtensionList(crit, infos, m, x509));
  }

  function AttributeBodySize(crit: bool, claim: nat, m: MeasurementData, tagged: bool): nat {
    StructureSize(
      StructureSize(|ID_DATA_OID|, true) + StructureSize(ExtensionsSize(crit, claim, m, true, false, false), true),
      tagged)
  }

  function AttributesSize(crit: bool, claim: nat, m: MeasurementData, tagged: bool): nat {
    StructureSize(AttributeBodySize(crit, claim, m, true), tagged)
  }

  function AttributesBytes(crit: bool, claim: nat, infos: seq<Tlv>, m: MeasurementData): seq<u8> {
    Header(CONTEXT_CONSTRUCTED, AttributesSize(crit, claim, m, false))
    + Header(SEQUENCE_TAG, AttributeBodySize(crit, claim, m, false)) + Enc(Oid(EXTENSION_REQUEST_OID))
    + Header(SET_OF_TAG, ExtensionsSize(crit, claim, m, true, false, false))
    + ExtensionsBytes(crit, claim, infos, m, false)
  }

  function AttributesTree(crit: bool, infos: seq<Tlv>, m: MeasurementData): Tlv {
    Node(CONTEXT_CONSTRUCTED, [
      Node(SEQUENCE_TAG, [
        Oid(EXTENSION_REQUEST_OID),
        Node(SET_OF_TAG, [ExtensionsTree(crit, infos, m, false)])])])
  }

  lemma AttributesLayout(crit: bool, infos: seq<Tlv>, m: MeasurementData)
    ensures Enc(AttributesTree(crit, infos, m)) == AttributesBytes(crit, |EncAll(infos)|, infos, m)
  {
    hide SizeWidth, LengthBytes, ExtensionList, ExtensionsSize, ExtensionsBytes;
    var claim := |EncAll(infos)|;
    ExtensionsLayout(crit, infos, m, false);
    var values := Node(SET_OF_TAG, [ExtensionsTree(crit, infos, m, false)]);
    var attribute := Node(SEQUENCE_TAG, [Oid(EXTENSION_REQUEST_OID), values]);
    OneKid(SET_OF_TAG, values.kids[0]);
    LeafSize(OID_TAG, EXTENSION_REQUEST_OID);
    EncAllTwo(Oid(EXTENSION_REQUEST_OID), values);
    NodeSize(SEQUENCE_TAG, attribute.kids);
    OneKid(CONTEXT_CONSTRUCTED, attribute);
  }

  // ----- a wrong claim shows -----

  lemma ExtensionHeaderSize(oid: seq<u8>, critical: bool, n: nat)
    ensures |ExtensionHeader(oid, critical, n)| + n == ExtensionSize(oid, critical, n, true)
  {
    hide SizeWidth, LengthBytes;
    LeafSize(OID_TAG, oid);
    if critical {
      LeafSize(BOOL_TAG, [0xFF]);
      EncAllOne(CriticalFlag(critical)[0]);
    }
  }

  /** Behind the first header, the text is off by as much as the claim. */
  lemma ExtensionsOff(crit: bool, claim: nat, infos: seq<Tlv>, m: MeasurementData, x509: bool)
    ensures |ExtensionsBytes(crit, claim, infos, m, x509)| + claim ==
            (if x509 then StructureSize(ExtensionsSize(crit, claim, m, true, false, true), true)
             else ExtensionsSize(crit, claim, m, true, false, false)) + |EncAll(infos)|
  {
    hide SizeWidth, LengthBytes, ExtensionHeader, ExtensionSize, OtherExtensions, OtherExtensionsSize, EncAll;
    ExtensionHeaderSize(MULTI_TCBINFO_OID, crit, StructureSize(claim, true));
    OtherExtensionsLayout(crit, m, x509);
  }

  /** Extensions and attributes start with a header; what follows is as much longer or shorter than it says as
      the claim is wrong. */
  lemma ExtensionsStart(crit: bool, claim: nat, infos: seq<Tlv>, m: MeasurementData) returns (rest: seq<u8>)
    ensures ExtensionsBytes(crit, claim, infos, m, true) ==
            Header(CONTEXT_CONSTRUCTED + 3, ExtensionsSize(crit, claim, m, true, false, true)) + rest
    ensures |rest| + claim == ExtensionsSize(crit, claim, m, true, false, true) + |EncAll(infos)|
  {
    hide SizeWidth, LengthBytes, MultiBytes, OtherExtensions, OtherExtensionsSize, EncAll, ExtensionsSize, Header;
    ExtensionsOff(crit, claim, infos, m, true);
    rest := Header(SEQUENCE_TAG, ExtensionsSize(crit, claim, m, false, false, true)) + MultiBytes(crit, claim, infos)
            + EncAll(OtherExtensions(crit, m, true));
  }

  lemma AttributesStart(crit: bool, claim: nat, infos: seq<Tlv>, m: MeasurementData) returns (rest: seq<u8>)
    ensures AttributesBytes(crit, claim, infos, m) ==
            Header(CONTEXT_CONSTRUCTED, AttributesSize(crit, claim, m, false)) + rest
    ensures |rest| + claim == AttributesSize(crit, claim, m, false) + |EncAll(infos)|
  {
    hide SizeWidth, LengthBytes, ExtensionsBytes, EncAll, ExtensionsSize, Header;
    ExtensionsOff(crit, claim, infos, m, false);
    LeafSize(OID_TAG, EXTENSION_REQUEST_OID);
    rest := Header(SEQUENCE_TAG, AttributeBodySize(crit, claim, m, false)) + Enc(Oid(EXTENSION_REQUEST_OID))
            + Header(SET_OF_TAG, ExtensionsSize(crit, claim, m, true, false, false))
            + ExtensionsBytes(crit, claim, infos, m, false);
  }

  lemma StructureGrows(c: nat, d: nat, tagged: bool)
    requires c < d
    ensures StructureSize(c, tagged) < StructureSize(d, tagged)
  {}

  lemma ExtensionSizeGrows(crit: bool, c: nat, d: nat, m: MeasurementData, tagged: bool, x509: bool)
    requires c < d
    ensures ExtensionsSize(crit, c, m, tagged, false, x509) < ExtensionsSize(crit, d, m, tagged, false, x509)
  {
    hide StructureSize, OtherExtensionsSize;
    var critSize := if crit then StructureSize(1, true) else 0;
    var oid, others := StructureSize(|MULTI_TCBINFO_OID|, true) + critSize, OtherExtensionsSize(crit, m, x509);
    var c1, d1 := StructureSize(c, true), StructureSize(d, true);
    StructureGrows(c, d, true);
    StructureGrows(c1, d1, true);
    var c2, d2 := oid + StructureSize(c1, true), oid + StructureSize(d1, true);
    StructureGrows(c2, d2, true);
    var c3, d3 := StructureSize(c2, true) + others, StructureSize(d2, true) + others;
    StructureGrows(c3, d3, false);
    StructureGrows(StructureSize(c3, false), StructureSize(d3, false), tagged);
  }

  lemma AttributesGrow(crit: bool, c: nat, d: nat, m: MeasurementData)
    requires c < d
    ensures AttributesSize(crit, c, m, false) < AttributesSize(crit, d, m, false)
  {
    hide StructureSize, ExtensionsSize;
    var oid := StructureSize(|ID_DATA_OID|, true);
    var c1, d1 := ExtensionsSize(crit, c, m, true, false, false), ExtensionsSize(crit, d, m, true, false, false);
    ExtensionSizeGrows(crit, c, d, m, true, false);
    StructureGrows(c1, d1, true);
    var c2, d2 := oid + StructureSize(c1, true), oid + StructureSize(d1, true);
    StructureGrows(c2, d2, true);
    StructureGrows(StructureSize(c2, true), StructureSize(d2, true), false);
  }

  /** Equal texts behind headers of one tag have equal sizes in the headers. */
  lemma HeaderPrefixFree(tag: u8, m: nat, n: nat, x: seq<u8>, y: seq<u8>)
    requires m < 0x1_0000_0000 && n < 0x1_0000_0000
    requires Header(tag, m) + x == Header(tag, n) + y
    ensures m == n && x == y
  {
    assert LengthBytes(m) + x == (Header(tag, m) + x)[1..];
    assert LengthBytes(n) + y == (Header(tag, n) + y)[1..];
    LengthPrefixFree(m, n, x, y);
  }

  lemma ExtensionsClaim(crit: bool, c: nat, d: nat, infos: seq<Tlv>, m: MeasurementData)
    requires ExtensionsSize(crit, c, m, true, false, true) < 0x1_0000_0000
    requires ExtensionsSize(crit, d, m, true, false, true) < 0x1_0000_0000
    requires ExtensionsBytes(crit, c, infos, m, true) == ExtensionsBytes(crit, d, infos, m, true)
    ensures c == d
  {
    hide ExtensionsSize, MultiBytes, OtherExtensions, Header;
    var tag := CONTEXT_CONSTRUCTED + 3;
    var x := Header(SEQUENCE_TAG, ExtensionsSize(crit, c, m, false, false, true)) + MultiBytes(crit, c, infos)
        + EncAll(OtherExtensions(crit, m, true));
    var y := Header(SEQUENCE_TAG, ExtensionsSize(crit, d, m, false, false, true)) + MultiBytes(crit, d, infos)
        + EncAll(OtherExtensions(crit, m, true));
    assert ExtensionsBytes(crit, c, infos, m, true) == Header(tag, ExtensionsSize(crit, c, m, true, false, true)) + x;
    assert ExtensionsBytes(crit, d, infos, m, true) == Header(tag, ExtensionsSize(crit, d, m, true, false, true)) + y;
    HeaderPrefixFree(tag, ExtensionsSize(crit, c, m, true, false, true), ExtensionsSize(crit, d, m, true, false, true),
        x, y);
    if c < d { ExtensionSizeGrows(crit, c, d, m, true, true); }
    if d < c { ExtensionSizeGrows(crit, d, c, m, true, true); }
  }

  lemma AttributesClaim(crit: bool, c: nat, d: nat, infos: seq<Tlv>, m: MeasurementData)
    requires AttributesSize(crit, c, m, false) < 0x1_0000_0000 && AttributesSize(crit, d, m, false) < 0x1_0000_0000
    requires AttributesBytes(crit, c, infos, m) == AttributesBytes(crit, d, infos, m)
    ensures c == d
  {
    hide ExtensionsSize, ExtensionsBytes, AttributesSize, AttributeBodySize, Header;
    var tag := CONTEXT_CONSTRUCTED;
    var rest := (c: nat) => Header(SEQUENCE_TAG, AttributeBodySize(crit, c, m, false)) + Enc(Oid(EXTENSION_REQUEST_OID))
                            + Header(SET_OF_TAG, ExtensionsSize(crit, c, m, true, false, false))
                            + ExtensionsBytes(crit, c, infos, m, false);
    assert AttributesBytes(crit, c, infos, m) == Header(tag, AttributesSize(crit, c, m, false)) + rest(c);
    assert AttributesBytes(crit, d, infos, m) == Header(tag, AttributesSize(crit, d, m, false)) + rest(d);
    HeaderPrefixFree(tag, AttributesSize(crit, c, m, false), AttributesSize(crit, d, m, false), rest(c), rest(d));
    if c < d { AttributesGrow(crit, c, d, m); }
    if d < c { AttributesGrow(crit, d, c, m); }
  }

  // ----- signed payloads -----

  datatype SignedPayload =
    | Tbs(serial: seq<u8>, issuer: seq<u8>, name: Name, key: PubKey, m: MeasurementData, validity: CertValidity)
    | CertReqInfo(key: PubKey, name: Name, m: MeasurementData)

  /** The signing callback: the bytes to sign, and whether to use the derived key. */
  type Signer = (seq<u8>, bool) -> Option<Signature>

  /** A size that the three reserved bytes can hold in shortest form. */
  predicate Patchable(size: nat) {
    0x100 <= size < 0x1_0000
  }

  /** A structure whose size is filled in afterwards. */
  function Patched(tag: u8, body: seq<u8>): Option<seq<u8>> {
    if Patchable(|body|) then Some(Tagged(tag, body)) else None
  }

  /** What comes before the extensions or attributes. */
  function PayloadHead(p: Profile, payload: SignedPayload): seq<u8> {
    match payload
    case Tbs(serial, issuer, name, key, _, validity) =>
      Enc(VersionTree()) + Enc(Integer(serial)) + Enc(AlgId(SigOid(p))) + issuer + Enc(ValidityTree(validity))
      + Enc(NameTree(name)) + Enc(KeyInfo(p, key))
    case CertReqInfo(key, name, _) =>
      Enc(Integer(U64(0))) + Enc(NameTree(name)) + Enc(KeyInfo(p, key))
  }

  ghost function PayloadTail(p: Profile, crit: bool, payload: SignedPayload): seq<u8>
    requires payload.m.Valid()
  {
    if payload.Tbs? then ExtensionsBytes(crit, Claim(p, payload.m), Infos(p, payload.m), payload.m, true)
    else AttributesBytes(crit, Claim(p, payload.m), Infos(p, payload.m), payload.m)
  }

  ghost function PayloadBody(p: Profile, crit: bool, payload: SignedPayload): seq<u8>
    requires payload.m.Valid()
  {
    PayloadHead(p, payload) + PayloadTail(p, crit, payload)
  }

  ghost function PayloadBytes(p: Profile, crit: bool, payload: SignedPayload): Option<seq<u8>>
    requires payload.m.Valid()
  {
    Patched(SEQUENCE_TAG, PayloadBody(p, crit, payload))
  }

  /** The signature with its algorithm, as it ends a certificate or CSR. */
  function SigTrees(p: Profile, sig: Signature): seq<Tlv> {
    [AlgId(SigOid(p)), Leaf(BIT_STRING_TAG, SigBits(sig))]
  }

  /** The certificate or CSR, if every reserved size field fits and the signature succeeds. */
  ghost function SignedBytes(p: Profile, crit: bool, sign: Signer, payload: SignedPayload): Option<seq<u8>>
    requires payload.m.Valid()
  {
    match PayloadBytes(p, crit, payload)
    case None => None
    case Some(b) =>
      match sign(b, payload.CertReqInfo?)
      case None => None
      case Some(sig) => Patched(SEQUENCE_TAG, b + EncAll(SigTrees(p, sig)))
  }

  // ----- CMS -----

  function SidSize(sid: SignerIdentifier, tagged: bool): nat {
    match sid
    case IssuerAndSerialNumber(issuer, serial) => StructureSize(IntegerBytesSize(serial, true) + |issuer|, tagged)
    case SubjectKeyIdentifier(ski) => KeyIdentifierSize(ski, tagged, true)
  }

  function SidBytes(sid: SignerIdentifier): seq<u8> {
    match sid
    case IssuerAndSerialNumber(issuer, serial) => Tagged(SEQUENCE_TAG, issuer + Enc(Integer(serial)))
    case SubjectKeyIdentifier(ski) => Enc(Leaf(CONTEXT_SPECIFIC, Enc(Leaf(OCTET_STRING_TAG, ski))))
  }

  lemma SidLayout(sid: SignerIdentifier)
    ensures |SidBytes(sid)| == SidSize(sid, true)
    ensures sid.IssuerAndSerialNumber? ==>
      SidBytes(sid) == Header(SEQUENCE_TAG, SidSize(sid, false)) + sid.issuerName + Enc(Integer(sid.serialNumber))
    ensures sid.SubjectKeyIdentifier? ==>
      SidBytes(sid) == Header(CONTEXT_SPECIFIC, KeyIdentifierSize(sid.ski, true, false))
          + Enc(Leaf(OCTET_STRING_TAG, sid.ski))
  {
    hide SizeWidth, LengthBytes, IntegerContent;
    if sid.IssuerAndSerialNumber? {
      LeafSize(INTEGER_TAG, IntegerContent(sid.serialNumber));
    } else {
      LeafSize(OCTET_STRING_TAG, sid.ski);
      LeafSize(CONTEXT_SPECIFIC, Enc(Leaf(OCTET_STRING_TAG, sid.ski)));
    }
  }

  function SignerSigTrees(p: Profile, sig: Signature): seq<Tlv> {
    [AlgId(SigOid(p)), Leaf(OCTET_STRING_TAG, SigOctets(sig))]
  }

  function SignerInfoBody(p: Profile, sig: Signature, sid: SignerIdentifier): seq<u8> {
    Enc(CmsVersion(sid)) + SidBytes(sid) + Enc(AlgId(HashOid(p))) + EncAll(SignerSigTrees(p, sig))
  }

  function SignerInfoSize(p: Profile, sig: Signature, sid: SignerIdentifier, tagged: bool): nat {
    StructureSize(
      CmsVersionSize(sid) + SidSize(sid, true) + AlgIdSize(HashOid(p), true)
      + (AlgIdSize(SigOid(p), true) + StructureSize(SigOctetsSize(sig), true)),
      tagged)
  }

  lemma SignerInfoLayout(p: Profile, sig: Signature, sid: SignerIdentifier)
    ensures |SignerInfoBody(p, sig, sid)| == SignerInfoSize(p, sig, sid, false)
    ensures |Tagged(SEQUENCE_TAG, SignerInfoBody(p, sig, sid))| == SignerInfoSize(p, sig, sid, true)
    ensures EncAll(SignerSigTrees(p, sig)) == Enc(AlgId(SigOid(p))) + Enc(Leaf(OCTET_STRING_TAG, SigOctets(sig)))
    ensures |SigOctets(sig)| == SigOctetsSize(sig)
  {
    hide SizeWidth, LengthBytes, IntegerContent, SidBytes, SidSize, AlgId, AlgIdSize, HashOid, SigOid, SigValueSize;
    SidLayout(sid);
    AlgIdLayout(HashOid(p));
    AlgIdLayout(SigOid(p));
    LeafSize(INTEGER_TAG, CmsVersion(sid).content);
    LeafSize(OCTET_STRING_TAG, SigOctets(sig));
    EncAllTwo(AlgId(SigOid(p)), Leaf(OCTET_STRING_TAG, SigOctets(sig)));
    if sig.EcdsaSig? {
      SigValueLayout(sig.r, sig.s);
    }
  }

  /** The content that carries a CSR: an OCTET STRING inside [0], both filled in afterwards. */
  function ContentBytes(csr: seq<u8>): Option<seq<u8>> {
    var octets := Tagged(OCTET_STRING_TAG, csr);
    if Patchable(|csr|) && Patchable(|octets|) then Some(Tagged(CONTEXT_CONSTRUCTED, octets)) else None
  }

  function EncapBytes(csr: seq<u8>): Option<seq<u8>> {
    match ContentBytes(csr)
    case None => None
    case Some(content) => Patched(SEQUENCE_TAG, Enc(Oid(ID_DATA_OID)) + content)
  }

  /** The signed data before and after the encapsulated content. */
  function CmsHead(p: Profile, sid: SignerIdentifier): seq<u8> {
    Enc(CmsVersion(sid)) + Enc(Node(SET_OF_TAG, [AlgId(HashOid(p))]))
  }

  function CmsTail(p: Profile, sig: Signature, sid: SignerIdentifier): seq<u8> {
    Tagged(SET_OF_TAG, Tagged(SEQUENCE_TAG, SignerInfoBody(p, sig, sid)))
  }

  function SignedDataBytes(body: seq<u8>): Option<seq<u8>> {
    var data := Tagged(SEQUENCE_TAG, body);
    var info := Enc(Oid(ID_SIGNED_DATA_OID)) + Tagged(CONTEXT_CONSTRUCTED, data);
    if Patchable(|body|) && Patchable(|data|) && Patchable(|info|) then Some(Tagged(SEQUENCE_TAG, info)) else None
  }

  /** The signed data around the CSR. */
  function SignedDataBody(p: Profile, sign: Signer, csr: seq<u8>, sid: SignerIdentifier): Option<seq<u8>> {
    match EncapBytes(csr)
    case None => None
    case Some(encap) =>
      match sign(csr, false)
      case None => None
      case Some(sig) => Some(CmsHead(p, sid) + encap + CmsTail(p, sig, sid))
  }

  ghost function CmsBody(p: Profile, crit: bool, sign: Signer, payload: SignedPayload,
      sid: SignerIdentifier): Option<seq<u8>>
    requires payload.m.Valid()
  {
    match SignedBytes(p, crit, sign, payload)
    case None => None
    case Some(csr) => SignedDataBody(p, sign, csr, sid)
  }

  /** The CMS message, if every reserved size field fits and both signatures succeed. */
  ghost function CmsBytes(p: Profile, crit: bool, sign: Signer, payload: SignedPayload,
      sid: SignerIdentifier): Option<seq<u8>>
    requires payload.m.Valid()
  {
    match CmsBody(p, crit, sign, payload, sid)
    case None => None
    case Some(body) => SignedDataBytes(body)
  }
}
