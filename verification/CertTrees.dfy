/** The parts of certificates, CSRs and CMS messages: their TLV trees, and the sizes the writer computes for them in
    advance. */
module CertTrees {
  import opened Bitmap
  import opened Contexts
  import opened Forest
  import opened RootToChild
  import opened Measurement
  import opened Der

  datatype Profile = P256Sha256 | P384Sha384 | Mldsa87

  datatype DirectoryString = PrintableString(bytes: seq<u8>) | Utf8String(bytes: seq<u8>)

  datatype Name = Name(cn: DirectoryString, serial: DirectoryString)

  datatype AnyPubKey =
    | Ecdsa256Key(x: seq<u8>, y: seq<u8>)
    | Ecdsa384Key(x: seq<u8>, y: seq<u8>)
    | MldsaKey(bytes: seq<u8>)

  /** Coordinates are arrays of the curve's size. */
  type PubKey = k: AnyPubKey | k.MldsaKey? || |k.x| == |k.y| == (if k.Ecdsa256Key? then 32 else 48)
    witness MldsaKey([])

  datatype AnySignature = EcdsaSig(r: seq<u8>, s: seq<u8>) | MldsaSig(bytes: seq<u8>)

  /** Scalars are arrays of the curve's size. */
  type Signature = s: AnySignature | s.EcdsaSig? ==> |s.r| == |s.s| && (|s.r| == 32 || |s.r| == 48)
    witness MldsaSig([])

  datatype CertValidity = CertValidity(notBefore: seq<u8>, notAfter: seq<u8>)

  datatype SignerIdentifier =
    | IssuerAndSerialNumber(issuerName: seq<u8>, serialNumber: seq<u8>)
    | SubjectKeyIdentifier(ski: seq<u8>)

  datatype OtherName = OtherName(oid: seq<u8>, value: seq<u8>)

  datatype MeasurementData = MeasurementData(
    contexts: seq<Context>,
    start: nat,
    ueid: seq<u8>,
    isCa: bool,
    supportsRecursive: bool,
    ski: seq<u8>,
    aki: seq<u8>,
    san: Option<OtherName>)
  {
    /** What the constructor of the node list has checked. */
    ghost predicate Valid() {
      InRange(contexts) && Rooted(contexts, start)
    }

    /** The nodes to report, root first. */
    ghost function Nodes(): (l: seq<Context>)
      requires Valid()
      ensures l != []
    {
      Lineage(contexts, start)
    }
  }

  const BOOL_TAG: u8 := 0x01
  const INTEGER_TAG: u8 := 0x02
  const BIT_STRING_TAG: u8 := 0x03
  const OCTET_STRING_TAG: u8 := 0x04
  const OID_TAG: u8 := 0x06
  const UTF8_STRING_TAG: u8 := 0x0c
  const PRINTABLE_STRING_TAG: u8 := 0x13
  const GENERALIZE_TIME_TAG: u8 := 0x18
  const SEQUENCE_TAG: u8 := 0x30
  const SET_OF_TAG: u8 := 0x31
  const CONTEXT_SPECIFIC: u8 := 0x80
  const CONSTRUCTED: u8 := 0x20

  /** Tag of a constructed field number 0; the others follow. */
  const CONTEXT_CONSTRUCTED: u8 := CONTEXT_SPECIFIC + CONSTRUCTED

  const EC_PUB_OID: seq<u8> := [0x2A, 0x86, 0x48, 0xCE, 0x3D, 0x02, 0x01]
  const RDN_COMMON_NAME_OID: seq<u8> := [0x55, 0x04, 0x03]
  const RDN_SERIALNUMBER_OID: seq<u8> := [0x55, 0x04, 0x05]
  const MULTI_TCBINFO_OID: seq<u8> := [0x67, 0x81, 0x05, 0x05, 0x04, 0x05]
  const UEID_OID: seq<u8> := [0x67, 0x81, 0x05, 0x05, 0x04, 0x04]
  const ECA_OID: seq<u8> := [0x67, 0x81, 0x05, 0x05, 0x04, 0x64, 0x0C]
  const ATTEST_LOC_OID: seq<u8> := [0x67, 0x81, 0x05, 0x05, 0x04, 0x64, 0x09]
  const BASIC_CONSTRAINTS_OID: seq<u8> := [0x55, 0x1D, 0x13]
  const KEY_USAGE_OID: seq<u8> := [0x55, 0x1D, 0x0F]
  const EXTENDED_KEY_USAGE_OID: seq<u8> := [0x55, 0x1D, 0x25]
  const SUBJECT_KEY_IDENTIFIER_OID: seq<u8> := [0x55, 0x1D, 0x0E]
  const AUTHORITY_KEY_IDENTIFIER_OID: seq<u8> := [0x55, 0x1D, 0x23]
  const SUBJECT_ALTERNATIVE_NAME_OID: seq<u8> := [0x55, 0x1D, 0x11]
  const ID_SIGNED_DATA_OID: seq<u8> := [0x2A, 0x86, 0x48, 0x86, 0xF7, 0x0D, 0x01, 0x07, 0x02]
  const ID_DATA_OID: seq<u8> := [0x2A, 0x86, 0x48, 0x86, 0xF7, 0x0D, 0x01, 0x07, 0x01]
  const EXTENSION_REQUEST_OID: seq<u8> := [0x2A, 0x86, 0x48, 0x86, 0xF7, 0x0D, 0x01, 0x09, 0x0E]

  function SigOid(p: Profile): seq<u8> {
    match p
    case P256Sha256 => [0x2A, 0x86, 0x48, 0xCE, 0x3D, 0x04, 0x03, 0x02]
    case P384Sha384 => [0x2A, 0x86, 0x48, 0xCE, 0x3D, 0x04, 0x03, 0x03]
    case Mldsa87 => [0x60, 0x86, 0x48, 0x01, 0x65, 0x03, 0x04, 0x03, 0x13]
  }

  function HashOid(p: Profile): (b: seq<u8>)
    ensures |b| == 9
  {
    match p
    case P256Sha256 => [0x60, 0x86, 0x48, 0x01, 0x65, 0x03, 0x04, 0x02, 0x01]
    case _ => [0x60, 0x86, 0x48, 0x01, 0x65, 0x03, 0x04, 0x02, 0x02]
  }

  function CurveOid(key: PubKey): seq<u8> {
    if key.Ecdsa256Key? then [0x2A, 0x86, 0x48, 0xCE, 0x3D, 0x03, 0x01, 0x07] else [0x2B, 0x81, 0x04, 0x00, 0x22]
  }

  // ----- sizes and layouts -----
  //
  // For every structure there is its tree, the size the writer claims for it, and a lemma that
  // gives its encoding as the writer lays it down, every header holding a claimed size.

  function StructureSize(dataSize: nat, tagged: bool): nat {
    if tagged then 1 + SizeWidth(dataSize) + dataSize else dataSize
  }

  function IntegerBytesSize(b: seq<u8>, tagged: bool): nat {
    StructureSize(|IntegerContent(b)|, tagged)
  }

  /** The loop over the bytes finds the length of the minimal form. */
  method GetIntegerBytesSize(b: seq<u8>, tagged: bool) returns (n: nat)
    ensures n == IntegerBytesSize(b, tagged)
  {
    var len := |b|;
    for i := 0 to |b|
      invariant len == |b| - i && Strip(b) == Strip(b[i..])
      invariant i == |b| ==> b == []
    {
      if b[i] == 0 && i != |b| - 1 {
        len := len - 1;
        assert b[i..][1..] == b[i + 1..];
      } else if b[i] >= 0x80 {
        len := len + 1;
        break;
      } else {
        break;
      }
    }
    n := StructureSize(len, tagged);
  }

  lemma LeafSize(tag: u8, content: seq<u8>)
    ensures |Enc(Leaf(tag, content))| == StructureSize(|content|, true)
  {}

  lemma NodeSize(tag: u8, kids: seq<Tlv>)
    ensures |Enc(Node(tag, kids))| == StructureSize(|EncAll(kids)|, true)
    ensures Enc(Node(tag, kids)) == Header(tag, |EncAll(kids)|) + EncAll(kids)
  {}

  function Oid(oid: seq<u8>): Tlv {
    Leaf(OID_TAG, oid)
  }

  function Integer(b: seq<u8>): Tlv {
    Leaf(INTEGER_TAG, IntegerContent(b))
  }

  /** The eight bytes of a 64-bit number. */
  function U64(n: nat): seq<u8> {
    BigEndian(n, 8)
  }

  function StringTree(s: DirectoryString): Tlv {
    Leaf(if s.PrintableString? then PRINTABLE_STRING_TAG else UTF8_STRING_TAG, s.bytes)
  }

  // --- names ---

  function AttributeTree(oid: seq<u8>, s: DirectoryString): Tlv {
    Node(SET_OF_TAG, [Node(SEQUENCE_TAG, [Oid(oid), StringTree(s)])])
  }

  function AttributeSize(oid: seq<u8>, s: DirectoryString): nat {
    StructureSize(|oid|, true) + StructureSize(|s.bytes|, true)
  }

  lemma AttributeLayout(oid: seq<u8>, s: DirectoryString)
    ensures var n := AttributeSize(oid, s);
            && Enc(AttributeTree(oid, s)) == Header(SET_OF_TAG, StructureSize(n, true)) + Header(SEQUENCE_TAG, n)
                + Enc(Oid(oid)) + Enc(StringTree(s))
            && |Enc(AttributeTree(oid, s))| == StructureSize(StructureSize(n, true), true)
  {
    hide SizeWidth, LengthBytes;
    var inner := Node(SEQUENCE_TAG, [Oid(oid), StringTree(s)]);
    EncAllTwo(Oid(oid), StringTree(s));
    EncAllOne(inner);
    NodeSize(SEQUENCE_TAG, inner.kids);
    NodeSize(SET_OF_TAG, [inner]);
  }

  function NameTree(name: Name): Tlv {
    Node(SEQUENCE_TAG, [AttributeTree(RDN_COMMON_NAME_OID, name.cn), AttributeTree(RDN_SERIALNUMBER_OID, name.serial)])
  }

  function NameSize(name: Name): nat {
    StructureSize(StructureSize(AttributeSize(RDN_COMMON_NAME_OID, name.cn), true), true)
    + StructureSize(StructureSize(AttributeSize(RDN_SERIALNUMBER_OID, name.serial), true), true)
  }

  lemma NameLayout(name: Name)
    ensures Enc(NameTree(name)) == Header(SEQUENCE_TAG, NameSize(name))
                                   + Enc(AttributeTree(RDN_COMMON_NAME_OID, name.cn))
                                   + Enc(AttributeTree(RDN_SERIALNUMBER_OID, name.serial))
  {
    hide SizeWidth, LengthBytes;
    var a, b := AttributeTree(RDN_COMMON_NAME_OID, name.cn), AttributeTree(RDN_SERIALNUMBER_OID, name.serial);
    AttributeLayout(RDN_COMMON_NAME_OID, name.cn);
    AttributeLayout(RDN_SERIALNUMBER_OID, name.serial);
    EncAllTwo(a, b);
    NodeSize(SEQUENCE_TAG, [a, b]);
  }

  // --- algorithm identifiers, keys and signatures ---

  function AlgId(oid: seq<u8>): Tlv {
    Node(SEQUENCE_TAG, [Oid(oid)])
  }

  function AlgIdSize(oid: seq<u8>, tagged: bool): nat {
    StructureSize(StructureSize(|oid|, true), tagged)
  }

  lemma AlgIdLayout(oid: seq<u8>)
    ensures Enc(AlgId(oid)) == Header(SEQUENCE_TAG, AlgIdSize(oid, false)) + Enc(Oid(oid))
    ensures |Enc(AlgId(oid))| == AlgIdSize(oid, true)
  {
    hide SizeWidth, LengthBytes;
    EncAllOne(Oid(oid));
    NodeSize(SEQUENCE_TAG, [Oid(oid)]);
  }

  function EcPubAlgId(curve: seq<u8>): Tlv {
    Node(SEQUENCE_TAG, [Oid(EC_PUB_OID), Oid(curve)])
  }

  function EcPubAlgIdSize(curve: seq<u8>, tagged: bool): nat {
    StructureSize(StructureSize(|EC_PUB_OID|, true) + StructureSize(|curve|, true), tagged)
  }

  lemma EcPubAlgIdLayout(curve: seq<u8>)
    ensures Enc(EcPubAlgId(curve)) == Header(SEQUENCE_TAG, EcPubAlgIdSize(curve, false)) + Enc(Oid(EC_PUB_OID))
        + Enc(Oid(curve))
    ensures |Enc(EcPubAlgId(curve))| == EcPubAlgIdSize(curve, true)
  {
    hide SizeWidth, LengthBytes;
    EncAllTwo(Oid(EC_PUB_OID), Oid(curve));
    NodeSize(SEQUENCE_TAG, [Oid(EC_PUB_OID), Oid(curve)]);
  }

  /** The BIT STRING of a key: no unused bits, then an uncompressed point or the key itself. */
  function KeyBits(key: PubKey): seq<u8> {
    if key.MldsaKey? then [0] + key.bytes else [0, 4] + key.x + key.y
  }

  function KeyAlgId(p: Profile, key: PubKey): Tlv {
    if key.MldsaKey? then AlgId(SigOid(p)) else EcPubAlgId(CurveOid(key))
  }

  function KeyInfo(p: Profile, key: PubKey): Tlv {
    Node(SEQUENCE_TAG, [KeyAlgId(p, key), Leaf(BIT_STRING_TAG, KeyBits(key))])
  }

  function KeyInfoSize(p: Profile, key: PubKey): nat {
    if key.MldsaKey? then StructureSize(1 + |key.bytes|, true) + AlgIdSize(SigOid(p), true)
    else StructureSize(1 + (1 + |key.x| + |key.x|), true) + EcPubAlgIdSize(CurveOid(key), true)
  }

  lemma KeyInfoLayout(p: Profile, key: PubKey)
    ensures Enc(KeyInfo(p, key)) == Header(SEQUENCE_TAG, KeyInfoSize(p, key)) + Enc(KeyAlgId(p, key))
                                    + Header(BIT_STRING_TAG, |KeyBits(key)|) + KeyBits(key)
  {
    hide SizeWidth, LengthBytes;
    var a, b := KeyAlgId(p, key), Leaf(BIT_STRING_TAG, KeyBits(key));
    AlgIdLayout(SigOid(p));
    EcPubAlgIdLayout(CurveOid(key));
    LeafSize(BIT_STRING_TAG, KeyBits(key));
    EncAllTwo(a, b);
    NodeSize(SEQUENCE_TAG, [a, b]);
    assert Enc(b) == Header(BIT_STRING_TAG, |KeyBits(key)|) + KeyBits(key);
  }

  function SigValue(r: seq<u8>, s: seq<u8>): Tlv {
    Node(SEQUENCE_TAG, [Integer(r), Integer(s)])
  }

  function SigValueSize(r: seq<u8>, s: seq<u8>): nat {
    IntegerBytesSize(r, true) + IntegerBytesSize(s, true)
  }

  lemma SigValueLayout(r: seq<u8>, s: seq<u8>)
    ensures Enc(SigValue(r, s)) == Header(SEQUENCE_TAG, SigValueSize(r, s)) + Enc(Integer(r)) + Enc(Integer(s))
    ensures |Enc(SigValue(r, s))| == StructureSize(SigValueSize(r, s), true)
  {
    hide SizeWidth, LengthBytes, IntegerContent;
    EncAllTwo(Integer(r), Integer(s));
    NodeSize(SEQUENCE_TAG, [Integer(r), Integer(s)]);
  }

  /** The content of the signature's BIT STRING: no unused bits, then the signature. */
  function SigBits(sig: Signature): seq<u8> {
    [0] + if sig.EcdsaSig? then Enc(SigValue(sig.r, sig.s)) else sig.bytes
  }

  /** The writer's shortcut: the size of a structure of one more byte, not one more than the size of the structure. */
  function SigBitsSize(sig: Signature): nat {
    if sig.EcdsaSig? then StructureSize(1 + SigValueSize(sig.r, sig.s), true) else 1 + |sig.bytes|
  }

  /** For arbitrary scalars the shortcut is right unless the sum of the two integers ends a range of lengths. */
  lemma SigBitsShortcut(r: seq<u8>, s: seq<u8>)
    ensures StructureSize(1 + SigValueSize(r, s), true) == 1 + |Enc(SigValue(r, s))|
            <==> SigValueSize(r, s) !in {0x7f, 0xff, 0xffff, 0xff_ffff}
  {
    SigValueLayout(r, s);
  }

  lemma SigBitsExact(sig: Signature)
    ensures SigBitsSize(sig) == |SigBits(sig)|
  {
    if sig.EcdsaSig? {
      StripSpec(sig.r);
      StripSpec(sig.s);
      SigBitsShortcut(sig.r, sig.s);
    }
  }

  /** The content of the signature's OCTET STRING in a CMS message. */
  function SigOctets(sig: Signature): seq<u8> {
    if sig.EcdsaSig? then Enc(SigValue(sig.r, sig.s)) else sig.bytes
  }

  function SigOctetsSize(sig: Signature): nat {
    if sig.EcdsaSig? then StructureSize(SigValueSize(sig.r, sig.s), true) else |sig.bytes|
  }

  function VersionTree(): Tlv {
    Node(CONTEXT_CONSTRUCTED, [Integer(U64(2))])
  }

  lemma VersionLayout()
    ensures Enc(VersionTree()) == Header(CONTEXT_CONSTRUCTED, IntegerBytesSize(U64(2), true)) + Enc(Integer(U64(2)))
  {
    hide SizeWidth, LengthBytes, IntegerContent, BigEndian;
    EncAllOne(Integer(U64(2)));
    NodeSize(CONTEXT_CONSTRUCTED, [Integer(U64(2))]);
    LeafSize(INTEGER_TAG, IntegerContent(U64(2)));
  }

  function ValidityTree(v: CertValidity): Tlv {
    Node(SEQUENCE_TAG, [Leaf(GENERALIZE_TIME_TAG, v.notBefore), Leaf(GENERALIZE_TIME_TAG, v.notAfter)])
  }

  function ValiditySize(v: CertValidity, tagged: bool): nat {
    StructureSize(StructureSize(|v.notBefore|, true) + StructureSize(|v.notAfter|, true), tagged)
  }

  lemma ValidityLayout(v: CertValidity)
    ensures Enc(ValidityTree(v)) == Header(SEQUENCE_TAG, ValiditySize(v, false))
                                    + Enc(Leaf(GENERALIZE_TIME_TAG, v.notBefore))
                                    + Enc(Leaf(GENERALIZE_TIME_TAG, v.notAfter))
    ensures |Enc(ValidityTree(v))| == ValiditySize(v, true)
  {
    hide SizeWidth, LengthBytes;
    EncAllTwo(Leaf(GENERALIZE_TIME_TAG, v.notBefore), Leaf(GENERALIZE_TIME_TAG, v.notAfter));
    NodeSize(SEQUENCE_TAG, ValidityTree(v).kids);
  }

  // --- TCB infos ---

  function Fwid(p: Profile, digest: Digest): Tlv {
    Node(SEQUENCE_TAG, [Oid(HashOid(p)), Leaf(OCTET_STRING_TAG, digest)])
  }

  function FwidSize(p: Profile, digest: Digest, tagged: bool): nat {
    StructureSize(StructureSize(|HashOid(p)|, true) + StructureSize(|digest|, true), tagged)
  }

  lemma FwidLayout(p: Profile, digest: Digest)
    ensures Enc(Fwid(p, digest)) == Header(SEQUENCE_TAG, FwidSize(p, digest, false)) + Enc(Oid(HashOid(p)))
        + Enc(Leaf(OCTET_STRING_TAG, digest))
    ensures |Enc(Fwid(p, digest))| == FwidSize(p, digest, true)
  {
    hide SizeWidth, LengthBytes, HashOid;
    EncAllTwo(Oid(HashOid(p)), Leaf(OCTET_STRING_TAG, digest));
    NodeSize(SEQUENCE_TAG, Fwid(p, digest).kids);
  }

  /** The list of registers, of which there is one. */
  function Registers(p: Profile, digest: Digest): Tlv {
    Node(CONTEXT_CONSTRUCTED + 11, [
      Node(SEQUENCE_TAG, [
        Leaf(CONTEXT_SPECIFIC + 1, IntegerContent(U64(0))),
        Node(CONTEXT_CONSTRUCTED + 2, [Fwid(p, digest)])])])
  }

  /** The size of the one register, without its tag. */
  function RegisterSize(p: Profile, digest: Digest): nat {
    IntegerBytesSize(U64(0), true) + StructureSize(FwidSize(p, digest, true), true)
  }

  lemma RegistersLayout(p: Profile, digest: Digest)
    ensures Enc(Registers(p, digest)) ==
            Header(CONTEXT_CONSTRUCTED + 11, StructureSize(RegisterSize(p, digest), true))
            + Header(SEQUENCE_TAG, RegisterSize(p, digest))
            + Enc(Leaf(CONTEXT_SPECIFIC + 1, IntegerContent(U64(0))))
            + Header(CONTEXT_CONSTRUCTED + 2, FwidSize(p, digest, true)) + Enc(Fwid(p, digest))
    ensures |Enc(Registers(p, digest))| == StructureSize(StructureSize(RegisterSize(p, digest), true), true)
  {
    hide SizeWidth, Header, EncAll, Enc, HashOid, IntegerContent, BigEndian, Fwid, FwidSize;
    FwidLayout(p, digest);
    var num := Leaf(CONTEXT_SPECIFIC + 1, IntegerContent(U64(0)));
    var list := Node(CONTEXT_CONSTRUCTED + 2, [Fwid(p, digest)]);
    var register := Node(SEQUENCE_TAG, [num, list]);
    EncAllOne(Fwid(p, digest));
    NodeSize(list.tag, list.kids);
    LeafSize(num.tag, num.content);
    EncAllTwo(num, list);
    NodeSize(SEQUENCE_TAG, register.kids);
    EncAllOne(register);
    NodeSize(CONTEXT_CONSTRUCTED + 11, [register]);
  }

  function SvnTree(t: TciNodeData): Tlv {
    Leaf(CONTEXT_SPECIFIC + 3, IntegerContent(U64(t.svn)))
  }

  function VendorTree(t: TciNodeData): Tlv {
    Leaf(CONTEXT_SPECIFIC + 8, BigEndian(t.locality, 4))
  }

  function TypeTree(t: TciNodeData): Tlv {
    Leaf(CONTEXT_SPECIFIC + 9, Le32(t.tciType))
  }

  function FwidsTree(p: Profile, digest: Digest): Tlv {
    Node(CONTEXT_CONSTRUCTED + 6, [Fwid(p, digest)])
  }

  lemma FwidsLayout(p: Profile, digest: Digest)
    ensures Enc(FwidsTree(p, digest)) == Header(CONTEXT_CONSTRUCTED + 6, FwidSize(p, digest, true))
        + Enc(Fwid(p, digest))
    ensures |Enc(FwidsTree(p, digest))| == StructureSize(FwidSize(p, digest, true), true)
  {
    hide SizeWidth, LengthBytes, Fwid, FwidSize;
    FwidLayout(p, digest);
    EncAllOne(Fwid(p, digest));
    NodeSize(CONTEXT_CONSTRUCTED + 6, [Fwid(p, digest)]);
  }

  function RegistersIf(p: Profile, t: TciNodeData, recursive: bool): seq<Tlv> {
    if recursive then [Registers(p, t.cumulative)] else []
  }

  function TcbInfo(p: Profile, t: TciNodeData, recursive: bool): Tlv {
    Node(SEQUENCE_TAG,
         [SvnTree(t), FwidsTree(p, t.current)] + [VendorTree(t), TypeTree(t)] + RegistersIf(p, t, recursive))
  }

  function RegistersSize(p: Profile, t: TciNodeData, recursive: bool): nat {
    if recursive then StructureSize(StructureSize(RegisterSize(p, t.cumulative), true), true) else 0
  }

  function TcbInfoSize(p: Profile, t: TciNodeData, recursive: bool, tagged: bool): nat {
    var size := StructureSize(FwidSize(p, t.current, true), true)
                + 2 * StructureSize(4, true)
                + RegistersSize(p, t, recursive)
                + IntegerBytesSize(U64(t.svn), true);
    StructureSize(size, tagged)
  }

  lemma TcbInfoLayout(p: Profile, t: TciNodeData, recursive: bool)
    ensures Enc(TcbInfo(p, t, recursive)) ==
            Header(SEQUENCE_TAG, TcbInfoSize(p, t, recursive, false))
            + Enc(SvnTree(t)) + Enc(FwidsTree(p, t.current)) + Enc(VendorTree(t)) + Enc(TypeTree(t))
            + EncAll(RegistersIf(p, t, recursive))
    ensures |Enc(TcbInfo(p, t, recursive))| == TcbInfoSize(p, t, recursive, true)
  {
    hide SizeWidth, LengthBytes, IntegerContent, Registers, RegisterSize, FwidSize, Fwid, FwidsTree, BigEndian;
    FwidsLayout(p, t.current);
    RegistersLayout(p, t.cumulative);
    var a, b, c := [SvnTree(t), FwidsTree(p, t.current)], [VendorTree(t), TypeTree(t)], RegistersIf(p, t, recursive);
    EncAllTwo(a[0], a[1]);
    EncAllTwo(b[0], b[1]);
    if recursive {
      EncAllOne(c[0]);
    }
    EncAllJoin(a, b);
    EncAllJoin(a + b, c);
    LeafSize(SvnTree(t).tag, SvnTree(t).content);
    LeafSize(VendorTree(t).tag, VendorTree(t).content);
    LeafSize(TypeTree(t).tag, TypeTree(t).content);
    NodeSize(SEQUENCE_TAG, a + b + c);
  }

  function TcbInfos(p: Profile, nodes: seq<Context>, recursive: bool): (ts: seq<Tlv>)
    ensures |ts| == |nodes|
  {
    if nodes == [] then []
    else TcbInfos(p, nodes[..|nodes| - 1], recursive) + [TcbInfo(p, nodes[|nodes| - 1].tci, recursive)]
  }

  // --- extensions ---

  function CriticalFlag(critical: bool): seq<Tlv> {
    if critical then [Leaf(BOOL_TAG, [0xFF])] else []
  }

  function Extension(oid: seq<u8>, critical: bool, content: seq<u8>): Tlv {
    Node(SEQUENCE_TAG, [Oid(oid)] + CriticalFlag(critical) + [Leaf(OCTET_STRING_TAG, content)])
  }

  function ExtensionSize(oid: seq<u8>, critical: bool, contentSize: nat, tagged: bool): nat {
    var critSize := if critical then StructureSize(1, true) else 0;
    StructureSize(StructureSize(|oid|, true) + critSize + StructureSize(contentSize, true), tagged)
  }

  /** Everything before the extension's own content, for a content of the claimed size. */
  function ExtensionHeader(oid: seq<u8>, critical: bool, contentSize: nat): seq<u8> {
    Header(SEQUENCE_TAG, ExtensionSize(oid, critical, contentSize, false))
    + Enc(Oid(oid)) + EncAll(CriticalFlag(critical)) + Header(OCTET_STRING_TAG, contentSize)
  }

  lemma ExtensionLayout(oid: seq<u8>, critical: bool, content: seq<u8>)
    ensures Enc(Extension(oid, critical, content)) == ExtensionHeader(oid, critical, |content|) + content
    ensures |Enc(Extension(oid, critical, content))| == ExtensionSize(oid, critical, |content|, true)
  {
    hide SizeWidth, LengthBytes;
    var a, b, c := [Oid(oid)], CriticalFlag(critical), [Leaf(OCTET_STRING_TAG, content)];
    EncAllJoin(a, b);
    EncAllJoin(a + b, c);
    EncAllOne(a[0]);
    EncAllOne(c[0]);
    if critical {
      EncAllOne(b[0]);
    }
    LeafSize(OCTET_STRING_TAG, content);
    NodeSize(SEQUENCE_TAG, a + b + c);
    assert Enc(c[0]) == Header(OCTET_STRING_TAG, |content|) + content;
  }

  function UeidContent(m: MeasurementData): Tlv {
    Node(SEQUENCE_TAG, [Leaf(OCTET_STRING_TAG, m.ueid)])
  }

  function UeidSize(crit: bool, m: MeasurementData): nat {
    ExtensionSize(UEID_OID, crit, StructureSize(StructureSize(|m.ueid|, true), true), true)
  }

  lemma OneKid(tag: u8, kid: Tlv)
    ensures Enc(Node(tag, [kid])) == Header(tag, |Enc(kid)|) + Enc(kid)
    ensures |Enc(Node(tag, [kid]))| == StructureSize(|Enc(kid)|, true)
  {
    EncAllOne(kid);
    NodeSize(tag, [kid]);
  }

  function ConstraintsContent(isCa: bool): Tlv {
    Node(SEQUENCE_TAG, CriticalFlag(isCa))
  }

  function ConstraintsInnerSize(isCa: bool): nat {
    if isCa then StructureSize(1, true) else 0
  }

  function BasicConstraintsSize(m: MeasurementData): nat {
    ExtensionSize(BASIC_CONSTRAINTS_OID, true, StructureSize(ConstraintsInnerSize(m.isCa), true), true)
  }

  lemma ConstraintsLayout(isCa: bool)
    ensures Enc(ConstraintsContent(isCa)) == Header(SEQUENCE_TAG, ConstraintsInnerSize(isCa))
        + EncAll(CriticalFlag(isCa))
    ensures |Enc(ConstraintsContent(isCa))| == StructureSize(ConstraintsInnerSize(isCa), true)
  {
    if isCa {
      EncAllOne(CriticalFlag(isCa)[0]);
      LeafSize(BOOL_TAG, [0xFF]);
    }
    NodeSize(SEQUENCE_TAG, CriticalFlag(isCa));
  }

  /** digitalSignature, and keyCertSign for an authority, after the number of unused bits. */
  function UsageContent(isCa: bool): Tlv {
    Leaf(BIT_STRING_TAG, if isCa then [2, 0x84] else [7, 0x80])
  }

  function KeyUsageSize(): nat {
    ExtensionSize(KEY_USAGE_OID, true, StructureSize(2, true), true)
  }

  function PolicyOid(isCa: bool): seq<u8> {
    if isCa then ECA_OID else ATTEST_LOC_OID
  }

  function ExtendedUsageContent(isCa: bool): Tlv {
    Node(SEQUENCE_TAG, [Oid(PolicyOid(isCa))])
  }

  function ExtendedKeyUsageSize(m: MeasurementData): nat {
    ExtensionSize(EXTENDED_KEY_USAGE_OID, true, StructureSize(StructureSize(|PolicyOid(m.isCa)|, true), true), true)
  }

  function SkiExtension(m: MeasurementData, x509: bool): seq<Tlv> {
    if !m.isCa || !x509 then [] else [Extension(SUBJECT_KEY_IDENTIFIER_OID, false, Enc(Leaf(OCTET_STRING_TAG, m.ski)))]
  }

  function SkiExtensionSize(m: MeasurementData, x509: bool): nat {
    if !m.isCa || !x509 then 0
    else ExtensionSize(SUBJECT_KEY_IDENTIFIER_OID, false, StructureSize(|m.ski|, true), true)
  }

  function AkiContent(m: MeasurementData): Tlv {
    Node(SEQUENCE_TAG, [Leaf(CONTEXT_SPECIFIC, m.aki)])
  }

  /** Also the size of a subject key identifier and of the value of an otherName. */
  function KeyIdentifierSize(b: seq<u8>, tagged: bool, explicit: bool): nat {
    StructureSize(StructureSize(|b|, explicit), tagged)
  }

  function AkiExtension(m: MeasurementData, x509: bool): seq<Tlv> {
    if !x509 then [] else [Extension(AUTHORITY_KEY_IDENTIFIER_OID, false, Enc(AkiContent(m)))]
  }

  function AkiExtensionSize(m: MeasurementData, x509: bool): nat {
    if !x509 then 0
    else ExtensionSize(AUTHORITY_KEY_IDENTIFIER_OID, false, StructureSize(KeyIdentifierSize(m.aki, true, false), true),
        true)
  }

  function OtherNameValue(o: OtherName): Tlv {
    Node(CONTEXT_CONSTRUCTED, [Leaf(UTF8_STRING_TAG, o.value)])
  }

  function OtherNameTree(o: OtherName): Tlv {
    Node(CONTEXT_CONSTRUCTED, [Oid(o.oid), OtherNameValue(o)])
  }

  function OtherNameSize(o: OtherName, tagged: bool): nat {
    StructureSize(StructureSize(|o.oid|, true) + KeyIdentifierSize(o.value, true, true), tagged)
  }

  lemma OtherNameLayout(o: OtherName)
    ensures Enc(OtherNameTree(o)) == Header(CONTEXT_CONSTRUCTED, OtherNameSize(o, false)) + Enc(Oid(o.oid))
                                     + Header(CONTEXT_CONSTRUCTED, KeyIdentifierSize(o.value, true, false))
                                     + Enc(Leaf(UTF8_STRING_TAG, o.value))
    ensures |Enc(OtherNameTree(o))| == OtherNameSize(o, true)
  {
    hide SizeWidth, LengthBytes;
    OneKid(CONTEXT_CONSTRUCTED, Leaf(UTF8_STRING_TAG, o.value));
    EncAllTwo(Oid(o.oid), OtherNameValue(o));
    NodeSize(CONTEXT_CONSTRUCTED, [Oid(o.oid), OtherNameValue(o)]);
  }

  function SanContent(o: OtherName): Tlv {
    Node(SEQUENCE_TAG, [OtherNameTree(o)])
  }

  function SanExtension(m: MeasurementData): seq<Tlv> {
    match m.san
    case None => []
    case Some(o) => [Extension(SUBJECT_ALTERNATIVE_NAME_OID, false, Enc(SanContent(o)))]
  }

  function SanExtensionSize(m: MeasurementData): nat {
    match m.san
    case None => 0
    case Some(o) => ExtensionSize(SUBJECT_ALTERNATIVE_NAME_OID, false, StructureSize(OtherNameSize(o, true), true),
        true)
  }

  // --- CMS parts ---

  function CmsVersion(sid: SignerIdentifier): Tlv {
    Integer(U64(if sid.IssuerAndSerialNumber? then 1 else 3))
  }

  function CmsVersionSize(sid: SignerIdentifier): nat {
    IntegerBytesSize(U64(if sid.IssuerAndSerialNumber? then 1 else 3), true)
  }
}
