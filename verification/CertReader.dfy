/** A reader of certificates, CSRs and CMS messages: it goes by tags and object identifiers, and decodes what it finds
    to numbers and bytes. How a document is laid down is none of its business. */
module CertReader {
  import opened Bitmap
  import opened Contexts
  import opened Measurement
  import opened Der
  import opened CertTrees

  // ----- trees -----

  const NOTHING: Tlv := Leaf(0, [])

  /** What is in a constructed element with this tag: 0x30 is SEQUENCE, 0x31 SET. */
  function Kids(t: Tlv, tag: u8): seq<Tlv> {
    if t.Node? && t.tag == tag then t.kids else []
  }

  function Kid(t: Tlv, tag: u8, k: nat): Tlv {
    if k < |Kids(t, tag)| then Kids(t, tag)[k] else NOTHING
  }

  /** The bytes of a primitive element with this tag: 0x02 is INTEGER, 0x03 BIT STRING, 0x04 OCTET STRING, 0x06
      OBJECT IDENTIFIER, 0x18 GeneralizedTime. */
  function Content(t: Tlv, tag: u8): seq<u8> {
    if t.Leaf? && t.tag == tag then t.content else []
  }

  /** The first element with this tag. */
  function Pick(ts: seq<Tlv>, tag: u8): Tlv {
    if ts == [] then NOTHING else if ts[0].tag == tag then ts[0] else Pick(ts[1..], tag)
  }

  /** The bytes of the field with this tag. */
  function Field(ts: seq<Tlv>, tag: u8): seq<u8> {
    Content(Pick(ts, tag), tag)
  }

  /** The one element that a text is the encoding of. */
  function Inside(b: seq<u8>): Tlv {
    match Parse(b)
    case None => NOTHING
    case Some((t, rest)) => if rest == [] then t else NOTHING
  }

  function Number(t: Tlv): nat {
    Value(Content(t, 0x02))
  }

  /** The object identifier that starts a SEQUENCE. */
  function Id(t: Tlv): seq<u8> {
    Content(Kid(t, 0x30, 0), 0x06)
  }

  /** The bytes of a BIT STRING without unused bits. */
  function WholeBits(t: Tlv): seq<u8> {
    var c := Content(t, 0x03);
    if c != [] && c[0] == 0 then c[1..] else []
  }

  /** Two to the power of `k`. */
  function Two(k: nat): (n: nat)
    ensures n > 0
  {
    if k == 0 then 1 else 2 * Two(k - 1)
  }

  /** Bit `n` of a BIT STRING, counted from the most significant bit of its first byte (X.690, section 8.6). */
  predicate BitSet(t: Tlv, n: nat) {
    var c := Content(t, 0x03);
    && c != [] && n + c[0] < 8 * (|c| - 1)
    && c[1 + n / 8] / Two(7 - n % 8) % 2 == 1
  }

  // ----- names, keys, signatures -----

  /** The value of an attribute of a name. */
  function Attribute(name: Tlv, oid: seq<u8>): Option<DirectoryString> {
    AttributeIn(Kids(name, 0x30), oid)
  }

  function AttributeIn(rdns: seq<Tlv>, oid: seq<u8>): Option<DirectoryString> {
    if rdns == [] then None
    else
      var pair := Kid(rdns[0], 0x31, 0);
      if Id(pair) == oid then ReadString(Kid(pair, 0x30, 1)) else AttributeIn(rdns[1..], oid)
  }

  function ReadString(t: Tlv): Option<DirectoryString> {
    if t.tag == 0x13 then Some(PrintableString(Content(t, 0x13)))
    else if t.tag == 0x0c then Some(Utf8String(Content(t, 0x0c)))
    else None
  }

  datatype KeyReading = EcPoint(curve: seq<u8>, x: seq<u8>, y: seq<u8>) | WholeKey(alg: seq<u8>, bytes: seq<u8>)

  /** Under id-ecPublicKey an uncompressed point (SEC 1, section 2.3.3), and the bytes as they are otherwise. */
  function ReadKey(info: Tlv): KeyReading {
    var alg, bits := Kid(info, 0x30, 0), WholeBits(Kid(info, 0x30, 1));
    if Id(alg) == EC_PUB_OID && |bits| % 2 == 1 && bits[0] == 4 then
      var n := |bits| / 2;
      EcPoint(Content(Kid(alg, 0x30, 1), 0x06), bits[1..1 + n], bits[1 + n..])
    else WholeKey(Id(alg), bits)
  }

  /** The two numbers of an ECDSA signature. */
  function Scalars(b: seq<u8>): (nat, nat) {
    (Number(Kid(Inside(b), 0x30, 0)), Number(Kid(Inside(b), 0x30, 1)))
  }

  // ----- TCB infos -----

  datatype FwidReading = FwidReading(alg: seq<u8>, digest: seq<u8>)

  datatype RegisterReading = RegisterReading(number: nat, digests: seq<FwidReading>)

  datatype TcbReading = TcbReading(
    svn: nat,
    digests: seq<FwidReading>,
    vendor: nat,
    kind: nat,
    registers: seq<RegisterReading>)

  function ReadFwids(ts: seq<Tlv>): (r: seq<FwidReading>)
    ensures |r| == |ts|
  {
    if ts == [] then [] else [FwidReading(Id(ts[0]), Content(Kid(ts[0], 0x30, 1), 0x04))] + ReadFwids(ts[1..])
  }

  /** The digests in the field with this tag. */
  function FwidsIn(ts: seq<Tlv>, tag: u8): seq<FwidReading> {
    ReadFwids(Kids(Pick(ts, tag), tag))
  }

  function ReadRegisters(ts: seq<Tlv>): (r: seq<RegisterReading>)
    ensures |r| == |ts|
  {
    if ts == [] then []
    else
      var fields := Kids(ts[0], 0x30);
      [RegisterReading(Value(Field(fields, 0x81)), FwidsIn(fields, 0xA2))] + ReadRegisters(ts[1..])
  }

  /** A TCB info by the numbers of its fields (TCG DICE Attestation Architecture): 3 the SVN, 6 the digests, 8 the
      vendor's bytes, 9 the type, 11 the registers. The type is kept little-endian, everything else big-endian. */
  function ReadTcb(t: Tlv): TcbReading {
    var fields := Kids(t, 0x30);
    TcbReading(
      Value(Field(fields, 0x83)),
      FwidsIn(fields, 0xA6),
      Value(Field(fields, 0x88)),
      FromLe(Field(fields, 0x89)),
      ReadRegisters(Kids(Pick(fields, 0xAB), 0xAB)))
  }

  function ReadTcbs(ts: seq<Tlv>): (r: seq<TcbReading>)
    ensures |r| == |ts|
  {
    if ts == [] then [] else [ReadTcb(ts[0])] + ReadTcbs(ts[1..])
  }

  // ----- extensions -----

  /** The extension with this identifier. */
  function Find(ts: seq<Tlv>, oid: seq<u8>): Option<Tlv> {
    if ts == [] then None else if Id(ts[0]) == oid then Some(ts[0]) else Find(ts[1..], oid)
  }

  /** What an extension holds, itself a DER text. */
  function Held(list: Tlv, oid: seq<u8>): Option<Tlv> {
    match Find(Kids(list, 0x30), oid)
    case None => None
    case Some(e) => Some(Inside(Field(Kids(e, 0x30), 0x04)))
  }

  predicate Critical(list: Tlv, oid: seq<u8>) {
    var e := Find(Kids(list, 0x30), oid);
    e.Some? && Field(Kids(e.value, 0x30), 0x01) == [0xFF]
  }

  /** The TCB infos, in the order of the extension. */
  function Tcbs(list: Tlv): seq<TcbReading> {
    match Held(list, MULTI_TCBINFO_OID)
    case None => []
    case Some(t) => ReadTcbs(Kids(t, 0x30))
  }

  function Ueid(list: Tlv): Option<seq<u8>> {
    match Held(list, UEID_OID)
    case None => None
    case Some(t) => Some(Content(Kid(t, 0x30, 0), 0x04))
  }

  predicate Authority(list: Tlv) {
    var t := Held(list, BASIC_CONSTRAINTS_OID);
    t.Some? && Field(Kids(t.value, 0x30), 0x01) == [0xFF]
  }

  predicate Usage(list: Tlv, n: nat) {
    var t := Held(list, KEY_USAGE_OID);
    t.Some? && BitSet(t.value, n)
  }

  function Policies(list: Tlv): seq<seq<u8>> {
    match Held(list, EXTENDED_KEY_USAGE_OID)
    case None => []
    case Some(t) => Ids(Kids(t, 0x30))
  }

  function Ids(ts: seq<Tlv>): seq<seq<u8>> {
    if ts == [] then [] else [Content(ts[0], 0x06)] + Ids(ts[1..])
  }

  function SubjectKeyId(list: Tlv): Option<seq<u8>> {
    match Held(list, SUBJECT_KEY_IDENTIFIER_OID)
    case None => None
    case Some(t) => Some(Content(t, 0x04))
  }

  function AuthorityKeyId(list: Tlv): Option<seq<u8>> {
    match Held(list, AUTHORITY_KEY_IDENTIFIER_OID)
    case None => None
    case Some(t) => Some(Field(Kids(t, 0x30), 0x80))
  }

  /** The otherName among the subject's alternative names: its type and its text. */
  function AlternativeName(list: Tlv): Option<OtherName> {
    match Held(list, SUBJECT_ALTERNATIVE_NAME_OID)
    case None => None
    case Some(t) =>
      var other := Pick(Kids(t, 0x30), 0xA0);
      Some(OtherName(Content(Kid(other, 0xA0, 0), 0x06), Content(Kid(Kid(other, 0xA0, 1), 0xA0, 0), 0x0c)))
  }

  // ----- documents -----

  /** What is signed, in a certificate or CSR. */
  function SignedPart(b: seq<u8>): Tlv {
    Kid(Inside(b), 0x30, 0)
  }

  /** The list of extensions of a certificate, or the one a CSR requests. */
  function CertificateExtensions(body: Tlv): Tlv {
    Kid(Kid(body, 0x30, 7), 0xA3, 0)
  }

  function RequestedExtensions(body: Tlv): Tlv {
    var attribute := Kid(Kid(body, 0x30, 3), 0xA0, 0);
    if Id(attribute) == EXTENSION_REQUEST_OID then Kid(Kid(attribute, 0x30, 1), 0x31, 0) else NOTHING
  }

  /** The signed data of a CMS message (RFC 5652, section 5.1). */
  function SignedData(b: seq<u8>): Tlv {
    var t := Inside(b);
    if Id(t) == ID_SIGNED_DATA_OID then Kid(Kid(t, 0x30, 1), 0xA0, 0) else NOTHING
  }

  /** The bytes that the message carries and signs. */
  function Carried(data: Tlv): seq<u8> {
    var encap := Kid(data, 0x30, 2);
    if Id(encap) == ID_DATA_OID then Content(Kid(Kid(encap, 0x30, 1), 0xA0, 0), 0x04) else []
  }

  function FirstSigner(data: Tlv): Tlv {
    Kid(Kid(data, 0x30, 3), 0x31, 0)
  }

  // ----- what a document must tell -----

  /** One context, as a TCB info. */
  predicate TcbTells(r: TcbReading, p: Profile, c: Context, recursive: bool) {
    && r.svn == c.tci.svn
    && r.digests == [FwidReading(HashOid(p), c.tci.current)]
    && r.vendor == c.tci.locality
    && r.kind == c.tci.tciType
    && r.registers == (if recursive then [RegisterReading(0, [FwidReading(HashOid(p), c.tci.cumulative)])] else [])
  }

  /** One TCB info for each context, in order. */
  predicate TcbsTell(rs: seq<TcbReading>, p: Profile, nodes: seq<Context>, recursive: bool) {
    |rs| == |nodes| && forall k :: 0 <= k < |nodes| ==> TcbTells(rs[k], p, nodes[k], recursive)
  }

  /** Bit 0 of the key usage is digitalSignature, bit 5 keyCertSign (RFC 5280, section 4.2.1.3). */
  ghost predicate UsagesTell(list: Tlv, isCa: bool) {
    forall n: nat :: Usage(list, n) <==> n == 0 || (n == 5 && isCa)
  }

  /** The extensions other than the TCB infos. */
  ghost predicate OthersTell(list: Tlv, crit: bool, m: MeasurementData, x509: bool) {
    && Ueid(list) == Some(m.ueid) && (Critical(list, UEID_OID) <==> crit)
    && (Authority(list) <==> m.isCa) && Critical(list, BASIC_CONSTRAINTS_OID)
    && UsagesTell(list, m.isCa) && Critical(list, KEY_USAGE_OID)
    && Policies(list) == [if m.isCa then ECA_OID else ATTEST_LOC_OID] && Critical(list, EXTENDED_KEY_USAGE_OID)
    && SubjectKeyId(list) == (if m.isCa && x509 then Some(m.ski) else None)
    && AuthorityKeyId(list) == (if x509 then Some(m.aki) else None)
    && AlternativeName(list) == m.san
  }

  predicate NameTells(name: Tlv, want: Name) {
    && Attribute(name, RDN_COMMON_NAME_OID) == Some(want.cn)
    && Attribute(name, RDN_SERIALNUMBER_OID) == Some(want.serial)
  }

  predicate KeyTells(info: Tlv, p: Profile, key: PubKey) {
    ReadKey(info) == if key.MldsaKey? then WholeKey(SigOid(p), key.bytes) else EcPoint(CurveOid(key), key.x, key.y)
  }

  predicate SignatureTells(b: seq<u8>, sig: Signature) {
    if sig.EcdsaSig? then Scalars(b) == (Value(sig.r), Value(sig.s)) else b == sig.bytes
  }
}
