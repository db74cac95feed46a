/** When the written bytes are the DER encoding of the intended tree, and what a parser makes of them. */
module CertTheorems {
  import opened Bitmap
  import opened Contexts
  import opened Forest
  import opened RootToChild
  import opened Destruction
  import opened Der
  import opened CertTrees
  import opened CertForms

  // ----- the claimed size of the TCB infos -----

  /** How many bytes an INTEGER of this value has. */
  function SvnWidth(svn: u32): nat {
    if svn < 0x80 then 1
    else if svn < 0x8000 then 2
    else if svn < 0x80_0000 then 3
    else if svn < 0x8000_0000 then 4
    else 5
  }

  lemma SvnWidthIs(svn: u32)
    ensures |IntegerContent(U64(svn))| == SvnWidth(svn)
  {
    hide IntegerContent;
    var c := IntegerContent(U64(svn));
    assert Pow256(0) == 1 && Pow256(1) == 0x100 && Pow256(2) == 0x1_0000 && Pow256(3) == 0x100_0000
        && Pow256(4) == 0x1_0000_0000;
    Pow256Grows(4, 8);
    ValueOfBigEndian(svn, 8);
    IntegerRoundTrip(U64(svn));
    IntegerLength(c);
    if |c| > 5 {
      Pow256Grows(4, |c| - 2);
    }
  }

  lemma {:induction false} Pow256Grows(j: nat, k: nat)
    requires j <= k
    ensures Pow256(j) <= Pow256(k)
  {
    if j < k {
      Pow256Grows(j, k - 1);
    }
  }

  function WidthSum(nodes: seq<Context>): nat {
    if nodes == [] then 0 else WidthSum(nodes[..|nodes| - 1]) + SvnWidth(nodes[|nodes| - 1].tci.svn)
  }

  /** A caller can see from the SVNs alone whether the claimed size will be right. */
  ghost predicate WidthsMatch(m: MeasurementData)
    requires m.Valid()
  {
    WidthSum(m.Nodes()) == |m.Nodes()| * SvnWidth(m.contexts[0].tci.svn)
  }

  /** Measurement registers are arrays of one fixed size, that of the profile's hash. */
  predicate TciSized(t: TciNodeData, size: nat) {
    |t.current| == |t.cumulative| == size
  }

  ghost predicate AllSized(cs: seq<Context>, size: nat) {
    forall c :: c in cs ==> TciSized(c.tci, size)
  }

  ghost predicate Sized(m: MeasurementData) {
    AllSized(m.contexts, 32) || AllSized(m.contexts, 48)
  }

  /** The size of a TCB info without its SVN's bytes. */
  function TcbInfoBase(size: nat, recursive: bool): nat {
    if size == 32 then (if recursive then 121 else 65) else (if recursive then 154 else 81)
  }

  /** No length inside a TCB info changes its own width with the SVN. */
  lemma TcbInfoSizeIs(p: Profile, t: TciNodeData, recursive: bool, size: nat)
    requires (size == 32 || size == 48) && TciSized(t, size)
    ensures TcbInfoSize(p, t, recursive, true) == TcbInfoBase(size, recursive) + SvnWidth(t.svn)
  {
    hide IntegerContent;
    SvnWidthIs(t.svn);
    SvnWidthIs(0);
  }

  lemma OneMore(n: nat, b: nat)
    ensures (n + 1) * b == n * b + b
  {}

  lemma {:induction false} InfosSize(p: Profile, nodes: seq<Context>, recursive: bool, size: nat)
    requires (size == 32 || size == 48) && AllSized(nodes, size)
    ensures |EncAll(TcbInfos(p, nodes, recursive))| == |nodes| * TcbInfoBase(size, recursive) + WidthSum(nodes)
  {
    hide TcbInfo, TcbInfoSize, TcbInfoBase, SvnWidth, Enc;
    if nodes != [] {
      var front, last := nodes[..|nodes| - 1], nodes[|nodes| - 1];
      InfosSize(p, front, recursive, size);
      TcbInfoSizeIs(p, last.tci, recursive, size);
      TcbInfoLayout(p, last.tci, recursive);
      EncAllOne(TcbInfo(p, last.tci, recursive));
      EncAllJoin(TcbInfos(p, front, recursive), [TcbInfo(p, last.tci, recursive)]);
      OneMore(|front|, TcbInfoBase(size, recursive));
    }
  }

  lemma {:induction false} LineageMembers(cs: seq<Context>, i: nat)
    requires Rooted(cs, i)
    ensures forall c :: c in Lineage(cs, i) ==> c in cs
    decreases Depth(cs, i)
  {
    if cs[i].parent != ROOT_INDEX {
      ParentRooted(cs, i);
      LineageMembers(cs, cs[i].parent);
    }
  }

  lemma Distribute(n: nat, b: nat, w: nat)
    ensures n * (b + w) == n * b + n * w
  {}

  /** The precomputed size is right exactly when the path's SVN widths sum to as many times the width of the first
      slot's SVN. */
  lemma HonestIff(p: Profile, m: MeasurementData)
    requires m.Valid() && Sized(m)
    ensures Honest(p, m) <==> WidthsMatch(m)
  {
    hide TcbInfoSize, TcbInfos, TcbInfoBase, SvnWidth, WidthSum, EncAll;
    var size := if AllSized(m.contexts, 32) then 32 else 48;
    LineageMembers(m.contexts, m.start);
    InfosSize(p, m.Nodes(), m.supportsRecursive, size);
    TcbInfoSizeIs(p, m.contexts[0].tci, m.supportsRecursive, size);
    Distribute(|m.Nodes()|, TcbInfoBase(size, m.supportsRecursive), SvnWidth(m.contexts[0].tci.svn));
  }

  /** Whatever the SVNs, the claim stays small beside the limits of a length field. */
  lemma ClaimBound(p: Profile, m: MeasurementData)
    requires m.Valid() && Sized(m) && |EncAll(Infos(p, m))| < 0x1_0000
    ensures Claim(p, m) < 0x100_0000
  {
    hide TcbInfoSize, TcbInfos, EncAll;
    var size := if AllSized(m.contexts, 32) then 32 else 48;
    LineageMembers(m.contexts, m.start);
    InfosSize(p, m.Nodes(), m.supportsRecursive, size);
    TcbInfoSizeIs(p, m.contexts[0].tci, m.supportsRecursive, size);
    Product(|m.Nodes()|, TcbInfoBase(size, m.supportsRecursive),
        TcbInfoSize(p, m.contexts[0].tci, m.supportsRecursive, true));
  }

  lemma Product(n: nat, b: nat, s: nat)
    requires n * b < 0x1_0000 && 65 <= b && s <= 159
    ensures n * s < 0x100_0000
  {
    LessTimes(n, 65, b);
    LessTimes(n, s, 159);
  }

  lemma LessTimes(n: nat, a: nat, b: nat)
    requires a <= b
    ensures n * a <= n * b
  {}

  // ----- trees of whole documents -----

  function PayloadKids(p: Profile, payload: SignedPayload, issuer: Tlv): seq<Tlv> {
    match payload
    case Tbs(serial, _, name, key, _, validity) =>
      [VersionTree(), Integer(serial), AlgId(SigOid(p))] + [issuer, ValidityTree(validity)]
          + [NameTree(name), KeyInfo(p, key)]
    case CertReqInfo(key, name, _) =>
      [Integer(U64(0)), NameTree(name), KeyInfo(p, key)]
  }

  ghost function PayloadLast(p: Profile, crit: bool, payload: SignedPayload): Tlv
    requires payload.m.Valid()
  {
    if payload.Tbs? then ExtensionsTree(crit, Infos(p, payload.m), payload.m, true)
    else AttributesTree(crit, Infos(p, payload.m), payload.m)
  }

  ghost function PayloadTree(p: Profile, crit: bool, payload: SignedPayload, issuer: Tlv): Tlv
    requires payload.m.Valid()
  {
    Node(SEQUENCE_TAG, PayloadKids(p, payload, issuer) + [PayloadLast(p, crit, payload)])
  }

  /** A certificate or CSR: the signed payload, the algorithm and the signature. */
  ghost function SignedTree(p: Profile, crit: bool, payload: SignedPayload, issuer: Tlv, sig: Signature): Tlv
    requires payload.m.Valid()
  {
    Node(SEQUENCE_TAG, [PayloadTree(p, crit, payload, issuer)] + SigTrees(p, sig))
  }

  /** The issuer's name, which the writer copies, is the encoding of `issuer`. */
  predicate IssuerIs(payload: SignedPayload, issuer: Tlv) {
    WellTagged(issuer) && (payload.Tbs? ==> payload.issuer == Enc(issuer))
  }

  lemma HeadIs(p: Profile, payload: SignedPayload, issuer: Tlv)
    requires IssuerIs(payload, issuer)
    ensures EncAll(PayloadKids(p, payload, issuer)) == PayloadHead(p, payload)
  {
    hide VersionTree, AlgId, ValidityTree, NameTree, KeyInfo, Enc, EncAll, SigOid, IntegerContent, BigEndian;
    match payload
    case Tbs(serial, _, name, key, _, validity) =>
      EncAllThree(VersionTree(), Integer(serial), AlgId(SigOid(p)));
      EncAllTwo(issuer, ValidityTree(validity));
      EncAllTwo(NameTree(name), KeyInfo(p, key));
      var a, b := [VersionTree(), Integer(serial), AlgId(SigOid(p))], [issuer, ValidityTree(validity)];
      EncAllJoin(a, b);
      EncAllJoin(a + b, [NameTree(name), KeyInfo(p, key)]);
    case CertReqInfo(key, name, _) =>
      EncAllThree(Integer(U64(0)), NameTree(name), KeyInfo(p, key));
  }

  /** The last part of the payload is the encoding of its tree exactly when the claimed size is right. */
  lemma TailIs(p: Profile, crit: bool, payload: SignedPayload)
    requires payload.m.Valid() && Sized(payload.m) && |PayloadTail(p, crit, payload)| < 0x1_0000
    ensures PayloadTail(p, crit, payload) == Enc(PayloadLast(p, crit, payload)) <==> Honest(p, payload.m)
  {
    hide ExtensionsTree, AttributesTree, Enc, EncAll, ExtensionsSize, AttributesSize, TcbInfos, TcbInfoSize;
    hide AttributeBodySize, MultiBytes, OtherExtensions;
    var m, infos, claim := payload.m, Infos(p, payload.m), Claim(p, payload.m);
    var actual := |EncAll(infos)|;
    assert actual < 0x1_0000 && |EncAll(OtherExtensions(crit, m, payload.Tbs?))| < 0x1_0000 by {
      TailParts(crit, claim, infos, m);
    }
    ClaimBound(p, m);
    SizeBounds(crit, claim, m, payload.Tbs?);
    SizeBounds(crit, actual, m, payload.Tbs?);
    ExtensionsLayout(crit, infos, m, true);
    AttributesLayout(crit, infos, m);
    if payload.Tbs? {
      if ExtensionsBytes(crit, claim, infos, m, true) == ExtensionsBytes(crit, actual, infos, m, true) {
        ExtensionsClaim(crit, claim, actual, infos, m);
      }
    } else {
      if AttributesBytes(crit, claim, infos, m) == AttributesBytes(crit, actual, infos, m) {
        AttributesClaim(crit, claim, actual, infos, m);
      }
    }
  }

  lemma TailParts(crit: bool, claim: nat, infos: seq<Tlv>, m: MeasurementData)
    ensures |EncAll(infos)| + |EncAll(OtherExtensions(crit, m, true))| <= |ExtensionsBytes(crit, claim, infos, m, true)|
    ensures |EncAll(infos)| + |EncAll(OtherExtensions(crit, m, false))| <= |AttributesBytes(crit, claim, infos, m)|
  {
    hide EncAll, ExtensionHeader, ExtensionsSize, OtherExtensions, AttributesSize, AttributeBodySize;
  }

  lemma SizeBounds(crit: bool, claim: nat, m: MeasurementData, x509: bool)
    requires claim < 0x100_0000 && |EncAll(OtherExtensions(crit, m, x509))| < 0x1_0000
    ensures ExtensionsSize(crit, claim, m, true, false, x509) < 0x1_0000_0000
    ensures !x509 ==> AttributesSize(crit, claim, m, false) < 0x1_0000_0000
  {
    hide SizeWidth, OtherExtensions, OtherExtensionsSize, EncAll;
    WidthBound();
    OtherExtensionsLayout(crit, m, x509);
  }

  lemma WidthBound()
    ensures forall n :: SizeWidth(n) <= 5
  {}

  lemma PayloadIs(p: Profile, crit: bool, payload: SignedPayload, issuer: Tlv)
    requires payload.m.Valid() && Sized(payload.m) && IssuerIs(payload, issuer) && PayloadBytes(p, crit, payload).Some?
    ensures PayloadBytes(p, crit, payload).value == Enc(PayloadTree(p, crit, payload, issuer)) <==> Honest(p, payload.m)
  {
    hide PayloadHead, PayloadTail, PayloadKids, PayloadLast, EncAll, Honest;
    var head, tail, last := PayloadHead(p, payload), PayloadTail(p, crit, payload), PayloadLast(p, crit, payload);
    TailIs(p, crit, payload);
    HeadIs(p, payload, issuer);
    EncAllOne(last);
    EncAllJoin(PayloadKids(p, payload, issuer), [last]);
    if PayloadBytes(p, crit, payload).value == Enc(PayloadTree(p, crit, payload, issuer)) {
      TaggedInjective(SEQUENCE_TAG, head + tail, head + Enc(last));
      assert tail == (head + tail)[|head|..] && Enc(last) == (head + Enc(last))[|head|..];
    }
  }

  lemma SignedIs(p: Profile, crit: bool, sign: Signer, payload: SignedPayload, issuer: Tlv)
    requires payload.m.Valid() && Sized(payload.m) && IssuerIs(payload, issuer)
        && SignedBytes(p, crit, sign, payload).Some?
    ensures var sig := sign(PayloadBytes(p, crit, payload).value, payload.CertReqInfo?).value;
            SignedBytes(p, crit, sign, payload).value == Enc(SignedTree(p, crit, payload, issuer, sig)) <==>
                Honest(p, payload.m)
  {
    hide PayloadBytes, PayloadTree, SigTrees, EncAll, Honest;
    var b, t := PayloadBytes(p, crit, payload).value, PayloadTree(p, crit, payload, issuer);
    var sig := sign(b, payload.CertReqInfo?).value;
    var end := EncAll(SigTrees(p, sig));
    PayloadIs(p, crit, payload, issuer);
    EncAllOne(t);
    EncAllJoin([t], SigTrees(p, sig));
    if SignedBytes(p, crit, sign, payload).value == Enc(SignedTree(p, crit, payload, issuer, sig)) {
      TaggedInjective(SEQUENCE_TAG, b + end, Enc(t) + end);
      assert |b| == |Enc(t)|;
      assert b == (b + end)[..|b|] && Enc(t) == (Enc(t) + end)[..|b|];
    }
  }

  // ----- tags -----

  ghost predicate AllTagged(ts: seq<Tlv>) {
    forall t :: t in ts ==> WellTagged(t)
  }

  lemma NodeTagged(tag: u8, kids: seq<Tlv>)
    requires tag in {SEQUENCE_TAG, SET_OF_TAG} || CONTEXT_CONSTRUCTED <= tag < CONTEXT_CONSTRUCTED + 0x1f
    requires AllTagged(kids)
    ensures WellTagged(Node(tag, kids))
  {}

  lemma NamesTagged(name: Name)
    ensures WellTagged(NameTree(name))
  {
    forall oid, s: DirectoryString ensures WellTagged(AttributeTree(oid, s)) {
      NodeTagged(SEQUENCE_TAG, [Oid(oid), StringTree(s)]);
    }
  }

  lemma KeysTagged(p: Profile, key: PubKey, sig: Signature, v: CertValidity)
    ensures WellTagged(KeyInfo(p, key)) && AllTagged(SigTrees(p, sig)) && WellTagged(ValidityTree(v))
    ensures WellTagged(AlgId(SigOid(p))) && WellTagged(AlgId(HashOid(p))) && WellTagged(VersionTree())
  {
    hide SigOid, HashOid, CurveOid, IntegerContent, KeyBits, SigBits, BigEndian;
    forall a, b ensures WellTagged(AlgId(a)) && WellTagged(Node(SEQUENCE_TAG, [Oid(a), Oid(b)])) {
      NodeTagged(SEQUENCE_TAG, [Oid(a), Oid(b)]);
    }
    NodeTagged(SEQUENCE_TAG, KeyInfo(p, key).kids);
    NodeTagged(SEQUENCE_TAG, ValidityTree(v).kids);
  }

  lemma ExtensionTagged(oid: seq<u8>, critical: bool, content: seq<u8>)
    ensures WellTagged(Extension(oid, critical, content))
  {}

  lemma ExtensionsTagged(crit: bool, infos: seq<Tlv>, m: MeasurementData, x509: bool)
    ensures WellTagged(ExtensionsTree(crit, infos, m, x509))
  {
    hide Extension, Enc, WellTagged;
    var list := ExtensionList(crit, infos, m, x509);
    forall t | t in list.kids ensures WellTagged(t) {
      var oid, critical, content :| t == Extension(oid, critical, content);
      ExtensionTagged(oid, critical, content);
    }
    NodeTagged(SEQUENCE_TAG, list.kids);
    NodeTagged(CONTEXT_CONSTRUCTED + 3, [list]);
  }

  lemma AttributesTagged(crit: bool, infos: seq<Tlv>, m: MeasurementData)
    ensures WellTagged(AttributesTree(crit, infos, m))
  {
    hide WellTagged, ExtensionsTree;
    var values := Node(SET_OF_TAG, [ExtensionsTree(crit, infos, m, false)]);
    ExtensionsTagged(crit, infos, m, false);
    LeavesTagged();
    NodeTagged(SET_OF_TAG, values.kids);
    NodeTagged(SEQUENCE_TAG, [Oid(EXTENSION_REQUEST_OID), values]);
    NodeTagged(CONTEXT_CONSTRUCTED, [Node(SEQUENCE_TAG, [Oid(EXTENSION_REQUEST_OID), values])]);
  }

  lemma PayloadTagged(p: Profile, payload: SignedPayload, issuer: Tlv)
    requires WellTagged(issuer)
    ensures AllTagged(PayloadKids(p, payload, issuer))
  {
    hide WellTagged, Integer, VersionTree, NameTree, KeyInfo, AlgId, ValidityTree, SigTrees;
    NamesTagged(payload.name);
    KeysTagged(p, payload.key, MldsaSig([]), if payload.Tbs? then payload.validity else CertValidity([], []));
    LeavesTagged();
  }

  lemma SignedTagged(p: Profile, crit: bool, payload: SignedPayload, issuer: Tlv, sig: Signature)
    requires payload.m.Valid() && WellTagged(issuer)
    ensures WellTagged(SignedTree(p, crit, payload, issuer, sig))
  {
    hide WellTagged, ExtensionsTree, AttributesTree, PayloadKids, SigTrees;
    PayloadTagged(p, payload, issuer);
    KeysTagged(p, payload.key, sig, CertValidity([], []));
    ExtensionsTagged(crit, Infos(p, payload.m), payload.m, true);
    AttributesTagged(crit, Infos(p, payload.m), payload.m);
    NodeTagged(SEQUENCE_TAG, PayloadTree(p, crit, payload, issuer).kids);
    NodeTagged(SEQUENCE_TAG, SignedTree(p, crit, payload, issuer, sig).kids);
  }

  lemma LeavesTagged()
    ensures forall b ::
        WellTagged(Oid(b)) && WellTagged(Integer(b)) && WellTagged(Leaf(OCTET_STRING_TAG, b))
            && WellTagged(Leaf(CONTEXT_SPECIFIC, b))
  {}

  /** The certificate or CSR is the encoding of its tree, and a strict parser returns that tree and nothing more,
      exactly when the SVN widths match. */
  lemma SignedFaithful(p: Profile, crit: bool, sign: Signer, payload: SignedPayload, issuer: Tlv)
    requires payload.m.Valid() && Sized(payload.m) && IssuerIs(payload, issuer)
        && SignedBytes(p, crit, sign, payload).Some?
    ensures var b := SignedBytes(p, crit, sign, payload).value;
            var sig := sign(PayloadBytes(p, crit, payload).value, payload.CertReqInfo?).value;
            var t := SignedTree(p, crit, payload, issuer, sig);
            && (b == Enc(t) <==> WidthsMatch(payload.m))
            && (Parse(b) == Some((t, [])) <==> WidthsMatch(payload.m))
  {
    hide PayloadBytes, SignedTree, WellTagged, Parse, Honest, WidthsMatch;
    var b := SignedBytes(p, crit, sign, payload).value;
    var sig := sign(PayloadBytes(p, crit, payload).value, payload.CertReqInfo?).value;
    var t := SignedTree(p, crit, payload, issuer, sig);
    SignedIs(p, crit, sign, payload, issuer);
    HonestIff(p, payload.m);
    SignedTagged(p, crit, payload, issuer, sig);
    assert b + [] == b && Enc(t) + [] == Enc(t);
    if b == Enc(t) {
      ParseEnc(t, []);
    }
    if Parse(b) == Some((t, [])) {
      EncParse(b);
    }
  }

  // ----- what a parser makes of a wrong claim -----

  lemma KidsTagged(p: Profile, payload: SignedPayload, issuer: Tlv)
    requires IssuerIs(payload, issuer) && |PayloadHead(p, payload)| < 0x1_0000_0000
    ensures forall k :: k in PayloadKids(p, payload, issuer) ==> Encodable(k)
  {
    hide PayloadKids, PayloadHead, WellTagged;
    HeadIs(p, payload, issuer);
    PayloadTagged(p, payload, issuer);
    forall k | k in PayloadKids(p, payload, issuer) ensures Encodable(k) {
      EncAllMember(PayloadKids(p, payload, issuer), k);
    }
  }

  /** Right or wrong, the document parses exactly if its extensions or attributes do. */
  lemma ReadableIff(p: Profile, crit: bool, sign: Signer, payload: SignedPayload, issuer: Tlv)
    requires payload.m.Valid() && IssuerIs(payload, issuer) && SignedBytes(p, crit, sign, payload).Some?
    ensures Parse(SignedBytes(p, crit, sign, payload).value).Some? <==> ParseAll(PayloadTail(p, crit, payload)).Some?
  {
    hide PayloadHead, PayloadTail, PayloadKids, EncAll, SigTrees, ParseAll, Parse, LengthBytes, IssuerIs;
    var head, tail := PayloadHead(p, payload), PayloadTail(p, crit, payload);
    var b := PayloadBytes(p, crit, payload).value;
    var sig := sign(b, payload.CertReqInfo?).value;
    var end := EncAll(SigTrees(p, sig));
    KidsTagged(p, payload, issuer);
    HeadIs(p, payload, issuer);
    ParsePrefix(PayloadKids(p, payload, issuer), tail);
    ParseNode(SEQUENCE_TAG, head + tail, end);
    SigsParse(p, sig);
    ParseSplit(b + end);
    ParseNode(SEQUENCE_TAG, b + end, []);
    assert Tagged(SEQUENCE_TAG, b + end) + [] == Tagged(SEQUENCE_TAG, b + end);
  }

  lemma SigsParse(p: Profile, sig: Signature)
    requires |EncAll(SigTrees(p, sig))| < 0x1_0000_0000
    ensures ParseAll(EncAll(SigTrees(p, sig))).Some?
  {
    hide SigTrees, WellTagged;
    KeysTagged(p, MldsaKey([]), sig, CertValidity([], []));
    forall t | t in SigTrees(p, sig) ensures Encodable(t) {
      EncAllMember(SigTrees(p, sig), t);
    }
    ParseEncAll(SigTrees(p, sig));
  }

  /** A claim that is too large, or one byte too small, makes certificate and CSR unreadable; with a claim that is
      smaller still it depends on the bytes that are left over. */
  lemma WrongClaimUnreadable(p: Profile, crit: bool, sign: Signer, payload: SignedPayload, issuer: Tlv)
    requires payload.m.Valid() && Sized(payload.m) && IssuerIs(payload, issuer)
    requires SignedBytes(p, crit, sign, payload).Some?
    requires var claim, actual := Claim(p, payload.m), |EncAll(Infos(p, payload.m))|;
             claim > actual || claim + 1 == actual
    ensures Parse(SignedBytes(p, crit, sign, payload).value).None?
  {
    hide IssuerIs, Sized, ParseAll, Parse, EncAll, Infos, Claim, ExtensionsBytes, AttributesBytes, ExtensionsSize;
    hide AttributesSize, OtherExtensions, PayloadHead, LengthBytes, Header, MeasurementData.Valid, SigTrees;
    var m, claim, infos := payload.m, Claim(p, payload.m), Infos(p, payload.m);
    ReadableIff(p, crit, sign, payload, issuer);
    TailParts(crit, claim, infos, m);
    ClaimBound(p, m);
    SizeBounds(crit, claim, m, payload.Tbs?);
    if payload.Tbs? {
      var rest := ExtensionsStart(crit, claim, infos, m);
      WrongSize(CONTEXT_CONSTRUCTED + 3, ExtensionsSize(crit, claim, m, true, false, true), rest);
    } else {
      var rest := AttributesStart(crit, claim, infos, m);
      WrongSize(CONTEXT_CONSTRUCTED, AttributesSize(crit, claim, m, false), rest);
    }
  }

  // ----- SVNs that break the claim -----

  /** A child of a root in the first slot: the two SVNs must be equally wide. */
  lemma ChildOfFirstSlot(m: MeasurementData)
    requires |m.contexts| == 2 && m.start == 1
    requires Live(m.contexts, 0) && m.contexts[0].parent == ROOT_INDEX
    requires Live(m.contexts, 1) && m.contexts[1].parent == 0
    ensures m.Valid()
    ensures WidthsMatch(m) <==> SvnWidth(m.contexts[0].tci.svn) == SvnWidth(m.contexts[1].tci.svn)
  {
    var cs := m.contexts;
    DepthIs(cs, 0, 0);
    DepthIs(cs, 1, 1);
    var nodes := [cs[0], cs[1]];
    assert Lineage(cs, 1) == nodes;
    assert nodes[..1] == [cs[0]] && nodes[..1][..0] == [];
    assert WidthSum(nodes[..1]) == SvnWidth(cs[0].tci.svn);
    assert WidthSum(nodes) == SvnWidth(cs[0].tci.svn) + SvnWidth(cs[1].tci.svn);
    assert |nodes| * SvnWidth(cs[0].tci.svn) == SvnWidth(cs[0].tci.svn) + SvnWidth(cs[0].tci.svn);
  }

  /** Even a context without a parent is affected by the first slot, which has nothing to do with it. */
  lemma RootOutsideFirstSlot(m: MeasurementData)
    requires |m.contexts| == 2 && m.start == 1
    requires Live(m.contexts, 1) && m.contexts[1].parent == ROOT_INDEX
    ensures m.Valid()
    ensures WidthsMatch(m) <==> SvnWidth(m.contexts[0].tci.svn) == SvnWidth(m.contexts[1].tci.svn)
  {
    var cs := m.contexts;
    DepthIs(cs, 1, 0);
    var nodes := [cs[1]];
    assert Lineage(cs, 1) == nodes && nodes[..0] == [];
    assert WidthSum(nodes) == SvnWidth(cs[1].tci.svn);
  }

  lemma {:induction false} SameInfos(p: Profile, l: seq<Context>, n: seq<Context>, recursive: bool)
    requires |l| == |n| && forall k :: 0 <= k < |l| ==> Identity(l[k]) == Identity(n[k])
    ensures TcbInfos(p, l, recursive) == TcbInfos(p, n, recursive) && WidthSum(l) == WidthSum(n)
  {
    hide TcbInfo, SvnWidth;
    if l != [] {
      assert Identity(l[|l| - 1]) == Identity(n[|n| - 1]);
      SameInfos(p, l[..|l| - 1], n[..|n| - 1], recursive);
    }
  }

  /** Destroying another context leaves a survivor's certificate tree as it was, but if the first slot goes
      with it, the sizes are computed from an SVN of zero from then on. */
  lemma DestroyKeepsCertificate(p: Profile, crit: bool, payload: SignedPayload, issuer: Tlv, i: nat, tciSize: nat)
    requires InRange(payload.m.contexts) && IsForest(payload.m.contexts)
    requires Live(payload.m.contexts, i) && Live(payload.m.contexts, payload.m.start)
        && payload.m.start !in Doomed(payload.m.contexts, i)
    ensures var gone := Doomed(payload.m.contexts, i);
            var after := payload.(m := payload.m.(contexts := Without(payload.m.contexts, gone, tciSize)));
            && payload.m.Valid() && after.m.Valid()
            && PayloadTree(p, crit, after, issuer) == PayloadTree(p, crit, payload, issuer)
            && (WidthsMatch(after.m) <==>
                WidthSum(payload.m.Nodes())
                    == |payload.m.Nodes()| * (if 0 in gone then 1 else SvnWidth(payload.m.contexts[0].tci.svn)))
  {
    hide Doomed, TcbInfos, SvnWidth, WidthSum, Rooted, Lineage, IsForest, OtherExtensions, MultiTree, PayloadKids;
    var m, gone := payload.m, Doomed(payload.m.contexts, i);
    var after := payload.(m := m.(contexts := Without(m.contexts, gone, tciSize)));
    assert SvnWidth(0) == 1 by { ZeroWidth(); }
    DoomedClosedDown(m.contexts, i);
    LiveRooted(m.contexts, m.start);
    SurvivorLineage(m.contexts, gone, m.start, tciSize);
    SameInfos(p, m.Nodes(), after.m.Nodes(), m.supportsRecursive);
    SameOthers(crit, m, after.m, payload.Tbs?);
    assert PayloadKids(p, after, issuer) == PayloadKids(p, payload, issuer) by { SameKids(p, payload, after, issuer); }
  }

  lemma ZeroWidth()
    ensures SvnWidth(0) == 1
  {}

  lemma LiveRooted(cs: seq<Context>, i: nat)
    requires IsForest(cs) && Live(cs, i)
    ensures Rooted(cs, i)
  {}

  lemma SameOthers(crit: bool, m: MeasurementData, n: MeasurementData, x509: bool)
    requires n == m.(contexts := n.contexts)
    ensures OtherExtensions(crit, n, x509) == OtherExtensions(crit, m, x509)
  {}

  lemma SameKids(p: Profile, a: SignedPayload, b: SignedPayload, issuer: Tlv)
    requires b == a.(m := b.m)
    ensures PayloadKids(p, b, issuer) == PayloadKids(p, a, issuer)
  {}

  // ----- CMS -----

  predicate SidIssuerIs(sid: SignerIdentifier, issuer: Tlv) {
    WellTagged(issuer) && (sid.IssuerAndSerialNumber? ==> sid.issuerName == Enc(issuer))
  }

  function SidTree(sid: SignerIdentifier, issuer: Tlv): Tlv {
    match sid
    case IssuerAndSerialNumber(_, serial) => Node(SEQUENCE_TAG, [issuer, Integer(serial)])
    case SubjectKeyIdentifier(ski) => Leaf(CONTEXT_SPECIFIC, Enc(Leaf(OCTET_STRING_TAG, ski)))
  }

  function SignerInfoTree(p: Profile, sig: Signature, sid: SignerIdentifier, issuer: Tlv): Tlv {
    Node(SEQUENCE_TAG, [CmsVersion(sid), SidTree(sid, issuer), AlgId(HashOid(p))] + SignerSigTrees(p, sig))
  }

  /** The CSR is an OCTET STRING: its bytes, whatever they encode. */
  function EncapTree(csr: seq<u8>): Tlv {
    Node(SEQUENCE_TAG, [Oid(ID_DATA_OID), Node(CONTEXT_CONSTRUCTED, [Leaf(OCTET_STRING_TAG, csr)])])
  }

  function SignedDataKids(p: Profile, csr: seq<u8>, sig: Signature, sid: SignerIdentifier, issuer: Tlv): seq<Tlv> {
    [CmsVersion(sid), Node(SET_OF_TAG, [AlgId(HashOid(p))])]
    + [EncapTree(csr), Node(SET_OF_TAG, [SignerInfoTree(p, sig, sid, issuer)])]
  }

  function CmsTree(p: Profile, csr: seq<u8>, sig: Signature, sid: SignerIdentifier, issuer: Tlv): Tlv {
    Node(SEQUENCE_TAG, [
      Oid(ID_SIGNED_DATA_OID),
      Node(CONTEXT_CONSTRUCTED, [Node(SEQUENCE_TAG, SignedDataKids(p, csr, sig, sid, issuer))])])
  }

  lemma SignerInfoIs(p: Profile, sig: Signature, sid: SignerIdentifier, issuer: Tlv)
    requires SidIssuerIs(sid, issuer)
    ensures Enc(SignerInfoTree(p, sig, sid, issuer)) == Tagged(SEQUENCE_TAG, SignerInfoBody(p, sig, sid))
    ensures WellTagged(SignerInfoTree(p, sig, sid, issuer))
  {
    hide WellTagged, AlgId, IntegerContent, BigEndian, SigOctets, HashOid, SigOid;
    var a := [CmsVersion(sid), SidTree(sid, issuer), AlgId(HashOid(p))];
    if sid.IssuerAndSerialNumber? {
      EncAllTwo(issuer, Integer(sid.serialNumber));
    }
    EncAllThree(a[0], a[1], a[2]);
    EncAllJoin(a, SignerSigTrees(p, sig));
    LeavesTagged();
    KeysTagged(p, MldsaKey([]), sig, CertValidity([], []));
    if sid.IssuerAndSerialNumber? {
      NodeTagged(SEQUENCE_TAG, [issuer, Integer(sid.serialNumber)]);
    }
    NodeTagged(SEQUENCE_TAG, a + SignerSigTrees(p, sig));
  }

  lemma EncapIs(csr: seq<u8>)
    requires EncapBytes(csr).Some?
    ensures Enc(EncapTree(csr)) == EncapBytes(csr).value && WellTagged(EncapTree(csr))
  {
    hide Header;
    var content := Node(CONTEXT_CONSTRUCTED, [Leaf(OCTET_STRING_TAG, csr)]);
    EncAllOne(content.kids[0]);
    EncAllTwo(Oid(ID_DATA_OID), content);
    NodeTagged(CONTEXT_CONSTRUCTED, content.kids);
    NodeTagged(SEQUENCE_TAG, [Oid(ID_DATA_OID), content]);
  }

  lemma SignedDataIs(p: Profile, csr: seq<u8>, sig: Signature, sid: SignerIdentifier, issuer: Tlv)
    requires SidIssuerIs(sid, issuer) && EncapBytes(csr).Some?
    ensures EncAll(SignedDataKids(p, csr, sig, sid, issuer)) == CmsHead(p, sid) + EncapBytes(csr).value
        + CmsTail(p, sig, sid)
    ensures AllTagged(SignedDataKids(p, csr, sig, sid, issuer))
  {
    hide WellTagged, AlgId, IntegerContent, BigEndian, HashOid, EncapTree, EncapBytes, SignerInfoTree, SignerInfoBody;
    hide Header;
    var a := [CmsVersion(sid), Node(SET_OF_TAG, [AlgId(HashOid(p))])];
    var info := SignerInfoTree(p, sig, sid, issuer);
    var b := [EncapTree(csr), Node(SET_OF_TAG, [info])];
    EncapIs(csr);
    SignerInfoIs(p, sig, sid, issuer);
    EncAllOne(info);
    EncAllTwo(a[0], a[1]);
    EncAllTwo(b[0], b[1]);
    EncAllJoin(a, b);
    LeavesTagged();
    KeysTagged(p, MldsaKey([]), sig, CertValidity([], []));
    NodeTagged(SET_OF_TAG, [AlgId(HashOid(p))]);
    NodeTagged(SET_OF_TAG, [info]);
  }

  /** The parser finds the message in `b`, and in it, as an OCTET STRING, the CSR. */
  ghost predicate CmsReadsBack(p: Profile, crit: bool, sign: Signer, payload: SignedPayload, sid: SignerIdentifier,
                               issuer: Tlv, b: seq<u8>)
    requires payload.m.Valid()
  {
    exists csr, sig :: Some(csr) == SignedBytes(p, crit, sign, payload) && Some(sig) == sign(csr, false)
                       && Parse(b) == Some((CmsTree(p, csr, sig, sid, issuer), []))
  }

  /** A CMS message always parses to its tree; what it carries is the CSR of `SignedBytes`, right or wrong. */
  lemma CmsFaithful(p: Profile, crit: bool, sign: Signer, payload: SignedPayload, sid: SignerIdentifier, issuer: Tlv)
    requires payload.m.Valid() && SidIssuerIs(sid, issuer) && CmsBytes(p, crit, sign, payload, sid).Some?
    ensures CmsReadsBack(p, crit, sign, payload, sid, issuer, CmsBytes(p, crit, sign, payload, sid).value)
  {
    hide MeasurementData.Valid;
    hide SignedBytes, WellTagged, SignedDataKids, EncapBytes, CmsHead, CmsTail, Parse;
    var csr := SignedBytes(p, crit, sign, payload).value;
    var sig := sign(csr, false).value;
    SignedDataIs(p, csr, sig, sid, issuer);
    var kids := SignedDataKids(p, csr, sig, sid, issuer);
    var data := Node(SEQUENCE_TAG, kids);
    var content := Node(CONTEXT_CONSTRUCTED, [data]);
    EncAllOne(data);
    EncAllTwo(Oid(ID_SIGNED_DATA_OID), content);
    LeavesTagged();
    NodeTagged(SEQUENCE_TAG, kids);
    NodeTagged(CONTEXT_CONSTRUCTED, [data]);
    NodeTagged(SEQUENCE_TAG, [Oid(ID_SIGNED_DATA_OID), content]);
    var t, b := CmsTree(p, csr, sig, sid, issuer), CmsBytes(p, crit, sign, payload, sid).value;
    assert Enc(t) == b;
    assert Enc(t) + [] == b;
    ParseEnc(t, []);
    assert Some(csr) == SignedBytes(p, crit, sign, payload) && Some(sig) == sign(csr, false);
  }
}
