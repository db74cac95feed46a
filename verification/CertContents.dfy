/** What the reader finds in certificates, CSRs and CMS messages: the data that went in. */
module CertContents {
  import opened Bitmap
  import opened Contexts
  import opened RootToChild
  import opened Measurement
  import opened Der
  import opened CertTrees
  import opened CertForms
  import opened CertTheorems
  import opened CertReader
  import opened Oids

  // ----- numbers and nested texts -----

  lemma ContentValue(b: seq<u8>)
    ensures Value(IntegerContent(b)) == Value(b)
  {
    StripSpec(b);
    ValueLeadingZero(Strip(b));
  }

  lemma U64Value(n: u32)
    ensures Value(IntegerContent(U64(n))) == n
  {
    hide IntegerContent;
    assert Pow256(4) == 0x1_0000_0000;
    Pow256Grows(4, 8);
    ValueOfBigEndian(n, 8);
    ContentValue(U64(n));
  }

  lemma FourValue(n: u32)
    ensures Value(BigEndian(n, 4)) == n
  {
    assert Pow256(4) == 0x1_0000_0000;
    ValueOfBigEndian(n, 4);
  }

  lemma InsideEnc(t: Tlv)
    requires Encodable(t)
    ensures Inside(Enc(t)) == t
  {
    hide Parse, Enc, Encodable;
    ParseEnc(t, []);
    assert Enc(t) + [] == Enc(t);
  }

  // ----- TCB infos -----

  lemma OneFwid(p: Profile, digest: Digest)
    ensures ReadFwids([Fwid(p, digest)]) == [FwidReading(HashOid(p), digest)]
  {
    hide HashOid;
    assert [Fwid(p, digest)][1..] == [];
  }

  lemma OneRegister(p: Profile, digest: Digest)
    ensures ReadRegisters(Kids(Registers(p, digest), 0xAB)) == [RegisterReading(0, [FwidReading(HashOid(p), digest)])]
  {
    hide HashOid, IntegerContent, BigEndian, Fwid, ReadFwids, Value;
    U64Value(0);
    OneFwid(p, digest);
    var r := Kids(Registers(p, digest), 0xAB)[0];
    assert Kids(Registers(p, digest), 0xAB)[1..] == [];
    assert r.kids[1..][0].tag == 0xA2;
    assert Pick(r.kids, 0xA2) == r.kids[1];
  }

  lemma {:induction false} PickAt(ts: seq<Tlv>, k: nat)
    requires k < |ts| && forall j :: 0 <= j < k ==> ts[j].tag != ts[k].tag
    ensures Pick(ts, ts[k].tag) == ts[k]
  {
    if k > 0 {
      PickAt(ts[1..], k - 1);
    }
  }

  lemma PickNone(ts: seq<Tlv>, tag: u8)
    requires forall j :: 0 <= j < |ts| ==> ts[j].tag != tag
    ensures Pick(ts, tag) == NOTHING
  {}

  lemma TcbRead(p: Profile, c: Context, recursive: bool)
    ensures TcbTells(ReadTcb(TcbInfo(p, c.tci, recursive)), p, c, recursive)
  {
    hide HashOid, IntegerContent, BigEndian, Fwid, ReadFwids, ReadRegisters, Value, Pick, Registers, FromLe, Le32;
    var t := c.tci;
    var ts := Kids(TcbInfo(p, t, recursive), 0x30);
    U64Value(t.svn);
    FourValue(t.locality);
    FromLe32(t.tciType);
    OneFwid(p, t.current);
    OneRegister(p, t.cumulative);
    assert Registers(p, t.cumulative).tag == 0xAB by { RegistersTag(p, t.cumulative); }
    PickAt(ts, 0);
    PickAt(ts, 1);
    PickAt(ts, 2);
    PickAt(ts, 3);
    if recursive {
      PickAt(ts, 4);
    } else {
      PickNone(ts, 0xAB);
    }
  }

  lemma RegistersTag(p: Profile, digest: Digest)
    ensures Registers(p, digest).tag == 0xAB
  {}

  lemma {:induction false} TcbsRead(p: Profile, nodes: seq<Context>, recursive: bool)
    ensures TcbsTell(ReadTcbs(TcbInfos(p, nodes, recursive)), p, nodes, recursive)
  {
    hide TcbInfo, ReadTcb, TcbTells;
    if nodes != [] {
      var front, last := nodes[..|nodes| - 1], nodes[|nodes| - 1];
      var infos := TcbInfos(p, nodes, recursive);
      TcbsRead(p, front, recursive);
      TcbRead(p, last, recursive);
      ReadTcbsAt(TcbInfos(p, front, recursive));
      ReadTcbsAt(infos);
      forall k | 0 <= k < |nodes| ensures TcbTells(ReadTcbs(infos)[k], p, nodes[k], recursive) {
        if k < |front| {
          assert TcbTells(ReadTcbs(TcbInfos(p, front, recursive))[k], p, front[k], recursive);
        }
      }
    }
  }

  lemma {:induction false} ReadTcbsAt(ts: seq<Tlv>)
    ensures forall k :: 0 <= k < |ts| ==> ReadTcbs(ts)[k] == ReadTcb(ts[k])
  {
    hide ReadTcb;
    if ts != [] {
      ReadTcbsAt(ts[1..]);
    }
  }

  lemma {:induction false} InfosTagged(p: Profile, nodes: seq<Context>, recursive: bool)
    ensures AllTagged(TcbInfos(p, nodes, recursive))
  {
    hide TcbInfo, WellTagged;
    if nodes != [] {
      InfosTagged(p, nodes[..|nodes| - 1], recursive);
      TcbInfoTagged(p, nodes[|nodes| - 1].tci, recursive);
    }
  }

  lemma FieldTagged(n: nat, b: seq<u8>)
    requires n < 0x1f
    ensures WellTagged(Leaf(CONTEXT_SPECIFIC + n, b))
  {}

  lemma FwidTagged(p: Profile, digest: Digest)
    ensures WellTagged(Fwid(p, digest))
  {
    hide WellTagged, HashOid;
    LeavesTagged();
    NodeTagged(SEQUENCE_TAG, Fwid(p, digest).kids);
  }

  lemma RegistersTagged(p: Profile, digest: Digest)
    ensures WellTagged(Registers(p, digest))
  {
    hide WellTagged, HashOid, Fwid, IntegerContent, BigEndian;
    var num := Leaf(CONTEXT_SPECIFIC + 1, IntegerContent(U64(0)));
    var list := Node(CONTEXT_CONSTRUCTED + 2, [Fwid(p, digest)]);
    FwidTagged(p, digest);
    FieldTagged(1, num.content);
    NodeTagged(CONTEXT_CONSTRUCTED + 2, list.kids);
    NodeTagged(SEQUENCE_TAG, [num, list]);
    NodeTagged(CONTEXT_CONSTRUCTED + 11, [Node(SEQUENCE_TAG, [num, list])]);
  }

  lemma TcbInfoTagged(p: Profile, t: TciNodeData, recursive: bool)
    ensures WellTagged(TcbInfo(p, t, recursive))
  {
    hide WellTagged, HashOid, Fwid, IntegerContent, BigEndian, Le32, Registers;
    FieldTagged(3, SvnTree(t).content);
    FieldTagged(8, VendorTree(t).content);
    FieldTagged(9, TypeTree(t).content);
    FwidTagged(p, t.current);
    NodeTagged(CONTEXT_CONSTRUCTED + 6, [Fwid(p, t.current)]);
    RegistersTagged(p, t.cumulative);
    NodeTagged(SEQUENCE_TAG, TcbInfo(p, t, recursive).kids);
  }

  // ----- extensions -----

  lemma {:induction false} FindJoin(a: seq<Tlv>, b: seq<Tlv>, oid: seq<u8>)
    ensures Find(a + b, oid) == if Find(a, oid).Some? then Find(a, oid) else Find(b, oid)
  {
    hide Id;
    if a == [] {
      assert a + b == b;
    } else {
      assert (a + b)[1..] == a[1..] + b;
      FindJoin(a[1..], b, oid);
    }
  }

  lemma ExtensionRead(oid: seq<u8>, critical: bool, content: seq<u8>)
    ensures var e := Extension(oid, critical, content);
            && Id(e) == oid && Field(Kids(e, 0x30), 0x04) == content
            && (Field(Kids(e, 0x30), 0x01) == [0xFF] <==> critical)
  {
    hide Pick;
    var e := Extension(oid, critical, content);
    if critical {
      PickAt(e.kids, 1);
      PickAt(e.kids, 2);
    } else {
      PickAt(e.kids, 1);
      PickNone(e.kids, 0x01);
    }
  }

  lemma FindOne(oid: seq<u8>, critical: bool, content: seq<u8>, want: seq<u8>)
    ensures Find([Extension(oid, critical, content)], want) ==
            if want == oid then Some(Extension(oid, critical, content)) else None
  {
    hide Extension, Id;
    ExtensionRead(oid, critical, content);
    var ts := [Extension(oid, critical, content)];
    assert ts[1..] == [] && Find(ts[1..], want) == None;
  }

  /** The identifiers of the extensions differ. */
  lemma DifferentOids()
    ensures var short := [BASIC_CONSTRAINTS_OID, KEY_USAGE_OID, EXTENDED_KEY_USAGE_OID, SUBJECT_KEY_IDENTIFIER_OID,
                AUTHORITY_KEY_IDENTIFIER_OID, SUBJECT_ALTERNATIVE_NAME_OID];
            && (forall i, j :: 0 <= i < j < 6 ==> short[i] != short[j])
            && (forall i :: 0 <= i < 6 ==> short[i] != UEID_OID && short[i] != MULTI_TCBINFO_OID)
    ensures UEID_OID != MULTI_TCBINFO_OID
  {
    assert UEID_OID[5] != MULTI_TCBINFO_OID[5];
    assert BASIC_CONSTRAINTS_OID[2] == 0x13 && KEY_USAGE_OID[2] == 0x0F && EXTENDED_KEY_USAGE_OID[2] == 0x25;
    assert SUBJECT_KEY_IDENTIFIER_OID[2] == 0x0E && AUTHORITY_KEY_IDENTIFIER_OID[2] == 0x23;
    assert SUBJECT_ALTERNATIVE_NAME_OID[2] == 0x11;
  }

  lemma FindInOthers(crit: bool, m: MeasurementData, x509: bool, want: seq<u8>)
    ensures Find(OtherExtensions(crit, m, x509), want) ==
            if want == UEID_OID then Some(Extension(UEID_OID, crit, Enc(UeidContent(m))))
            else if want == BASIC_CONSTRAINTS_OID then
              Some(Extension(BASIC_CONSTRAINTS_OID, true, Enc(ConstraintsContent(m.isCa))))
            else if want == KEY_USAGE_OID then Some(UsageExtensions(m)[0])
            else if want == EXTENDED_KEY_USAGE_OID then Some(UsageExtensions(m)[1])
            else if want == SUBJECT_KEY_IDENTIFIER_OID && SkiExtension(m, x509) != [] then
              Some(SkiExtension(m, x509)[0])
            else if want == AUTHORITY_KEY_IDENTIFIER_OID && AkiExtension(m, x509) != [] then
              Some(AkiExtension(m, x509)[0])
            else if want == SUBJECT_ALTERNATIVE_NAME_OID && SanExtension(m) != [] then Some(SanExtension(m)[0])
            else None
  {
    hide Extension, Find, Enc, UeidContent, ConstraintsContent, UsageContent, ExtendedUsageContent, AkiContent;
    hide SanContent;
    var b0 := [Extension(UEID_OID, crit, Enc(UeidContent(m)))];
    var b1 := [Extension(BASIC_CONSTRAINTS_OID, true, Enc(ConstraintsContent(m.isCa)))];
    var c0, c1 := [UsageExtensions(m)[0]], [UsageExtensions(m)[1]];
    var d, e, f := SkiExtension(m, x509), AkiExtension(m, x509), SanExtension(m);
    FindNothing(want);
    FindOne(UEID_OID, crit, Enc(UeidContent(m)), want);
    FindOne(BASIC_CONSTRAINTS_OID, true, Enc(ConstraintsContent(m.isCa)), want);
    FindOne(KEY_USAGE_OID, true, Enc(UsageContent(m.isCa)), want);
    FindOne(EXTENDED_KEY_USAGE_OID, true, Enc(ExtendedUsageContent(m.isCa)), want);
    FindOne(SUBJECT_KEY_IDENTIFIER_OID, false, Enc(Leaf(OCTET_STRING_TAG, m.ski)), want);
    FindOne(AUTHORITY_KEY_IDENTIFIER_OID, false, Enc(AkiContent(m)), want);
    if m.san.Some? {
      FindOne(SUBJECT_ALTERNATIVE_NAME_OID, false, Enc(SanContent(m.san.value)), want);
    }
    FindJoin(b0, b1, want);
    FindJoin(c0, c1, want);
    FindJoin(b0 + b1, c0 + c1, want);
    FindJoin(b0 + b1 + (c0 + c1), d, want);
    FindJoin(b0 + b1 + (c0 + c1) + d, e, want);
    FindJoin(b0 + b1 + (c0 + c1) + d + e, f, want);
    assert OtherExtensions(crit, m, x509) == b0 + b1 + (c0 + c1) + d + e + f;
  }

  /** In front of them are the TCB infos. */
  lemma FindInList(crit: bool, infos: seq<Tlv>, m: MeasurementData, x509: bool, want: seq<u8>)
    ensures var list := ExtensionList(crit, infos, m, x509);
            && list.Node?
            && Find(list.kids, want) == if want == MULTI_TCBINFO_OID then Some(MultiTree(crit, infos))
                                        else Find(OtherExtensions(crit, m, x509), want)
  {
    hide Extension, Find, Enc, OtherExtensions;
    FindOne(MULTI_TCBINFO_OID, crit, Enc(Node(SEQUENCE_TAG, infos)), want);
    FindJoin([MultiTree(crit, infos)], OtherExtensions(crit, m, x509), want);
  }

  lemma FindNothing(want: seq<u8>)
    ensures Find([], want) == None
  {}

  lemma {:induction false} FindMember(ts: seq<Tlv>, oid: seq<u8>)
    requires Find(ts, oid).Some?
    ensures Find(ts, oid).value in ts
  {
    hide Id;
    if Find(ts, oid) != Some(ts[0]) {
      FindMember(ts[1..], oid);
    }
  }

  lemma ExtensionHolds(oid: seq<u8>, critical: bool, content: seq<u8>)
    ensures |content| <= |Enc(Extension(oid, critical, content))|
  {
    hide ExtensionHeader, Extension, ExtensionSize;
    ExtensionLayout(oid, critical, content);
  }

  /** A DER text in an extension of a list of limited size is read. */
  lemma HeldIs(list: Tlv, oid: seq<u8>, critical: bool, tree: Tlv)
    requires |EncAll(Kids(list, 0x30))| < 0x1_0000_0000 && WellTagged(tree)
    requires Find(Kids(list, 0x30), oid) == Some(Extension(oid, critical, Enc(tree)))
    ensures Held(list, oid) == Some(tree) && (Critical(list, oid) <==> critical)
  {
    hide Extension, Enc, EncAll, WellTagged, Find, Inside, Field, Kids, Id;
    FindMember(Kids(list, 0x30), oid);
    EncAllMember(Kids(list, 0x30), Extension(oid, critical, Enc(tree)));
    ExtensionHolds(oid, critical, Enc(tree));
    InsideEnc(tree);
    ExtensionRead(oid, critical, Enc(tree));
  }

  /** The list of extensions, of limited size. */
  ghost predicate ListOf(list: Tlv, crit: bool, infos: seq<Tlv>, m: MeasurementData, x509: bool) {
    list == ExtensionList(crit, infos, m, x509) && |EncAll(list.kids)| < 0x1_0000_0000
  }

  lemma TcbsHeld(list: Tlv, p: Profile, crit: bool, nodes: seq<Context>, m: MeasurementData, x509: bool)
    requires ListOf(list, crit, TcbInfos(p, nodes, m.supportsRecursive), m, x509)
    ensures TcbsTell(Tcbs(list), p, nodes, m.supportsRecursive) && (Critical(list, MULTI_TCBINFO_OID) <==> crit)
  {
    hide Held, Critical, Find, EncAll, Enc, TcbsTell, TcbInfos, WellTagged, OtherExtensions, Extension, ReadTcbs;
    var infos := TcbInfos(p, nodes, m.supportsRecursive);
    FindInList(crit, infos, m, x509, MULTI_TCBINFO_OID);
    InfosTagged(p, nodes, m.supportsRecursive);
    NodeTagged(SEQUENCE_TAG, infos);
    HeldIs(list, MULTI_TCBINFO_OID, crit, Node(SEQUENCE_TAG, infos));
    TcbsRead(p, nodes, m.supportsRecursive);
  }

  lemma UeidHeld(list: Tlv, crit: bool, infos: seq<Tlv>, m: MeasurementData, x509: bool)
    requires ListOf(list, crit, infos, m, x509)
    ensures Ueid(list) == Some(m.ueid) && (Critical(list, UEID_OID) <==> crit)
  {
    hide Held, Critical, Find, EncAll, Enc, WellTagged, OtherExtensions, Extension, MultiTree;
    DifferentOids();
    FindInList(crit, infos, m, x509, UEID_OID);
    FindInOthers(crit, m, x509, UEID_OID);
    LeavesTagged();
    NodeTagged(SEQUENCE_TAG, UeidContent(m).kids);
    HeldIs(list, UEID_OID, crit, UeidContent(m));
  }

  lemma AuthorityHeld(list: Tlv, crit: bool, infos: seq<Tlv>, m: MeasurementData, x509: bool)
    requires ListOf(list, crit, infos, m, x509)
    ensures (Authority(list) <==> m.isCa) && Critical(list, BASIC_CONSTRAINTS_OID)
  {
    hide Held, Critical, Find, EncAll, Enc, OtherExtensions, Extension, MultiTree;
    DifferentOids();
    FindInList(crit, infos, m, x509, BASIC_CONSTRAINTS_OID);
    FindInOthers(crit, m, x509, BASIC_CONSTRAINTS_OID);
    HeldIs(list, BASIC_CONSTRAINTS_OID, true, ConstraintsContent(m.isCa));
    assert Pick([], 0x01) == NOTHING;
  }

  lemma UsageHeld(list: Tlv, crit: bool, infos: seq<Tlv>, m: MeasurementData, x509: bool)
    requires ListOf(list, crit, infos, m, x509)
    ensures UsagesTell(list, m.isCa) && Critical(list, KEY_USAGE_OID)
  {
    hide Held, Critical, Find, EncAll, Enc, OtherExtensions, Extension, MultiTree, BitSet;
    DifferentOids();
    FindInList(crit, infos, m, x509, KEY_USAGE_OID);
    FindInOthers(crit, m, x509, KEY_USAGE_OID);
    HeldIs(list, KEY_USAGE_OID, true, UsageContent(m.isCa));
    forall n: nat ensures BitSet(UsageContent(m.isCa), n) <==> n == 0 || (n == 5 && m.isCa) {
      UsageBit(m.isCa, n);
    }
  }

  lemma UsageBit(isCa: bool, n: nat)
    ensures BitSet(UsageContent(isCa), n) <==> n == 0 || (n == 5 && isCa)
  {
    assert Two(0) == 1 && Two(1) == 2 && Two(2) == 4 && Two(3) == 8 && Two(4) == 16 && Two(5) == 32 && Two(6) == 64;
    assert Two(7) == 2 * Two(6);
  }

  lemma PoliciesHeld(list: Tlv, crit: bool, infos: seq<Tlv>, m: MeasurementData, x509: bool)
    requires ListOf(list, crit, infos, m, x509)
    ensures Policies(list) == [if m.isCa then ECA_OID else ATTEST_LOC_OID] && Critical(list, EXTENDED_KEY_USAGE_OID)
  {
    hide Held, Critical, Find, EncAll, Enc, WellTagged, OtherExtensions, Extension, MultiTree;
    DifferentOids();
    FindInList(crit, infos, m, x509, EXTENDED_KEY_USAGE_OID);
    FindInOthers(crit, m, x509, EXTENDED_KEY_USAGE_OID);
    LeavesTagged();
    NodeTagged(SEQUENCE_TAG, ExtendedUsageContent(m.isCa).kids);
    HeldIs(list, EXTENDED_KEY_USAGE_OID, true, ExtendedUsageContent(m.isCa));
    OneId(Oid(PolicyOid(m.isCa)));
  }

  lemma OneId(t: Tlv)
    ensures Ids([t]) == [Content(t, 0x06)]
  {
    assert [t][1..] == [];
  }

  lemma KeyIdsHeld(list: Tlv, crit: bool, infos: seq<Tlv>, m: MeasurementData, x509: bool)
    requires ListOf(list, crit, infos, m, x509)
    ensures SubjectKeyId(list) == (if m.isCa && x509 then Some(m.ski) else None)
    ensures AuthorityKeyId(list) == (if x509 then Some(m.aki) else None)
  {
    hide Critical, Find, EncAll, Enc, WellTagged, OtherExtensions, Extension, MultiTree, Inside;
    DifferentOids();
    FindInList(crit, infos, m, x509, SUBJECT_KEY_IDENTIFIER_OID);
    FindInOthers(crit, m, x509, SUBJECT_KEY_IDENTIFIER_OID);
    FindInList(crit, infos, m, x509, AUTHORITY_KEY_IDENTIFIER_OID);
    FindInOthers(crit, m, x509, AUTHORITY_KEY_IDENTIFIER_OID);
    LeavesTagged();
    NodeTagged(SEQUENCE_TAG, AkiContent(m).kids);
    if x509 {
      HeldIs(list, AUTHORITY_KEY_IDENTIFIER_OID, false, AkiContent(m));
      if m.isCa {
        HeldIs(list, SUBJECT_KEY_IDENTIFIER_OID, false, Leaf(OCTET_STRING_TAG, m.ski));
      }
    }
  }

  lemma AlternativeHeld(list: Tlv, crit: bool, infos: seq<Tlv>, m: MeasurementData, x509: bool)
    requires ListOf(list, crit, infos, m, x509)
    ensures AlternativeName(list) == m.san
  {
    hide Critical, Find, EncAll, Enc, WellTagged, OtherExtensions, Extension, MultiTree, Inside;
    DifferentOids();
    FindInList(crit, infos, m, x509, SUBJECT_ALTERNATIVE_NAME_OID);
    FindInOthers(crit, m, x509, SUBJECT_ALTERNATIVE_NAME_OID);
    if m.san.Some? {
      var o := m.san.value;
      Utf8Tagged(o.value);
      LeavesTagged();
      NodeTagged(CONTEXT_CONSTRUCTED, OtherNameValue(o).kids);
      NodeTagged(CONTEXT_CONSTRUCTED, OtherNameTree(o).kids);
      NodeTagged(SEQUENCE_TAG, SanContent(o).kids);
      HeldIs(list, SUBJECT_ALTERNATIVE_NAME_OID, false, SanContent(o));
    }
  }

  lemma Utf8Tagged(b: seq<u8>)
    ensures WellTagged(Leaf(UTF8_STRING_TAG, b))
  {}

  /** All extensions are read. */
  lemma ListTells(list: Tlv, p: Profile, crit: bool, nodes: seq<Context>, m: MeasurementData, x509: bool)
    requires ListOf(list, crit, TcbInfos(p, nodes, m.supportsRecursive), m, x509)
    ensures TcbsTell(Tcbs(list), p, nodes, m.supportsRecursive) && (Critical(list, MULTI_TCBINFO_OID) <==> crit)
    ensures OthersTell(list, crit, m, x509)
  {
    hide ListOf, TcbsTell, Tcbs, Critical, Ueid, Authority, UsagesTell, Policies, SubjectKeyId, AuthorityKeyId;
    hide AlternativeName, TcbInfos;
    var infos := TcbInfos(p, nodes, m.supportsRecursive);
    TcbsHeld(list, p, crit, nodes, m, x509);
    UeidHeld(list, crit, infos, m, x509);
    AuthorityHeld(list, crit, infos, m, x509);
    UsageHeld(list, crit, infos, m, x509);
    PoliciesHeld(list, crit, infos, m, x509);
    KeyIdsHeld(list, crit, infos, m, x509);
    AlternativeHeld(list, crit, infos, m, x509);
  }

  // ----- names, keys, signatures -----

  lemma NameRead(name: Name)
    ensures NameTells(NameTree(name), name)
  {
    var kids := NameTree(name).kids;
    assert Id(Kid(kids[0], 0x31, 0)) == RDN_COMMON_NAME_OID && Id(Kid(kids[1], 0x31, 0)) == RDN_SERIALNUMBER_OID;
    assert RDN_COMMON_NAME_OID[2] != RDN_SERIALNUMBER_OID[2];
    assert AttributeIn(kids[1..], RDN_SERIALNUMBER_OID) == Some(name.serial);
  }

  lemma KeyRead(p: Profile, key: PubKey)
    ensures KeyTells(KeyInfo(p, key), p, key)
  {
    hide SigOid, CurveOid;
    var info, bits := KeyInfo(p, key), WholeBits(Leaf(BIT_STRING_TAG, KeyBits(key)));
    assert Kid(info, 0x30, 0) == KeyAlgId(p, key) && WholeBits(Kid(info, 0x30, 1)) == bits;
    if key.MldsaKey? {
      assert SigOid(p) != EC_PUB_OID by { NotEcPublicKey(p); }
      assert bits == key.bytes;
    } else {
      assert bits == [4] + key.x + key.y;
    }
  }

  lemma NotEcPublicKey(p: Profile)
    ensures SigOid(p) != EC_PUB_OID
  {
    assert |SigOid(p)| > 7;
  }

  lemma SignatureRead(sig: Signature)
    requires |SigBits(sig)| < 0x1_0000_0000
    ensures SignatureTells(SigOctets(sig), sig) && WholeBits(Leaf(BIT_STRING_TAG, SigBits(sig))) == SigOctets(sig)
  {
    hide IntegerContent, Enc, Value, WellTagged, Inside;
    assert SigBits(sig)[1..] == SigOctets(sig);
    if sig.EcdsaSig? {
      LeavesTagged();
      NodeTagged(SEQUENCE_TAG, SigValue(sig.r, sig.s).kids);
      InsideEnc(SigValue(sig.r, sig.s));
      ContentValue(sig.r);
      ContentValue(sig.s);
    }
  }

  // ----- certificates and CSRs -----

  /** Everything in front of the extensions. */
  ghost predicate HeadTells(body: Tlv, p: Profile, payload: SignedPayload) {
    match payload
    case Tbs(serial, issuer, name, key, _, validity) =>
      && Number(Kid(Kid(body, 0x30, 0), 0xA0, 0)) == 2 && Number(Kid(body, 0x30, 1)) == Value(serial)
      && Id(Kid(body, 0x30, 2)) == SigOid(p) && Enc(Kid(body, 0x30, 3)) == issuer
      && Content(Kid(Kid(body, 0x30, 4), 0x30, 0), 0x18) == validity.notBefore
      && Content(Kid(Kid(body, 0x30, 4), 0x30, 1), 0x18) == validity.notAfter
      && NameTells(Kid(body, 0x30, 5), name) && KeyTells(Kid(body, 0x30, 6), p, key)
    case CertReqInfo(key, name, _) =>
      && Number(Kid(body, 0x30, 0)) == 0
      && NameTells(Kid(body, 0x30, 1), name) && KeyTells(Kid(body, 0x30, 2), p, key)
  }

  /** The TCB infos tell of the contexts from the root down to the certified one, and the other extensions of the
      measurement data. */
  ghost predicate ExtensionsTell(list: Tlv, p: Profile, crit: bool, m: MeasurementData, x509: bool)
    requires m.Valid()
  {
    && TcbsTell(Tcbs(list), p, Lineage(m.contexts, m.start), m.supportsRecursive)
    && (Critical(list, MULTI_TCBINFO_OID) <==> crit)
    && OthersTell(list, crit, m, x509)
  }

  /** The document's last two elements: the algorithm, and the signature of the first one as it is encoded. */
  ghost predicate SignatureStands(t: Tlv, p: Profile, sign: Signer, derived: bool) {
    var sig := sign(Enc(Kid(t, 0x30, 0)), derived);
    sig.Some? && Id(Kid(t, 0x30, 1)) == SigOid(p) && SignatureTells(WholeBits(Kid(t, 0x30, 2)), sig.value)
  }

  /** A certificate or CSR tells what it was made from. */
  ghost predicate SignedTells(b: seq<u8>, p: Profile, crit: bool, sign: Signer, payload: SignedPayload)
    requires payload.m.Valid()
  {
    var body := SignedPart(b);
    && b == Enc(Inside(b))
    && HeadTells(body, p, payload)
    && ExtensionsTell(if payload.Tbs? then CertificateExtensions(body) else RequestedExtensions(body), p, crit,
                      payload.m, payload.Tbs?)
    && SignatureStands(Inside(b), p, sign, payload.CertReqInfo?)
  }

  lemma HeadRead(p: Profile, crit: bool, payload: SignedPayload, issuer: Tlv)
    requires payload.m.Valid() && IssuerIs(payload, issuer)
    ensures HeadTells(PayloadTree(p, crit, payload, issuer), p, payload)
  {
    hide PayloadLast, IntegerContent, BigEndian, NameTree, KeyInfo, NameTells, KeyTells, Value, Enc, WellTagged, SigOid;
    var body := PayloadTree(p, crit, payload, issuer);
    NameRead(payload.name);
    KeyRead(p, payload.key);
    U64Value(0);
    U64Value(2);
    if payload.Tbs? {
      ContentValue(payload.serial);
      assert body.kids[0] == VersionTree() && body.kids[1] == Integer(payload.serial) && body.kids[3] == issuer;
    }
  }

  /** What is in an element is no longer than the element. */
  lemma KidsSmaller(t: Tlv, k: Tlv)
    requires t.Node? && k in t.kids
    ensures |Enc(k)| <= |EncAll(t.kids)| <= |Enc(t)|
  {
    hide EncAll, LengthBytes;
    EncAllMember(t.kids, k);
  }

  lemma ExtensionsRead(p: Profile, crit: bool, payload: SignedPayload, issuer: Tlv)
    requires payload.m.Valid() && |Enc(PayloadTree(p, crit, payload, issuer))| < 0x1_0000_0000
    ensures var body := PayloadTree(p, crit, payload, issuer);
            ExtensionsTell(if payload.Tbs? then CertificateExtensions(body) else RequestedExtensions(body), p, crit,
                           payload.m, payload.Tbs?)
  {
    hide MeasurementData.Valid, Enc, EncAll, PayloadKids, ExtensionList, Lineage, TcbsTell, OthersTell, Tcbs, Critical;
    hide TcbInfos;
    var body, last := PayloadTree(p, crit, payload, issuer), PayloadLast(p, crit, payload);
    var m, x509 := payload.m, payload.Tbs?;
    var list := ExtensionList(crit, Infos(p, m), m, x509);
    assert |PayloadKids(p, payload, issuer)| == (if x509 then 7 else 3) by { HeadLength(p, payload, issuer); }
    assert body.kids[|PayloadKids(p, payload, issuer)|] == last;
    KidsSmaller(body, last);
    if x509 {
      KidsSmaller(last, list);
    } else {
      var attribute := last.kids[0];
      KidsSmaller(last, attribute);
      KidsSmaller(attribute, attribute.kids[1]);
      KidsSmaller(attribute.kids[1], list);
    }
    assert list.Node? && |EncAll(list.kids)| <= |Enc(list)| by { ListSize(crit, Infos(p, m), m, x509); }
    ListTells(list, p, crit, m.Nodes(), m, x509);
  }

  lemma HeadLength(p: Profile, payload: SignedPayload, issuer: Tlv)
    ensures |PayloadKids(p, payload, issuer)| == if payload.Tbs? then 7 else 3
  {}

  lemma ListSize(crit: bool, infos: seq<Tlv>, m: MeasurementData, x509: bool)
    ensures var list := ExtensionList(crit, infos, m, x509); list.Node? && |EncAll(list.kids)| <= |Enc(list)|
  {
    hide EncAll, LengthBytes, OtherExtensions, MultiTree;
  }

  lemma SignatureStandsFor(t: Tlv, p: Profile, sign: Signer, derived: bool, body: Tlv, sig: Signature)
    requires t == Node(SEQUENCE_TAG, [body] + SigTrees(p, sig)) && |Enc(t)| < 0x1_0000_0000
    requires sign(Enc(body), derived) == Some(sig)
    ensures SignatureStands(t, p, sign, derived)
  {
    hide Enc, SigOid, SigBits, SignatureTells, SigOctets, EncAll;
    var end := t.kids[2];
    assert t.kids[0] == body && t.kids[1] == AlgId(SigOid(p)) && end == Leaf(BIT_STRING_TAG, SigBits(sig));
    KidsSmaller(t, end);
    LeafSize(BIT_STRING_TAG, SigBits(sig));
    SignatureRead(sig);
  }

  /** From a certificate or CSR with matching widths, the reader takes what the caller put in: root first the SVN,
      current digest, locality, type and, if supported, cumulative digest of every context on the path, names, key,
      serial number and all other fields; and the signature is one of the signed part as it stands there. */
  lemma SignedRead(p: Profile, crit: bool, sign: Signer, payload: SignedPayload, issuer: Tlv)
    requires payload.m.Valid() && Sized(payload.m) && WidthsMatch(payload.m) && IssuerIs(payload, issuer)
    requires SignedBytes(p, crit, sign, payload).Some?
    ensures SignedTells(SignedBytes(p, crit, sign, payload).value, p, crit, sign, payload)
  {
    hide MeasurementData.Valid, PayloadBytes, PayloadTree, SigTrees, Enc, Parse, Sized, WidthsMatch, IssuerIs, EncAll;
    hide HeadTells, ExtensionsTell, SignatureStands, Honest, Tagged;
    var b, body := SignedBytes(p, crit, sign, payload).value, PayloadTree(p, crit, payload, issuer);
    var sig := sign(PayloadBytes(p, crit, payload).value, payload.CertReqInfo?).value;
    var t := SignedTree(p, crit, payload, issuer, sig);
    SignedFaithful(p, crit, sign, payload, issuer);
    HonestIff(p, payload.m);
    PayloadIs(p, crit, payload, issuer);
    assert Inside(b) == t && t.kids[0] == body;
    assert |Enc(t)| < 0x1_0000_0000 by { SignedShort(p, crit, sign, payload); }
    KidsSmaller(t, body);
    HeadRead(p, crit, payload, issuer);
    ExtensionsRead(p, crit, payload, issuer);
    SignatureStandsFor(t, p, sign, payload.CertReqInfo?, body, sig);
  }

  lemma SignedShort(p: Profile, crit: bool, sign: Signer, payload: SignedPayload)
    requires payload.m.Valid() && SignedBytes(p, crit, sign, payload).Some?
    ensures |SignedBytes(p, crit, sign, payload).value| < 0x1_0000_0000
  {
    hide PayloadBytes, EncAll, SigTrees, LengthBytes, MeasurementData.Valid;
  }

  // ----- CMS messages -----

  ghost predicate SidTells(t: Tlv, sid: SignerIdentifier) {
    match sid
    case IssuerAndSerialNumber(issuer, serial) =>
      Enc(Kid(t, 0x30, 0)) == issuer && Number(Kid(t, 0x30, 1)) == Value(serial)
    case SubjectKeyIdentifier(ski) => Content(Inside(Content(t, 0x80)), 0x04) == ski
  }

  /** A message carries bytes and tells who has signed them and how (RFC 5652, sections 5.1 to 5.3). */
  ghost predicate CmsTells(b: seq<u8>, p: Profile, sign: Signer, sid: SignerIdentifier, carried: seq<u8>) {
    var data := SignedData(b);
    var info := FirstSigner(data);
    var sig := sign(carried, false);
    && b == Enc(Inside(b))
    && Number(Kid(data, 0x30, 0)) == Number(Kid(info, 0x30, 0)) == (if sid.IssuerAndSerialNumber? then 1 else 3)
    && Id(Kid(Kid(data, 0x30, 1), 0x31, 0)) == Id(Kid(info, 0x30, 2)) == HashOid(p)
    && Carried(data) == carried
    && SidTells(Kid(info, 0x30, 1), sid)
    && Id(Kid(info, 0x30, 3)) == SigOid(p)
    && sig.Some? && SignatureTells(Content(Kid(info, 0x30, 4), 0x04), sig.value)
  }

  lemma SidRead(sid: SignerIdentifier, issuer: Tlv)
    requires SidIssuerIs(sid, issuer) && |Enc(SidTree(sid, issuer))| < 0x1_0000_0000
    ensures SidTells(SidTree(sid, issuer), sid)
  {
    hide WellTagged, IntegerContent, Value, Inside;
    if sid.IssuerAndSerialNumber? {
      ContentValue(sid.serialNumber);
    } else {
      LeavesTagged();
      LeafSize(CONTEXT_SPECIFIC, Enc(Leaf(OCTET_STRING_TAG, sid.ski)));
      InsideEnc(Leaf(OCTET_STRING_TAG, sid.ski));
    }
  }

  lemma VersionRead(sid: SignerIdentifier)
    ensures Number(CmsVersion(sid)) == if sid.IssuerAndSerialNumber? then 1 else 3
  {
    hide IntegerContent, BigEndian, Value;
    U64Value(1);
    U64Value(3);
  }

  lemma CmsTreeRead(b: seq<u8>, p: Profile, sign: Signer, csr: seq<u8>, sig: Signature, sid: SignerIdentifier,
      issuer: Tlv)
    requires SidIssuerIs(sid, issuer) && sign(csr, false) == Some(sig)
    requires Inside(b) == CmsTree(p, csr, sig, sid, issuer) && b == Enc(Inside(b)) && |b| < 0x1_0000_0000
    ensures CmsTells(b, p, sign, sid, csr)
  {
    hide Inside, Enc, EncAll, HashOid, SigOid, CmsVersion, SidTree, SidTells, SigOctets, SignatureTells, SidIssuerIs;
    var t := Inside(b);
    var data := Node(SEQUENCE_TAG, SignedDataKids(p, csr, sig, sid, issuer));
    var info := SignerInfoTree(p, sig, sid, issuer);
    KidsSmaller(t, t.kids[1]);
    KidsSmaller(t.kids[1], data);
    KidsSmaller(data, data.kids[3]);
    KidsSmaller(data.kids[3], info);
    KidsSmaller(info, info.kids[1]);
    KidsSmaller(info, info.kids[4]);
    SidRead(sid, issuer);
    VersionRead(sid);
    OctetsRead(p, sig, info.kids[4]);
  }

  lemma OctetsRead(p: Profile, sig: Signature, t: Tlv)
    requires t == Leaf(OCTET_STRING_TAG, SigOctets(sig)) && |Enc(t)| < 0x1_0000_0000
    ensures SignatureTells(SigOctets(sig), sig)
  {
    hide IntegerContent, WellTagged, Value, Inside;
    LeafSize(OCTET_STRING_TAG, SigOctets(sig));
    if sig.EcdsaSig? {
      LeavesTagged();
      NodeTagged(SEQUENCE_TAG, SigValue(sig.r, sig.s).kids);
      InsideEnc(SigValue(sig.r, sig.s));
      ContentValue(sig.r);
      ContentValue(sig.s);
    }
  }

  /** From a CMS message the reader takes the CSR, the signer's identity and signature; and if the widths match, what
      the CSR was made from. */
  lemma CmsRead(p: Profile, crit: bool, sign: Signer, payload: SignedPayload, sid: SignerIdentifier, issuer: Tlv)
    requires payload.m.Valid() && payload.CertReqInfo? && SidIssuerIs(sid, issuer)
    requires CmsBytes(p, crit, sign, payload, sid).Some?
    ensures var b := CmsBytes(p, crit, sign, payload, sid).value;
            var csr := Carried(SignedData(b));
            && CmsTells(b, p, sign, sid, csr)
            && (Sized(payload.m) && WidthsMatch(payload.m) ==> SignedTells(csr, p, crit, sign, payload))
  {
    hide MeasurementData.Valid, SignedBytes, CmsTree, Parse, Enc, SignedTells, CmsTells, Sized, WidthsMatch, CmsBytes;
    hide Carried, SignedData, SidIssuerIs;
    var b := CmsBytes(p, crit, sign, payload, sid).value;
    CmsFaithful(p, crit, sign, payload, sid, issuer);
    var csr, sig :| Some(csr) == SignedBytes(p, crit, sign, payload) && Some(sig) == sign(csr, false)
                    && Parse(b) == Some((CmsTree(p, csr, sig, sid, issuer), []));
    EncParse(b);
    assert b == Enc(Inside(b)) + [] == Enc(Inside(b));
    assert |b| < 0x1_0000_0000 by { CmsShort(p, crit, sign, payload, sid); }
    CmsTreeRead(b, p, sign, csr, sig, sid, issuer);
    assert Carried(SignedData(b)) == csr by { CarriedIs(b, p, sign, sid, csr); }
    if Sized(payload.m) && WidthsMatch(payload.m) {
      assert IssuerIs(payload, NOTHING);
      SignedRead(p, crit, sign, payload, NOTHING);
    }
  }

  lemma CarriedIs(b: seq<u8>, p: Profile, sign: Signer, sid: SignerIdentifier, csr: seq<u8>)
    requires CmsTells(b, p, sign, sid, csr)
    ensures Carried(SignedData(b)) == csr
  {}

  lemma CmsShort(p: Profile, crit: bool, sign: Signer, payload: SignedPayload, sid: SignerIdentifier)
    requires payload.m.Valid() && CmsBytes(p, crit, sign, payload, sid).Some?
    ensures |CmsBytes(p, crit, sign, payload, sid).value| < 0x1_0000_0000
  {
    hide CmsBody, Enc, LengthBytes, MeasurementData.Valid;
  }
}
