/** A run after which a certificate is written and signed that no DER parser reads: two commands and an SVN of
    128 are enough. */
module Mismatch {
  import opened Bitmap
  import opened Contexts
  import opened Forest
  import opened RootToChild
  import opened States
  import opened Commands
  import opened Preservation
  import opened Runs
  import opened Der
  import opened CertTrees
  import opened CertForms
  import opened CertTheorems

  const SIZE := 48

  /** A child with SVN 128 takes the default context's place. */
  const DERIVE_128: DeriveArgs :=
    DeriveArgs(DEFAULT_HANDLE, ZeroDigest(SIZE),
               DeriveFlags(false, false, false, true, false, false, true, false, false, false, false), 1, 0, 128)

  const INITIALIZE: Request := Request(InitializeCmd(true, false), 0, true)

  const DERIVE: Request := Request(DeriveCmd(DERIVE_128, Ok(0)), 0, true)

  const FRESH: Machine := Machine(NewState(2, AllSupported(), SIZE), 0)

  const ROOT: Context := Activated(RootArgs(true, DEFAULT_HANDLE, 0), SIZE)

  function Child(d: Digest): Context {
    var blank := Activated(ChildArgs(DERIVE_128, 0, ROOT, DEFAULT_HANDLE, 0), SIZE);
    blank.(tci := blank.tci.(cumulative := d, current := ZeroDigest(SIZE)))
  }

  function Reached(d: Digest): seq<Context> {
    [ROOT.(state := Retired, handle := INVALID_HANDLE, children := {1}), Child(d)]
  }

  lemma Initialized(env: Env)
    ensures WellFormed(FRESH.st) && IsForest(FRESH.st.contexts)
    ensures var m := Execute(env, FRESH, INITIALIZE).m;
            && WellFormed(m.st) && m.st.contexts == [ROOT, NewContext(SIZE)]
            && m.st == FRESH.st.(contexts := m.st.contexts, hasInitialized := true) && m.drawn == 0
  {
    NewStateValid(2, AllSupported(), SIZE);
    ExecuteKeepsWellFormed(env, FRESH, INITIALIZE);
    assert NextInactive(FRESH.st.contexts, 0) == Some(0);
    assert FRESH.st.contexts == [NewContext(SIZE), NewContext(SIZE)];
  }

  lemma Derived(env: Env, m: Machine, d: Digest)
    requires env.hash(ZeroDigest(SIZE), ZeroDigest(SIZE)) == Some(d) && |d| == SIZE
    requires WellFormed(m.st) && m.st.contexts == [ROOT, NewContext(SIZE)] && m.drawn == 0
    requires m.st.support == AllSupported() && m.st.tciSize == SIZE
    ensures IsForest(m.st.contexts)
    ensures Execute(env, m, DERIVE).result.Ok? && Execute(env, m, DERIVE).m.st.contexts == Reached(d)
  {
    hide WellFormed, IsForest;
    WellFormedForest(m.st);
    var cs := m.st.contexts;
    assert ActiveIn(cs, 0, 0) && FirstMatch(cs, DEFAULT_HANDLE, 0, 0) == 0;
    assert ActivePos(cs, DEFAULT_HANDLE, 0) == Ok(0);
    assert NextInactive(cs, 0) == NextInactive(cs, 1) == Some(1);
    assert CountActive(cs, 0, 2) == CountActive(cs, 0, 1) == 1;
    assert !TypeTaken(cs, 0, 1);
    var o := DeriveChild(env, m, DERIVE_128, 0, ROOT.(state := Retired, handle := INVALID_HANDLE), 0, true);
    assert Execute(env, m, DERIVE) == o;
    var parent := ROOT.(state := Retired, handle := INVALID_HANDLE);
    assert SafeToMakeChild(cs, DERIVE_128.flags, 0, 0);
    var blank := Activated(ChildArgs(DERIVE_128, 0, parent, DEFAULT_HANDLE, 0), SIZE);
    assert blank.tci.cumulative == ZeroDigest(SIZE);
    assert AddMeasurement(env, blank, ZeroDigest(SIZE), 0).Ok?;
    assert AddMeasurement(env, blank, ZeroDigest(SIZE), 0) == Ok(Child(d));
    assert o.m.st.contexts[1] == Child(d);
    assert o.m.st.contexts[0] == Reached(d)[0];
    assert o.m.st.contexts == Reached(d);
  }

  /** InitializeContext and DeriveContext lead from a new DPE to a root in slot 0 with SVN 0 and a child with SVN
      128. */
  lemma RunReaches(env: Env, d: Digest)
    requires env.hash(ZeroDigest(SIZE), ZeroDigest(SIZE)) == Some(d) && |d| == SIZE
    ensures WellFormed(FRESH.st) && Run(env, FRESH, [INITIALIZE, DERIVE]).st.contexts == Reached(d)
  {
    hide WellFormed, Execute;
    Initialized(env);
    var m := Execute(env, FRESH, INITIALIZE).m;
    Derived(env, m, d);
    ExecuteKeepsWellFormed(env, m, DERIVE);
    var m2 := Execute(env, m, DERIVE).m;
    var qs := [INITIALIZE, DERIVE];
    assert qs[1..] == [DERIVE] && [DERIVE][1..] == [];
    assert Run(env, m2, []) == m2;
    assert Run(env, m, [DERIVE]) == m2;
  }

  // ----- the certificate of the child -----

  function Zeros(n: nat): seq<u8> {
    seq(n, _ => 0)
  }

  function Data(d: Digest): MeasurementData {
    MeasurementData(Reached(d), 1, Zeros(48), false, true, Zeros(20), Zeros(20), None)
  }

  const ISSUER: Tlv := Node(SEQUENCE_TAG, [])

  /** "DPE Leaf", and 64 hexadecimal digits. */
  const SUBJECT: Name :=
    Name(PrintableString([0x44, 0x50, 0x45, 0x20, 0x4c, 0x65, 0x61, 0x66]), PrintableString(Digits(64)))

  function Digits(n: nat): seq<u8> {
    seq(n, _ => 0x30)
  }

  function Payload(d: Digest): SignedPayload {
    Tbs(Digits(20), Enc(ISSUER), SUBJECT, MldsaKey(Zeros(2592)), Data(d), CertValidity(Digits(15), Digits(15)))
  }

  /** A signer that always gives the same signature. */
  function ConstantSigner(sig: Signature): Signer {
    (b, derived) => Some(sig)
  }

  const SIGNATURE: Signature := MldsaSig(Zeros(4627))

  lemma DataMismatch(d: Digest)
    requires |d| == SIZE
    ensures Data(d).Valid() && Sized(Data(d)) && !WidthsMatch(Data(d))
    ensures |EncAll(Infos(Mldsa87, Data(d)))| == 311 && Claim(Mldsa87, Data(d)) == 310
  {
    hide TcbInfoSize, TcbInfos;
    var m, p := Data(d), Mldsa87;
    assert m.contexts[0] == Reached(d)[0] && m.contexts[1] == Reached(d)[1];
    ChildOfFirstSlot(m);
    assert AllSized(m.contexts, SIZE);
    DepthIs(m.contexts, 0, 0);
    DepthIs(m.contexts, 1, 1);
    assert Lineage(m.contexts, 0) == [m.contexts[0]];
    assert m.Nodes() == [m.contexts[0], m.contexts[1]];
    assert m.Nodes()[..1] == [m.contexts[0]] && m.Nodes()[..1][..0] == [];
    assert WidthSum(m.Nodes()[..1]) == 1;
    InfosSize(p, m.Nodes(), true, SIZE);
    TcbInfoSizeIs(p, m.contexts[0].tci, true, SIZE);
  }

  lemma IntegerBound(b: seq<u8>)
    ensures |Enc(Integer(b))| <= |b| + 7
  {
    StripSpec(b);
  }

  lemma SubjectBound()
    ensures |Enc(NameTree(SUBJECT))| <= 150
  {
    hide SizeWidth, Header, Enc, NameTree, AttributeTree;
    SmallWidths();
    NameLayout(SUBJECT);
    AttributeLayout(RDN_COMMON_NAME_OID, SUBJECT.cn);
    AttributeLayout(RDN_SERIALNUMBER_OID, SUBJECT.serial);
  }

  lemma KeyBound()
    ensures 2592 <= |Enc(KeyInfo(Mldsa87, MldsaKey(Zeros(2592))))| <= 2700
  {
    hide SizeWidth, Header, Enc, KeyInfo, AlgId, KeyBits;
    SmallWidths();
    AlgIdLayout(SigOid(Mldsa87));
    KeyInfoLayout(Mldsa87, MldsaKey(Zeros(2592)));
    MldsaBits(Zeros(2592));
  }

  lemma HeadBound(d: Digest)
    ensures 2592 <= |PayloadHead(Mldsa87, Payload(d))| <= 3500
  {
    hide SizeWidth, Header, Enc, Integer, AlgId, KeyInfo, NameTree, ValidityTree, VersionTree, SUBJECT;
    SmallWidths();
    VersionLayout();
    IntegerBound(U64(2));
    IntegerBound(Digits(20));
    AlgIdLayout(SigOid(Mldsa87));
    ValidityLayout(CertValidity(Digits(15), Digits(15)));
    SubjectBound();
    KeyBound();
    NodeSize(SEQUENCE_TAG, []);
  }

  lemma MldsaBits(key: seq<u8>)
    ensures |KeyBits(MldsaKey(key))| == 1 + |key|
  {}

  lemma SmallWidths()
    ensures forall n :: 1 <= SizeWidth(n) <= 5
  {}

  lemma OthersBound(d: Digest)
    ensures OtherExtensionsSize(false, Data(d), true) <= 400
  {
    hide SizeWidth;
    SmallWidths();
  }

  lemma TailBound(d: Digest)
    requires |d| == SIZE && Data(d).Valid() && |EncAll(Infos(Mldsa87, Data(d)))| == 311
    ensures |PayloadTail(Mldsa87, false, Payload(d))| <= 1000
  {
    hide SizeWidth, Header, EncAll, Enc, OtherExtensions, OtherExtensionsSize, Infos, Claim, MeasurementData.Valid;
    SmallWidths();
    LeafSize(OID_TAG, MULTI_TCBINFO_OID);
    OtherExtensionsLayout(false, Data(d), true);
    OthersBound(d);
    NoFlag();
  }

  lemma NoFlag()
    ensures EncAll(CriticalFlag(false)) == []
  {}

  lemma EndBound()
    ensures |EncAll(SigTrees(Mldsa87, SIGNATURE))| <= 4800
  {
    hide SizeWidth, LengthBytes, AlgId, SigBits;
    SmallWidths();
    var sig := SIGNATURE;
    AlgIdLayout(SigOid(Mldsa87));
    LeafSize(BIT_STRING_TAG, SigBits(sig));
    assert |SigBits(sig)| == 4628 by { SigBitsExact(sig); MldsaSigBits(Zeros(4627)); }
    EncAllTwo(AlgId(SigOid(Mldsa87)), Leaf(BIT_STRING_TAG, SigBits(sig)));
  }

  lemma MldsaSigBits(b: seq<u8>)
    ensures |SigBits(MldsaSig(b))| == 1 + |b|
  {}

  /** Every reserved size fits and the signature succeeds: the document is written. */
  lemma Emitted(d: Digest)
    requires |d| == SIZE && Data(d).Valid() && |EncAll(Infos(Mldsa87, Data(d)))| == 311
    ensures SignedBytes(Mldsa87, false, ConstantSigner(SIGNATURE), Payload(d)).Some?
  {
    hide PayloadHead, PayloadTail, EncAll, SigTrees, LengthBytes, MeasurementData.Valid, SIGNATURE;
    HeadBound(d);
    TailBound(d);
    EndBound();
  }

  /** A certificate of a state that two commands reach is written and signed, is not the encoding of its tree,
      and is not read at all by a parser that accepts only DER. */
  lemma MismatchIsEmitted(env: Env, d: Digest)
    requires env.hash(ZeroDigest(SIZE), ZeroDigest(SIZE)) == Some(d) && |d| == SIZE
    ensures WellFormed(FRESH.st) && Data(d).contexts == Run(env, FRESH, [INITIALIZE, DERIVE]).st.contexts
    ensures Data(d).Valid() && Sized(Data(d)) && !WidthsMatch(Data(d))
    ensures var b := SignedBytes(Mldsa87, false, ConstantSigner(SIGNATURE), Payload(d));
            && b.Some?
            && b.value != Enc(SignedTree(Mldsa87, false, Payload(d), ISSUER, SIGNATURE))
            && Parse(b.value).None?
  {
    hide PayloadBytes, SignedBytes, SignedTree, Parse, WidthsMatch, Sized, MeasurementData.Valid, WellFormed, Run;
    hide Infos;
    RunReaches(env, d);
    DataMismatch(d);
    Emitted(d);
    IssuerTagged();
    SignedFaithful(Mldsa87, false, ConstantSigner(SIGNATURE), Payload(d), ISSUER);
    WrongClaimUnreadable(Mldsa87, false, ConstantSigner(SIGNATURE), Payload(d), ISSUER);
  }

  lemma IssuerTagged()
    ensures WellTagged(ISSUER)
  {}
}
