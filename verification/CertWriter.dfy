/** The writer: it lays TLVs down one after the other, reserves the sizes it does not know yet, and goes back to fill
    them in. */
module CertWriters {
  import opened Bitmap
  import opened Contexts
  import opened Forest
  import opened RootToChild
  import opened ResponseBuffers
  import opened Measurement
  import opened Der
  import opened CertTrees
  import opened CertForms

  const MAX_BACKTRACKS := 10
  const SIZE_TAG_OFFSET := 3

  function Max(a: nat, b: nat): nat {
    if a < b then b else a
  }

  /** What a writer has produced so far. */
  datatype Draft = Draft(
    /** Everything laid down, whether or not it fitted. */
    text: seq<u8>,
    /** The reserved ranges that are still open. */
    marks: seq<(nat, nat)>,
    csrRange: Option<(nat, nat)>,
    /** The bytes before the view. */
    outside: seq<u8>,
    /** The most ranges that were ever open at once. */
    deepest: nat)
  {
    function Plus(b: seq<u8>): Draft {
      this.(text := text + b)
    }

    function Deep(depth: nat): Draft {
      this.(deepest := Max(deepest, depth))
    }

    function WithCsr(range: Option<(nat, nat)>): Draft {
      this.(csrRange := range)
    }

    /** A range is reserved; it holds whatever the buffer held. */
    function Push(reserved: seq<u8>): Draft {
      this.(text := text + reserved, marks := marks + [(|text|, |text| + |reserved|)],
            deepest := Max(deepest, |marks| + 1))
    }

    /** A structure is opened: its tag, and room for its size. */
    function Open(tag: u8, reserved: seq<u8>): Draft {
      Plus([tag]).Push(reserved)
    }

    predicate MarksOk() {
      forall m :: m in marks ==> m.0 <= m.1 <= |text|
    }

    /** The innermost range is filled with a size of its width. */
    function Fill(size: nat): (r: Option<Draft>)
      requires MarksOk()
      ensures r.Some? ==> r.value.MarksOk() && r.value == this.(text := r.value.text, marks := r.value.marks)
      ensures r.Some? ==> |r.value.text| == |text| && |r.value.marks| + 1 == |marks|
    {
      if marks == [] then None
      else
        var m := marks[|marks| - 1];
        if m.1 - m.0 != SizeWidth(size) then None
        else Some(this.(text := Overlay(text, m.0, LengthBytes(size)), marks := marks[..|marks| - 1]))
    }

    /** The innermost ranges are filled with the sizes, one after the other. */
    function Patch(sizes: seq<nat>): (r: Option<Draft>)
      requires MarksOk()
      ensures r.Some? ==> r.value.MarksOk() && r.value == this.(text := r.value.text, marks := r.value.marks)
      ensures r.Some? ==> |r.value.text| == |text|
      decreases |sizes|
    {
      if sizes == [] then Some(this)
      else if Fill(sizes[0]).None? then None
      else Fill(sizes[0]).value.Patch(sizes[1..])
    }
  }

  function WidthTotal(sizes: seq<nat>): nat {
    if sizes == [] then 0 else SizeWidth(sizes[0]) + WidthTotal(sizes[1..])
  }

  // ----- laws of drafts -----

  lemma Chain2(d: Draft, a: seq<u8>, b: seq<u8>)
    ensures d.Plus(a).Plus(b) == d.Plus(a + b)
  {
    assert d.text + a + b == d.text + (a + b);
  }

  lemma Chain3(d: Draft, a: seq<u8>, b: seq<u8>, c: seq<u8>)
    ensures d.Plus(a).Plus(b).Plus(c) == d.Plus(a + b + c)
  {
    Chain2(d, a, b);
    Chain2(d, a + b, c);
  }

  lemma Chain4(d: Draft, a: seq<u8>, b: seq<u8>, c: seq<u8>, e: seq<u8>)
    ensures d.Plus(a).Plus(b).Plus(c).Plus(e) == d.Plus(a + b + c + e)
  {
    Chain3(d, a, b, c);
    Chain2(d, a + b + c, e);
  }

  lemma Chain5(d: Draft, a: seq<u8>, b: seq<u8>, c: seq<u8>, e: seq<u8>, f: seq<u8>)
    ensures d.Plus(a).Plus(b).Plus(c).Plus(e).Plus(f) == d.Plus(a + b + c + e + f)
  {
    Chain4(d, a, b, c, e);
    Chain2(d, a + b + c + e, f);
  }

  lemma Chain6(d: Draft, a: seq<u8>, b: seq<u8>, c: seq<u8>, e: seq<u8>, f: seq<u8>, g: seq<u8>)
    ensures d.Plus(a).Plus(b).Plus(c).Plus(e).Plus(f).Plus(g) == d.Plus(a + b + c + e + f + g)
  {
    Chain5(d, a, b, c, e, f);
    Chain2(d, a + b + c + e + f, g);
  }

  class CertWriter {
    const certificate: ResponseBuffer
    const profile: Profile
    const critDice: bool
    var offset: nat
    var csrRange: Option<(nat, nat)>
    var backtracks: seq<(nat, nat)>
    var savedOffset: Option<nat>

    ghost var text: seq<u8>
    ghost var deepest: nat

    ghost function Now(): Draft
      reads this, certificate.data
    {
      Draft(text, backtracks, csrRange, certificate.Outside(), deepest)
    }

    /** If everything fits, the view starts with the text; nothing is said about a view that is too small. */
    ghost predicate Agrees()
      reads this, certificate.data
    {
      && offset <= |text| && |backtracks| <= MAX_BACKTRACKS && Now().MarksOk()
      && (|text| <= certificate.Capacity() ==> certificate.View()[..|text|] == text)
    }

    /** The writer stands at the end of the text. */
    ghost predicate Ready()
      reads this, certificate.data
    {
      Agrees() && savedOffset == None && offset == |text|
    }

    /** Exactly `b` has been laid down since `before`, and `n` is its length. */
    ghost predicate Wrote(before: Draft, b: seq<u8>, n: nat)
      reads this, certificate.data
    {
      Ready() && Now() == before.Plus(b) && n == |b|
    }

    /** Exactly `b` has been laid over the text of `before`, from `o` on. */
    ghost predicate Laid(before: Draft, o: nat, saved: Option<nat>, b: seq<u8>)
      reads this, certificate.data
    {
      && Agrees() && o <= |before.text| && offset == o + |b| && savedOffset == saved
      && Now() == before.(text := Overlay(before.text, o, b))
    }

    /** At the end of the text, laying bytes over it appends them. */
    lemma LaidAtEnd(before: Draft, b: seq<u8>)
      requires Laid(before, |before.text|, None, b)
      ensures Wrote(before, b, |b|)
    {}

    lemma LaidNow(before: Draft, o: nat, saved: Option<nat>, b: seq<u8>)
      requires Laid(before, o, saved, b)
      ensures o <= |before.text| && offset == o + |b| && savedOffset == saved && Agrees()
      ensures Now() == before.(text := Overlay(before.text, o, b))
    {}

    lemma LaidMore(before: Draft, o: nat, saved: Option<nat>, a: seq<u8>, b: seq<u8>)
      requires o <= |before.text| && Laid(before.(text := Overlay(before.text, o, a)), o + |a|, saved, b)
      ensures Laid(before, o, saved, a + b)
    {
      OverlayMore(before.text, o, a, b);
    }

    ghost predicate Fits(b: seq<u8>)
      reads this
    {
      |text| + |b| <= certificate.Capacity()
    }

    /** An encoder that checks the buffer on the way; it fails only if `b` does not fit. */
    ghost predicate Appended(before: Draft, b: seq<u8>, r: Result<nat, Error>)
      reads this, certificate.data
    {
      && (|before.text| + |b| <= certificate.Capacity() ==> r.Ok?)
      && (r.Ok? ==> Wrote(before, b, r.value))
      && (r.Err? ==> r.error == CertSizeOverflow && Now().outside == before.outside)
    }

    /** What an encoder that fills sizes in promises, for the bytes `spec` it should lay down while opening
        at most `depth` ranges: a failure is blamed on the buffer unless there are no such bytes. */
    ghost predicate Produces(before: Draft, spec: Option<seq<u8>>, depth: nat, r: Result<nat, Error>)
      reads this, certificate.data
    {
      && Now().outside == before.outside
      && (r.Ok? ==>
            && spec.Some? && |before.marks| + depth <= MAX_BACKTRACKS
            && Ready() && Now() == before.Plus(spec.value).Deep(|before.marks| + depth) && r.value == |spec.value|)
      && (|before.marks| + depth <= MAX_BACKTRACKS ==>
            && (spec.Some? && |before.text| + |spec.value| <= certificate.Capacity() ==> r.Ok?)
            && (r.Err? ==>
                r.error == CertSizeOverflow || (spec.None? && (r.error == X509InvalidWidth || r.error == Crypto))))
    }

    /** The same, with the buffer checked at the end: success exactly when the bytes exist and fit. */
    ghost predicate Delivers(before: Draft, spec: Option<seq<u8>>, depth: nat, r: Result<nat, Error>)
      reads this, certificate.data
    {
      Produces(before, spec, depth, r) && (r.Ok? ==> |text| <= certificate.Capacity())
    }

    lemma Succeeded(before: Draft, spec: Option<seq<u8>>, depth: nat, n: nat)
      requires spec.Some? && |before.marks| + depth <= MAX_BACKTRACKS && n == |spec.value|
      requires Ready() && Now() == before.Plus(spec.value).Deep(|before.marks| + depth)
      ensures Produces(before, spec, depth, Ok(n))
    {}

    /** The failure `e` is excusable: nothing could be laid down, or not here. */
    ghost predicate Excuse(before: Draft, spec: Option<seq<u8>>, depth: nat, e: Error)
      reads this, certificate.data
    {
      && Now().outside == before.outside
      && (|before.marks| + depth <= MAX_BACKTRACKS ==>
            if spec.None? then e == CertSizeOverflow || e == X509InvalidWidth || e == Crypto
            else e == CertSizeOverflow && |before.text| + |spec.value| > certificate.Capacity())
    }

    lemma ExcuseFull(before: Draft, spec: Option<seq<u8>>, depth: nat, e: Error)
      requires Now().outside == before.outside && |before.marks| + depth > MAX_BACKTRACKS
      ensures Excuse(before, spec, depth, e)
    {}

    /** A larger text does not fit, or cannot be laid down, where a part of it fails. */
    lemma ExcusePart(before: Draft, spec: Option<seq<u8>>, depth: nat, part: Draft, partSpec: Option<seq<u8>>,
        partDepth: nat, e: Error)
      requires Excuse(part, partSpec, partDepth, e)
      requires before.outside == part.outside && |part.marks| + partDepth <= |before.marks| + depth
      requires spec.Some? ==> partSpec.Some? && |part.text| + |partSpec.value| <= |before.text| + |spec.value|
      ensures Excuse(before, spec, depth, e)
    {}

    lemma ExcuseNone(before: Draft, spec: Option<seq<u8>>, depth: nat, e: Error)
      requires Now().outside == before.outside && spec.None? && (e == X509InvalidWidth || e == Crypto)
      ensures Excuse(before, spec, depth, e)
    {}

    lemma ExcuseTail(before: Draft, spec: Option<seq<u8>>, depth: nat, late: Draft, tail: seq<u8>)
      requires Now().outside == late.outside == before.outside
      requires spec.Some? && |late.text| + |tail| == |before.text| + |spec.value| > certificate.Capacity()
      ensures Excuse(before, spec, depth, CertSizeOverflow)
    {}

    lemma ExcuseOutside(before: Draft, spec: Option<seq<u8>>, depth: nat, e: Error)
      requires Excuse(before, spec, depth, e)
      ensures Now().outside == before.outside
    {}

    lemma Failed(before: Draft, spec: Option<seq<u8>>, depth: nat, e: Error)
      requires Excuse(before, spec, depth, e)
      ensures Produces(before, spec, depth, Err(e))
    {}

    lemma Outcome(before: Draft, spec: Option<seq<u8>>, depth: nat, r: Result<nat, Error>)
      requires Produces(before, spec, depth, r)
      ensures r.Ok? ==>
        && spec.Some? && |before.marks| + depth <= MAX_BACKTRACKS && r.value == |spec.value|
        && Ready() && Now() == before.Plus(spec.value).Deep(|before.marks| + depth)
      ensures r.Err? ==> Excuse(before, spec, depth, r.error)
    {}

    lemma ReadyMarks()
      requires Ready()
      ensures Now().MarksOk() && |backtracks| <= MAX_BACKTRACKS
      ensures |text| <= certificate.Capacity() ==> certificate.View()[..|text|] == text
    {}

    constructor (certificate: ResponseBuffer, profile: Profile, critDice: bool)
      ensures this.certificate == certificate && this.profile == profile && this.critDice == critDice
      ensures Ready() && Now() == Draft([], [], None, certificate.Outside(), 0)
    {
      this.certificate := certificate;
      this.profile := profile;
      this.critDice := critDice;
      offset := 0;
      csrRange := None;
      backtracks := [];
      savedOffset := None;
      text := [];
      deepest := 0;
    }

    // ----- raw output -----

    /** The bytes are laid over the text at the offset; at its end that appends them. */
    method EncodeBytes(bytes: seq<u8>) returns (n: nat)
      requires Agrees()
      modifies this, certificate.data
      ensures Laid(old(Now()), old(offset), old(savedOffset), bytes) && n == |bytes|
      ensures old(Ready()) ==> Wrote(old(Now()), bytes, n)
    {
      var w := certificate.WriteAt(offset, bytes);
      text := Overlay(text, offset, bytes);
      offset := offset + |bytes|;
      n := |bytes|;
    }

    method EncodeByte(byte: u8) returns (n: nat)
      requires Agrees()
      modifies this, certificate.data
      ensures Laid(old(Now()), old(offset), old(savedOffset), [byte]) && n == 1
      ensures old(Ready()) ==> Wrote(old(Now()), [byte], n)
    {
      n := EncodeBytes([byte]);
    }

    method EncodeSizeField(size: nat) returns (n: nat)
      requires Agrees()
      modifies this, certificate.data
      ensures Laid(old(Now()), old(offset), old(savedOffset), LengthBytes(size)) && n == SizeWidth(size)
      ensures old(Ready()) ==> Wrote(old(Now()), LengthBytes(size), n)
    {
      hide Wrote, Laid, Agrees, SizeWidth, LengthBytes;
      ghost var d, o, saved := Now(), offset, savedOffset;
      var sizeWidth := SizeWidth(size);
      LengthForm(size);
      if sizeWidth == 1 {
        var w := EncodeByte(size);
      } else {
        var rem := sizeWidth - 1;
        var w := EncodeByte(0x80 + rem);
        var i := rem;
        ghost var done: seq<u8> := [0x80 + rem];
        while i > 0
          invariant 0 <= i <= rem && Laid(d, o, saved, done)
          invariant done == [0x80 + rem] + BigEndian(Shifted(size, i), rem - i)
        {
          i := i - 1;
          LaidNow(d, o, saved, done);
          w := EncodeByte(Shifted(size, i) % 0x100);
          LaidMore(d, o, saved, done, [Shifted(size, i) % 0x100]);
          done := done + [Shifted(size, i) % 0x100];
        }
      }
      if old(Ready()) {
        LaidAtEnd(d, LengthBytes(size));
      }
      n := sizeWidth;
    }

    method CheckNotTruncated() returns (r: Result<(), Error>)
      requires Ready()
      ensures r == if |text| <= certificate.Capacity() then Ok(()) else Err(CertSizeOverflow)
    {
      if offset > certificate.Capacity() {
        return Err(CertSizeOverflow);
      }
      return Ok(());
    }

    /** A tag and a size, as every structure starts. */
    method EncodeHeader(tag: u8, size: nat) returns (n: nat)
      requires Ready()
      modifies this, certificate.data
      ensures Wrote(old(Now()), Header(tag, size), n)
    {
      ghost var d := Now();
      var a := EncodeByte(tag);
      var b := EncodeSizeField(size);
      Chain2(d, [tag], LengthBytes(size));
      n := a + b;
    }

    // ----- reserving sizes and filling them in -----

    /** Moves ahead by `skip` bytes and remembers where from. */
    method PushBacktrack(skip: nat) returns (r: Result<nat, Error>, ghost reserved: seq<u8>)
      requires Ready()
      modifies this, certificate.data
      ensures r.Ok? <==> |old(backtracks)| < MAX_BACKTRACKS
      ensures r.Ok? ==> Ready() && r.value == |text| && |reserved| == skip && Now() == old(Now()).Push(reserved)
      ensures r.Err? ==> r.error == X509SkipsExhausted && Now() == old(Now())
    {
      if |backtracks| == MAX_BACKTRACKS {
        return Err(X509SkipsExhausted), [];
      }
      backtracks := backtracks + [(offset, offset + skip)];
      reserved := if offset + skip <= certificate.Capacity() then certificate.View()[offset..offset + skip]
          else seq(skip, _ => 0);
      text := text + reserved;
      deepest := Max(deepest, |backtracks|);
      offset := offset + skip;
      return Ok(offset), reserved;
    }

    method StartBacktrack() returns (r: Result<(), Error>)
      requires Agrees()
      modifies this
      ensures r == if old(savedOffset).None? then Ok(()) else Err(X509InvalidState)
      ensures Agrees() && Now() == old(Now()) && offset == old(offset)
      ensures savedOffset == if r.Ok? then Some(offset) else old(savedOffset)
    {
      if savedOffset.Some? {
        return Err(X509InvalidState);
      }
      savedOffset := Some(offset);
      return Ok(());
    }

    method PopBacktrack(expectedWidth: nat) returns (r: Result<(), Error>)
      requires Agrees()
      modifies this
      ensures savedOffset == old(savedOffset) && Agrees()
      ensures savedOffset.None? || old(backtracks) == [] ==> r == Err(X509InvalidState) && Now() == old(Now())
      ensures savedOffset.Some? && old(backtracks) != [] ==>
        var m := old(backtracks)[|old(backtracks)| - 1];
        && Now() == old(Now()).(marks := old(backtracks)[..|old(backtracks)| - 1])
        && (if m.1 - m.0 == expectedWidth then r.Ok? && offset == m.0 else r == Err(X509InvalidWidth))
    {
      if savedOffset.None? || backtracks == [] {
        return Err(X509InvalidState);
      }
      var range := backtracks[|backtracks| - 1];
      backtracks := backtracks[..|backtracks| - 1];
      if range.1 - range.0 != expectedWidth {
        return Err(X509InvalidWidth);
      }
      offset := range.0;
      return Ok(());
    }

    method EndBacktrack() returns (r: Result<(), Error>)
      requires Agrees() && (savedOffset.Some? ==> savedOffset.value <= |text|)
      modifies this
      ensures r == if old(savedOffset).Some? then Ok(()) else Err(X509InvalidState)
      ensures Agrees() && Now() == old(Now())
      ensures savedOffset == None && (r.Ok? ==> offset == old(savedOffset).value)
    {
      if savedOffset.None? {
        return Err(X509InvalidState);
      }
      offset := savedOffset.value;
      savedOffset := None;
      return Ok(());
    }

    /** Fills the innermost reserved ranges with `sizes`, each of which must have the width of its range. */
    method BacktrackAndEncodeSize(sizes: seq<nat>) returns (r: Result<nat, Error>)
      requires Ready()
      modifies this, certificate.data
      ensures r.Ok? <==> old(Now()).Patch(sizes).Some?
      ensures r.Ok? ==> Ready() && Now() == old(Now()).Patch(sizes).value && r.value == WidthTotal(sizes)
      ensures r.Err? && |sizes| <= |old(backtracks)| ==> r.error == X509InvalidWidth
      ensures certificate.Outside() == old(certificate.Outside())
    {
      hide Laid;
      ghost var d := Now();
      var s := StartBacktrack();
      var bytesWritten := 0;
      for i := 0 to |sizes|
        invariant Agrees() && savedOffset == Some(|text|) && Now().outside == d.outside
        invariant d.Patch(sizes) == Now().Patch(sizes[i..])
        invariant |backtracks| == |d.marks| - i
        invariant bytesWritten + WidthTotal(sizes[i..]) == WidthTotal(sizes)
      {
        assert sizes[i..][0] == sizes[i] && sizes[i..][1..] == sizes[i + 1..];
        var p := PopBacktrack(SizeWidth(sizes[i]));
        if p.Err? {
          return Err(p.error);
        }
        ghost var e, o, saved := Now(), offset, savedOffset;
        var w := EncodeSizeField(sizes[i]);
        LaidNow(e, o, saved, LengthBytes(sizes[i]));
        bytesWritten := bytesWritten + w;
      }
      var e := EndBacktrack();
      return Ok(bytesWritten);
    }

    // ----- primitives -----

    /** The minimal form of a big-endian number, with its size and, if `tagged`, its tag. */
    method EncodeIntegerBytes(integer: seq<u8>, tagged: bool) returns (n: nat)
      requires Ready()
      modifies this, certificate.data
      ensures Wrote(old(Now()),
          (if tagged then [INTEGER_TAG] else []) + LengthBytes(|IntegerContent(integer)|) + IntegerContent(integer), n)
    {
      hide Agrees, Now, IntegerContent, LengthBytes, Laid, SizeWidth;
      ghost var d := Now();
      n := 0;
      Chain2(d, [], []);
      assert d.Plus([]) == d;
      if tagged {
        n := EncodeByte(INTEGER_TAG);
      }
      ghost var t: seq<u8> := if tagged then [INTEGER_TAG] else [];
      var size := GetIntegerBytesSize(integer, false);
      var w := EncodeSizeField(size);
      var integerOffset := if |integer| < size then 0 else |integer| - size;
      var z := 0;
      ghost var zero: seq<u8> := if size > |integer| then [0] else [];
      ghost var e := Now();
      assert e.Plus([]) == e;
      if size > |integer| {
        z := EncodeByte(0);
      }
      var b := EncodeBytes(integer[integerOffset..]);
      ContentTail(integer);
      Chain4(d, t, LengthBytes(size), zero, integer[integerOffset..]);
      assert t + LengthBytes(size) + zero + integer[integerOffset..] == t + LengthBytes(size)
          + (zero + integer[integerOffset..]);
      n := n + w + z + b;
    }

    method EncodeInteger(integer: nat) returns (n: nat)
      requires Ready()
      modifies this, certificate.data
      ensures Wrote(old(Now()), Enc(Integer(U64(integer))), n)
    {
      hide Agrees, Ready, Now, IntegerContent, LengthBytes, BigEndian;
      n := EncodeIntegerBytes(U64(integer), true);
    }

    method EncodeTlv(tag: u8, val: seq<u8>) returns (n: nat)
      requires Ready()
      modifies this, certificate.data
      ensures Wrote(old(Now()), Enc(Leaf(tag, val)), n)
    {
      hide Agrees, Now, LengthBytes, Laid;
      ghost var d := Now();
      var a := EncodeHeader(tag, |val|);
      var b := EncodeBytes(val);
      Chain2(d, Header(tag, |val|), val);
      n := a + b;
    }

    method EncodeOid(oid: seq<u8>) returns (n: nat)
      requires Ready()
      modifies this, certificate.data
      ensures Wrote(old(Now()), Enc(Oid(oid)), n)
    {
      n := EncodeTlv(OID_TAG, oid);
    }

    method EncodeRdnString(s: DirectoryString) returns (n: nat)
      requires Ready()
      modifies this, certificate.data
      ensures Wrote(old(Now()), Enc(StringTree(s)), n)
    {
      n := EncodeTlv(if s.PrintableString? then PRINTABLE_STRING_TAG else UTF8_STRING_TAG, s.bytes);
    }

    /** One attribute of a name: a SET of one SEQUENCE of type and value. */
    method EncodeAttribute(oid: seq<u8>, s: DirectoryString) returns (n: nat)
      requires Ready()
      modifies this, certificate.data
      ensures Wrote(old(Now()), Enc(AttributeTree(oid, s)), n)
    {
      hide Agrees, Ready, Now, Enc, Header;
      ghost var d := Now();
      var size := AttributeSize(oid, s);
      var a := EncodeHeader(SET_OF_TAG, StructureSize(size, true));
      var b := EncodeHeader(SEQUENCE_TAG, size);
      var c := EncodeOid(oid);
      var e := EncodeRdnString(s);
      Chain4(d, Header(SET_OF_TAG, StructureSize(size, true)), Header(SEQUENCE_TAG, size), Enc(Oid(oid)),
          Enc(StringTree(s)));
      AttributeLayout(oid, s);
      n := a + b + c + e;
    }

    method EncodeRdn(name: Name) returns (r: Result<nat, Error>)
      requires Ready()
      modifies this, certificate.data
      ensures r.Ok? <==> old(Fits(Enc(NameTree(name))))
      ensures r.Ok? ==> Wrote(old(Now()), Enc(NameTree(name)), r.value)
      ensures r.Err? ==> r.error == CertSizeOverflow && certificate.Outside() == old(certificate.Outside())
    {
      hide Agrees, Ready, Enc, Header;
      ghost var d := Now();
      var a := EncodeHeader(SEQUENCE_TAG, NameSize(name));
      var b := EncodeAttribute(RDN_COMMON_NAME_OID, name.cn);
      var c := EncodeAttribute(RDN_SERIALNUMBER_OID, name.serial);
      Chain3(d, Header(SEQUENCE_TAG, NameSize(name)), Enc(AttributeTree(RDN_COMMON_NAME_OID, name.cn)),
             Enc(AttributeTree(RDN_SERIALNUMBER_OID, name.serial)));
      NameLayout(name);
      var t := CheckNotTruncated();
      if t.Err? {
        return Err(t.error);
      }
      return Ok(a + b + c);
    }

    /** The AlgorithmIdentifier of the profile's signature algorithm, which has no parameters. */
    method EncodeSigAlgId() returns (n: nat)
      requires Ready()
      modifies this, certificate.data
      ensures Wrote(old(Now()), Enc(AlgId(SigOid(profile))), n)
    {
      n := EncodeAlgId(SigOid(profile));
    }

    method EncodeHashAlgId() returns (n: nat)
      requires Ready()
      modifies this, certificate.data
      ensures Wrote(old(Now()), Enc(AlgId(HashOid(profile))), n)
    {
      n := EncodeAlgId(HashOid(profile));
    }

    method EncodeAlgId(oid: seq<u8>) returns (n: nat)
      requires Ready()
      modifies this, certificate.data
      ensures Wrote(old(Now()), Enc(AlgId(oid)), n)
    {
      hide Agrees, Ready, Now, Enc, Header;
      ghost var d := Now();
      var a := EncodeHeader(SEQUENCE_TAG, AlgIdSize(oid, false));
      var b := EncodeOid(oid);
      Chain2(d, Header(SEQUENCE_TAG, AlgIdSize(oid, false)), Enc(Oid(oid)));
      AlgIdLayout(oid);
      n := a + b;
    }

    method EncodeEcPubAlgId(curve: seq<u8>) returns (n: nat)
      requires Ready()
      modifies this, certificate.data
      ensures Wrote(old(Now()), Enc(EcPubAlgId(curve)), n)
    {
      hide Agrees, Ready, Now, Enc, Header;
      ghost var d := Now();
      var a := EncodeHeader(SEQUENCE_TAG, EcPubAlgIdSize(curve, false));
      var b := EncodeOid(EC_PUB_OID);
      var c := EncodeOid(curve);
      Chain3(d, Header(SEQUENCE_TAG, EcPubAlgIdSize(curve, false)), Enc(Oid(EC_PUB_OID)), Enc(Oid(curve)));
      EcPubAlgIdLayout(curve);
      n := a + b + c;
    }

    method EncodeValidity(validity: CertValidity) returns (n: nat)
      requires Ready()
      modifies this, certificate.data
      ensures Wrote(old(Now()), Enc(ValidityTree(validity)), n)
    {
      hide Agrees, Ready, Now, Enc, Header;
      ghost var d := Now();
      var a := EncodeHeader(SEQUENCE_TAG, ValiditySize(validity, false));
      var b := EncodeTlv(GENERALIZE_TIME_TAG, validity.notBefore);
      var c := EncodeTlv(GENERALIZE_TIME_TAG, validity.notAfter);
      Chain3(d, Header(SEQUENCE_TAG, ValiditySize(validity, false)),
             Enc(Leaf(GENERALIZE_TIME_TAG, validity.notBefore)), Enc(Leaf(GENERALIZE_TIME_TAG, validity.notAfter)));
      ValidityLayout(validity);
      n := a + b + c;
    }

    method EncodePubKeyInfo(key: PubKey) returns (n: nat)
      requires Ready()
      modifies this, certificate.data
      ensures Wrote(old(Now()), Enc(KeyInfo(profile, key)), n)
    {
      hide Agrees, Now, Laid, Enc, Header, CurveOid;
      ghost var d := Now();
      var a := EncodeHeader(SEQUENCE_TAG, KeyInfoSize(profile, key));
      var b, bits, c;
      if key.MldsaKey? {
        b := EncodeSigAlgId();
        bits := EncodeHeader(BIT_STRING_TAG, 1 + |key.bytes|);
        ghost var e := Now();
        var c1 := EncodeByte(0);
        var c2 := EncodeBytes(key.bytes);
        Chain2(e, [0], key.bytes);
        c := c1 + c2;
      } else {
        b := EncodeEcPubAlgId(CurveOid(key));
        bits := EncodeHeader(BIT_STRING_TAG, 1 + (1 + |key.x| + |key.x|));
        ghost var e := Now();
        var c1 := EncodeByte(0);
        var c2 := EncodeByte(4);
        var c3 := EncodeBytes(key.x);
        var c4 := EncodeBytes(key.y);
        Chain4(e, [0], [4], key.x, key.y);
        assert [0] + [4] == [0, 4];
        c := c1 + c2 + c3 + c4;
      }
      Chain4(d, Header(SEQUENCE_TAG, KeyInfoSize(profile, key)), Enc(KeyAlgId(profile, key)),
             Header(BIT_STRING_TAG, |KeyBits(key)|), KeyBits(key));
      KeyInfoLayout(profile, key);
      n := a + b + bits + c;
    }

    method EncodeSigValue(r: seq<u8>, s: seq<u8>) returns (n: nat)
      requires Ready()
      modifies this, certificate.data
      ensures Wrote(old(Now()), Enc(SigValue(r, s)), n)
    {
      hide Agrees, Ready, Now, IntegerContent, SigValueSize, LengthBytes;
      ghost var d := Now();
      var a := EncodeHeader(SEQUENCE_TAG, SigValueSize(r, s));
      var b := EncodeIntegerBytes(r, true);
      var c := EncodeIntegerBytes(s, true);
      Chain3(d, Header(SEQUENCE_TAG, SigValueSize(r, s)), Enc(Integer(r)), Enc(Integer(s)));
      SigValueLayout(r, s);
      n := a + b + c;
    }

    /** The algorithm, and the signature in a BIT STRING. */
    method EncodeSignatureBitString(sig: Signature) returns (n: nat)
      requires Ready()
      modifies this, certificate.data
      ensures Wrote(old(Now()), EncAll(SigTrees(profile, sig)), n)
    {
      hide Agrees, Now, Laid, SigValue, SigOid, LengthBytes, SizeWidth, EncAll, SigBitsSize, AlgId;
      ghost var d := Now();
      var a := EncodeSigAlgId();
      SigBitsExact(sig);
      var b := EncodeHeader(BIT_STRING_TAG, SigBitsSize(sig));
      ghost var e := Now();
      var c1 := EncodeByte(0);
      var c2;
      if sig.EcdsaSig? {
        c2 := EncodeSigValue(sig.r, sig.s);
      } else {
        c2 := EncodeBytes(sig.bytes);
      }
      Chain2(e, [0], if sig.EcdsaSig? then Enc(SigValue(sig.r, sig.s)) else sig.bytes);
      Chain3(d, Enc(AlgId(SigOid(profile))), Header(BIT_STRING_TAG, |SigBits(sig)|), SigBits(sig));
      EncAllTwo(AlgId(SigOid(profile)), Leaf(BIT_STRING_TAG, SigBits(sig)));
      assert Enc(AlgId(SigOid(profile))) + Header(BIT_STRING_TAG, |SigBits(sig)|) + SigBits(sig)
          == Enc(AlgId(SigOid(profile))) + Enc(Leaf(BIT_STRING_TAG, SigBits(sig)));
      n := a + b + (c1 + c2);
    }

    /** The algorithm, and the signature in an OCTET STRING. */
    method EncodeSignatureOctetString(sig: Signature) returns (n: nat)
      requires Ready()
      modifies this, certificate.data
      ensures Wrote(old(Now()), EncAll(SignerSigTrees(profile, sig)), n)
    {
      hide Agrees, Now, Laid, SigValue, SigOid, LengthBytes, SizeWidth, EncAll, AlgId;
      ghost var d := Now();
      var a := EncodeSigAlgId();
      var b, c;
      if sig.EcdsaSig? {
        SigValueLayout(sig.r, sig.s);
        b := EncodeHeader(OCTET_STRING_TAG, StructureSize(SigValueSize(sig.r, sig.s), true));
        c := EncodeSigValue(sig.r, sig.s);
      } else {
        b := EncodeHeader(OCTET_STRING_TAG, |sig.bytes|);
        c := EncodeBytes(sig.bytes);
      }
      Chain3(d, Enc(AlgId(SigOid(profile))), Header(OCTET_STRING_TAG, |SigOctets(sig)|), SigOctets(sig));
      EncAllTwo(AlgId(SigOid(profile)), Leaf(OCTET_STRING_TAG, SigOctets(sig)));
      assert Enc(AlgId(SigOid(profile))) + Header(OCTET_STRING_TAG, |SigOctets(sig)|) + SigOctets(sig)
          == Enc(AlgId(SigOid(profile))) + Enc(Leaf(OCTET_STRING_TAG, SigOctets(sig)));
      n := a + b + c;
    }

    method EncodeVersion() returns (n: nat)
      requires Ready()
      modifies this, certificate.data
      ensures Wrote(old(Now()), Enc(VersionTree()), n)
    {
      hide Agrees, Ready, Now, Enc, Header, IntegerContent, BigEndian;
      ghost var d := Now();
      var size := GetIntegerBytesSize(U64(2), true);
      var a := EncodeHeader(CONTEXT_CONSTRUCTED, size);
      var b := EncodeInteger(2);
      Chain2(d, Header(CONTEXT_CONSTRUCTED, size), Enc(Integer(U64(2))));
      VersionLayout();
      n := a + b;
    }

    // ----- TCB infos -----

    method EncodeFwid(digest: Digest) returns (n: nat)
      requires Ready()
      modifies this, certificate.data
      ensures Wrote(old(Now()), Enc(Fwid(profile, digest)), n)
    {
      hide Agrees, Ready, Now, Enc, Header, HashOid;
      ghost var d := Now();
      var a := EncodeHeader(SEQUENCE_TAG, FwidSize(profile, digest, false));
      var b := EncodeOid(HashOid(profile));
      var c := EncodeTlv(OCTET_STRING_TAG, digest);
      Chain3(d, Header(SEQUENCE_TAG, FwidSize(profile, digest, false)), Enc(Oid(HashOid(profile))),
          Enc(Leaf(OCTET_STRING_TAG, digest)));
      FwidLayout(profile, digest);
      n := a + b + c;
    }

    /** An INTEGER under a tag of its own. */
    method EncodeImplicitInteger(tag: u8, integer: nat) returns (n: nat)
      requires Ready()
      modifies this, certificate.data
      ensures Wrote(old(Now()), Enc(Leaf(tag, IntegerContent(U64(integer)))), n)
    {
      hide Agrees, Now, Laid, IntegerContent, LengthBytes, BigEndian;
      ghost var d := Now();
      var a := EncodeByte(tag);
      var b := EncodeIntegerBytes(U64(integer), false);
      ghost var c := IntegerContent(U64(integer));
      Chain2(d, [tag], [] + LengthBytes(|c|) + c);
      assert [tag] + ([] + LengthBytes(|c|) + c) == Enc(Leaf(tag, c));
      n := a + b;
    }

    method EncodeRegisters(digest: Digest) returns (n: nat)
      requires Ready()
      modifies this, certificate.data
      ensures Wrote(old(Now()), Enc(Registers(profile, digest)), n)
    {
      hide Agrees, Ready, Now, Enc, Header, IntegerContent, BigEndian, FwidSize;
      ghost var d := Now();
      var fwidSize := FwidSize(profile, digest, true);
      var irNumSize := GetIntegerBytesSize(U64(0), true);
      var register := irNumSize + StructureSize(fwidSize, true);
      var a := EncodeHeader(CONTEXT_CONSTRUCTED + 11, StructureSize(register, true));
      var b := EncodeHeader(SEQUENCE_TAG, register);
      var c := EncodeImplicitInteger(CONTEXT_SPECIFIC + 1, 0);
      var e := EncodeHeader(CONTEXT_CONSTRUCTED + 2, fwidSize);
      var f := EncodeFwid(digest);
      Chain5(d, Header(CONTEXT_CONSTRUCTED + 11, StructureSize(register, true)), Header(SEQUENCE_TAG, register),
             Enc(Leaf(CONTEXT_SPECIFIC + 1, IntegerContent(U64(0)))), Header(CONTEXT_CONSTRUCTED + 2, fwidSize),
             Enc(Fwid(profile, digest)));
      RegistersLayout(profile, digest);
      n := a + b + c + e + f;
    }

    method EncodeFwids(digest: Digest) returns (n: nat)
      requires Ready()
      modifies this, certificate.data
      ensures Wrote(old(Now()), Enc(FwidsTree(profile, digest)), n)
    {
      hide Agrees, Ready, Now, Enc, Header, FwidSize;
      ghost var d := Now();
      var a := EncodeHeader(CONTEXT_CONSTRUCTED + 6, FwidSize(profile, digest, true));
      var b := EncodeFwid(digest);
      Chain2(d, Header(CONTEXT_CONSTRUCTED + 6, FwidSize(profile, digest, true)), Enc(Fwid(profile, digest)));
      FwidsLayout(profile, digest);
      n := a + b;
    }

    method EncodeTcbInfo(node: TciNodeData, supportsRecursive: bool) returns (n: nat)
      requires Ready()
      modifies this, certificate.data
      ensures Wrote(old(Now()), Enc(TcbInfo(profile, node, supportsRecursive)), n)
    {
      hide Agrees, Ready, Now, Enc, Header, IntegerContent, BigEndian, TcbInfoSize, TcbInfo, FwidsTree, Registers;
      ghost var d := Now();
      var a := EncodeHeader(SEQUENCE_TAG, TcbInfoSize(profile, node, supportsRecursive, false));
      var b := EncodeImplicitInteger(CONTEXT_SPECIFIC + 3, node.svn);
      var c := EncodeFwids(node.current);
      var e := EncodeTlv(CONTEXT_SPECIFIC + 8, BigEndian(node.locality, 4));
      var f := EncodeTlv(CONTEXT_SPECIFIC + 9, Le32(node.tciType));
      ghost var l := Now();
      assert l.Plus([]) == l;
      var g := 0;
      if supportsRecursive {
        g := EncodeRegisters(node.cumulative);
        EncAllOne(Registers(profile, node.cumulative));
      }
      Chain6(d, Header(SEQUENCE_TAG, TcbInfoSize(profile, node, supportsRecursive, false)), Enc(SvnTree(node)),
             Enc(FwidsTree(profile, node.current)), Enc(VendorTree(node)), Enc(TypeTree(node)),
             EncAll(RegistersIf(profile, node, supportsRecursive)));
      TcbInfoLayout(profile, node, supportsRecursive);
      n := a + b + c + e + f + g;
    }

    /** Every node on the path to the root, root first. */
    method EncodeTcbInfos(m: MeasurementData) returns (n: nat)
      requires m.Valid()
      requires Ready()
      modifies this, certificate.data
      ensures Wrote(old(Now()), EncAll(Infos(profile, m)), n)
    {
      hide MeasurementData.Valid, MeasurementData.Nodes, RootToChildIter.Valid, RootToChildIter.Pending;
      hide Agrees, Ready, Now, Enc, EncAll, TcbInfo, TcbInfos, Draft.Plus;
      var iter := PathOf(m);
      ghost var start, done, rest := Now(), [], iter.Pending();
      n := 0;
      NoInfos(start, profile, m.supportsRecursive);
      while true
        invariant fresh(iter) && iter.Valid() && rest == iter.Pending() && m.Nodes() == done + rest
        invariant Wrote(start, EncAll(TcbInfos(profile, done, m.supportsRecursive)), n)
        decreases |rest|
      {
        var item := iter.Next();
        if item == None {
          break;
        }
        var w := EncodeTcbInfo(item.value.value.tci, m.supportsRecursive);
        OneMoreInfo(start, profile, done, rest[0], m.supportsRecursive);
        assert rest == [rest[0]] + rest[1..];
        done, rest := done + [rest[0]], rest[1..];
        n := n + w;
      }
      assert done == m.Nodes();
    }

    /** The TCB infos behind sizes computed from the first slot. */
    method EncodeMultiTcbInfo(m: MeasurementData) returns (n: nat)
      requires m.Valid()
      requires Ready()
      modifies this, certificate.data
      ensures Wrote(old(Now()), MultiBytes(critDice, Claim(profile, m), Infos(profile, m)), n)
    {
      hide Agrees, Ready, Now, EncAll, Header, ExtensionHeader, Claim, Infos;
      ghost var d := Now();
      var claim := TcbInfosSize(m);
      var a := EncodeExtensionHeader(MULTI_TCBINFO_OID, critDice, StructureSize(claim, true));
      var b := EncodeHeader(SEQUENCE_TAG, claim);
      var c := EncodeTcbInfos(m);
      Chain3(d, ExtensionHeader(MULTI_TCBINFO_OID, critDice, StructureSize(claim, true)), Header(SEQUENCE_TAG, claim),
          EncAll(Infos(profile, m)));
      n := a + b + c;
    }

    // ----- extensions -----

    method EncodeCriticalFlag(critical: bool) returns (n: nat)
      requires Ready()
      modifies this, certificate.data
      ensures Wrote(old(Now()), EncAll(CriticalFlag(critical)), n)
    {
      hide Agrees;
      ghost var d := Now();
      assert d.Plus([]) == d;
      n := 0;
      if critical {
        n := EncodeTlv(BOOL_TAG, [0xFF]);
        EncAllOne(Leaf(BOOL_TAG, [0xFF]));
      }
    }

    method EncodeExtensionHeader(oid: seq<u8>, critical: bool, contentSize: nat) returns (n: nat)
      requires Ready()
      modifies this, certificate.data
      ensures Wrote(old(Now()), ExtensionHeader(oid, critical, contentSize), n)
    {
      hide Agrees, Ready, Now, Enc, EncAll, Header, ExtensionSize;
      ghost var d := Now();
      var a := EncodeHeader(SEQUENCE_TAG, ExtensionSize(oid, critical, contentSize, false));
      var b := EncodeOid(oid);
      var c := EncodeCriticalFlag(critical);
      var e := EncodeHeader(OCTET_STRING_TAG, contentSize);
      Chain4(d, Header(SEQUENCE_TAG, ExtensionSize(oid, critical, contentSize, false)), Enc(Oid(oid)),
          EncAll(CriticalFlag(critical)),
             Header(OCTET_STRING_TAG, contentSize));
      n := a + b + c + e;
    }

    method EncodeUeid(m: MeasurementData) returns (n: nat)
      requires Ready()
      modifies this, certificate.data
      ensures Wrote(old(Now()), Enc(Extension(UEID_OID, critDice, Enc(UeidContent(m)))), n)
    {
      hide Agrees, Ready, Now, Enc, Header, ExtensionHeader, Extension;
      ghost var d := Now();
      var inner := StructureSize(|m.ueid|, true);
      var a := EncodeExtensionHeader(UEID_OID, critDice, StructureSize(inner, true));
      var b := EncodeHeader(SEQUENCE_TAG, inner);
      var c := EncodeTlv(OCTET_STRING_TAG, m.ueid);
      Chain3(d, ExtensionHeader(UEID_OID, critDice, StructureSize(inner, true)), Header(SEQUENCE_TAG, inner),
          Enc(Leaf(OCTET_STRING_TAG, m.ueid)));
      LeafSize(OCTET_STRING_TAG, m.ueid);
      OneKid(SEQUENCE_TAG, Leaf(OCTET_STRING_TAG, m.ueid));
      Regroup(ExtensionHeader(UEID_OID, critDice, StructureSize(inner, true)), Header(SEQUENCE_TAG, inner),
          Enc(Leaf(OCTET_STRING_TAG, m.ueid)));
      ExtensionLayout(UEID_OID, critDice, Enc(UeidContent(m)));
      n := a + b + c;
    }

    method EncodeBasicConstraints(m: MeasurementData) returns (n: nat)
      requires Ready()
      modifies this, certificate.data
      ensures Wrote(old(Now()), Enc(Extension(BASIC_CONSTRAINTS_OID, true, Enc(ConstraintsContent(m.isCa)))), n)
    {
      hide Agrees, Ready, Now, Enc, EncAll, Header, ExtensionHeader, Extension, ConstraintsContent;
      ghost var d := Now();
      var inner := ConstraintsInnerSize(m.isCa);
      var a := EncodeExtensionHeader(BASIC_CONSTRAINTS_OID, true, StructureSize(inner, true));
      var b := EncodeHeader(SEQUENCE_TAG, inner);
      var c := EncodeCriticalFlag(m.isCa);
      Chain3(d, ExtensionHeader(BASIC_CONSTRAINTS_OID, true, StructureSize(inner, true)), Header(SEQUENCE_TAG, inner),
          EncAll(CriticalFlag(m.isCa)));
      ConstraintsLayout(m.isCa);
      Regroup(ExtensionHeader(BASIC_CONSTRAINTS_OID, true, StructureSize(inner, true)), Header(SEQUENCE_TAG, inner),
          EncAll(CriticalFlag(m.isCa)));
      ExtensionLayout(BASIC_CONSTRAINTS_OID, true, Enc(ConstraintsContent(m.isCa)));
      n := a + b + c;
    }

    method EncodeKeyUsage(isCa: bool) returns (n: nat)
      requires Ready()
      modifies this, certificate.data
      ensures Wrote(old(Now()), Enc(Extension(KEY_USAGE_OID, true, Enc(UsageContent(isCa)))), n)
    {
      hide Agrees, Ready, Now, Enc, Header, ExtensionHeader, Extension;
      ghost var d := Now();
      var a := EncodeExtensionHeader(KEY_USAGE_OID, true, StructureSize(2, true));
      var b := EncodeTlv(BIT_STRING_TAG, if isCa then [2, 0x84] else [7, 0x80]);
      Chain2(d, ExtensionHeader(KEY_USAGE_OID, true, StructureSize(2, true)), Enc(UsageContent(isCa)));
      LeafSize(BIT_STRING_TAG, UsageContent(isCa).content);
      ExtensionLayout(KEY_USAGE_OID, true, Enc(UsageContent(isCa)));
      n := a + b;
    }

    method EncodeExtendedKeyUsage(m: MeasurementData) returns (n: nat)
      requires Ready()
      modifies this, certificate.data
      ensures Wrote(old(Now()), Enc(Extension(EXTENDED_KEY_USAGE_OID, true, Enc(ExtendedUsageContent(m.isCa)))), n)
    {
      hide Agrees, Ready, Now, Enc, Header, ExtensionHeader, Extension, PolicyOid;
      ghost var d := Now();
      var oid := PolicyOid(m.isCa);
      var inner := StructureSize(|oid|, true);
      var a := EncodeExtensionHeader(EXTENDED_KEY_USAGE_OID, true, StructureSize(inner, true));
      var b := EncodeHeader(SEQUENCE_TAG, inner);
      var c := EncodeOid(oid);
      Chain3(d, ExtensionHeader(EXTENDED_KEY_USAGE_OID, true, StructureSize(inner, true)), Header(SEQUENCE_TAG, inner),
          Enc(Oid(oid)));
      LeafSize(OID_TAG, oid);
      OneKid(SEQUENCE_TAG, Oid(oid));
      Regroup(ExtensionHeader(EXTENDED_KEY_USAGE_OID, true, StructureSize(inner, true)), Header(SEQUENCE_TAG, inner),
          Enc(Oid(oid)));
      ExtensionLayout(EXTENDED_KEY_USAGE_OID, true, Enc(ExtendedUsageContent(m.isCa)));
      n := a + b + c;
    }

    method EncodeOtherName(o: OtherName) returns (n: nat)
      requires Ready()
      modifies this, certificate.data
      ensures Wrote(old(Now()), Enc(OtherNameTree(o)), n)
    {
      hide Agrees, Ready, Now, Enc, Header, OtherNameSize, KeyIdentifierSize;
      ghost var d := Now();
      var tag := CONTEXT_CONSTRUCTED;
      var a := EncodeHeader(tag, OtherNameSize(o, false));
      var b := EncodeOid(o.oid);
      var c := EncodeHeader(tag, KeyIdentifierSize(o.value, true, false));
      var e := EncodeTlv(UTF8_STRING_TAG, o.value);
      Chain4(d, Header(tag, OtherNameSize(o, false)), Enc(Oid(o.oid)),
          Header(tag, KeyIdentifierSize(o.value, true, false)), Enc(Leaf(UTF8_STRING_TAG, o.value)));
      OtherNameLayout(o);
      n := a + b + c + e;
    }

    method EncodeSubjectAltName(m: MeasurementData) returns (n: nat)
      requires Ready()
      modifies this, certificate.data
      ensures Wrote(old(Now()), EncAll(SanExtension(m)), n)
    {
      hide Agrees, Ready, Now, Enc, Header, ExtensionHeader, Extension, OtherNameSize, OtherNameTree;
      ghost var d := Now();
      if m.san == None {
        assert d.Plus([]) == d;
        return 0;
      }
      var o := m.san.value;
      var inner := OtherNameSize(o, true);
      var a := EncodeExtensionHeader(SUBJECT_ALTERNATIVE_NAME_OID, false, StructureSize(inner, true));
      var b := EncodeHeader(SEQUENCE_TAG, inner);
      var c := EncodeOtherName(o);
      Chain3(d, ExtensionHeader(SUBJECT_ALTERNATIVE_NAME_OID, false, StructureSize(inner, true)),
          Header(SEQUENCE_TAG, inner), Enc(OtherNameTree(o)));
      OtherNameLayout(o);
      OneKid(SEQUENCE_TAG, OtherNameTree(o));
      Regroup(ExtensionHeader(SUBJECT_ALTERNATIVE_NAME_OID, false, StructureSize(inner, true)),
          Header(SEQUENCE_TAG, inner), Enc(OtherNameTree(o)));
      ExtensionLayout(SUBJECT_ALTERNATIVE_NAME_OID, false, Enc(SanContent(o)));
      EncAllOne(SanExtension(m)[0]);
      n := a + b + c;
    }

    method EncodeAuthorityKeyIdentifier(m: MeasurementData, x509: bool) returns (n: nat)
      requires Ready()
      modifies this, certificate.data
      ensures Wrote(old(Now()), EncAll(AkiExtension(m, x509)), n)
    {
      hide Agrees, Ready, Now, Enc, Header, ExtensionHeader, Extension;
      ghost var d := Now();
      if !x509 {
        assert d.Plus([]) == d;
        return 0;
      }
      var inner := KeyIdentifierSize(m.aki, true, false);
      var a := EncodeExtensionHeader(AUTHORITY_KEY_IDENTIFIER_OID, false, StructureSize(inner, true));
      var b := EncodeHeader(SEQUENCE_TAG, inner);
      var c := EncodeTlv(CONTEXT_SPECIFIC, m.aki);
      Chain3(d, ExtensionHeader(AUTHORITY_KEY_IDENTIFIER_OID, false, StructureSize(inner, true)),
          Header(SEQUENCE_TAG, inner), Enc(Leaf(CONTEXT_SPECIFIC, m.aki)));
      LeafSize(CONTEXT_SPECIFIC, m.aki);
      OneKid(SEQUENCE_TAG, Leaf(CONTEXT_SPECIFIC, m.aki));
      Regroup(ExtensionHeader(AUTHORITY_KEY_IDENTIFIER_OID, false, StructureSize(inner, true)),
          Header(SEQUENCE_TAG, inner), Enc(Leaf(CONTEXT_SPECIFIC, m.aki)));
      ExtensionLayout(AUTHORITY_KEY_IDENTIFIER_OID, false, Enc(AkiContent(m)));
      EncAllOne(AkiExtension(m, x509)[0]);
      n := a + b + c;
    }

    method EncodeSubjectKeyIdentifier(m: MeasurementData, x509: bool) returns (n: nat)
      requires Ready()
      modifies this, certificate.data
      ensures Wrote(old(Now()), EncAll(SkiExtension(m, x509)), n)
    {
      hide Agrees, Ready, Now, Enc, Header, ExtensionHeader, Extension;
      ghost var d := Now();
      if !m.isCa || !x509 {
        assert d.Plus([]) == d;
        return 0;
      }
      var size := StructureSize(|m.ski|, true);
      var a := EncodeExtensionHeader(SUBJECT_KEY_IDENTIFIER_OID, false, size);
      var b := EncodeTlv(OCTET_STRING_TAG, m.ski);
      Chain2(d, ExtensionHeader(SUBJECT_KEY_IDENTIFIER_OID, false, size), Enc(Leaf(OCTET_STRING_TAG, m.ski)));
      LeafSize(OCTET_STRING_TAG, m.ski);
      ExtensionLayout(SUBJECT_KEY_IDENTIFIER_OID, false, Enc(Leaf(OCTET_STRING_TAG, m.ski)));
      EncAllOne(SkiExtension(m, x509)[0]);
      n := a + b;
    }

    method EncodeOtherExtensions(m: MeasurementData, x509: bool) returns (n: nat)
      requires Ready()
      modifies this, certificate.data
      ensures Wrote(old(Now()), EncAll(OtherExtensions(critDice, m, x509)), n)
    {
      hide Agrees, Ready, Now, Enc, EncAll, Extension, SkiExtension, AkiExtension, SanExtension, OtherExtensions;
      hide UeidContent, ConstraintsContent, UsageContent, ExtendedUsageContent;
      ghost var d := Now();
      var a := EncodeUeid(m);
      var b := EncodeBasicConstraints(m);
      ghost var e := Now();
      var c1 := EncodeKeyUsage(m.isCa);
      var c2 := EncodeExtendedKeyUsage(m);
      UsageLayout(m);
      Chain2(e, Enc(UsageExtensions(m)[0]), Enc(UsageExtensions(m)[1]));
      var f := EncodeSubjectKeyIdentifier(m, x509);
      var g := EncodeAuthorityKeyIdentifier(m, x509);
      var h := EncodeSubjectAltName(m);
      Chain6(d, Enc(Extension(UEID_OID, critDice, Enc(UeidContent(m)))),
             Enc(Extension(BASIC_CONSTRAINTS_OID, true, Enc(ConstraintsContent(m.isCa)))),
             EncAll(UsageExtensions(m)), EncAll(SkiExtension(m, x509)), EncAll(AkiExtension(m, x509)),
             EncAll(SanExtension(m)));
      OtherExtensionsLayout(critDice, m, x509);
      n := a + b + (c1 + c2) + f + g + h;
    }

    /** The size of the TCB infos as the size functions see it. */
    method TcbInfosSize(m: MeasurementData) returns (claim: nat)
      requires m.Valid()
      ensures claim == Claim(profile, m)
    {
      hide TcbInfoSize, Rooted, MeasurementData.Nodes;
      var iter := PathOf(m);
      claim := |iter.path| * TcbInfoSize(profile, m.contexts[0].tci, m.supportsRecursive, true);
    }

    method EncodeExtensions(m: MeasurementData, x509: bool) returns (n: nat)
      requires m.Valid()
      requires Ready()
      modifies this, certificate.data
      ensures Wrote(old(Now()), ExtensionsBytes(critDice, Claim(profile, m), Infos(profile, m), m, x509), n)
    {
      hide Agrees, Ready, Now, Enc, EncAll, Header, ExtensionsSize, MultiBytes, OtherExtensions, Claim, Infos;
      ghost var d := Now();
      var claim := TcbInfosSize(m);
      assert d.Plus([]) == d;
      var a := 0;
      var size := ExtensionsSize(critDice, claim, m, true, false, x509);
      if x509 {
        a := EncodeHeader(CONTEXT_CONSTRUCTED + 3, size);
      }
      var b := EncodeHeader(SEQUENCE_TAG, ExtensionsSize(critDice, claim, m, false, false, x509));
      var c := EncodeMultiTcbInfo(m);
      var e := EncodeOtherExtensions(m, x509);
      Chain4(d, if x509 then Header(CONTEXT_CONSTRUCTED + 3, size) else [],
             Header(SEQUENCE_TAG, ExtensionsSize(critDice, claim, m, false, false, x509)),
             MultiBytes(critDice, claim, Infos(profile, m)), EncAll(OtherExtensions(critDice, m, x509)));
      n := a + b + c + e;
    }

    method EncodeAttributes(m: MeasurementData) returns (n: nat)
      requires m.Valid()
      requires Ready()
      modifies this, certificate.data
      ensures Wrote(old(Now()), AttributesBytes(critDice, Claim(profile, m), Infos(profile, m), m), n)
    {
      hide Agrees, Ready, Now, Enc, EncAll, Header, ExtensionsSize, ExtensionsBytes, AttributesSize;
      hide AttributeBodySize, Claim, Infos;
      ghost var d := Now();
      var claim := TcbInfosSize(m);
      var a := EncodeHeader(CONTEXT_CONSTRUCTED, AttributesSize(critDice, claim, m, false));
      var b := EncodeHeader(SEQUENCE_TAG, AttributeBodySize(critDice, claim, m, false));
      var c := EncodeOid(EXTENSION_REQUEST_OID);
      var e := EncodeHeader(SET_OF_TAG, ExtensionsSize(critDice, claim, m, true, false, false));
      var f := EncodeExtensions(m, false);
      Chain5(d, Header(CONTEXT_CONSTRUCTED, AttributesSize(critDice, claim, m, false)),
             Header(SEQUENCE_TAG, AttributeBodySize(critDice, claim, m, false)), Enc(Oid(EXTENSION_REQUEST_OID)),
             Header(SET_OF_TAG, ExtensionsSize(critDice, claim, m, true, false, false)),
             ExtensionsBytes(critDice, claim, Infos(profile, m), m, false));
      n := a + b + c + e + f;
    }

    // ----- signed payloads -----

    /** The fields of a TBSCertificate before its extensions. */
    method EncodeTbsFields(payload: SignedPayload) returns (r: Result<nat, Error>)
      requires payload.Tbs?
      requires Ready()
      modifies this, certificate.data
      ensures Appended(old(Now()), PayloadHead(profile, payload), r)
    {
      hide Agrees, Enc, VersionTree, Integer, AlgId, ValidityTree, NameTree, KeyInfo, SigOid, Laid;
      ghost var d := Now();
      var v := EncodeVersion();
      var sn := EncodeSerial(payload.serial);
      var alg := EncodeSigAlgId();
      var iss := EncodeBytes(payload.issuer);
      var val := EncodeValidity(payload.validity);
      Chain5(d, Enc(VersionTree()), Enc(Integer(payload.serial)), Enc(AlgId(SigOid(profile))), payload.issuer,
          Enc(ValidityTree(payload.validity)));
      ghost var e := Now();
      var sub := EncodeRdn(payload.name);
      if sub.Err? {
        return Err(sub.error);
      }
      var key := EncodePubKeyInfo(payload.key);
      Chain2(e, Enc(NameTree(payload.name)), Enc(KeyInfo(profile, payload.key)));
      ghost var start :=
          Enc(VersionTree()) + Enc(Integer(payload.serial)) + Enc(AlgId(SigOid(profile))) + payload.issuer
              + Enc(ValidityTree(payload.validity));
      Chain3(d, start, Enc(NameTree(payload.name)), Enc(KeyInfo(profile, payload.key)));
      return Ok(v + sn + alg + iss + val + sub.value + key);
    }

    method EncodeSerial(serial: seq<u8>) returns (n: nat)
      requires Ready()
      modifies this, certificate.data
      ensures Wrote(old(Now()), Enc(Integer(serial)), n)
    {
      hide Agrees, Ready, Now, IntegerContent, LengthBytes;
      n := EncodeIntegerBytes(serial, true);
    }

    /** The fields of a CertificationRequestInfo before its attributes. */
    method EncodeRequestFields(payload: SignedPayload) returns (r: Result<nat, Error>)
      requires payload.CertReqInfo?
      requires Ready()
      modifies this, certificate.data
      ensures Appended(old(Now()), PayloadHead(profile, payload), r)
    {
      hide Agrees, Enc, Integer, NameTree, KeyInfo, Ready;
      ghost var d := Now();
      var v := EncodeInteger(0);
      var sub := EncodeRdn(payload.name);
      if sub.Err? {
        return Err(sub.error);
      }
      var key := EncodePubKeyInfo(payload.key);
      Chain3(d, Enc(Integer(U64(0))), Enc(NameTree(payload.name)), Enc(KeyInfo(profile, payload.key)));
      return Ok(v + sub.value + key);
    }

    method EncodePayloadTail(payload: SignedPayload) returns (n: nat)
      requires payload.m.Valid()
      requires Ready()
      modifies this, certificate.data
      ensures Wrote(old(Now()), PayloadTail(profile, critDice, payload), n)
    {
      hide MeasurementData.Valid, Agrees, Ready, Now, ExtensionsBytes, AttributesBytes, Claim, Infos, Wrote;
      if payload.Tbs? {
        n := EncodeExtensions(payload.m, true);
      } else {
        n := EncodeAttributes(payload.m);
      }
    }

    method EncodePayloadBody(payload: SignedPayload) returns (r: Result<nat, Error>)
      requires payload.m.Valid()
      requires Ready()
      modifies this, certificate.data
      ensures Appended(old(Now()), PayloadBody(profile, critDice, payload), r)
    {
      hide MeasurementData.Valid, Agrees, Ready, PayloadHead, PayloadTail;
      ghost var d := Now();
      var f;
      if payload.Tbs? {
        f := EncodeTbsFields(payload);
      } else {
        f := EncodeRequestFields(payload);
      }
      if f.Err? {
        return Err(f.error);
      }
      var e := EncodePayloadTail(payload);
      Chain2(d, PayloadHead(profile, payload), PayloadTail(profile, critDice, payload));
      return Ok(f.value + e);
    }

    /** Fills in the size of a structure that consists of `a`, during which up to `inner` more ranges were open, and
        `b`. */
    method FillSize(size: nat, ghost d: Draft, ghost tag: u8, ghost reserved: seq<u8>, ghost a: seq<u8>,
        ghost inner: nat, ghost b: seq<u8>)
        returns (r: Result<nat, Error>)
      requires Ready() && d.MarksOk() && size == |a| + |b| && |reserved| == SIZE_TAG_OFFSET
      requires Now() == d.Plus([tag]).Push(reserved).Plus(a).Deep(|d.marks| + 1 + inner).Plus(b)
      modifies this, certificate.data
      ensures r.Ok? <==> Patchable(size)
      ensures r.Ok? ==>
          Ready() && Now() == d.Plus(Tagged(tag, a + b)).Deep(|d.marks| + 1 + inner)
              && r.value + 1 + size == |Tagged(tag, a + b)|
      ensures r.Ok? ==> |text| == old(|text|) >= |d.text| + 4 && text[|d.text| + 4..] == old(text)[|d.text| + 4..]
      ensures r.Err? ==> r.error == X509InvalidWidth
      ensures certificate.Outside() == d.outside
    {
      hide MeasurementData.Valid, Agrees, Ready, Draft.Plus, Draft.Push, Draft.Deep, Draft.Patch, Tagged, WidthTotal;
      FilledParts(d, tag, reserved, a, inner, b);
      TaggedLength(tag, a + b);
      OnlyTheSize(d, tag, reserved, a, inner, b);
      r := BacktrackAndEncodeSize([size]);
    }

    /** A TBSCertificate or CertificationRequestInfo; its size is filled in at the end. */
    method EncodePayload(payload: SignedPayload) returns (r: Result<nat, Error>)
      requires payload.m.Valid()
      requires Ready()
      modifies this, certificate.data
      ensures Delivers(old(Now()), PayloadBytes(profile, critDice, payload), 1, r)
    {
      hide MeasurementData.Valid, Agrees, Ready, PayloadBody, PayloadBytes, Draft.Plus, Draft.Push, Draft.Deep, Tagged;
      ghost var d, body := Now(), PayloadBody(profile, critDice, payload);
      ReadyMarks();
      var prefix := EncodeTag(SEQUENCE_TAG);
      var p, reserved := PushBacktrack(SIZE_TAG_OFFSET);
      Opened(d, SEQUENCE_TAG, reserved);
      PayloadForm(profile, critDice, payload);
      if p.Err? {
        return Err(p.error);
      }
      var f := EncodePayloadBody(payload);
      if f.Err? {
        return Err(f.error);
      }
      PlusNothing(d.Plus([SEQUENCE_TAG]).Push(reserved), body);
      DeepOpened(d, SEQUENCE_TAG, reserved, body);
      var b := FillSize(f.value, d, SEQUENCE_TAG, reserved, body, 0, []);
      if b.Err? {
        return Err(b.error);
      }
      PlusDeep(d, Tagged(SEQUENCE_TAG, body), |d.marks| + 1);
      var c := CheckNotTruncated();
      if c.Err? {
        return Err(c.error);
      }
      return Ok(prefix + b.value + f.value);
    }

    method EncodeTag(tag: u8) returns (n: nat)
      requires Ready()
      modifies this, certificate.data
      ensures Wrote(old(Now()), [tag], n)
    {
      n := EncodeByte(tag);
    }

    /** Reads back what the view holds of the text. */
    method ReadBack(start: nat, end: nat) returns (b: seq<u8>)
      requires Ready() && start < end <= |text| <= certificate.Capacity()
      ensures b == text[start..end]
    {
      hide Agrees;
      ReadyMarks();
      var r := certificate.ReadRange(start, end);
      b := r.value;
    }

    /** The payload behind a size that is still open, and the bytes to sign as the buffer holds them. */
    method EncodeOpenPayload(payload: SignedPayload, ghost sign: Signer)
        returns (r: Result<seq<u8>, Error>, ghost reserved: seq<u8>)
      requires payload.m.Valid()
      requires Ready()
      modifies this, certificate.data
      ensures r.Ok? ==>
        && |old(Now()).marks| + 2 <= MAX_BACKTRACKS && |reserved| == SIZE_TAG_OFFSET
        && Some(r.value) == PayloadBytes(profile, critDice, payload)
        && Ready() && Now() == old(Now()).Plus([SEQUENCE_TAG]).Push(reserved).Plus(r.value).Deep(|old(Now()).marks| + 2)
      ensures r.Err? ==> Excuse(old(Now()), SignedBytes(profile, critDice, sign, payload), 2, r.error)
    {
      hide MeasurementData.Valid, Agrees, Ready, PayloadBytes, SignedBytes;
      hide Excuse, Produces, Draft.Plus, Draft.Push, Draft.Deep;
      ghost var d, b, spec :=
          Now(), PayloadBytes(profile, critDice, payload), SignedBytes(profile, critDice, sign, payload);
      SignedLength(profile, critDice, sign, payload);
      var prefix := EncodeTag(SEQUENCE_TAG);
      var p;
      p, reserved := PushBacktrack(SIZE_TAG_OFFSET);
      Opened(d, SEQUENCE_TAG, reserved);
      if p.Err? {
        ExcuseFull(d, spec, 2, p.error);
        return Err(p.error), reserved;
      }
      ghost var open := Now();
      var q := EncodePayload(payload);
      Outcome(open, b, 1, q);
      if q.Err? {
        ExcusePart(d, spec, 2, open, b, 1, q.error);
        return Err(q.error), reserved;
      }
      PlusDeep(open, b.value, |open.marks| + 1);
      var toSign := ReadBack(p.value, p.value + q.value);
      SliceRight(open.text, b.value, 0, |b.value|);
      assert toSign == b.value;
      return Ok(toSign), reserved;
    }

    /** The payload, the signature over it, and the SEQUENCE around both. */
    method EncodeSignedPayload(sign: Signer, payload: SignedPayload) returns (r: Result<nat, Error>)
      requires payload.m.Valid()
      requires Ready()
      modifies this, certificate.data
      ensures Produces(old(Now()), SignedBytes(profile, critDice, sign, payload), 2, r)
    {
      hide MeasurementData.Valid, Agrees, Ready, PayloadBytes, SignedBytes, SigTrees, EncAll, Tagged;
      hide Excuse, Produces, Draft.Plus, Draft.Push, Draft.Deep;
      ghost var d, spec := Now(), SignedBytes(profile, critDice, sign, payload);
      ReadyMarks();
      var q, reserved := EncodeOpenPayload(payload, sign);
      if q.Err? {
        Failed(d, spec, 2, q.error);
        return Err(q.error);
      }
      SignedForm(profile, critDice, sign, payload);
      OpenedOutside(d, reserved, q.value);
      var sig := sign(q.value, payload.CertReqInfo?);
      if sig == None {
        ExcuseNone(d, spec, 2, Crypto);
        Failed(d, spec, 2, Crypto);
        return Err(Crypto);
      }
      var s := EncodeSignatureBitString(sig.value);
      var k := FillSize(|q.value| + s, d, SEQUENCE_TAG, reserved, q.value, 1, EncAll(SigTrees(profile, sig.value)));
      if k.Err? {
        ExcuseNone(d, spec, 2, k.error);
        Failed(d, spec, 2, k.error);
        return k;
      }
      Succeeded(d, spec, 2, |q.value| + s + (1 + k.value));
      return Ok(|q.value| + s + (1 + k.value));
    }

    /** Succeeds exactly when the bytes exist and fit, and then the view holds them after what was there before. */
    method EncodeSigned(sign: Signer, payload: SignedPayload) returns (r: Result<nat, Error>)
      requires payload.m.Valid()
      requires Ready()
      modifies this, certificate.data
      ensures Delivers(old(Now()), SignedBytes(profile, critDice, sign, payload), 2, r)
    {
      hide MeasurementData.Valid, Agrees, SignedBytes;
      var b := EncodeSignedPayload(sign, payload);
      if b.Err? {
        return Err(b.error);
      }
      var c := CheckNotTruncated();
      if c.Err? {
        return Err(c.error);
      }
      return Ok(b.value);
    }

    // ----- CMS -----

    method EncodeSignerIdentifier(sid: SignerIdentifier) returns (n: nat)
      requires Ready()
      modifies this, certificate.data
      ensures Wrote(old(Now()), SidBytes(sid), n)
    {
      hide MeasurementData.Valid, Agrees, Enc, Integer, Header, SidSize, KeyIdentifierSize, SidBytes, Laid;
      ghost var d := Now();
      SidLayout(sid);
      match sid {
        case IssuerAndSerialNumber(issuer, serial) =>
          var a := EncodeHeader(SEQUENCE_TAG, SidSize(sid, false));
          var b := EncodeBytes(issuer);
          var c := EncodeSerial(serial);
          Chain3(d, Header(SEQUENCE_TAG, SidSize(sid, false)), issuer, Enc(Integer(serial)));
          n := a + b + c;
        case SubjectKeyIdentifier(ski) =>
          var a := EncodeHeader(CONTEXT_SPECIFIC, KeyIdentifierSize(ski, true, false));
          var b := EncodeTlv(OCTET_STRING_TAG, ski);
          Chain2(d, Header(CONTEXT_SPECIFIC, KeyIdentifierSize(ski, true, false)), Enc(Leaf(OCTET_STRING_TAG, ski)));
          n := a + b;
      }
    }

    method EncodeCmsVersion(sid: SignerIdentifier) returns (n: nat)
      requires Ready()
      modifies this, certificate.data
      ensures Wrote(old(Now()), Enc(CmsVersion(sid)), n)
    {
      n := EncodeInteger(if sid.IssuerAndSerialNumber? then 1 else 3);
    }

    method EncodeSignerInfo(sig: Signature, sid: SignerIdentifier) returns (r: Result<nat, Error>)
      requires Ready()
      modifies this, certificate.data
      ensures Appended(old(Now()), Tagged(SEQUENCE_TAG, SignerInfoBody(profile, sig, sid)), r)
    {
      hide MeasurementData.Valid, Agrees, Ready, Enc, EncAll, Header, SignerInfoSize, SidBytes, CmsVersion, AlgId;
      hide HashOid, SignerSigTrees;
      ghost var d := Now();
      var size := SignerInfoSize(profile, sig, sid, false);
      var a := EncodeHeader(SEQUENCE_TAG, size);
      ghost var e := Now();
      var b := EncodeCmsVersion(sid);
      var c := EncodeSignerIdentifier(sid);
      var f := EncodeHashAlgId();
      var g := EncodeSignatureOctetString(sig);
      Chain4(e, Enc(CmsVersion(sid)), SidBytes(sid), Enc(AlgId(HashOid(profile))),
          EncAll(SignerSigTrees(profile, sig)));
      Chain2(d, Header(SEQUENCE_TAG, size), SignerInfoBody(profile, sig, sid));
      SignerInfoLayout(profile, sig, sid);
      var t := CheckNotTruncated();
      if t.Err? {
        return Err(t.error);
      }
      return Ok(a + b + c + f + g);
    }

    /** Two structures are opened, one directly in the other. */
    method OpenTwo(outer: u8, inner: u8) returns (r: Result<nat, Error>, ghost first: seq<u8>, ghost second: seq<u8>)
      requires Ready()
      modifies this, certificate.data
      ensures r.Ok? <==> |old(backtracks)| + 2 <= MAX_BACKTRACKS
      ensures r.Ok? ==>
        && Ready() && r.value == |text| && |first| == |second| == SIZE_TAG_OFFSET
        && Now() == old(Now()).Open(outer, first).Open(inner, second)
      ensures r.Err? ==> r.error == X509SkipsExhausted && Now().outside == old(Now()).outside
    {
      hide MeasurementData.Valid, Agrees, Ready;
      first, second := [], [];
      var a := EncodeTag(outer);
      r, first := PushBacktrack(SIZE_TAG_OFFSET);
      if r.Err? {
        return;
      }
      var b := EncodeTag(inner);
      r, second := PushBacktrack(SIZE_TAG_OFFSET);
    }

    method RememberCsr(start: nat, end: nat)
      requires Ready()
      modifies this
      ensures Ready() && Now() == old(Now()).WithCsr(Some((start, end)))
    {
      csrRange := Some((start, end));
    }

    /** The CSR behind the two sizes that are still open. */
    method EncodeOpenCsr(sign: Signer, payload: SignedPayload)
        returns (r: Result<nat, Error>, ghost first: seq<u8>, ghost second: seq<u8>)
      requires payload.m.Valid()
      requires Ready()
      modifies this, certificate.data
      ensures r.Ok? ==>
        var csr := SignedBytes(profile, critDice, sign, payload);
        && csr.Some? && |old(Now()).marks| + 4 <= MAX_BACKTRACKS && r.value == |csr.value| > 0
        && Ready() && |text| <= certificate.Capacity() && |first| == |second| == SIZE_TAG_OFFSET
        && Now() == old(Now()).Open(CONTEXT_CONSTRUCTED, first).Open(OCTET_STRING_TAG, second)
                    .Plus(csr.value).Deep(|old(Now()).marks| + 4)
      ensures r.Err? ==> Excuse(old(Now()), ContentOf(SignedBytes(profile, critDice, sign, payload)), 4, r.error)
    {
      hide MeasurementData.Valid, Agrees, Ready, PayloadBytes, SignedBytes, ContentOf, Excuse, Produces, Draft.Open;
      hide Draft.Plus, Draft.Push, Draft.Deep;
      ghost var d := Now();
      ghost var spec := SignedBytes(profile, critDice, sign, payload);
      ContentLength(spec);
      r, first, second := OpenTwo(CONTEXT_CONSTRUCTED, OCTET_STRING_TAG);
      if r.Err? {
        ExcuseFull(d, ContentOf(spec), 4, r.error);
        return;
      }
      ghost var open := Now();
      OpenedTwo(d, CONTEXT_CONSTRUCTED, first, OCTET_STRING_TAG, second);
      r := EncodeSigned(sign, payload);
      Outcome(open, spec, 2, r);
      SignedLength(profile, critDice, sign, payload);
      assert |open.marks| + 2 == |d.marks| + 4;
      if r.Err? {
        ExcusePart(d, ContentOf(spec), 4, open, spec, 2, r.error);
      }
    }

    /** The CSR in its OCTET STRING and [0]; remembers where the CSR lies. */
    method EncodeEContent(sign: Signer, payload: SignedPayload) returns (r: Result<nat, Error>)
      requires payload.m.Valid()
      requires Ready()
      modifies this, certificate.data
      ensures Produces(old(Now()).WithCsr(csrRange), ContentOf(SignedBytes(profile, critDice, sign, payload)), 4, r)
      ensures r.Ok? ==> CsrKept(SignedBytes(profile, critDice, sign, payload), |old(text)|)
    {
      hide MeasurementData.Valid, Agrees, Ready, SignedBytes, ContentOf, ContentBytes, CsrKept, Produces;
      hide Draft.WithCsr, Draft.Open, Draft.Plus, Draft.Push, Draft.Deep;
      ghost var d := Now();
      ReadyMarks();
      ghost var spec := SignedBytes(profile, critDice, sign, payload);
      ContentLength(spec);
      var csr, first, second := EncodeOpenCsr(sign, payload);
      CsrLaws(d, csrRange);
      if csr.Err? {
        Failed(d.WithCsr(csrRange), ContentOf(spec), 4, csr.error);
        return csr;
      }
      var k := CloseEContent(csr.value, d, first, second, spec.value);
      CsrLaws(d, csrRange);
      if k.Err? {
        Failed(d.WithCsr(csrRange), ContentOf(spec), 4, k.error);
        return k;
      }
      Succeeded(d.WithCsr(csrRange), ContentOf(spec), 4, 2 + csr.value + k.value);
      return Ok(2 + csr.value + k.value);
    }

    /** Remembers where the CSR lies and fills in the two sizes around it. */
    method CloseEContent(size: nat, ghost d: Draft, ghost first: seq<u8>, ghost second: seq<u8>, ghost csr: seq<u8>)
        returns (r: Result<nat, Error>)
      requires Ready() && d.MarksOk() && |first| == |second| == SIZE_TAG_OFFSET && size == |csr| > 0
          && |text| <= certificate.Capacity()
      requires Now() == d.Open(CONTEXT_CONSTRUCTED, first).Open(OCTET_STRING_TAG, second).Plus(csr).Deep(|d.marks| + 4)
      modifies this, certificate.data
      ensures r.Ok? <==> ContentBytes(csr).Some?
      ensures r.Ok? ==>
        && Ready() && Now() == d.WithCsr(csrRange).Plus(ContentBytes(csr).value).Deep(|d.marks| + 4)
        && 2 + size + r.value == |ContentBytes(csr).value|
        && CsrKept(Some(csr), |d.text|)
      ensures r.Err? ==> r.error == X509InvalidWidth
      ensures certificate.Outside() == d.outside
    {
      hide MeasurementData.Valid, Agrees, StructureSize, SizeWidth, Draft.Patch, Draft.Open, Draft.Plus, Draft.Push;
      hide Draft.Deep, Tagged, WidthTotal;
      var outer, inner := CONTEXT_CONSTRUCTED, OCTET_STRING_TAG;
      ghost var open := d.Open(outer, first).Open(inner, second);
      OpenedTwo(d, outer, first, inner, second);
      PlusDeep(open, csr, |d.marks| + 4);
      TaggedLength(inner, csr);
      RememberCsr(offset - size, offset);
      ghost var e := Now();
      CloseTwo(d, e, outer, first, inner, second, csr, |d.marks| + 4, StructureSize(size, true));
      r := BacktrackAndEncodeSize([size, StructureSize(size, true)]);
      if r.Ok? {
        ghost var whole := Tagged(outer, Tagged(inner, csr));
        PlusDeep(d.WithCsr(e.csrRange), whole, |d.marks| + 4);
        SliceRight(d.text, whole, 8, 8 + |csr|);
        var range := csrRange.value;
        assert range.0 == |d.text| + 8 && range.1 == |d.text| + (8 + |csr|);
      }
    }

    /** The content type and the content, behind a size that is still open. */
    method EncodeOpenContent(sign: Signer, payload: SignedPayload)
        returns (r: Result<nat, Error>, ghost reserved: seq<u8>)
      requires payload.m.Valid()
      requires Ready()
      modifies this, certificate.data
      ensures r.Ok? ==>
        var csr := SignedBytes(profile, critDice, sign, payload);
        && ContentOf(csr).Some? && |old(Now()).marks| + 5 <= MAX_BACKTRACKS && |reserved| == SIZE_TAG_OFFSET
        && var body := Enc(Oid(ID_DATA_OID)) + ContentOf(csr).value;
        && r.value == |body| && Ready() && CsrKept(csr, |old(text)| + 4)
        && Now() == old(Now()).WithCsr(csrRange).Plus([SEQUENCE_TAG]).Push(reserved).Plus(body)
                    .Deep(|old(Now()).marks| + 5).Plus([])
      ensures r.Err? ==> Excuse(old(Now()), EncapOf(SignedBytes(profile, critDice, sign, payload)), 5, r.error)
    {
      hide MeasurementData.Valid, Agrees, Ready, PayloadBytes, SignedBytes, ContentOf, ContentBytes, EncapOf, KeptIn;
      hide Enc, Tagged;
      hide Excuse, Produces, Draft.WithCsr, Draft.Plus, Draft.Push, Draft.Deep;
      ghost var d := Now();
      ghost var spec := SignedBytes(profile, critDice, sign, payload);
      ghost var oid := Enc(Oid(ID_DATA_OID));
      EncapForm(spec);
      var prefix := EncodeTag(SEQUENCE_TAG);
      var p;
      p, reserved := PushBacktrack(SIZE_TAG_OFFSET);
      Opened(d, SEQUENCE_TAG, reserved);
      if p.Err? {
        ExcuseFull(d, EncapOf(spec), 5, p.error);
        return p, reserved;
      }
      PlusDeep(Now(), oid, 0);
      var o := EncodeOid(ID_DATA_OID);
      ghost var mid := Now();
      var c := EncodeEContent(sign, payload);
      CsrLaws(mid, csrRange);
      Outcome(mid.WithCsr(csrRange), ContentOf(spec), 4, c);
      if c.Err? {
        ExcusePart(d, EncapOf(spec), 5, mid.WithCsr(csrRange), ContentOf(spec), 4, c.error);
        return c, reserved;
      }
      KeptSooner(text, csrRange, spec, |mid.text|, |d.text| + 4);
      CsrMoves(d, csrRange, SEQUENCE_TAG, reserved, oid, ContentOf(spec).value, |d.marks| + 5);
      return Ok(o + c.value), reserved;
    }

    /** The content info that carries the CSR. */
    method EncodeEncapsulatedContentInfo(sign: Signer, payload: SignedPayload) returns (r: Result<nat, Error>)
      requires payload.m.Valid()
      requires Ready()
      modifies this, certificate.data
      ensures Produces(old(Now()).WithCsr(csrRange), EncapOf(SignedBytes(profile, critDice, sign, payload)), 5, r)
      ensures r.Ok? ==> CsrKept(SignedBytes(profile, critDice, sign, payload), |old(text)|)
    {
      hide MeasurementData.Valid, Agrees, Ready, PayloadBytes, SignedBytes, ContentOf, ContentBytes, EncapOf, KeptIn;
      hide Enc, Tagged;
      hide Excuse, Produces, Draft.WithCsr, Draft.Plus, Draft.Push, Draft.Deep;
      ghost var d := Now();
      ReadyMarks();
      ghost var spec := SignedBytes(profile, critDice, sign, payload);
      EncapForm(spec);
      var c, reserved := EncodeOpenContent(sign, payload);
      CsrLaws(d, csrRange);
      if c.Err? {
        ExcusePart(d.WithCsr(csrRange), EncapOf(spec), 5, d, EncapOf(spec), 5, c.error);
        Failed(d.WithCsr(csrRange), EncapOf(spec), 5, c.error);
        return c;
      }
      ghost var before, range, d2 := text, csrRange, d.WithCsr(csrRange);
      ghost var body := Enc(Oid(ID_DATA_OID)) + ContentOf(spec).value;
      CsrMarks(d, range);
      PlusNothing(d, body);
      var k := FillSize(c.value, d2, SEQUENCE_TAG, reserved, body, 4, []);
      CsrLaws(d, csrRange);
      if k.Err? {
        ExcuseNone(d.WithCsr(csrRange), EncapOf(spec), 5, k.error);
        Failed(d.WithCsr(csrRange), EncapOf(spec), 5, k.error);
        return k;
      }
      PlusDeep(d2, Tagged(SEQUENCE_TAG, body), |d.marks| + 5);
      KeptOn(before, text, range, spec, |d.text| + 4, |d.text|);
      Succeeded(d2, EncapOf(spec), 5, c.value + (1 + k.value));
      return Ok(c.value + (1 + k.value));
    }

    method EncodeCmsHead(sid: SignerIdentifier) returns (n: nat)
      requires Ready()
      modifies this, certificate.data
      ensures Wrote(old(Now()), CmsHead(profile, sid), n)
    {
      hide Agrees, Ready, Enc, Header, CmsVersion, AlgId, HashOid;
      ghost var d := Now();
      var a := EncodeCmsVersion(sid);
      var b := EncodeHeader(SET_OF_TAG, AlgIdSize(HashOid(profile), true));
      var c := EncodeHashAlgId();
      AlgIdLayout(HashOid(profile));
      OneKid(SET_OF_TAG, AlgId(HashOid(profile)));
      Chain3(d, Enc(CmsVersion(sid)), Header(SET_OF_TAG, AlgIdSize(HashOid(profile), true)),
          Enc(AlgId(HashOid(profile))));
      Regroup(Enc(CmsVersion(sid)), Header(SET_OF_TAG, AlgIdSize(HashOid(profile), true)),
          Enc(AlgId(HashOid(profile))));
      n := a + b + c;
    }

    method EncodeCmsTail(sig: Signature, sid: SignerIdentifier) returns (r: Result<nat, Error>)
      requires Ready()
      modifies this, certificate.data
      ensures Appended(old(Now()), CmsTail(profile, sig, sid), r)
    {
      hide Agrees, Ready, Header, SignerInfoBody, SignerInfoSize;
      ghost var d, info := Now(), Tagged(SEQUENCE_TAG, SignerInfoBody(profile, sig, sid));
      var size := SignerInfoSize(profile, sig, sid, true);
      SignerInfoLayout(profile, sig, sid);
      var a := EncodeHeader(SET_OF_TAG, size);
      var b := EncodeSignerInfo(sig, sid);
      if b.Err? {
        return b;
      }
      Chain2(d, Header(SET_OF_TAG, size), info);
      return Ok(a + b.value);
    }

    /** The signed data: what comes before the CSR, the CSR, and the signer's own signature over it. */
    method EncodeSignedDataBody(sign: Signer, payload: SignedPayload, sid: SignerIdentifier)
        returns (r: Result<nat, Error>)
      requires payload.m.Valid()
      requires Ready()
      modifies this, certificate.data
      ensures Produces(old(Now()).WithCsr(csrRange), CmsBody(profile, critDice, sign, payload, sid), 5, r)
    {
      hide MeasurementData.Valid, Agrees, Ready, PayloadBytes, SignedBytes, EncapOf, EncapBytes, CmsBody, CmsHead;
      hide CmsTail;
      hide Excuse, Produces, Draft.WithCsr, Draft.Plus, Draft.Push, Draft.Deep;
      ghost var d, spec := Now(), CmsBody(profile, critDice, sign, payload, sid);
      ghost var csr := SignedBytes(profile, critDice, sign, payload);
      ghost var head := CmsHead(profile, sid);
      CmsBodyForm(profile, critDice, sign, payload, sid);
      var a := EncodeCmsHead(sid);
      ghost var mid := Now();
      PlusDeep(d, head, 0);
      var c := EncodeEncapsulatedContentInfo(sign, payload);
      CsrLaws(d, csrRange);
      CsrLaws(mid, csrRange);
      Outcome(mid.WithCsr(csrRange), EncapOf(csr), 5, c);
      if c.Err? {
        ExcusePart(d.WithCsr(csrRange), spec, 5, mid.WithCsr(csrRange), EncapOf(csr), 5, c.error);
        Failed(d.WithCsr(csrRange), spec, 5, c.error);
        return c;
      }
      ghost var encap, range, late := EncapOf(csr).value, csrRange, Now();
      PlusDeep(mid.WithCsr(range), encap, |d.marks| + 5);
      var (start, end) := csrRange.value;
      var toSign := ReadBack(start, end);
      var sig := sign(toSign, false);
      if sig == None {
        ExcuseNone(d.WithCsr(range), spec, 5, Crypto);
        Failed(d.WithCsr(range), spec, 5, Crypto);
        return Err(Crypto);
      }
      var t := EncodeCmsTail(sig.value, sid);
      ghost var tail := CmsTail(profile, sig.value, sid);
      if t.Err? {
        CsrLaws(d, csrRange);
        ExcuseTail(d.WithCsr(csrRange), spec, 5, late, tail);
        Failed(d.WithCsr(csrRange), spec, 5, t.error);
        return t;
      }
      BodyMoves(d, range, head, encap, tail, |d.marks| + 5);
      CsrLaws(d, range);
      PlusDeep(late, tail, 0);
      Succeeded(d.WithCsr(range), spec, 5, a + c.value + t.value);
      return Ok(a + c.value + t.value);
    }

    /** Everything but the three outer sizes, which are still open. */
    method EncodeOpenCms(sign: Signer, payload: SignedPayload, sid: SignerIdentifier)
        returns (r: Result<nat, Error>, ghost first: seq<u8>, ghost second: seq<u8>, ghost third: seq<u8>)
      requires payload.m.Valid()
      requires Ready()
      modifies this, certificate.data
      ensures r.Ok? ==>
        var body := CmsBody(profile, critDice, sign, payload, sid);
        && body.Some? && |old(Now()).marks| + 8 <= MAX_BACKTRACKS && r.value == |body.value|
        && Ready() && |first| == |second| == |third| == SIZE_TAG_OFFSET
        && Now() == InCms(old(Now()), first, second, third).WithCsr(csrRange).Plus(body.value)
                    .Deep(|old(Now()).marks| + 8)
      ensures r.Err? ==> Excuse(old(Now()), CmsBytes(profile, critDice, sign, payload, sid), 8, r.error)
    {
      hide MeasurementData.Valid, Agrees, Ready, CmsBody, CmsBytes, Enc;
      hide Excuse, Produces, Draft.WithCsr, Draft.Open, Draft.Plus, Draft.Push, Draft.Deep;
      first, second, third := [], [], [];
      ghost var d, spec := Now(), CmsBytes(profile, critDice, sign, payload, sid);
      ghost var body := CmsBody(profile, critDice, sign, payload, sid);
      CmsLength(profile, critDice, sign, payload, sid);
      var a := EncodeTag(SEQUENCE_TAG);
      r, first := PushBacktrack(SIZE_TAG_OFFSET);
      Opened(d, SEQUENCE_TAG, first);
      if r.Err? {
        ExcuseFull(d, spec, 8, r.error);
        return;
      }
      ghost var open := Now();
      var b := EncodeOid(ID_SIGNED_DATA_OID);
      ghost var mid, oid := Now(), Enc(Oid(ID_SIGNED_DATA_OID));
      PlusDeep(open, oid, 0);
      r, second, third := OpenTwo(CONTEXT_CONSTRUCTED, SEQUENCE_TAG);
      OpenedTwo(mid, CONTEXT_CONSTRUCTED, second, SEQUENCE_TAG, third);
      if r.Err? {
        ExcuseFull(d, spec, 8, r.error);
        return;
      }
      ghost var late := Now();
      r := EncodeSignedDataBody(sign, payload, sid);
      CsrLaws(late, csrRange);
      Outcome(late.WithCsr(csrRange), body, 5, r);
      InCmsIs(d, first, second, third);
      assert |late.marks| + 5 == |d.marks| + 8;
      if r.Err? {
        ExcusePart(d, spec, 8, late.WithCsr(csrRange), body, 5, r.error);
      }
    }

    /** Fills in the three outer sizes. */
    method CloseCms(size: nat, ghost d: Draft, ghost first: seq<u8>, ghost second: seq<u8>, ghost third: seq<u8>,
        ghost body: seq<u8>)
        returns (r: Result<nat, Error>)
      requires Ready() && d.MarksOk() && |first| == |second| == |third| == SIZE_TAG_OFFSET && size == |body|
      requires Now() == InCms(d, first, second, third).WithCsr(csrRange).Plus(body).Deep(|d.marks| + 8)
      modifies this, certificate.data
      ensures r.Ok? <==> SignedDataBytes(body).Some?
      ensures r.Ok? ==>
        && Ready() && csrRange == old(csrRange)
        && Now() == d.WithCsr(csrRange).Plus(SignedDataBytes(body).value).Deep(|d.marks| + 8)
        && r.value == |SignedDataBytes(body).value|
      ensures r.Err? ==> r.error == X509InvalidWidth
      ensures certificate.Outside() == d.outside
    {
      hide Agrees, Ready, SignedDataBytes, Enc, Draft.Patch, Draft.WithCsr, Draft.Plus, Draft.Push, Draft.Deep, InCms;
      hide WidthTotal;
      var oid := 1 + SizeWidth(|ID_SIGNED_DATA_OID|) + |ID_SIGNED_DATA_OID|;
      var field0 := 1 + SIZE_TAG_OFFSET + size;
      var info := oid + 1 + SIZE_TAG_OFFSET + field0;
      ghost var range := csrRange;
      CmsClosed(d, Now(), first, second, third, body, range);
      r := BacktrackAndEncodeSize([size, field0, info]);
      if r.Ok? {
        PlusDeep(d.WithCsr(range), SignedDataBytes(body).value, |d.marks| + 8);
        CsrLaws(d, range);
        r := Ok(1 + SIZE_TAG_OFFSET + info);
      }
    }

    /** From an empty stack, succeeds exactly when the message exists and fits; with ranges left open, never. */
    method EncodeCms(sign: Signer, payload: SignedPayload, sid: SignerIdentifier) returns (r: Result<nat, Error>)
      requires payload.m.Valid()
      requires Ready()
      modifies this, certificate.data
      ensures old(backtracks) == [] ==>
          Delivers(old(Now()).WithCsr(csrRange), CmsBytes(profile, critDice, sign, payload, sid), 8, r)
      ensures old(backtracks) != [] ==> r.Err?
      ensures certificate.Outside() == old(certificate.Outside())
    {
      hide MeasurementData.Valid, Agrees, Ready, CmsBody, CmsBytes, SignedDataBytes, InCms;
      hide Excuse, Produces, Draft.WithCsr, Draft.Plus, Draft.Push, Draft.Deep;
      ghost var d, spec := Now(), CmsBytes(profile, critDice, sign, payload, sid);
      ReadyMarks();
      CmsForm(profile, critDice, sign, payload, sid);
      var b, first, second, third := EncodeOpenCms(sign, payload, sid);
      CsrLaws(d, csrRange);
      if b.Err? {
        ExcusePart(d.WithCsr(csrRange), spec, 8, d, spec, 8, b.error);
        ExcuseOutside(d, spec, 8, b.error);
        Failed(d.WithCsr(csrRange), spec, 8, b.error);
        return b;
      }
      var k := CloseCms(b.value, d, first, second, third, CmsBody(profile, critDice, sign, payload, sid).value);
      CsrLaws(d, csrRange);
      if k.Err? {
        ExcuseNone(d.WithCsr(csrRange), spec, 8, k.error);
        Failed(d.WithCsr(csrRange), spec, 8, k.error);
        return k;
      }
      PlusDeep(d.WithCsr(csrRange), spec.value, |d.marks| + 8);
      if backtracks != [] {
        return Err(X509InvalidState);
      }
      var c := CheckNotTruncated();
      if c.Err? {
        ExcuseTail(d.WithCsr(csrRange), spec, 8, Now(), []);
        Failed(d.WithCsr(csrRange), spec, 8, c.error);
        return Err(c.error);
      }
      Succeeded(d.WithCsr(csrRange), spec, 8, k.value);
      return k;
    }

    /** The remembered range holds the CSR. */
    ghost predicate CsrKept(csr: Option<seq<u8>>, from: nat)
      reads this, certificate.data
    {
      |text| <= certificate.Capacity() && KeptIn(text, csrRange, csr, from)
    }
  }

  lemma OpenedTwo(d: Draft, outer: u8, first: seq<u8>, inner: u8, second: seq<u8>)
    ensures var open := d.Open(outer, first).Open(inner, second);
            |open.marks| == |d.marks| + 2 && |open.text| == |d.text| + 2 + |first| + |second|
                && open.outside == d.outside
  {}

  lemma CsrLaws(d: Draft, range: Option<(nat, nat)>)
    ensures d.WithCsr(range).text == d.text && d.WithCsr(range).marks == d.marks
        && d.WithCsr(range).outside == d.outside
    ensures d.WithCsr(d.csrRange) == d && d.WithCsr(range).csrRange == range
  {}

  lemma SliceRight(a: seq<u8>, b: seq<u8>, i: nat, j: nat)
    requires i <= j <= |b|
    ensures (a + b)[|a| + i..|a| + j] == b[i..j]
  {}

  lemma ContentLength(csr: Option<seq<u8>>)
    ensures ContentOf(csr).Some? ==> csr.Some? && |ContentOf(csr).value| >= 8 + |csr.value|
    ensures csr.Some? ==> ContentOf(csr) == ContentBytes(csr.value)
  {
    hide LengthBytes;
  }

  /** Both sizes are filled in after the body, during which more ranges were open. */
  lemma CloseTwo(d: Draft, e: Draft, outer: u8, first: seq<u8>, inner: u8, second: seq<u8>, body: seq<u8>, depth: nat,
      size: nat)
    requires d.MarksOk() && |first| == |second| == SIZE_TAG_OFFSET && depth >= |d.marks| + 2
    requires Patchable(|body|) ==> size == |Tagged(inner, body)|
    requires e == d.Open(outer, first).Open(inner, second).Plus(body).Deep(depth).WithCsr(e.csrRange)
    ensures e.MarksOk() && |e.marks| == |d.marks| + 2
    ensures var whole := Tagged(outer, Tagged(inner, body));
            e.Patch([|body|, size]) ==
            if Patchable(|body|) && Patchable(|Tagged(inner, body)|)
            then Some(d.WithCsr(e.csrRange).Plus(whole).Deep(depth)) else None
    ensures Patchable(|body|) && Patchable(|Tagged(inner, body)|) ==>
      var whole := Tagged(outer, Tagged(inner, body));
      && |whole| == 8 + |body| && WidthTotal([|body|, size]) == 6 && whole[8..8 + |body|] == body
  {
    hide Draft.Patch, LengthBytes;
    FillTwo(d, e, outer, first, inner, second, body, size);
    assert [|body|, size][1..] == [size] && [size][1..] == [];
    assert WidthTotal([size]) == SizeWidth(size);
  }

  ghost predicate KeptIn(t: seq<u8>, range: Option<(nat, nat)>, csr: Option<seq<u8>>, from: nat) {
    && csr.Some? && range.Some? && from <= range.value.0 < range.value.1 <= |t|
    && t[range.value.0..range.value.1] == csr.value
  }

  /** The CSR is still there after a change before it. */
  lemma KeptOn(t: seq<u8>, u: seq<u8>, range: Option<(nat, nat)>, csr: Option<seq<u8>>, from: nat, start: nat)
    requires KeptIn(t, range, csr, from) && start + 4 <= from && |u| == |t| && u[start + 4..] == t[start + 4..]
    ensures KeptIn(u, range, csr, start)
  {
    DropSlice(t, start + 4, range.value.0, range.value.1);
    DropSlice(u, start + 4, range.value.0, range.value.1);
  }

  lemma DropSlice(t: seq<u8>, k: nat, a: nat, b: nat)
    requires k <= a <= b <= |t|
    ensures t[k..][a - k..b - k] == t[a..b]
  {}

  lemma KeptSooner(t: seq<u8>, range: Option<(nat, nat)>, csr: Option<seq<u8>>, from: nat, start: nat)
    requires KeptIn(t, range, csr, from) && start <= from
    ensures KeptIn(t, range, csr, start)
  {}

  lemma CsrMarks(d: Draft, range: Option<(nat, nat)>)
    requires d.MarksOk()
    ensures d.WithCsr(range).MarksOk()
  {}

  lemma CmsBodyForm(p: Profile, crit: bool, sign: Signer, payload: SignedPayload, sid: SignerIdentifier)
    requires payload.m.Valid()
    ensures var csr := SignedBytes(p, crit, sign, payload);
            CmsBody(p, crit, sign, payload, sid) ==
            if EncapOf(csr).None? || sign(csr.value, false).None? then None
            else Some(CmsHead(p, sid) + EncapOf(csr).value + CmsTail(p, sign(csr.value, false).value, sid))
  {
    hide SignedBytes, EncapBytes, CmsHead, CmsTail, PayloadBytes, MeasurementData.Valid;
  }

  lemma BodyMoves(d: Draft, range: Option<(nat, nat)>, head: seq<u8>, encap: seq<u8>, tail: seq<u8>, depth: nat)
    ensures d.Plus(head).WithCsr(range).Plus(encap).Deep(depth).Plus(tail)
        == d.WithCsr(range).Plus(head + encap + tail).Deep(depth)
  {
    assert d.text + head + encap + tail == d.text + (head + encap + tail);
  }

  /** The draft inside the three outer structures of a message. */
  function InCms(d: Draft, first: seq<u8>, second: seq<u8>, third: seq<u8>): Draft {
    d.Plus([SEQUENCE_TAG]).Push(first).Plus(Enc(Oid(ID_SIGNED_DATA_OID)))
    .Open(CONTEXT_CONSTRUCTED, second).Open(SEQUENCE_TAG, third)
  }

  lemma InCmsIs(d: Draft, first: seq<u8>, second: seq<u8>, third: seq<u8>)
    ensures InCms(d, first, second, third) ==
            d.Plus([SEQUENCE_TAG]).Push(first).Plus(Enc(Oid(ID_SIGNED_DATA_OID)))
            .Open(CONTEXT_CONSTRUCTED, second).Open(SEQUENCE_TAG, third)
  {}

  lemma CmsForm(p: Profile, crit: bool, sign: Signer, payload: SignedPayload, sid: SignerIdentifier)
    requires payload.m.Valid()
    ensures var body := CmsBody(p, crit, sign, payload, sid);
            CmsBytes(p, crit, sign, payload, sid) == if body.None? then None else SignedDataBytes(body.value)
  {
    hide CmsBody, SignedDataBytes, MeasurementData.Valid;
  }

  lemma CmsLength(p: Profile, crit: bool, sign: Signer, payload: SignedPayload, sid: SignerIdentifier)
    requires payload.m.Valid()
    ensures var message, body := CmsBytes(p, crit, sign, payload, sid), CmsBody(p, crit, sign, payload, sid);
            message.Some? ==> body.Some? && |message.value| == 12 + |Enc(Oid(ID_SIGNED_DATA_OID))| + |body.value|
  {
    hide CmsBody, MeasurementData.Valid, LengthBytes, Enc;
  }

  /** The three sizes are filled in from the inside. */
  lemma CmsClosed(d: Draft, e: Draft, first: seq<u8>, second: seq<u8>, third: seq<u8>, body: seq<u8>,
      range: Option<(nat, nat)>)
    requires d.MarksOk() && |first| == |second| == |third| == SIZE_TAG_OFFSET
    requires e == InCms(d, first, second, third).WithCsr(range).Plus(body).Deep(|d.marks| + 8)
    ensures e.MarksOk() && |e.marks| == |d.marks| + 3 && e.outside == d.outside
    ensures var oid := |Enc(Oid(ID_SIGNED_DATA_OID))|;
            && oid == 1 + SizeWidth(|ID_SIGNED_DATA_OID|) + |ID_SIGNED_DATA_OID|
            && e.Patch([|body|, 4 + |body|, oid + 1 + 3 + (4 + |body|)]) ==
               (if SignedDataBytes(body).None? then None
                else Some(d.WithCsr(range).Plus(SignedDataBytes(body).value).Deep(|d.marks| + 8)))
            && (SignedDataBytes(body).Some? ==> |SignedDataBytes(body).value| == 4 + (oid + 1 + 3 + (4 + |body|)))
  {
    hide LengthBytes, Draft.Patch, Enc;
    var oid := Enc(Oid(ID_SIGNED_DATA_OID));
    LeafSize(OID_TAG, ID_SIGNED_DATA_OID);
    var mid := d.Plus([SEQUENCE_TAG]).Push(first).Plus(oid);
    var whole := Tagged(CONTEXT_CONSTRUCTED, Tagged(SEQUENCE_TAG, body));
    CloseTwo(mid, e, CONTEXT_CONSTRUCTED, second, SEQUENCE_TAG, third, body, |d.marks| + 8, 4 + |body|);
    var info := |oid| + 1 + 3 + (4 + |body|);
    PatchSplit(e, [|body|, 4 + |body|], [info]);
    assert [|body|, 4 + |body|] + [info] == [|body|, 4 + |body|, info];
    if e.Patch([|body|, 4 + |body|]).Some? {
      var f := e.Patch([|body|, 4 + |body|]).value;
      FillOne(d, f, SEQUENCE_TAG, first, oid + whole);
    }
  }

  function EncapOf(csr: Option<seq<u8>>): Option<seq<u8>> {
    if csr.None? then None else EncapBytes(csr.value)
  }

  lemma EncapForm(csr: Option<seq<u8>>)
    ensures ContentOf(csr).None? ==> EncapOf(csr).None?
    ensures ContentOf(csr).Some? ==>
      var body := Enc(Oid(ID_DATA_OID)) + ContentOf(csr).value;
      && EncapOf(csr) == Patched(SEQUENCE_TAG, body)
      && (Patchable(|body|) ==> |Tagged(SEQUENCE_TAG, body)| == 4 + |body|)
  {
    hide LengthBytes, Enc;
  }

  /** The remembered range may as well have been there from the start. */
  lemma CsrMoves(d: Draft, range: Option<(nat, nat)>, tag: u8, reserved: seq<u8>, a: seq<u8>, b: seq<u8>, depth: nat)
    ensures d.Plus([tag]).Push(reserved).Plus(a).WithCsr(range).Plus(b).Deep(depth)
            == d.WithCsr(range).Plus([tag]).Push(reserved).Plus(a + b).Deep(depth).Plus([])
  {
    assert d.text + [tag] + reserved + a + b == d.text + [tag] + reserved + (a + b) + [];
  }

  function ContentOf(csr: Option<seq<u8>>): Option<seq<u8>> {
    if csr.None? then None else ContentBytes(csr.value)
  }

  /** A tag and a reserved size. */
  lemma Opened(d: Draft, tag: u8, reserved: seq<u8>)
    ensures var open := d.Plus([tag]).Push(reserved);
            |open.marks| == |d.marks| + 1 && |open.text| == |d.text| + 1 + |reserved| && open.outside == d.outside
    ensures d.Plus([tag]).outside == d.outside && d.Plus([tag]).marks == d.marks
  {}

  lemma OpenedOutside(d: Draft, reserved: seq<u8>, b: seq<u8>)
    ensures d.Plus([SEQUENCE_TAG]).Push(reserved).Plus(b).Deep(|d.marks| + 2).outside == d.outside
  {}

  lemma PlusDeep(d: Draft, b: seq<u8>, depth: nat)
    ensures d.Plus(b).Deep(depth).text == d.text + b && d.Plus(b).Deep(depth).marks == d.marks
    ensures d.Plus(b).Deep(depth).outside == d.outside && d.Plus(b).Deep(depth).csrRange == d.csrRange
    ensures d.Plus(b).text == d.text + b && d.Plus(b).marks == d.marks
    ensures d.Plus(b).outside == d.outside && d.Plus(b).csrRange == d.csrRange
  {}

  /** Filling in the size changes nothing behind it. */
  lemma OnlyTheSize(d: Draft, tag: u8, reserved: seq<u8>, a: seq<u8>, inner: nat, b: seq<u8>)
    requires |reserved| == SIZE_TAG_OFFSET
    ensures var full := d.Plus([tag]).Push(reserved).Plus(a).Deep(|d.marks| + 1 + inner).Plus(b);
            var closed := d.Plus(Tagged(tag, a + b)).Deep(|d.marks| + 1 + inner);
            Patchable(|a + b|) ==>
                |full.text| == |closed.text| >= |d.text| + 4 && full.text[|d.text| + 4..] == closed.text[|d.text| + 4..]
  {
    hide LengthBytes;
    var full := d.Plus([tag]).Push(reserved).Plus(a).Deep(|d.marks| + 1 + inner).Plus(b);
    var closed := d.Plus(Tagged(tag, a + b)).Deep(|d.marks| + 1 + inner);
    if Patchable(|a + b|) {
      assert full.text == (d.text + [tag] + reserved) + (a + b);
      assert closed.text == (d.text + [tag] + LengthBytes(|a + b|)) + (a + b);
    }
  }

  lemma PlusNothing(d: Draft, b: seq<u8>)
    ensures d.Plus(b).Plus([]) == d.Plus(b) && b + [] == b
  {
    assert d.text + b + [] == d.text + b;
  }

  /** Reserving a range has been counted already. */
  lemma DeepOpened(d: Draft, tag: u8, reserved: seq<u8>, b: seq<u8>)
    ensures d.Plus([tag]).Push(reserved).Plus(b).Deep(|d.marks| + 1) == d.Plus([tag]).Push(reserved).Plus(b)
  {}

  lemma TaggedLength(tag: u8, body: seq<u8>)
    ensures |body| < |Tagged(tag, body)|
    ensures |Tagged(tag, body)| == StructureSize(|body|, true)
        && (Patchable(|body|) ==> |Tagged(tag, body)| == 4 + |body|)
  {}

  lemma SignedLength(p: Profile, crit: bool, sign: Signer, payload: SignedPayload)
    requires payload.m.Valid()
    ensures SignedBytes(p, crit, sign, payload).Some? ==>
      && PayloadBytes(p, crit, payload).Some?
      && |SignedBytes(p, crit, sign, payload).value| >= 4 + |PayloadBytes(p, crit, payload).value|
    ensures PayloadBytes(p, crit, payload).Some? ==> |PayloadBytes(p, crit, payload).value| > 0
  {
    hide PayloadBody, EncAll, SigTrees, LengthBytes;
  }

  lemma PayloadForm(p: Profile, crit: bool, payload: SignedPayload)
    requires payload.m.Valid()
    ensures var body := PayloadBody(p, crit, payload);
            && PayloadBytes(p, crit, payload) == Patched(SEQUENCE_TAG, body) && |body| < |Tagged(SEQUENCE_TAG, body)|
            && (Patchable(|body|) ==> |Tagged(SEQUENCE_TAG, body)| == 4 + |body|)
  {
    hide PayloadBody, LengthBytes;
  }

  lemma SignedForm(p: Profile, crit: bool, sign: Signer, payload: SignedPayload)
    requires payload.m.Valid() && PayloadBytes(p, crit, payload).Some?
    ensures var b := PayloadBytes(p, crit, payload).value;
            var sig := sign(b, payload.CertReqInfo?);
            SignedBytes(p, crit, sign, payload) == if sig == None then None
                else Patched(SEQUENCE_TAG, b + EncAll(SigTrees(p, sig.value)))
  {
    hide PayloadBytes, EncAll, SigTrees;
  }

  /** A structure whose size is filled in after its body, which other structures may have opened ranges in. */
  lemma FilledParts(d: Draft, tag: u8, reserved: seq<u8>, a: seq<u8>, inner: nat, b: seq<u8>)
    requires d.MarksOk() && |reserved| == SIZE_TAG_OFFSET
    ensures var full := d.Plus([tag]).Push(reserved).Plus(a).Deep(|d.marks| + 1 + inner).Plus(b);
            && full.MarksOk() && |full.marks| == |d.marks| + 1 && full.outside == d.outside
            && full.Patch([|a + b|]) ==
               if Patchable(|a + b|) then Some(d.Plus(Tagged(tag, a + b)).Deep(|d.marks| + 1 + inner)) else None
    ensures WidthTotal([|a + b|]) == SizeWidth(|a + b|) && (Patchable(|a + b|) ==> SizeWidth(|a + b|) == 3)
  {
    hide LengthBytes;
    var full := d.Plus([tag]).Push(reserved).Plus(a).Deep(|d.marks| + 1 + inner).Plus(b);
    assert full.text == d.text + [tag] + reserved + (a + b);
    FillOne(d, full, tag, reserved, a + b);
    assert [|a + b|][1..] == [];
  }

  /** The iterator over the nodes to report; the node list has been checked before. */
  method PathOf(m: MeasurementData) returns (iter: RootToChildIter)
    requires m.Valid()
    ensures fresh(iter) && iter.Valid() && iter.Pending() == m.Nodes() && |iter.path| == |m.Nodes()|
  {
    hide Rooted, Lineage, Reversed;
    var made := RootToChildIter.New(m.start, m.contexts);
    iter := made.value;
  }

  lemma NoInfos(d: Draft, p: Profile, recursive: bool)
    ensures EncAll(TcbInfos(p, [], recursive)) == [] && d.Plus([]) == d
  {
    assert d.text + [] == d.text;
  }

  lemma OneMoreInfo(d: Draft, p: Profile, nodes: seq<Context>, c: Context, recursive: bool)
    ensures var before, after := EncAll(TcbInfos(p, nodes, recursive)), EncAll(TcbInfos(p, nodes + [c], recursive));
            && d.Plus(before).Plus(Enc(TcbInfo(p, c.tci, recursive))) == d.Plus(after)
            && |after| == |before| + |Enc(TcbInfo(p, c.tci, recursive))|
  {
    hide Enc, TcbInfo;
    var infos, info := TcbInfos(p, nodes, recursive), TcbInfo(p, c.tci, recursive);
    assert (nodes + [c])[..|nodes|] == nodes;
    EncAllOne(info);
    EncAllJoin(infos, [info]);
    Chain2(d, EncAll(infos), Enc(info));
  }

  lemma Regroup(a: seq<u8>, b: seq<u8>, c: seq<u8>)
    ensures a + b + c == a + (b + c)
  {}

  /** What is left of the number after its leading zeros, and the zero put before it when it would read as negative. */
  lemma ContentTail(b: seq<u8>)
    ensures var size := |IntegerContent(b)|;
            var from := if |b| < size then 0 else |b| - size;
            IntegerContent(b) == (if size > |b| then [0] else []) + b[from..]
  {
    hide Strip;
    StripSpec(b);
    if |Strip(b)| < |b| && Strip(b) != [] && Strip(b)[0] >= 0x80 {
      var from := |b| - |Strip(b)| - 1;
      assert b[from..] == [b[from]] + b[from + 1..];
    }
  }

  /** One reserved size, filled in after the body: the structure is complete. */
  lemma FillOne(d: Draft, e: Draft, tag: u8, reserved: seq<u8>, body: seq<u8>)
    requires e.MarksOk() && |reserved| == SIZE_TAG_OFFSET
    requires e.text == d.text + [tag] + reserved + body
    requires e.marks == d.marks + [(|d.text| + 1, |d.text| + 1 + SIZE_TAG_OFFSET)]
    ensures e.Patch([|body|]) ==
            if Patchable(|body|) then Some(e.(text := d.text + Tagged(tag, body), marks := d.marks)) else None
  {
    hide LengthBytes;
    var m := e.marks[|e.marks| - 1];
    assert e.marks[..|e.marks| - 1] == d.marks;
    if Patchable(|body|) {
      var t := Overlay(e.text, m.0, LengthBytes(|body|));
      assert t == d.text + Tagged(tag, body);
      assert [|body|][1..] == [];
    }
  }

  /** Several sizes are filled in one after the other. */
  lemma {:induction false} PatchSplit(d: Draft, xs: seq<nat>, ys: seq<nat>)
    requires d.MarksOk()
    ensures d.Patch(xs + ys) == if d.Patch(xs).None? then None else d.Patch(xs).value.Patch(ys)
    decreases |xs|
  {
    if xs == [] {
      assert xs + ys == ys;
    } else {
      assert (xs + ys)[0] == xs[0] && (xs + ys)[1..] == xs[1..] + ys;
      if d.Fill(xs[0]).Some? {
        PatchSplit(d.Fill(xs[0]).value, xs[1..], ys);
      }
    }
  }

  /** Two structures, one the whole content of the other, filled in from the inside. */
  lemma FillTwo(d: Draft, e: Draft, outer: u8, first: seq<u8>, inner: u8, second: seq<u8>, body: seq<u8>, size: nat)
    requires e.MarksOk() && |first| == |second| == SIZE_TAG_OFFSET
    requires Patchable(|body|) ==> size == |Tagged(inner, body)|
    requires e.text == d.text + [outer] + first + [inner] + second + body
    requires e.marks == d.marks + [(|d.text| + 1, |d.text| + 4)] + [(|d.text| + 5, |d.text| + 8)]
    ensures var whole := Tagged(outer, Tagged(inner, body));
            e.Patch([|body|, size]) ==
            if Patchable(|body|) && Patchable(|Tagged(inner, body)|)
            then Some(e.(text := d.text + whole, marks := d.marks)) else None
  {
    hide Draft.Patch, Tagged;
    var d2 := d.Plus([outer]).Push(first);
    assert d2.text == d.text + [outer] + first;
    FillOne(d2, e, inner, second, body);
    PatchSplit(e, [|body|], [size]);
    if Patchable(|body|) {
      var f := e.Patch([|body|]).value;
      FillOne(d, f, outer, first, Tagged(inner, body));
    }
    assert [|body|] + [size] == [|body|, size];
  }

  lemma LengthForm(size: nat)
    ensures 1 <= SizeWidth(size) <= 5
    ensures SizeWidth(size) == 1 ==> size < 0x80 && LengthBytes(size) == [size]
    ensures SizeWidth(size) > 1 ==>
        LengthBytes(size) == [0x80 + (SizeWidth(size) - 1)] + BigEndian(size, SizeWidth(size) - 1)
  {}

  /** `n >> (8 * i)` */
  function Shifted(n: nat, i: nat): nat {
    if i == 0 then n else Shifted(n, i - 1) / 0x100
  }

  lemma OverlayMore(t: seq<u8>, o: nat, a: seq<u8>, b: seq<u8>)
    requires o <= |t|
    ensures Overlay(Overlay(t, o, a), o + |a|, b) == Overlay(t, o, a + b)
  {}
}
