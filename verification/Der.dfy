/** DER: lengths, integers and TLV trees, with a strict decoder for each. */
module Der {
  import opened Bitmap
  import opened Contexts

  // ----- definite lengths (X.690, sections 8.1.3 and 10.1) -----

  /** How many bytes the size field takes; on a 32-bit target never more than five. */
  function SizeWidth(size: nat): nat {
    if size < 0x80 then 1
    else if size < 0x100 then 2
    else if size < 0x1_0000 then 3
    else if size < 0x100_0000 then 4
    else 5
  }

  /** The `k` low-order bytes of `n`, most significant first. */
  function BigEndian(n: nat, k: nat): (b: seq<u8>)
    ensures |b| == k
  {
    if k == 0 then [] else BigEndian(n / 0x100, k - 1) + [n % 0x100]
  }

  function LengthBytes(size: nat): (b: seq<u8>)
    ensures |b| == SizeWidth(size)
  {
    var w := SizeWidth(size);
    if w == 1 then [size] else [0x80 + (w - 1)] + BigEndian(size, w - 1)
  }

  /** The number whose big-endian bytes are `b`. */
  function Value(b: seq<u8>): nat {
    if b == [] then 0 else Value(b[..|b| - 1]) * 0x100 + b[|b| - 1]
  }

  /** Reads a length of at most four bytes and insists on the shortest form. */
  function ReadLength(b: seq<u8>): (r: Option<(nat, nat)>)
    ensures r.Some? ==> 1 <= r.value.1 <= |b|
  {
    if b == [] then None
    else if b[0] < 0x80 then Some((b[0], 1))
    else
      var w := b[0] - 0x80;
      if w == 0 || w > 4 || |b| < 1 + w then None
      else
        var n := Value(b[1..1 + w]);
        if SizeWidth(n) == 1 + w then Some((n, 1 + w)) else None
  }

  function Pow256(k: nat): nat {
    if k == 0 then 1 else 0x100 * Pow256(k - 1)
  }

  lemma {:induction false} ValueOfBigEndian(n: nat, k: nat)
    requires n < Pow256(k)
    ensures Value(BigEndian(n, k)) == n
  {
    if k > 0 {
      ValueOfBigEndian(n / 0x100, k - 1);
      assert BigEndian(n, k)[..k - 1] == BigEndian(n / 0x100, k - 1);
    }
  }

  lemma {:induction false} BigEndianOfValue(b: seq<u8>)
    ensures BigEndian(Value(b), |b|) == b
  {
    if b != [] {
      BigEndianOfValue(b[..|b| - 1]);
      assert b == b[..|b| - 1] + [b[|b| - 1]];
    }
  }

  /** Every length below 2^32 is read back, whatever follows it. */
  lemma LengthRoundTrip(size: nat, rest: seq<u8>)
    requires size < 0x1_0000_0000
    ensures ReadLength(LengthBytes(size) + rest) == Some((size, SizeWidth(size)))
  {
    var w := SizeWidth(size);
    if w > 1 {
      assert Pow256(1) == 0x100 && Pow256(2) == 0x1_0000 && Pow256(3) == 0x100_0000 && Pow256(4) == 0x1_0000_0000;
      ValueOfBigEndian(size, w - 1);
      assert (LengthBytes(size) + rest)[1..w] == BigEndian(size, w - 1);
    }
  }

  /** Nothing else is read as that length: the encoding is the only one. */
  lemma LengthCanonical(b: seq<u8>)
    requires ReadLength(b).Some?
    ensures var (n, w) := ReadLength(b).value; n < 0x1_0000_0000 && b[..w] == LengthBytes(n)
  {
    hide Value, BigEndian;
    if b[0] >= 0x80 {
      var w := b[0] - 0x80;
      BigEndianOfValue(b[1..1 + w]);
      FourBytes(b[1..1 + w]);
      assert b[..1 + w] == [b[0]] + b[1..1 + w];
    }
  }

  lemma FourBytes(b: seq<u8>)
    requires |b| <= 4
    ensures Value(b) < 0x1_0000_0000
  {
    hide Value;
    ValueBound(b);
    assert Pow256(1) == 0x100 && Pow256(2) == 0x1_0000 && Pow256(3) == 0x100_0000 && Pow256(4) == 0x1_0000_0000;
  }

  lemma {:induction false} ValueBound(b: seq<u8>)
    ensures Value(b) < Pow256(|b|)
  {
    if b != [] {
      ValueBound(b[..|b| - 1]);
    }
  }

  /** Equal texts that start with lengths have equal lengths. */
  lemma LengthPrefixFree(m: nat, n: nat, x: seq<u8>, y: seq<u8>)
    requires m < 0x1_0000_0000 && n < 0x1_0000_0000
    requires LengthBytes(m) + x == LengthBytes(n) + y
    ensures m == n && x == y
  {
    LengthRoundTrip(m, x);
    LengthRoundTrip(n, y);
    assert x == (LengthBytes(m) + x)[SizeWidth(m)..];
    assert y == (LengthBytes(n) + y)[SizeWidth(n)..];
  }

  // ----- integers (X.690, section 8.3) -----

  /** `b` without leading zeros, but never without its last byte. */
  function Strip(b: seq<u8>): seq<u8> {
    if |b| > 1 && b[0] == 0 then Strip(b[1..]) else b
  }

  /** The content bytes of the INTEGER whose unsigned big-endian bytes are `b`. */
  function IntegerContent(b: seq<u8>): seq<u8> {
    var s := Strip(b);
    if s != [] && s[0] >= 0x80 then [0] + s else s
  }

  /** Not negative, and no byte could be dropped. */
  predicate MinimalUnsigned(c: seq<u8>) {
    c != [] && c[0] < 0x80 && (|c| > 1 && c[0] == 0 ==> c[1] >= 0x80)
  }

  function ReadInteger(c: seq<u8>): Option<nat> {
    if MinimalUnsigned(c) then Some(Value(c)) else None
  }

  lemma {:induction false} ValueLeadingZero(b: seq<u8>)
    ensures Value([0] + b) == Value(b)
  {
    if b != [] {
      ValueLeadingZero(b[..|b| - 1]);
      assert ([0] + b)[..|b|] == [0] + b[..|b| - 1];
    }
  }

  lemma {:induction false} StripSpec(b: seq<u8>)
    ensures Value(Strip(b)) == Value(b) && (b != [] ==> Strip(b) != [])
    ensures |Strip(b)| > 1 ==> Strip(b)[0] != 0
    ensures |Strip(b)| <= |b| && Strip(b) == b[|b| - |Strip(b)|..]
    ensures forall k :: 0 <= k < |b| - |Strip(b)| ==> b[k] == 0
  {
    if |b| > 1 && b[0] == 0 {
      StripSpec(b[1..]);
      ValueLeadingZero(b[1..]);
      assert b == [0] + b[1..];
    }
  }

  /** Any non-empty big-endian number is written in minimal form and read back. */
  lemma IntegerRoundTrip(b: seq<u8>)
    requires b != []
    ensures MinimalUnsigned(IntegerContent(b)) && ReadInteger(IntegerContent(b)) == Some(Value(b))
  {
    StripSpec(b);
    ValueLeadingZero(Strip(b));
  }

  /** The minimal form is the only one: it is left as it is. */
  lemma IntegerCanonical(c: seq<u8>)
    requires MinimalUnsigned(c)
    ensures IntegerContent(c) == c
  {
    if |c| > 1 && c[0] == 0 {
      assert Strip(c) == Strip(c[1..]) == c[1..];
      assert c == [0] + c[1..];
    }
  }

  /** The minimal form's length is determined by the number it stands for. */
  lemma {:induction false} IntegerLength(c: seq<u8>)
    requires MinimalUnsigned(c)
    ensures Value(c) < 0x80 * Pow256(|c| - 1)
    ensures |c| > 1 ==> Value(c) >= 0x80 * Pow256(|c| - 2)
  {
    if |c| > 1 {
      var d := c[..|c| - 1];
      if MinimalUnsigned(d) {
        IntegerLength(d);
      }
      assert |c| == 2 ==> d[..0] == [] && Value(d) == d[0];
    }
  }

  // ----- TLV trees -----

  datatype Tlv = Leaf(tag: u8, content: seq<u8>) | Node(tag: u8, kids: seq<Tlv>)

  function Header(tag: u8, size: nat): (b: seq<u8>)
    ensures |b| == 1 + SizeWidth(size)
  {
    [tag] + LengthBytes(size)
  }

  /** One tag byte, the length of the body, and the body. */
  function Tagged(tag: u8, body: seq<u8>): seq<u8> {
    Header(tag, |body|) + body
  }

  function Enc(t: Tlv): seq<u8> {
    match t
    case Leaf(tag, content) => Tagged(tag, content)
    case Node(tag, kids) => Tagged(tag, EncAll(kids))
  }

  function EncAll(ts: seq<Tlv>): seq<u8> {
    if ts == [] then [] else Enc(ts[0]) + EncAll(ts[1..])
  }

  lemma {:induction false} EncAllJoin(a: seq<Tlv>, b: seq<Tlv>)
    ensures EncAll(a + b) == EncAll(a) + EncAll(b)
  {
    if a == [] {
      assert a + b == b;
    } else {
      assert (a + b)[1..] == a[1..] + b;
      EncAllJoin(a[1..], b);
    }
  }

  lemma EncAllOne(a: Tlv)
    ensures EncAll([a]) == Enc(a)
  {
    assert [a][1..] == [];
  }

  lemma EncAllTwo(a: Tlv, b: Tlv)
    ensures EncAll([a, b]) == Enc(a) + Enc(b)
  {
    EncAllOne(b);
    assert [a, b][1..] == [b];
  }

  lemma EncAllThree(a: Tlv, b: Tlv, c: Tlv)
    ensures EncAll([a, b, c]) == Enc(a) + Enc(b) + Enc(c)
  {
    EncAllTwo(b, c);
    assert [a, b, c][1..] == [b, c];
  }

  predicate Constructed(tag: u8) {
    tag / 0x20 % 2 == 1
  }

  /** Tags are single bytes whose constructed bit tells nodes from leaves. */
  predicate WellTagged(t: Tlv) {
    && t.tag % 0x20 != 0x1f
    && match t
       case Leaf(tag, _) => !Constructed(tag)
       case Node(tag, kids) => Constructed(tag) && forall k :: k in kids ==> WellTagged(k)
  }

  predicate Encodable(t: Tlv) {
    WellTagged(t) && |Enc(t)| < 0x1_0000_0000
  }

  /** Reads one element; the second result is what follows it. */
  function Parse(b: seq<u8>): (r: Option<(Tlv, seq<u8>)>)
    ensures r.Some? ==> |r.value.1| < |b|
    decreases |b|, 0
  {
    if b == [] || b[0] % 0x20 == 0x1f then None
    else match ReadLength(b[1..])
         case None => None
         case Some((n, w)) =>
           if |b| < 1 + w + n then None
           else
             var body, rest := b[1 + w..1 + w + n], b[1 + w + n..];
             if !Constructed(b[0]) then Some((Leaf(b[0], body), rest))
             else match ParseAll(body)
                  case None => None
                  case Some(kids) => Some((Node(b[0], kids), rest))
  }

  /** Reads elements until nothing is left. */
  function ParseAll(b: seq<u8>): Option<seq<Tlv>>
    decreases |b|, 1
  {
    if b == [] then Some([])
    else match Parse(b)
         case None => None
         case Some((t, rest)) =>
           match ParseAll(rest)
           case None => None
           case Some(ts) => Some([t] + ts)
  }

  /** Texts with equal headers and bodies of unknown length have equal bodies. */
  lemma TaggedInjective(tag: u8, x: seq<u8>, y: seq<u8>)
    requires Tagged(tag, x) == Tagged(tag, y)
    ensures x == y
  {
    assert |x| == |y|;
    var w := 1 + SizeWidth(|x|);
    assert x == Tagged(tag, x)[w..] && y == Tagged(tag, y)[w..];
  }

  lemma EncSize(t: Tlv)
    ensures |Enc(t)| >= 2
  {}

  lemma {:induction false} EncAllMember(ts: seq<Tlv>, t: Tlv)
    requires t in ts
    ensures |Enc(t)| <= |EncAll(ts)|
  {
    if t != ts[0] {
      EncAllMember(ts[1..], t);
    }
  }

  lemma TaggedParts(tag: u8, body: seq<u8>, rest: seq<u8>)
    requires |body| < 0x1_0000_0000
    ensures var b, w := Tagged(tag, body) + rest, SizeWidth(|body|);
            && |b| == 1 + w + |body| + |rest| && b[0] == tag && ReadLength(b[1..]) == Some((|body|, w))
            && b[1 + w..1 + w + |body|] == body && b[1 + w + |body|..] == rest
  {
    hide ReadLength, LengthBytes;
    var b := Tagged(tag, body) + rest;
    assert b[1..] == LengthBytes(|body|) + (body + rest);
    LengthRoundTrip(|body|, body + rest);
  }

  lemma ParseLeaf(tag: u8, content: seq<u8>, rest: seq<u8>)
    requires !Constructed(tag) && tag % 0x20 != 0x1f && |content| < 0x1_0000_0000
    ensures Parse(Tagged(tag, content) + rest) == Some((Leaf(tag, content), rest))
  {
    hide ReadLength, Tagged, SizeWidth, ParseAll;
    TaggedParts(tag, content, rest);
  }

  /** A structure parses exactly if its body does. */
  lemma ParseNode(tag: u8, body: seq<u8>, rest: seq<u8>)
    requires Constructed(tag) && tag % 0x20 != 0x1f && |body| < 0x1_0000_0000
    ensures Parse(Tagged(tag, body) + rest) ==
            match ParseAll(body) case None => None case Some(kids) => Some((Node(tag, kids), rest))
  {
    hide ReadLength, Tagged, SizeWidth, ParseAll;
    TaggedParts(tag, body, rest);
  }

  /** The parser inverts the encoder, whatever follows. */
  lemma {:induction false} ParseEnc(t: Tlv, rest: seq<u8>)
    requires Encodable(t)
    ensures Parse(Enc(t) + rest) == Some((t, rest))
    decreases t, 0
  {
    hide Parse, ParseAll, LengthBytes, SizeWidth;
    match t
    case Leaf(tag, content) => ParseLeaf(tag, content, rest);
    case Node(tag, kids) =>
      forall k | k in kids ensures Encodable(k) {
        EncAllMember(kids, k);
      }
      ParseEncAll(kids);
      ParseNode(tag, EncAll(kids), rest);
  }

  lemma {:induction false} ParseEncAll(ts: seq<Tlv>)
    requires forall t :: t in ts ==> Encodable(t)
    ensures ParseAll(EncAll(ts)) == Some(ts)
    decreases ts, 1
  {
    if ts != [] {
      ParseEnc(ts[0], EncAll(ts[1..]));
      ParseEncAll(ts[1..]);
      EncSize(ts[0]);
      assert ts == [ts[0]] + ts[1..];
    }
  }

  /** What the parser accepts is the encoding of what it returns: no two texts parse to one tree. */
  lemma {:induction false} EncParse(b: seq<u8>)
    requires Parse(b).Some?
    ensures b == Enc(Parse(b).value.0) + Parse(b).value.1
    decreases |b|, 0
  {
    hide ReadLength, LengthBytes;
    var (n, w) := ReadLength(b[1..]).value;
    LengthCanonical(b[1..]);
    var body := b[1 + w..1 + w + n];
    assert b == [b[0]] + b[1..][..w] + body + b[1 + w + n..];
    if Constructed(b[0]) {
      EncAllParseAll(body);
    }
  }

  lemma {:induction false} EncAllParseAll(b: seq<u8>)
    requires ParseAll(b).Some?
    ensures EncAll(ParseAll(b).value) == b
    decreases |b|, 1
  {
    if b != [] {
      EncParse(b);
      EncAllParseAll(Parse(b).value.1);
      var ts := ParseAll(Parse(b).value.1).value;
      assert ([Parse(b).value.0] + ts)[1..] == ts;
    }
  }

  // ----- texts that do not parse -----

  /** Elements in front decide nothing: the whole parses exactly if what follows them does. */
  lemma {:induction false} ParsePrefix(ts: seq<Tlv>, rest: seq<u8>)
    requires forall t :: t in ts ==> Encodable(t)
    ensures ParseAll(EncAll(ts) + rest).Some? <==> ParseAll(rest).Some?
  {
    if ts == [] {
      assert EncAll(ts) + rest == rest;
    } else {
      var tail := EncAll(ts[1..]) + rest;
      assert EncAll(ts) + rest == Enc(ts[0]) + tail;
      ParseEnc(ts[0], tail);
      EncSize(ts[0]);
      ParsePrefix(ts[1..], rest);
    }
  }

  lemma OneByte(b: seq<u8>)
    requires |b| == 1
    ensures ParseAll(b).None?
  {
    assert b[1..] == [];
  }

  lemma ParseSplit(b: seq<u8>)
    requires b != []
    ensures ParseAll(b).Some? <==> Parse(b).Some? && ParseAll(Parse(b).value.1).Some?
  {}

  /** A last structure whose size overruns the text, or leaves one byte behind, makes the text unreadable. */
  lemma WrongSize(tag: u8, size: nat, rest: seq<u8>)
    requires size < 0x1_0000_0000 && (|rest| < size || |rest| == size + 1)
    ensures ParseAll(Header(tag, size) + rest).None?
  {
    hide ParseAll, LengthBytes;
    var b, w := Header(tag, size) + rest, SizeWidth(size);
    assert b[1..] == LengthBytes(size) + rest;
    LengthRoundTrip(size, rest);
    ParseSplit(b);
    if |rest| == size + 1 && Parse(b).Some? {
      OneByte(b[1 + w + size..]);
    }
  }
}
