/** The input of the measurement hash: what is fed to the hasher, and in which order. */
module Measurement {
  import opened Bitmap
  import opened Contexts
  import opened Forest
  import opened RootToChild
  import opened Destruction

  const MAX_CHUNK_SIZE := 2048

  function Le32(x: u32): seq<u8> {
    [x % 0x100, x / 0x100 % 0x100, x / 0x1_0000 % 0x100, x / 0x100_0000]
  }

  /** The bytes of a TCI node as it lies in memory. */
  function TciBytes(t: TciNodeData): seq<u8> {
    Le32(t.tciType) + t.cumulative + t.current + Le32(t.locality) + Le32(t.svn)
  }

  function NodeInput(c: Context): seq<u8> {
    TciBytes(c.tci) + [if c.allowX509 then 1 else 0]
  }

  function NodesInput(lineage: seq<Context>): seq<u8> {
    if lineage == [] then [] else NodeInput(lineage[0]) + NodesInput(lineage[1..])
  }

  predicate AsksInfo(lineage: seq<Context>) {
    exists c :: c in lineage && c.usesInternalInfo
  }

  predicate AsksDice(lineage: seq<Context>) {
    exists c :: c in lineage && c.usesInternalDice
  }

  /** Root to leaf, every node's bytes; then the internal info and the certificate chain, each if some node asks for
      it. */
  function HashInput(lineage: seq<Context>, info: seq<u8>, chain: seq<u8>): seq<u8> {
    NodesInput(lineage) + (if AsksInfo(lineage) then info else []) + (if AsksDice(lineage) then chain else [])
  }

  /** The platform's certificate chain, served in chunks. */
  class DefaultPlatform {
    const chain: seq<u8>

    constructor (chain: seq<u8>)
      ensures this.chain == chain
    {
      this.chain := chain;
    }

    /** Offsets and sizes are 32-bit; see `NoOverflowIff`. */
    predicate Valid() {
      |chain| <= 0x1_0000_0000 - MAX_CHUNK_SIZE
    }

    /** Copies what the chain has from `offset` on, `size` bytes at most; more than the chunk holds is refused. */
    method GetCertificateChain(offset: u32, size: u32, out: array<u8>) returns (r: Result<u32, Error>)
      requires |chain| < 0x1_0000_0000 && out.Length == MAX_CHUNK_SIZE
      requires offset < |chain| ==> offset + size < 0x1_0000_0000
      modifies out
      ensures var n := if offset + size < |chain| then size else |chain| - offset;
              && (r.Ok? <==> offset < |chain| && n <= MAX_CHUNK_SIZE)
              && (r.Ok? ==> r.value == n && out[..n] == chain[offset..offset + n] && out[n..] == old(out[n..]))
              && (r.Err? ==> r.error == Platform && out[..] == old(out[..]))
    {
      if offset >= |chain| {
        return Err(Platform);
      }
      var end := if offset + size < |chain| then offset + size else |chain|;
      var n := end - offset;
      if n > MAX_CHUNK_SIZE {
        return Err(Platform);
      }
      for k := 0 to n
        invariant out[..k] == chain[offset..offset + k]
        invariant out[k..] == old(out[k..])
      {
        out[k] := chain[offset + k];
      }
      return Ok(n);
    }
  }

  /** The chunk loop adds no two numbers whose sum exceeds 32 bits exactly if the chain leaves room for a last chunk. */
  lemma NoOverflowIff(len: u32)
    ensures (forall k: nat :: k * MAX_CHUNK_SIZE < len ==> k * MAX_CHUNK_SIZE + MAX_CHUNK_SIZE < 0x1_0000_0000)
            <==> len <= 0x1_0000_0000 - MAX_CHUNK_SIZE
  {
    if len > 0x1_0000_0000 - MAX_CHUNK_SIZE {
      var k := 0x1_0000_0000 / MAX_CHUNK_SIZE - 1;
      assert k * MAX_CHUNK_SIZE < len && k * MAX_CHUNK_SIZE + MAX_CHUNK_SIZE >= 0x1_0000_0000;
    }
  }

  class Hasher {
    /** Everything fed so far. */
    var fed: seq<u8>

    constructor ()
      ensures fed == []
    {
      fed := [];
    }

    method Update(bytes: seq<u8>)
      modifies this
      ensures fed == old(fed) + bytes
    {
      fed := fed + bytes;
    }
  }

  /** Feeds the whole chain, chunk by chunk, until the platform has no more. */
  method FeedCertificateChain(hasher: Hasher, platform: DefaultPlatform)
    requires platform.Valid()
    modifies hasher
    ensures hasher.fed == old(hasher.fed) + platform.chain
  {
    var offset: nat := 0;
    var chunk := new u8[MAX_CHUNK_SIZE](_ => 0);
    while true
      invariant offset <= |platform.chain|
      invariant hasher.fed == old(hasher.fed) + platform.chain[..offset]
      decreases |platform.chain| - offset
    {
      var len := platform.GetCertificateChain(offset, MAX_CHUNK_SIZE, chunk);
      if len.Err? {
        break;
      }
      hasher.Update(chunk[..len.value]);
      offset := offset + len.value;
    }
    assert platform.chain[..offset] == platform.chain;
  }

  lemma {:induction false} NodesInputAppend(l: seq<Context>, c: Context)
    ensures NodesInput(l + [c]) == NodesInput(l) + NodeInput(c)
  {
    if l == [] {
      assert [c][1..] == [];
    } else {
      assert (l + [c])[1..] == l[1..] + [c];
      NodesInputAppend(l[1..], c);
    }
  }

  lemma OneMoreNode(l: seq<Context>, c: Context)
    ensures NodesInput(l + [c]) == NodesInput(l) + TciBytes(c.tci) + [if c.allowX509 then 1 else 0]
    ensures AsksInfo(l + [c]) <==> AsksInfo(l) || c.usesInternalInfo
    ensures AsksDice(l + [c]) <==> AsksDice(l) || c.usesInternalDice
  {
    NodesInputAppend(l, c);
    if AsksInfo(l) || AsksDice(l) {
      assert forall d :: d in l ==> d in l + [c];
    }
    assert c in l + [c];
  }

  lemma NoNodes()
    ensures NodesInput([]) == [] && !AsksInfo([]) && !AsksDice([])
  {}

  /** Succeeds exactly when the context has a path to a root, and then feeds exactly the input of that path. */
  method ComputeMeasurementHash(cs: seq<Context>, start: nat, info: seq<u8>, platform: DefaultPlatform, hasher: Hasher)
      returns (r: Result<(), Error>)
    requires InRange(cs) && platform.Valid() && hasher.fed == []
    modifies hasher
    ensures r.Ok? <==> Rooted(cs, start)
    ensures r.Ok? ==> hasher.fed == HashInput(Lineage(cs, start), info, platform.chain)
    ensures r.Ok? ==> forall size :: RegistersOf(Lineage(cs, start), size) ==>
      ReadNodes(hasher.fed, size, |Lineage(cs, start)|) == Reports(Lineage(cs, start))
  {
    hide Rooted, Lineage, NodesInput, AsksInfo, AsksDice, TciBytes, RootToChildIter.Valid, RootToChildIter.Pending;
    hide ReadNodes, RegistersOf, Reports;
    var made := RootToChildIter.New(start, cs);
    if made.Err? {
      return Err(made.error);
    }
    var iter := made.value;
    var usesInfo, usesDice := false, false;
    ghost var lineage := Lineage(cs, start);
    ghost var done: seq<Context> := [];
    ghost var rest := iter.Pending();
    NoNodes();
    while true
      invariant fresh(iter) && iter.Valid() && rest == iter.Pending() && lineage == done + rest
      invariant hasher.fed == NodesInput(done)
      invariant usesInfo == AsksInfo(done) && usesDice == AsksDice(done)
      decreases |rest|
    {
      var item := iter.Next();
      if item == None {
        break;
      }
      var c := item.value.value;
      hasher.Update(TciBytes(c.tci));
      usesInfo := usesInfo || c.usesInternalInfo;
      usesDice := usesDice || c.usesInternalDice;
      hasher.Update([if c.allowX509 then 1 else 0]);
      OneMoreNode(done, c);
      assert rest == [c] + rest[1..];
      done, rest := done + [c], rest[1..];
    }
    assert done == lineage;
    if usesInfo {
      hasher.Update(info);
    }
    if usesDice {
      FeedCertificateChain(hasher, platform);
    }
    assert hasher.fed == HashInput(lineage, info, platform.chain);
    forall size | RegistersOf(lineage, size)
      ensures ReadNodes(hasher.fed, size, |lineage|) == Reports(lineage)
    {
      HashInputReads(lineage, size, info, platform.chain);
    }
    return Ok(());
  }

  /** Two contexts that contribute the same to a measurement. */
  predicate Alike(b: Context, c: Context) {
    b.tci == c.tci && b.allowX509 == c.allowX509
    && b.usesInternalInfo == c.usesInternalInfo && b.usesInternalDice == c.usesInternalDice
  }

  predicate AllAlike(l: seq<Context>, m: seq<Context>) {
    |l| == |m| && forall k :: 0 <= k < |l| ==> Alike(l[k], m[k])
  }

  lemma {:induction false} SameNodesInput(l: seq<Context>, m: seq<Context>)
    requires AllAlike(l, m)
    ensures NodesInput(l) == NodesInput(m)
  {
    if l != [] {
      SameNodesInput(l[1..], m[1..]);
    }
  }

  lemma SameFlags(l: seq<Context>, m: seq<Context>)
    requires AllAlike(l, m)
    ensures AsksInfo(l) ==> AsksInfo(m)
    ensures AsksDice(l) ==> AsksDice(m)
  {
    if AsksInfo(l) {
      var k :| 0 <= k < |l| && l[k].usesInternalInfo;
      assert m[k] in m;
    }
    if AsksDice(l) {
      var k :| 0 <= k < |l| && l[k].usesInternalDice;
      assert m[k] in m;
    }
  }

  lemma SameInput(l: seq<Context>, m: seq<Context>, info: seq<u8>, chain: seq<u8>)
    requires AllAlike(l, m)
    ensures HashInput(l, info, chain) == HashInput(m, info, chain)
  {
    SameNodesInput(l, m);
    SameFlags(l, m);
    SameFlags(m, l);
  }

  /** Destroying a context leaves every survivor's measurement, and with it its keys, as they were. */
  lemma DestroyKeepsHashInput(cs: seq<Context>, i: nat, j: nat, tciSize: nat, info: seq<u8>, chain: seq<u8>)
    requires IsForest(cs) && Live(cs, i) && Live(cs, j) && j !in Doomed(cs, i)
    ensures Rooted(cs, j) && Rooted(Without(cs, Doomed(cs, i), tciSize), j)
    ensures HashInput(Lineage(Without(cs, Doomed(cs, i), tciSize), j), info, chain)
        == HashInput(Lineage(cs, j), info, chain)
  {
    DoomedClosedDown(cs, i);
    SurvivorLineage(cs, Doomed(cs, i), j, tciSize);
    var l, m := Lineage(cs, j), Lineage(Without(cs, Doomed(cs, i), tciSize), j);
    forall k | 0 <= k < |l| ensures Alike(m[k], l[k]) {
      assert Identity(m[k]) == Identity(l[k]);
    }
    SameInput(m, l, info, chain);
  }

  // ----- the input determines what was measured -----

  /** The number whose bytes are `b`, least significant first. */
  function FromLe(b: seq<u8>): nat {
    if b == [] then 0 else b[0] + 0x100 * FromLe(b[1..])
  }

  /** What a measurement tells about one context. */
  datatype NodeReport = NodeReport(tciType: nat, cumulative: Digest, current: Digest, locality: nat, svn: nat,
      allowX509: bool)

  function Report(c: Context): NodeReport {
    NodeReport(c.tci.tciType, c.tci.cumulative, c.tci.current, c.tci.locality, c.tci.svn, c.allowX509)
  }

  function Reports(l: seq<Context>): seq<NodeReport> {
    seq(|l|, k requires 0 <= k < |l| => Report(l[k]))
  }

  /** The size of a context's bytes, for registers of `size` bytes. */
  function NodeWidth(size: nat): nat {
    13 + size + size
  }

  function ReadNode(b: seq<u8>, size: nat): NodeReport
    requires |b| == NodeWidth(size)
  {
    var s, e := 4 + size, 4 + size + size;
    NodeReport(FromLe(b[..4]), b[4..s], b[s..e], FromLe(b[e..e + 4]), FromLe(b[e + 4..e + 8]), b[e + 8] == 1)
  }

  /** Reads as many contexts as the text holds, but no more than `n`. */
  function ReadNodes(b: seq<u8>, size: nat, n: nat): seq<NodeReport> {
    if n == 0 || |b| < NodeWidth(size) then []
    else [ReadNode(b[..NodeWidth(size)], size)] + ReadNodes(b[NodeWidth(size)..], size, n - 1)
  }

  predicate RegistersOf(l: seq<Context>, size: nat) {
    forall k :: 0 <= k < |l| ==> |l[k].tci.cumulative| == |l[k].tci.current| == size
  }

  lemma FromLeFour(a: u8, b: u8, c: u8, d: u8)
    ensures FromLe([a, b, c, d]) == Sum(a, b, c, d)
  {
    assert [a, b, c, d][1..] == [b, c, d] && [b, c, d][1..] == [c, d] && [c, d][1..] == [d] && [d][1..] == [];
    assert FromLe([]) == 0;
    assert FromLe([d]) == d;
    assert FromLe([c, d]) == c + 0x100 * FromLe([d]);
    assert FromLe([b, c, d]) == b + 0x100 * FromLe([c, d]);
    assert FromLe([a, b, c, d]) == a + 0x100 * FromLe([b, c, d]);
  }

  function Sum(a: nat, b: nat, c: nat, d: nat): nat {
    a + 0x100 * b + 0x1_0000 * c + 0x100_0000 * d
  }

  lemma Bytes32(x: u32)
    ensures Sum(x % 0x100, x / 0x100 % 0x100, x / 0x1_0000 % 0x100, x / 0x100_0000) == x
  {
    assert x / 0x1_0000 == x / 0x100 / 0x100 && x / 0x100_0000 == x / 0x1_0000 / 0x100;
  }

  lemma FromLe32(x: u32)
    ensures FromLe(Le32(x)) == x
  {
    hide FromLe, Sum;
    Bytes32(x);
    FromLeFour(x % 0x100, x / 0x100 % 0x100, x / 0x1_0000 % 0x100, x / 0x100_0000);
  }

  lemma NodeRead(c: Context, size: nat)
    requires |c.tci.cumulative| == |c.tci.current| == size
    ensures |NodeInput(c)| == NodeWidth(size) && ReadNode(NodeInput(c), size) == Report(c)
  {
    hide Le32, FromLe;
    var b, s, e := NodeInput(c), 4 + size, 4 + size + size;
    FourLong(c.tci.tciType);
    FourLong(c.tci.locality);
    FourLong(c.tci.svn);
    FromLe32(c.tci.tciType);
    FromLe32(c.tci.locality);
    FromLe32(c.tci.svn);
    assert b[..4] == Le32(c.tci.tciType) && b[4..s] == c.tci.cumulative && b[s..e] == c.tci.current;
    assert b[e..e + 4] == Le32(c.tci.locality) && b[e + 4..e + 8] == Le32(c.tci.svn);
  }

  lemma FourLong(x: u32)
    ensures |Le32(x)| == 4
  {}

  /** Whatever follows, the contexts are read back, each with all it was measured by. */
  lemma {:induction false} NodesRead(l: seq<Context>, size: nat, rest: seq<u8>)
    requires RegistersOf(l, size)
    ensures ReadNodes(NodesInput(l) + rest, size, |l|) == Reports(l)
    ensures |NodesInput(l)| == |l| * NodeWidth(size)
  {
    hide NodeInput, ReadNode, NodeWidth;
    if l != [] {
      NodeRead(l[0], size);
      NodesRead(l[1..], size, rest);
      var b, w := NodesInput(l) + rest, NodeWidth(size);
      assert b == NodeInput(l[0]) + (NodesInput(l[1..]) + rest);
      assert b[..w] == NodeInput(l[0]) && b[w..] == NodesInput(l[1..]) + rest;
      assert |l| * w == w + (|l| - 1) * w;
      assert Reports(l) == [Report(l[0])] + Reports(l[1..]);
    }
  }

  /** The hash input tells every context of the path, and behind them lie the internal info and the chain, each
      exactly if some context of the path uses it. */
  lemma HashInputReads(l: seq<Context>, size: nat, info: seq<u8>, chain: seq<u8>)
    requires RegistersOf(l, size)
    ensures ReadNodes(HashInput(l, info, chain), size, |l|) == Reports(l)
    ensures |l| * NodeWidth(size) <= |HashInput(l, info, chain)|
    ensures HashInput(l, info, chain)[|l| * NodeWidth(size)..] ==
            (if exists k :: 0 <= k < |l| && l[k].usesInternalInfo then info else [])
            + (if exists k :: 0 <= k < |l| && l[k].usesInternalDice then chain else [])
  {
    hide NodesInput, ReadNodes, NodeWidth;
    var rest := (if AsksInfo(l) then info else []) + (if AsksDice(l) then chain else []);
    assert HashInput(l, info, chain) == NodesInput(l) + rest;
    NodesRead(l, size, rest);
    forall k | 0 <= k < |l| ensures l[k] in l {
    }
  }

  /** Unlike paths of one length are measured by unlike input: equal input means equal contexts, position by
      position. */
  lemma EqualInputEqualPaths(l: seq<Context>, m: seq<Context>, size: nat, info: seq<u8>, chain: seq<u8>, info': seq<u8>,
      chain': seq<u8>)
    requires RegistersOf(l, size) && RegistersOf(m, size) && |l| == |m|
    requires HashInput(l, info, chain) == HashInput(m, info', chain')
    ensures forall k :: 0 <= k < |l| ==>
      && l[k].tci.tciType == m[k].tci.tciType && l[k].tci.cumulative == m[k].tci.cumulative
      && l[k].tci.current == m[k].tci.current && l[k].tci.locality == m[k].tci.locality
      && l[k].tci.svn == m[k].tci.svn && l[k].allowX509 == m[k].allowX509
  {
    hide HashInput, ReadNodes;
    HashInputReads(l, size, info, chain);
    HashInputReads(m, size, info', chain');
    forall k | 0 <= k < |l| ensures Report(l[k]) == Report(m[k]) {
      assert Reports(l)[k] == Report(l[k]) && Reports(m)[k] == Report(m[k]);
    }
  }
}
