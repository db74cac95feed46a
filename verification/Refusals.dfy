/** Why a command is refused: whatever error it answers, the reason can be seen in the state before and the draws. */
module Refusals {
  import opened Bitmap
  import opened Contexts
  import opened Forest
  import opened States
  import opened Commands
  import opened Preservation
  import opened Runs
  import opened Kinship
  import opened Laws

  /** No active context of the locality has the handle; the error tells whether there is any active context there. */
  ghost predicate Unnamed(cs: seq<Context>, h: Handle, locality: u32, e: Error) {
    && (forall j: nat :: There(cs, j, locality) ==> cs[j].handle != h)
    && e == if exists j: nat :: There(cs, j, locality) then InvalidHandle else InvalidLocality
  }

  /** All eight draws were unusable, or one of them failed. */
  ghost predicate NoHandle(env: Env, cs: seq<Context>, from: nat, e: Error) {
    || (e == HandleGenerationExhausted && forall k: nat :: from <= k < from + 8 ==> Wasted(env, cs, k))
    || (e == Crypto && exists n: nat :: from <= n < from + 8 && env.draw(n).None?)
  }

  /** The hash failed, or is not of the register's size. */
  predicate NoHash(env: Env, register: Digest, data: Digest, e: Error) {
    match env.hash(register, data)
    case None => e == Crypto
    case Some(d) => e == DigestLengthMismatch && |d| != |register|
  }

  predicate NoneFree(cs: seq<Context>) {
    forall j :: 0 <= j < |cs| ==> cs[j].state != Inactive
  }

  ghost predicate InitializeRefused(env: Env, m: Machine, d: bool, s: bool, e: Error) {
    || (e == ArgumentNotSupported && ((d && m.st.hasInitialized) || (s && !m.st.support.simulation)))
    || (e == InvalidArgument && d == s)
    || (e == MaxTcis && NoneFree(m.st.contexts))
    || (!d && NoHandle(env, m.st.contexts, m.drawn, e))
  }

  ghost predicate RotateRefused(env: Env, m: Machine, h: Handle, toDefault: bool, locality: u32, e: Error) {
    var cs := m.st.contexts;
    || (e == InvalidCommand && !m.st.support.rotateContext)
    || Unnamed(cs, h, locality, e)
    || (e == InvalidArgument && toDefault
        && (h == 0 || exists i: nat, j: nat :: i != j && There(cs, i, locality) && There(cs, j, locality)))
    || (!toDefault && NoHandle(env, cs, m.drawn, e))
  }

  ghost predicate CertifyKeyRefused(env: Env, m: Machine, h: Handle, format: u32, cert: Result<nat, Error>,
                                    locality: u32, e: Error) {
    var cs := m.st.contexts;
    || Unnamed(cs, h, locality, e)
    || (e == ArgumentNotSupported && ((format == 0 && !m.st.support.x509) || (format == 1 && !m.st.support.csr)))
    || (e == InvalidArgument
        && (format > 1 || (format == 0 && exists i: nat :: Names(cs, h, locality, i) && !cs[i].allowX509)))
    || cert == Err(e)
    || (h != 0 && NoHandle(env, cs, m.drawn, e))
  }

  ghost predicate SignRefused(env: Env, m: Machine, h: Handle, signature: Result<(), Error>, locality: u32, e: Error) {
    var cs := m.st.contexts;
    || Unnamed(cs, h, locality, e)
    || (e == InvalidArgument && exists i: nat :: Names(cs, h, locality, i) && cs[i].contextType == Simulation)
    || signature == Err(e)
    || (h != 0 && NoHandle(env, cs, m.drawn, e))
  }

  /** The last case is the one in which the parent has its new handle already. */
  ghost predicate UpdateRefused(env: Env, m: Machine, h: Handle, data: Digest, tciType: u32, locality: u32, e: Error) {
    var cs := m.st.contexts;
    || (e == InvalidArgument && h == 0)
    || (e == InvalidParentLocality && forall j: nat :: There(cs, j, locality) ==> cs[j].handle != h)
    || exists p: nat :: Names(cs, h, locality, p) && UpdateFails(env, m, p, data, tciType, e)
  }

  ghost predicate UpdateFails(env: Env, m: Machine, p: nat, data: Digest, tciType: u32, e: Error) {
    var cs := m.st.contexts;
    || (e == InvalidArgument && forall c: nat :: !ActiveChild(cs, c, p, tciType))
    || (exists c: nat :: ActiveChild(cs, c, p, tciType) && NoHash(env, cs[c].tci.cumulative, data, e))
    || NoHandle(env, cs, m.drawn, e)
    || (p < |cs| && exists ph, mid :: DrawsTo(env, cs, m.drawn, 8, ph, mid)
                                      && NoHandle(env, cs[p := cs[p].(handle := ph)], mid, e))
  }

  ghost predicate DeriveRefused(env: Env, m: Machine, a: DeriveArgs, cert: Result<nat, Error>, locality: u32,
                                e: Error) {
    || (e == ArgumentNotSupported && !Supported(m.st.support, a.flags))
    || Unnamed(m.st.contexts, a.handle, locality, e)
    || exists p: nat :: Names(m.st.contexts, a.handle, locality, p) && DeriveFails(env, m, a, cert, p, locality, e)
  }

  ghost predicate DeriveFails(env: Env, m: Machine, a: DeriveArgs, cert: Result<nat, Error>, p: nat, locality: u32,
                              e: Error)
    requires p < |m.st.contexts|
  {
    var cs, f := m.st.contexts, a.flags;
    || (e == InvalidArgument && !Granted(cs[p], f))
    || if f.recursive then
         || (e == InvalidArgument && cs[p].tci.tciType != a.tciType)
         || (e == InvalidLocality && Target(a, locality) != locality)
         || NoHash(env, cs[p].tci.cumulative, a.data, e)
         || (a.handle != 0 && NoHandle(env, cs, m.drawn, e))
       else
         || (e == InvalidArgument && !TypeFree(cs, p, a.tciType))
         || (f.retainParent && a.handle != 0 && NoHandle(env, cs, m.drawn, e))
         || if f.createCertificate && f.exportCdi then cert == Err(e) else ChildFails(env, m, a, p, locality, e)
  }

  ghost predicate ChildFails(env: Env, m: Machine, a: DeriveArgs, p: nat, locality: u32, e: Error) {
    var cs, f := m.st.contexts, a.flags;
    || (e == MaxTcis && NoneFree(cs))
    || (e == InvalidArgument && !Room(cs, f, p, Target(a, locality)))
    || (!f.makeDefault && exists ph, mid ::
          ParentGets(env, m, f.retainParent, a.handle, ph, mid) && NoHandle(env, cs, mid, e))
    || NoHash(env, Zeros(m.st.tciSize), a.data, e)
  }

  ghost predicate Refused(env: Env, m: Machine, q: Request, e: Error) {
    match q.cmd
    case InitializeCmd(d, s) => InitializeRefused(env, m, d, s, e)
    case RotateCmd(h, d) => RotateRefused(env, m, h, d, q.locality, e)
    case CertifyKeyCmd(h, f, cert) => CertifyKeyRefused(env, m, h, f, cert, q.locality, e)
    case SignCmd(h, s) => SignRefused(env, m, h, s, q.locality, e)
    case UpdateCmd(h, d, t) => UpdateRefused(env, m, h, d, t, q.locality, e)
    case DestroyCmd(h) => Unnamed(m.st.contexts, h, q.locality, e)
    case DeriveCmd(a, cert) => DeriveRefused(env, m, a, cert, q.locality, e)
  }

  // ----- lookups, draws and hashes -----

  lemma UnnamedIf(cs: seq<Context>, h: Handle, locality: u32)
    ensures ActivePos(cs, h, locality).Err? ==> Unnamed(cs, h, locality, ActivePos(cs, h, locality).error)
    ensures ActivePos(cs, h, locality).Ok? ==> Names(cs, h, locality, ActivePos(cs, h, locality).value)
  {
    ActivePosSpec(cs, h, locality);
    forall j: nat ensures There(cs, j, locality) <==> j < |cs| && ActiveIn(cs, j, locality) {
    }
  }

  lemma NoHandleIf(env: Env, cs: seq<Context>, from: nat)
    ensures NewHandle(env, cs, from, 8).0.Err? ==> NoHandle(env, cs, from, NewHandle(env, cs, from, 8).0.error)
  {
    hide NewHandle;
    NoHandleIff(env, cs, from, 8);
    NewHandleSpec(env, cs, from, 8);
  }

  lemma DrawnIf(env: Env, cs: seq<Context>, from: nat)
    ensures var r := NewHandle(env, cs, from, 8); r.0.Ok? ==> DrawsTo(env, cs, from, 8, r.0.value, r.1)
  {
    hide NewHandle, DrawsTo;
    var r := NewHandle(env, cs, from, 8);
    if r.0.Ok? {
      DrawsIff(env, cs, from, 8, r.0.value, r.1);
    }
  }

  lemma NoHashIf(env: Env, c: Context, data: Digest, locality: u32)
    ensures AddMeasurement(env, c, data, locality).Err? && c.state == Active && c.locality == locality ==>
      NoHash(env, c.tci.cumulative, data, AddMeasurement(env, c, data, locality).error)
  {}

  // ----- one command at a time -----

  lemma InitializeReason(env: Env, m: Machine, d: bool, s: bool, locality: u32)
    ensures var r := Initialize(env, m, d, s, locality, true).result;
            r.Err? ==> InitializeRefused(env, m, d, s, r.error)
  {
    hide NewHandle, NoHandle, NextInactive;
    NextInactiveSpec(m.st.contexts, 0);
    NoHandleIf(env, m.st.contexts, m.drawn);
  }

  lemma RotateReason(env: Env, m: Machine, h: Handle, toDefault: bool, locality: u32)
    ensures var r := Rotate(env, m, h, toDefault, locality, true).result;
            r.Err? ==> RotateRefused(env, m, h, toDefault, locality, r.error)
  {
    hide NewHandle, NoHandle, ActivePos, Unnamed;
    var cs, pos := m.st.contexts, ActivePos(m.st.contexts, h, locality);
    UnnamedIf(cs, h, locality);
    NoHandleIf(env, cs, m.drawn);
    if pos.Ok? {
      AloneIff(cs, h, locality, pos.value);
    }
  }

  lemma CertifyKeyReason(env: Env, m: Machine, h: Handle, format: u32, cert: Result<nat, Error>, locality: u32)
    ensures var r := CertifyKey(env, m, h, format, cert, locality, true).result;
            r.Err? ==> CertifyKeyRefused(env, m, h, format, cert, locality, r.error)
  {
    hide NewHandle, NoHandle, ActivePos, Unnamed;
    UnnamedIf(m.st.contexts, h, locality);
    NoHandleIf(env, m.st.contexts, m.drawn);
  }

  lemma SignReason(env: Env, m: Machine, h: Handle, signature: Result<(), Error>, locality: u32)
    ensures var r := Sign(env, m, h, signature, locality, true).result;
            r.Err? ==> SignRefused(env, m, h, signature, locality, r.error)
  {
    hide NewHandle, NoHandle, ActivePos, Unnamed;
    UnnamedIf(m.st.contexts, h, locality);
    NoHandleIf(env, m.st.contexts, m.drawn);
  }

  lemma UpdateAtReason(env: Env, m: Machine, p: nat, c: nat, data: Digest, tciType: u32)
    requires p < |m.st.contexts| && m.st.contexts[p].handle != 0 && ActiveChild(m.st.contexts, c, p, tciType)
    ensures var r := UpdateAt(env, m, p, c, data, true).result;
            r.Err? ==> UpdateFails(env, m, p, data, tciType, r.error)
  {
    hide NewHandle, NoHandle, AddMeasurement, NoHash, DrawsTo;
    var cs := m.st.contexts;
    NoHashIf(env, cs[c], data, cs[c].locality);
    NoHandleIf(env, cs, m.drawn);
    DrawnIf(env, cs, m.drawn);
    var (h, mid) := NewHandle(env, cs, m.drawn, 8);
    if h.Ok? {
      NoHandleIf(env, cs[p := cs[p].(handle := h.value)], mid);
    }
  }

  lemma UpdateReason(env: Env, m: Machine, h: Handle, data: Digest, tciType: u32, locality: u32)
    requires IsForest(m.st.contexts)
    ensures var r := Update(env, m, h, data, tciType, locality, true).result;
            r.Err? ==> UpdateRefused(env, m, h, data, tciType, locality, r.error)
  {
    hide ActivePos, UpdateAt, UpdateFails, IsForest, ChildOfType, Ascending;
    var cs, pos := m.st.contexts, ActivePos(m.st.contexts, h, locality);
    UnnamedIf(cs, h, locality);
    ActivePosFacts(cs, h, locality);
    if pos.Ok? && h != 0 {
      var kid := ChildOfType(cs, Ascending(cs[pos.value].children, 0, |cs|), tciType);
      ChildSought(env, m, pos.value, data, tciType);
      if kid.Some? {
        UpdateAtReason(env, m, pos.value, kid.value, data, tciType);
      }
    }
  }

  lemma ChildSought(env: Env, m: Machine, p: nat, data: Digest, tciType: u32)
    requires IsForest(m.st.contexts) && Live(m.st.contexts, p)
    ensures var cs := m.st.contexts;
            match ChildOfType(cs, Ascending(cs[p].children, 0, |cs|), tciType)
            case Some(c) => ActiveChild(cs, c, p, tciType)
            case None => UpdateFails(env, m, p, data, tciType, InvalidArgument)
  {
    hide ChildOfType, Ascending, IsForest, NoHandle, NoHash;
    var cs := m.st.contexts;
    var kid := ChildOfType(cs, Ascending(cs[p].children, 0, |cs|), tciType);
    if kid.Some? {
      FirstChildIff(cs, p, tciType, kid.value);
    } else {
      forall c: nat ensures !ActiveChild(cs, c, p, tciType) {
        NoChildOfType(cs, p, tciType, c);
      }
    }
  }

  lemma NoChildOfType(cs: seq<Context>, p: nat, tciType: u32, c: nat)
    requires IsForest(cs) && Live(cs, p) && ChildOfType(cs, Ascending(cs[p].children, 0, |cs|), tciType) == None
    ensures !ActiveChild(cs, c, p, tciType)
  {
    hide ChildOfType, Ascending;
    ChildOfTypeSpec(cs, Ascending(cs[p].children, 0, |cs|), tciType);
    AscendingSpec(cs[p].children, 0, |cs|);
    if c < |cs| && Live(cs, c) {
      assert ParentLinkOk(cs, c);
    }
  }

  lemma DestroyReason(m: Machine, h: Handle, locality: u32)
    requires IsForest(m.st.contexts)
    ensures var r := Destroy(m, h, locality, true).result; r.Err? ==> Unnamed(m.st.contexts, h, locality, r.error)
  {
    hide ActivePos, Unnamed, IsForest;
    UnnamedIf(m.st.contexts, h, locality);
  }

  lemma RecursiveReason(env: Env, m: Machine, a: DeriveArgs, cert: Result<nat, Error>, p: nat, locality: u32)
    requires Names(m.st.contexts, a.handle, locality, p) && a.flags.recursive
    ensures var r := DeriveRecursive(env, m, a, p, locality, true).result;
            r.Err? ==> DeriveFails(env, m, a, cert, p, locality, r.error)
  {
    hide NewHandle, NoHandle, Granted;
    NoHandleIf(env, m.st.contexts, m.drawn);
    NoHashIf(env, m.st.contexts[p], a.data, locality);
  }

  lemma ChildReason(env: Env, m: Machine, a: DeriveArgs, p: nat, parent: Context, mid: nat, locality: u32)
    requires InRange(m.st.contexts) && p < |m.st.contexts|
    requires ParentGets(env, m, a.flags.retainParent, a.handle, parent.handle, mid)
    ensures var r := DeriveChild(env, m.(drawn := mid), a, p, parent, locality, true).result;
            r.Err? ==> ChildFails(env, m, a, p, locality, r.error)
  {
    hide NewHandle, NoHandle, SafeToMakeChild, Room, ParentGets, NoHash, AddMeasurement;
    var cs, target := m.st.contexts, Target(a, locality);
    NextInactiveSpec(cs, 0);
    RoomIff(cs, a.flags, p, target);
    NoHandleIf(env, cs, mid);
    var h := if a.flags.makeDefault then 0 else Chosen(NewHandle(env, cs, mid, 8).0);
    NoHashIf(env, Activated(ChildArgs(a, p, parent, h, target), m.st.tciSize), a.data, target);
    assert Zeros(m.st.tciSize) == ZeroDigest(m.st.tciSize);
  }

  function Chosen(r: Result<Handle, Error>): Handle {
    if r.Ok? then r.value else 0
  }

  lemma DeriveReason(env: Env, m: Machine, a: DeriveArgs, cert: Result<nat, Error>, locality: u32)
    requires IsForest(m.st.contexts)
    ensures var r := Derive(env, m, a, cert, locality, true).result;
            r.Err? ==> DeriveRefused(env, m, a, cert, locality, r.error)
  {
    hide IsForest, ActivePos, TypeTaken, TypeFree, DeriveRecursive, DeriveChild, ParentAfter, ParentGets, ChildFails;
    hide NoHandle, NewHandle, NoHash;
    var cs, pos := m.st.contexts, ActivePos(m.st.contexts, a.handle, locality);
    UnnamedIf(cs, a.handle, locality);
    ActivePosFacts(cs, a.handle, locality);
    if pos.Ok? {
      var p := pos.value;
      ForestBounds(cs);
      TypeFreeIff(cs, p, a.tciType);
      if a.flags.recursive {
        RecursiveReason(env, m, a, cert, p, locality);
      } else {
        var (parent, mid) := ParentAfter(env, m, p, a.flags.retainParent);
        ParentReason(env, m, a, p);
        if parent.Ok? {
          ChildReason(env, m, a, p, parent.value, mid, locality);
        }
      }
    }
  }

  lemma ParentReason(env: Env, m: Machine, a: DeriveArgs, p: nat)
    requires p < |m.st.contexts| && m.st.contexts[p].handle == a.handle
    ensures var (r, mid) := ParentAfter(env, m, p, a.flags.retainParent);
            if r.Ok? then ParentGets(env, m, a.flags.retainParent, a.handle, r.value.handle, mid)
            else a.flags.retainParent && a.handle != 0 && NoHandle(env, m.st.contexts, m.drawn, r.error)
  {
    hide NewHandle, NoHandle, DrawsTo;
    NoHandleIf(env, m.st.contexts, m.drawn);
    DrawnIf(env, m.st.contexts, m.drawn);
  }

  /** Every error has its reason. */
  lemma RefusalReason(env: Env, m: Machine, q: Request, e: Error)
    requires WellFormed(m.st)
    ensures IsForest(m.st.contexts)
    ensures Execute(env, m, q).result == Err(e) ==> Refused(env, m, q, e) || (e == InvalidResponseBuf && !q.fits)
  {
    hide WellFormed, IsForest, Initialize, Derive, Rotate, CertifyKey, Sign, Destroy, Update, InitializeRefused;
    hide RotateRefused, CertifyKeyRefused, SignRefused, UpdateRefused, DeriveRefused, Unnamed;
    WellFormedForest(m.st);
    FitsFirst(env, m, q);
    match q.cmd {
      case InitializeCmd(d, s) => InitializeReason(env, m, d, s, q.locality);
      case RotateCmd(h, d) => RotateReason(env, m, h, d, q.locality);
      case CertifyKeyCmd(h, f, cert) => CertifyKeyReason(env, m, h, f, cert, q.locality);
      case SignCmd(h, s) => SignReason(env, m, h, s, q.locality);
      case UpdateCmd(h, d, t) => UpdateReason(env, m, h, d, t, q.locality);
      case DestroyCmd(h) => DestroyReason(m, h, q.locality);
      case DeriveCmd(a, cert) => DeriveReason(env, m, a, cert, q.locality);
    }
  }

  /** Whether the response fits changes an answer only from success to the one error. */
  lemma FitsFirst(env: Env, m: Machine, q: Request)
    requires IsForest(m.st.contexts)
    ensures var r := Execute(env, m, q.(fits := true)).result;
            Execute(env, m, q).result == if q.fits || r.Err? then r else Err(InvalidResponseBuf)
  {
    hide IsForest, NewHandle, ActivePos, AddMeasurement, SafeToMakeChild, Certifiable, ChildOfType;
  }
}
