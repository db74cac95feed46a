/** What an answered command means, told in fields of the state before and after: each command is answered
    exactly if its law says so, and leaves exactly the state that the law allows. */
module Laws {
  import opened Bitmap
  import opened Contexts
  import opened Forest
  import opened States
  import opened Destruction
  import opened Commands
  import opened Preservation
  import opened Runs
  import opened Kinship

  // ----- names and draws -----

  predicate There(cs: seq<Context>, j: nat, locality: u32) {
    j < |cs| && cs[j].state == Active && cs[j].locality == locality
  }

  /** `h` names slot `i` for callers from `locality`: the first active context there that has it. */
  predicate Names(cs: seq<Context>, h: Handle, locality: u32, i: nat) {
    There(cs, i, locality) && cs[i].handle == h && forall j: nat :: j < i && There(cs, j, locality) ==>
        cs[j].handle != h
  }

  lemma NamesIff(cs: seq<Context>, h: Handle, locality: u32, i: nat)
    ensures ActivePos(cs, h, locality) == Ok(i) <==> Names(cs, h, locality, i)
  {
    ActivePosSpec(cs, h, locality);
  }

  predicate FirstFree(cs: seq<Context>, i: nat) {
    i < |cs| && cs[i].state == Inactive && forall j :: 0 <= j < i ==> cs[j].state != Inactive
  }

  lemma FirstFreeIff(cs: seq<Context>, i: nat)
    ensures NextInactive(cs, 0) == Some(i) <==> FirstFree(cs, i)
  {
    NextInactiveSpec(cs, 0);
  }

  /** Neither the default handle nor one that a slot holds. */
  predicate Usable(cs: seq<Context>, h: Handle) {
    h != 0 && forall j :: 0 <= j < |cs| ==> cs[j].handle != h
  }

  /** The draw before `to` is the first usable one from `from` on, within so many attempts, and none failed. */
  predicate DrawsTo(env: Env, cs: seq<Context>, from: nat, attempts: nat, h: Handle, to: nat) {
    && from < to <= from + attempts && env.draw(to - 1) == Some(h) && Usable(cs, h)
    && forall k: nat :: from <= k < to - 1 ==> env.draw(k).Some? && !Usable(cs, env.draw(k).value)
  }

  lemma {:induction false} DrawsIff(env: Env, cs: seq<Context>, from: nat, attempts: nat, h: Handle, to: nat)
    ensures NewHandle(env, cs, from, attempts) == (Ok(h), to) <==> DrawsTo(env, cs, from, attempts, h, to)
    decreases attempts
  {
    if attempts > 0 && env.draw(from).Some? {
      var g := env.draw(from).value;
      assert Usable(cs, g) <==> g != DEFAULT_HANDLE && !HandleUsed(cs, g);
      DrawsIff(env, cs, from + 1, attempts - 1, h, to);
    }
  }

  /** A handle of its own is replaced by a drawn one; the default handle stays. */
  predicate RollsTo(env: Env, cs: seq<Context>, old_: Handle, from: nat, h: Handle, to: nat) {
    if old_ == 0 then h == 0 && to == from else DrawsTo(env, cs, from, 8, h, to)
  }

  lemma RollsIff(env: Env, cs: seq<Context>, old_: Handle, from: nat, h: Handle, to: nat)
    ensures RolledHandle(env, cs, old_, from) == (Ok(h), to) <==> RollsTo(env, cs, old_, from, h, to)
  {
    hide NewHandle, DrawsTo;
    DrawsIff(env, cs, from, 8, h, to);
  }

  /** The `k`-th draw is of no use, though it has not failed. */
  predicate Wasted(env: Env, cs: seq<Context>, k: nat) {
    env.draw(k).Some? && !Usable(cs, env.draw(k).value)
  }

  lemma WastedIff(env: Env, cs: seq<Context>, k: nat)
    ensures env.draw(k).Some? ==>
      (Wasted(env, cs, k) <==> env.draw(k).value == DEFAULT_HANDLE || HandleUsed(cs, env.draw(k).value))
  {}

  /** Why no handle is found: eight draws were wasted, or one failed and all before it were wasted. */
  lemma {:induction false} NoHandleIff(env: Env, cs: seq<Context>, from: nat, attempts: nat)
    ensures var r := NewHandle(env, cs, from, attempts).0;
            && (r == Err(HandleGenerationExhausted) <==>
                  forall k: nat :: from <= k < from + attempts ==> Wasted(env, cs, k))
            && (r == Err(Crypto) <==>
                  exists n: nat :: from <= n < from + attempts && env.draw(n).None?
                    && forall k: nat :: from <= k < n ==> Wasted(env, cs, k))
    decreases attempts
  {
    hide HandleUsed, Usable;
    if attempts > 0 {
      WastedIff(env, cs, from);
      if Wasted(env, cs, from) {
        NoHandleIff(env, cs, from + 1, attempts - 1);
      }
    }
  }

  // ----- the laws -----

  /** The slots, and the counts of draws, that a command goes by. */
  datatype Course = Course(slot: nat, other: nat, mid: nat, to: nat)

  function Zeros(n: nat): Digest {
    seq(n, _ => 0)
  }

  function Root(h: Handle, isDefault: bool, locality: u32, tciSize: nat): Context {
    Context(h, TciNodeData(0, Zeros(tciSize), Zeros(tciSize), locality, 0), {}, locality, 0xff,
            if isDefault then Normal else Simulation, Active, false, false, true, true, isDefault)
  }

  /** A free slot becomes a root: Normal and default, once, or Simulation under a handle of its own. */
  predicate InitializeLaw(env: Env, m: Machine, d: bool, s: bool, locality: u32, w: Course, r: Response,
      after: Machine) {
    var cs := m.st.contexts;
    && r.NewHandleResp? && d != s && (d ==> !m.st.hasInitialized) && (s ==> m.st.support.simulation)
    && FirstFree(cs, w.slot)
    && (if d then r.handle == 0 && w.to == m.drawn else DrawsTo(env, cs, m.drawn, 8, r.handle, w.to))
    && after == Machine(m.st.(contexts := cs[w.slot := Root(r.handle, d, locality, m.st.tciSize)],
                              hasInitialized := m.st.hasInitialized || d), w.to)
  }

  /** The named context changes its handle: to the default one if it is alone in its locality, or to a drawn one. */
  predicate RotateLaw(env: Env, m: Machine, h: Handle, toDefault: bool, locality: u32, w: Course, r: Response,
      after: Machine) {
    var cs := m.st.contexts;
    && r.NewHandleResp? && m.st.support.rotateContext && Names(cs, h, locality, w.slot)
    && (if toDefault then
          h != 0 && (forall j: nat :: j < |cs| && There(cs, j, locality) ==> j == w.slot) && r.handle == 0
              && w.to == m.drawn
        else DrawsTo(env, cs, m.drawn, 8, r.handle, w.to))
    && after == Machine(m.st.(contexts := cs[w.slot := cs[w.slot].(handle := r.handle)]), w.to)
  }

  /** The named context may issue this kind of document, the document was written, and the handle is rolled. */
  predicate CertifyKeyLaw(env: Env, m: Machine, h: Handle, format: u32, cert: Result<nat, Error>, locality: u32,
      w: Course, r: Response, after: Machine) {
    var cs := m.st.contexts;
    && r.CertifyKeyResp? && Names(cs, h, locality, w.slot) && cert == Ok(r.certSize)
    && ((format == 0 && m.st.support.x509 && cs[w.slot].allowX509) || (format == 1 && m.st.support.csr))
    && RollsTo(env, cs, h, m.drawn, r.handle, w.to)
    && after == Machine(m.st.(contexts := cs[w.slot := cs[w.slot].(handle := r.handle)]), w.to)
  }

  /** The named context is not a simulation, the signature succeeded, and the handle is rolled. */
  predicate SignLaw(env: Env, m: Machine, h: Handle, signature: Result<(), Error>, locality: u32, w: Course,
      r: Response, after: Machine) {
    var cs := m.st.contexts;
    && r.SignResp? && Names(cs, h, locality, w.slot) && cs[w.slot].contextType == Normal && signature.Ok?
    && RollsTo(env, cs, h, m.drawn, r.handle, w.to)
    && after == Machine(m.st.(contexts := cs[w.slot := cs[w.slot].(handle := r.handle)]), w.to)
  }

  /** The register with one more measurement hashed into it. */
  predicate Hashes(env: Env, register: Digest, data: Digest, d: Digest) {
    env.hash(register, data) == Some(d) && |d| == |register|
  }

  predicate ActiveChild(cs: seq<Context>, c: nat, p: nat, tciType: u32) {
    c < |cs| && cs[c].state == Active && cs[c].parent == p && cs[c].tci.tciType == tciType
  }

  function Measured(c: Context, d: Digest, data: Digest): Context {
    c.(tci := c.tci.(cumulative := d, current := data))
  }

  /** The named parent, which is no default context, has its first active child of this type measured; both are
      rolled. */
  predicate UpdateLaw(env: Env, m: Machine, h: Handle, data: Digest, tciType: u32, locality: u32, w: Course,
      r: Response, after: Machine) {
    var cs, p, c := m.st.contexts, w.slot, w.other;
    && r.UpdateResp? && h != 0 && Names(cs, h, locality, p)
    && ActiveChild(cs, c, p, tciType) && (forall j: nat :: j < c ==> !ActiveChild(cs, j, p, tciType))
    && DrawsTo(env, cs, m.drawn, 8, r.parentHandle, w.mid)
    && var rolled := cs[p := cs[p].(handle := r.parentHandle)];
       && RollsTo(env, rolled, cs[c].handle, w.mid, r.handle, w.to)
       && |after.st.contexts| == |cs| && var d := after.st.contexts[c].tci.cumulative;
          && Hashes(env, cs[c].tci.cumulative, data, d)
          && after == Machine(m.st.(contexts := rolled[c := Measured(cs[c], d, data).(handle := r.handle)]), w.to)
  }

  // ----- removal -----

  /** `w` is removed with `i`: it is below, or above with nothing from it down to `i` but retired contexts with one
      child. */
  ghost predicate GoesWith(cs: seq<Context>, i: nat, w: nat) {
    Above(cs, i, w) ||
    (w != i && Above(cs, w, i)
     && forall b: nat :: b != i && Above(cs, b, i) && Above(cs, w, b) ==>
          b < |cs| && cs[b].state == Retired && |cs[b].children| == 1)
  }

  ghost predicate Goes(cs: seq<Context>, i: nat, w: nat) {
    Live(cs, w) && GoesWith(cs, i, w)
  }

  function Blank(c: Context, tciSize: nat): Context {
    Context(0xFFFF_FFFF_FFFF_FFFF_FFFF_FFFF_FFFF_FFFF, TciNodeData(0, Zeros(tciSize), Zeros(tciSize), 0, 0), {}, 0,
            0xff, c.contextType, Inactive, false, false, false, c.allowExportCdi, false)
  }

  ghost function Remaining(cs: seq<Context>, i: nat, kids: set<nat>): set<nat> {
    set c | c in kids && !Goes(cs, i, c)
  }

  /** The slots that go are blank; the others keep everything, but for the children that go. */
  ghost predicate Removed(cs: seq<Context>, i: nat, tciSize: nat, after: seq<Context>) {
    && |after| == |cs|
    && forall w: nat :: w < |cs| ==>
         after[w] == if Goes(cs, i, w) then Blank(cs[w], tciSize)
                     else cs[w].(children := Remaining(cs, i, cs[w].children))
  }

  lemma GoesIff(cs: seq<Context>, i: nat, w: nat)
    requires IsForest(cs) && Live(cs, i)
    ensures Goes(cs, i, w) <==> w in Doomed(cs, i)
  {
    hide Doomed, Above;
    if Live(cs, w) {
      DestroyRemovesExactly(cs, i, 0, w);
    } else {
      DoomedLive(cs, i);
    }
  }

  lemma DoomedLive(cs: seq<Context>, i: nat)
    requires IsForest(cs) && Live(cs, i)
    ensures forall w :: w in Doomed(cs, i) ==> Live(cs, w)
  {
    OneUp(cs, i);
    forall w | w in Doomed(cs, i) ensures Live(cs, w) {
      InDoomed(cs, i, w);
    }
  }

  lemma RemovedIff(cs: seq<Context>, i: nat, tciSize: nat, after: seq<Context>)
    requires IsForest(cs) && Live(cs, i)
    ensures Removed(cs, i, tciSize, after) <==> after == Without(cs, Doomed(cs, i), tciSize)
  {
    hide Doomed, Goes, IsForest;
    var without := Without(cs, Doomed(cs, i), tciSize);
    forall w ensures Goes(cs, i, w) <==> w in Doomed(cs, i) {
      GoesIff(cs, i, w);
    }
    forall w: nat | w < |cs|
      ensures without[w] == if Goes(cs, i, w) then Blank(cs[w], tciSize)
                            else cs[w].(children := Remaining(cs, i, cs[w].children))
    {
      assert Remaining(cs, i, cs[w].children) == cs[w].children - Doomed(cs, i);
    }
  }

  ghost predicate DestroyLaw(m: Machine, h: Handle, locality: u32, w: Course, r: Response, after: Machine) {
    && r.DestroyResp? && Names(m.st.contexts, h, locality, w.slot)
    && Removed(m.st.contexts, w.slot, m.st.tciSize, after.st.contexts)
    && after == m.(st := m.st.(contexts := after.st.contexts))
  }

  // ----- DeriveContext -----

  predicate Supported(s: Support, f: DeriveFlags) {
    && (f.internalInfo ==> s.internalInfo) && (f.internalDice ==> s.internalDice) && (f.retainParent ==> s.retainParent)
    && (f.allowX509 ==> s.x509) && (f.recursive ==> s.recursive)
    && (f.createCertificate ==> s.cdiExport) && (f.exportCdi ==> s.cdiExport)
  }

  /** The parent has what the flags ask for, and the flags do not contradict each other. */
  predicate Granted(parent: Context, f: DeriveFlags) {
    && (f.allowX509 ==> parent.allowX509)
    && (f.exportCdi ==> parent.allowExportCdi && parent.contextType == Normal)
    && (f.exportCdi ==> f.createCertificate && !f.recursive && !f.changeLocality)
    && (f.recursive ==> parent.allowRecursive && !f.retainParent && !f.allowRecursive)
  }

  function Target(a: DeriveArgs, locality: u32): u32 {
    if a.flags.changeLocality then a.targetLocality else locality
  }

  ghost predicate Asked(st: State, a: DeriveArgs, locality: u32, p: nat) {
    Names(st.contexts, a.handle, locality, p) && Supported(st.support, a.flags) && Granted(st.contexts[p], a.flags)
  }

  /** The named context itself is measured; it must be of the type and in the locality asked for. */
  ghost predicate RecursiveLaw(env: Env, m: Machine, a: DeriveArgs, locality: u32, w: Course, r: Response,
      after: Machine) {
    var cs, p := m.st.contexts, w.slot;
    && r.DeriveContextResp? && r.parentHandle == 0 && a.flags.recursive && Asked(m.st, a, locality, p)
    && cs[p].tci.tciType == a.tciType && Target(a, locality) == locality
    && RollsTo(env, cs, a.handle, m.drawn, r.handle, w.to)
    && |after.st.contexts| == |cs| && var d := after.st.contexts[p].tci.cumulative;
       && Hashes(env, cs[p].tci.cumulative, a.data, d)
       && after == Machine(m.st.(contexts := cs[p := Measured(cs[p], d, a.data).(handle := r.handle)]), w.to)
  }

  /** The parent under its next handle, or retired under none. */
  predicate ParentGets(env: Env, m: Machine, retain: bool, old_: Handle, h: Handle, to: nat) {
    if retain then RollsTo(env, m.st.contexts, old_, m.drawn, h, to)
    else h == 0xFFFF_FFFF_FFFF_FFFF_FFFF_FFFF_FFFF_FFFF && to == m.drawn
  }

  function Parent(c: Context, retain: bool, h: Handle): Context {
    c.(handle := h, state := if retain then Active else Retired)
  }

  /** No child is stored; a parent that is not retained is retired, or removed if it has no children. */
  ghost predicate ExportLaw(env: Env, m: Machine, a: DeriveArgs, cert: Result<nat, Error>, locality: u32, w: Course,
                            r: Response, after: Machine) {
    var cs, p, f := m.st.contexts, w.slot, a.flags;
    && r.ExportedCdiResp? && f.createCertificate && f.exportCdi && Asked(m.st, a, locality, p)
    && TypeFree(cs, p, a.tciType) && cert == Ok(r.certSize)
    && ParentGets(env, m, f.retainParent, a.handle, r.parentHandle, w.to)
    && after == Machine(m.st.(contexts := after.st.contexts), w.to)
    && (if !f.retainParent && cs[p].children == {} then Removed(cs, p, m.st.tciSize, after.st.contexts)
        else after.st.contexts == cs[p := Parent(cs[p], f.retainParent, r.parentHandle)])
  }

  /** The target locality has room: for a default child it is empty but for the default parent that makes way;
      for another child it has no default context but such a parent. */
  ghost predicate Room(cs: seq<Context>, f: DeriveFlags, p: nat, target: u32) {
    if f.makeDefault then
      forall j: nat :: There(cs, j, target) ==> j == p && cs[p].handle == 0 && !f.retainParent
    else
      (forall j: nat :: There(cs, j, target) ==> cs[j].handle != 0) || (Names(cs, 0, target, p) && !f.retainParent)
  }

  function NewChild(a: DeriveArgs, p: u8, parent: Context, h: Handle, target: u32, d: Digest): Context {
    Context(h, TciNodeData(a.tciType, d, a.data, target, a.svn), {}, target, p, parent.contextType, Active,
            a.flags.internalInfo, a.flags.internalDice, a.flags.allowX509,
            a.flags.allowExport && parent.allowExportCdi, a.flags.allowRecursive && parent.allowRecursive)
  }

  /** A free slot becomes a child with one measurement; what it may do, it may as far as its parent does. */
  ghost predicate ChildLaw(env: Env, m: Machine, a: DeriveArgs, locality: u32, w: Course, r: Response, after: Machine) {
    var cs, p, i, f, target := m.st.contexts, w.slot, w.other, a.flags, Target(a, locality);
    && r.DeriveContextResp? && !f.recursive && !(f.createCertificate && f.exportCdi) && Asked(m.st, a, locality, p)
    && TypeFree(cs, p, a.tciType) && FirstFree(cs, i) && Room(cs, f, p, target) && p < 64 && i < 64
    && ParentGets(env, m, f.retainParent, a.handle, r.parentHandle, w.mid)
    && (if f.makeDefault then r.handle == 0 && w.to == w.mid else DrawsTo(env, cs, w.mid, 8, r.handle, w.to))
    && |after.st.contexts| == |cs| && var d := after.st.contexts[i].tci.cumulative;
       && Hashes(env, Zeros(m.st.tciSize), a.data, d)
       && var parent := Parent(cs[p], f.retainParent, r.parentHandle).(children := cs[p].children + {i});
          after == Machine(m.st.(contexts := cs[i := NewChild(a, p, cs[p], r.handle, target, d)][p := parent]), w.to)
  }

  // ----- each command is answered exactly by its law -----

  ghost predicate LawBy(env: Env, m: Machine, q: Request, w: Course, r: Response, after: Machine) {
    match q.cmd
    case InitializeCmd(d, s) => InitializeLaw(env, m, d, s, q.locality, w, r, after)
    case RotateCmd(h, d) => RotateLaw(env, m, h, d, q.locality, w, r, after)
    case CertifyKeyCmd(h, f, cert) => CertifyKeyLaw(env, m, h, f, cert, q.locality, w, r, after)
    case SignCmd(h, s) => SignLaw(env, m, h, s, q.locality, w, r, after)
    case UpdateCmd(h, d, t) => UpdateLaw(env, m, h, d, t, q.locality, w, r, after)
    case DestroyCmd(h) => DestroyLaw(m, h, q.locality, w, r, after)
    case DeriveCmd(a, cert) =>
      || RecursiveLaw(env, m, a, q.locality, w, r, after)
      || ExportLaw(env, m, a, cert, q.locality, w, r, after)
      || ChildLaw(env, m, a, q.locality, w, r, after)
  }

  lemma InitializeBy(env: Env, m: Machine, d: bool, s: bool, locality: u32, r: Response, after: Machine)
      returns (w: Course)
    ensures Initialize(env, m, d, s, locality, true) == Outcome(after, Ok(r)) ==>
        InitializeLaw(env, m, d, s, locality, w, r, after)
  {
    hide NewHandle, DrawsTo, FirstFree, NextInactive;
    var cs := m.st.contexts;
    NextInactiveSpec(cs, 0);
    w := Course(if NextInactive(cs, 0).Some? then NextInactive(cs, 0).value else 0, 0, 0, after.drawn);
    FirstFreeIff(cs, w.slot);
    if r.NewHandleResp? {
      DrawsIff(env, cs, m.drawn, 8, r.handle, w.to);
    }
  }

  lemma InitializeIf(env: Env, m: Machine, d: bool, s: bool, locality: u32, w: Course, r: Response, after: Machine)
    requires InitializeLaw(env, m, d, s, locality, w, r, after)
    ensures Initialize(env, m, d, s, locality, true) == Outcome(after, Ok(r))
  {
    hide NewHandle, DrawsTo, NextInactive;
    FirstFreeIff(m.st.contexts, w.slot);
    DrawsIff(env, m.st.contexts, m.drawn, 8, r.handle, w.to);
  }

  function Slot(pos: Result<nat, Error>): nat {
    if pos.Ok? then pos.value else 0
  }

  lemma RotateBy(env: Env, m: Machine, h: Handle, toDefault: bool, locality: u32, r: Response, after: Machine)
      returns (w: Course)
    ensures Rotate(env, m, h, toDefault, locality, true) == Outcome(after, Ok(r)) ==>
        RotateLaw(env, m, h, toDefault, locality, w, r, after)
  {
    hide NewHandle, DrawsTo, ActivePos, Names;
    var cs := m.st.contexts;
    w := Course(Slot(ActivePos(cs, h, locality)), 0, 0, after.drawn);
    NamesIff(cs, h, locality, w.slot);
    AloneIff(cs, h, locality, w.slot);
    if r.NewHandleResp? {
      DrawsIff(env, cs, m.drawn, 8, r.handle, w.to);
    }
  }

  /** What RotateContext checks before it makes a context the default one is that it is alone and not that already. */
  lemma AloneIff(cs: seq<Context>, h: Handle, locality: u32, i: nat)
    ensures ActivePos(cs, h, locality) == Ok(i) ==>
      (ActivePos(cs, DEFAULT_HANDLE, locality).Err? && !NonDefaultHandlesExist(cs, locality, i)
       <==> h != 0 && forall j: nat :: j < |cs| && There(cs, j, locality) ==> j == i)
  {
    ActivePosFacts(cs, h, locality);
    ActivePosFacts(cs, DEFAULT_HANDLE, locality);
    if ActivePos(cs, h, locality) == Ok(i) {
      assert ActiveIn(cs, i, locality);
      forall j: nat | j < |cs| && There(cs, j, locality) ensures ActiveIn(cs, j, locality) {
      }
      if forall j: nat :: j < |cs| && There(cs, j, locality) ==> j == i {
        forall j: nat | j < |cs| && ActiveIn(cs, j, locality) ensures j == i {
          assert There(cs, j, locality);
        }
      }
    }
  }

  lemma RotateIf(env: Env, m: Machine, h: Handle, toDefault: bool, locality: u32, w: Course, r: Response,
      after: Machine)
    requires RotateLaw(env, m, h, toDefault, locality, w, r, after)
    ensures Rotate(env, m, h, toDefault, locality, true) == Outcome(after, Ok(r))
  {
    hide NewHandle, DrawsTo, ActivePos, Names;
    NamesIff(m.st.contexts, h, locality, w.slot);
    AloneIff(m.st.contexts, h, locality, w.slot);
    DrawsIff(env, m.st.contexts, m.drawn, 8, r.handle, w.to);
  }

  lemma CertifyKeyBy(env: Env, m: Machine, h: Handle, format: u32, cert: Result<nat, Error>, locality: u32, r: Response,
                     after: Machine) returns (w: Course)
    ensures CertifyKey(env, m, h, format, cert, locality, true) == Outcome(after, Ok(r)) ==>
      CertifyKeyLaw(env, m, h, format, cert, locality, w, r, after)
  {
    hide RolledHandle, RollsTo, ActivePos, Names;
    var cs := m.st.contexts;
    w := Course(Slot(ActivePos(cs, h, locality)), 0, 0, after.drawn);
    NamesIff(cs, h, locality, w.slot);
    ActivePosFacts(cs, h, locality);
    if r.CertifyKeyResp? {
      RollsIff(env, cs, h, m.drawn, r.handle, w.to);
    }
  }

  lemma CertifyKeyIf(env: Env, m: Machine, h: Handle, format: u32, cert: Result<nat, Error>, locality: u32, w: Course,
                     r: Response, after: Machine)
    requires CertifyKeyLaw(env, m, h, format, cert, locality, w, r, after)
    ensures CertifyKey(env, m, h, format, cert, locality, true) == Outcome(after, Ok(r))
  {
    hide RolledHandle, RollsTo, ActivePos, Names;
    NamesIff(m.st.contexts, h, locality, w.slot);
    ActivePosFacts(m.st.contexts, h, locality);
    RollsIff(env, m.st.contexts, h, m.drawn, r.handle, w.to);
  }

  lemma SignBy(env: Env, m: Machine, h: Handle, signature: Result<(), Error>, locality: u32, r: Response,
      after: Machine) returns (w: Course)
    ensures Sign(env, m, h, signature, locality, true) == Outcome(after, Ok(r)) ==>
        SignLaw(env, m, h, signature, locality, w, r, after)
  {
    hide RolledHandle, RollsTo, ActivePos, Names;
    var cs := m.st.contexts;
    w := Course(Slot(ActivePos(cs, h, locality)), 0, 0, after.drawn);
    NamesIff(cs, h, locality, w.slot);
    ActivePosFacts(cs, h, locality);
    if r.SignResp? {
      RollsIff(env, cs, h, m.drawn, r.handle, w.to);
    }
  }

  lemma SignIf(env: Env, m: Machine, h: Handle, signature: Result<(), Error>, locality: u32, w: Course, r: Response,
               after: Machine)
    requires SignLaw(env, m, h, signature, locality, w, r, after)
    ensures Sign(env, m, h, signature, locality, true) == Outcome(after, Ok(r))
  {
    hide RolledHandle, RollsTo, ActivePos, Names;
    NamesIff(m.st.contexts, h, locality, w.slot);
    ActivePosFacts(m.st.contexts, h, locality);
    RollsIff(env, m.st.contexts, h, m.drawn, r.handle, w.to);
  }

  // ----- UpdateContextMeasurement -----

  /** On a forest the lookup among the parent's children is the lookup among the slots that name it as parent. */
  lemma FirstChildIff(cs: seq<Context>, p: nat, tciType: u32, c: nat)
    requires IsForest(cs) && Live(cs, p)
    ensures ChildOfType(cs, Ascending(cs[p].children, 0, |cs|), tciType) == Some(c) <==>
            ActiveChild(cs, c, p, tciType) && forall j: nat :: j < c ==> !ActiveChild(cs, j, p, tciType)
  {
    var kids := Ascending(cs[p].children, 0, |cs|);
    AscendingSpec(cs[p].children, 0, |cs|);
    AscendingSorted(cs[p].children, 0, |cs|);
    FirstOfType(cs, kids, tciType);
    forall j: nat ensures ActiveChild(cs, j, p, tciType) <==>
      j in kids && j < |cs| && cs[j].state == Active && cs[j].tci.tciType == tciType
    {
      if j in kids {
        assert ChildLinksOk(cs, p);
      }
      if ActiveChild(cs, j, p, tciType) {
        assert ParentLinkOk(cs, j);
      }
    }
    FirstOfType(cs, kids, tciType);
  }

  lemma {:induction false} FirstOfType(cs: seq<Context>, kids: seq<nat>, tciType: u32)
    requires forall j, k :: 0 <= j < k < |kids| ==> kids[j] < kids[k]
    ensures match ChildOfType(cs, kids, tciType)
            case None => forall j :: j in kids && j < |cs| && cs[j].state == Active ==> cs[j].tci.tciType != tciType
            case Some(c) =>
              && c in kids && c < |cs| && cs[c].state == Active && cs[c].tci.tciType == tciType
              && forall j :: j in kids && j < c && cs[j].state == Active ==> cs[j].tci.tciType != tciType
  {
    if kids != [] {
      FirstOfType(cs, kids[1..], tciType);
    }
  }

  lemma MeasuredIff(env: Env, c: Context, data: Digest, child: Context)
    ensures AddMeasurement(env, c, data, c.locality) == Ok(child) <==>
            c.state == Active && Hashes(env, c.tci.cumulative, data, child.tci.cumulative)
            && child == Measured(c, child.tci.cumulative, data)
  {}

  /** One measured child and two handles, from the slots that the lookup found. */
  predicate UpdateAtLaw(env: Env, m: Machine, p: nat, c: nat, data: Digest, w: Course, r: Response, after: Machine)
    requires p < |m.st.contexts| && c < |m.st.contexts|
  {
    var cs := m.st.contexts;
    && r.UpdateResp? && RollsTo(env, cs, cs[p].handle, m.drawn, r.parentHandle, w.mid)
    && var rolled := cs[p := cs[p].(handle := r.parentHandle)];
       && RollsTo(env, rolled, cs[c].handle, w.mid, r.handle, w.to)
       && |after.st.contexts| == |cs| && var d := after.st.contexts[c].tci.cumulative;
          && Hashes(env, cs[c].tci.cumulative, data, d)
          && after == Machine(m.st.(contexts := rolled[c := Measured(cs[c], d, data).(handle := r.handle)]), w.to)
  }

  lemma UpdateAtBy(env: Env, m: Machine, p: nat, c: nat, data: Digest, r: Response, after: Machine) returns (w: Course)
    requires p < |m.st.contexts| && c < |m.st.contexts|
    ensures w.slot == p && w.other == c
    ensures UpdateAt(env, m, p, c, data, true) == Outcome(after, Ok(r)) ==> UpdateAtLaw(env, m, p, c, data, w, r, after)
  {
    hide RolledHandle, RollsTo, AddMeasurement, Hashes;
    var cs := m.st.contexts;
    var (h, mid) := RolledHandle(env, cs, cs[p].handle, m.drawn);
    w := Course(p, c, mid, after.drawn);
    var child := AddMeasurement(env, cs[c], data, cs[c].locality);
    if child.Ok? && h.Ok? && r.UpdateResp? {
      MeasuredIff(env, cs[c], data, child.value);
      RollsIff(env, cs, cs[p].handle, m.drawn, h.value, mid);
      RollsIff(env, cs[p := cs[p].(handle := h.value)], cs[c].handle, mid, r.handle, w.to);
    }
  }

  lemma UpdateAtIf(env: Env, m: Machine, p: nat, c: nat, data: Digest, w: Course, r: Response, after: Machine)
    requires p < |m.st.contexts| && c < |m.st.contexts| && m.st.contexts[c].state == Active
    requires UpdateAtLaw(env, m, p, c, data, w, r, after)
    ensures UpdateAt(env, m, p, c, data, true) == Outcome(after, Ok(r))
  {
    hide RolledHandle, RollsTo, AddMeasurement, Hashes;
    var cs := m.st.contexts;
    var child := Measured(cs[c], after.st.contexts[c].tci.cumulative, data);
    MeasuredIff(env, cs[c], data, child);
    RollsIff(env, cs, cs[p].handle, m.drawn, r.parentHandle, w.mid);
    RollsIff(env, cs[p := cs[p].(handle := r.parentHandle)], cs[c].handle, w.mid, r.handle, w.to);
  }

  lemma UpdateBy(env: Env, m: Machine, h: Handle, data: Digest, tciType: u32, locality: u32, r: Response,
      after: Machine) returns (w: Course)
    requires IsForest(m.st.contexts)
    ensures Update(env, m, h, data, tciType, locality, true) == Outcome(after, Ok(r)) ==>
      UpdateLaw(env, m, h, data, tciType, locality, w, r, after)
  {
    hide IsForest, UpdateAt, ActivePos, Names, ChildOfType, Ascending, DrawsTo, Hashes, ActiveChild;
    var cs := m.st.contexts;
    var p := Slot(ActivePos(cs, h, locality));
    w := Course(p, 0, 0, 0);
    NamesIff(cs, h, locality, p);
    ActivePosFacts(cs, h, locality);
    if ActivePos(cs, h, locality).Ok? {
      var found := ChildOfType(cs, Ascending(cs[p].children, 0, |cs|), tciType);
      if found.Some? {
        FirstChildIff(cs, p, tciType, found.value);
        assert ActiveChild(cs, found.value, p, tciType);
        ActiveChildIs(cs, found.value, p, tciType);
        w := UpdateAtBy(env, m, p, found.value, data, r, after);
      }
    }
  }

  lemma ActiveChildIs(cs: seq<Context>, c: nat, p: nat, tciType: u32)
    requires ActiveChild(cs, c, p, tciType)
    ensures c < |cs| && cs[c].state == Active
  {}

  lemma UpdateIf(env: Env, m: Machine, h: Handle, data: Digest, tciType: u32, locality: u32, w: Course, r: Response,
                 after: Machine)
    requires IsForest(m.st.contexts) && UpdateLaw(env, m, h, data, tciType, locality, w, r, after)
    ensures Update(env, m, h, data, tciType, locality, true) == Outcome(after, Ok(r))
  {
    hide IsForest, UpdateAt, ActivePos, ChildOfType, Ascending, DrawsTo, Hashes;
    var cs := m.st.contexts;
    NamesIff(cs, h, locality, w.slot);
    FirstChildIff(cs, w.slot, tciType, w.other);
    UpdateAtIf(env, m, w.slot, w.other, data, w, r, after);
  }

  // ----- DestroyContext -----

  lemma DestroyBy(m: Machine, h: Handle, locality: u32, r: Response, after: Machine) returns (w: Course)
    requires IsForest(m.st.contexts)
    ensures Destroy(m, h, locality, true) == Outcome(after, Ok(r)) ==> DestroyLaw(m, h, locality, w, r, after)
  {
    hide IsForest, ActivePos, Names, Doomed, Without, Removed;
    var cs := m.st.contexts;
    w := Course(Slot(ActivePos(cs, h, locality)), 0, 0, 0);
    NamesIff(cs, h, locality, w.slot);
    ActivePosFacts(cs, h, locality);
    if ActivePos(cs, h, locality).Ok? {
      RemovedIff(cs, w.slot, m.st.tciSize, after.st.contexts);
    }
  }

  lemma DestroyIf(m: Machine, h: Handle, locality: u32, w: Course, r: Response, after: Machine)
    requires IsForest(m.st.contexts) && DestroyLaw(m, h, locality, w, r, after)
    ensures Destroy(m, h, locality, true) == Outcome(after, Ok(r))
  {
    hide IsForest, ActivePos, Doomed, Without, Removed;
    NamesIff(m.st.contexts, h, locality, w.slot);
    RemovedIff(m.st.contexts, w.slot, m.st.tciSize, after.st.contexts);
  }

  // ----- DeriveContext -----

  lemma AskedIff(st: State, a: DeriveArgs, locality: u32, p: nat)
    ensures Asked(st, a, locality, p) <==>
            && DeriveSupported(st.support, a.flags) && ActivePos(st.contexts, a.handle, locality) == Ok(p)
            && p < |st.contexts| && DeriveAllowed(st.contexts[p], a.flags)
  {
    hide ActivePos;
    NamesIff(st.contexts, a.handle, locality, p);
  }

  lemma TypeFreeIff(cs: seq<Context>, p: nat, tciType: u32)
    requires IsForest(cs) && Live(cs, p)
    ensures TypeFree(cs, p, tciType) <==> !TypeTaken(cs, p, tciType)
  {
    if !TypeTaken(cs, p, tciType) {
      TypeFreeIf(cs, p, tciType);
    } else {
      var c :| c in cs[p].children && c < |cs| && cs[c].tci.tciType == tciType;
      assert ChildLinksOk(cs, p);
    }
  }

  lemma ParentIff(env: Env, m: Machine, p: nat, retain: bool, h: Handle, to: nat)
    requires p < |m.st.contexts| && m.st.contexts[p].state == Active
    ensures ParentAfter(env, m, p, retain) == (Ok(Parent(m.st.contexts[p], retain, h)), to) <==>
            ParentGets(env, m, retain, m.st.contexts[p].handle, h, to)
  {
    hide RolledHandle, RollsTo;
    RollsIff(env, m.st.contexts, m.st.contexts[p].handle, m.drawn, h, to);
  }

  lemma ParentForm(env: Env, m: Machine, p: nat, retain: bool)
    requires p < |m.st.contexts| && m.st.contexts[p].state == Active
    ensures var (r, to) := ParentAfter(env, m, p, retain);
            r.Ok? ==> r.value == Parent(m.st.contexts[p], retain, r.value.handle)
  {
    hide NewHandle;
  }

  lemma RecursiveBy(env: Env, m: Machine, a: DeriveArgs, locality: u32, p: nat, r: Response, after: Machine)
      returns (w: Course)
    requires Asked(m.st, a, locality, p) && a.flags.recursive
    ensures DeriveRecursive(env, m, a, p, locality, true) == Outcome(after, Ok(r)) ==>
        RecursiveLaw(env, m, a, locality, w, r, after)
  {
    hide RolledHandle, RollsTo, Hashes, Supported, Granted;
    var cs := m.st.contexts;
    w := Course(p, 0, 0, after.drawn);
    var c := AddMeasurement(env, cs[p], a.data, TargetLocality(a, locality));
    if c.Ok? && r.DeriveContextResp? {
      MeasuredIff(env, cs[p], a.data, c.value);
      RollsIff(env, cs, cs[p].handle, m.drawn, r.handle, w.to);
    }
  }

  lemma RecursiveIf(env: Env, m: Machine, a: DeriveArgs, locality: u32, w: Course, r: Response, after: Machine)
    requires RecursiveLaw(env, m, a, locality, w, r, after)
    ensures DeriveRecursive(env, m, a, w.slot, locality, true) == Outcome(after, Ok(r))
  {
    hide RolledHandle, RollsTo, Hashes, Supported, Granted, AddMeasurement;
    var cs, p := m.st.contexts, w.slot;
    MeasuredIff(env, cs[p], a.data, Measured(cs[p], after.st.contexts[p].tci.cumulative, a.data));
    RollsIff(env, cs, cs[p].handle, m.drawn, r.handle, w.to);
  }

  lemma RoomIff(cs: seq<Context>, f: DeriveFlags, p: nat, target: u32)
    requires p < |cs|
    ensures SafeToMakeChild(cs, f, p, target) <==> Room(cs, f, p, target)
  {
    hide CountActive;
    ActivePosSpec(cs, DEFAULT_HANDLE, target);
    NamesIff(cs, DEFAULT_HANDLE, target, p);
    CountActiveFew(cs, target, |cs|);
    forall j: nat ensures There(cs, j, target) <==> ActiveIn(cs, j, target) {
    }
  }

  /** The rest of ExportLaw, from the slot that the lookup found. */
  ghost predicate ExportFrom(m: Machine, a: DeriveArgs, p: nat, parent: Context, cert: Result<nat, Error>, r: Response,
      after: Machine)
    requires p < |m.st.contexts|
  {
    var cs, f := m.st.contexts, a.flags;
    && r.ExportedCdiResp? && cert == Ok(r.certSize) && r.parentHandle == parent.handle
    && after == m.(st := m.st.(contexts := after.st.contexts))
    && (if !f.retainParent && cs[p].children == {} then Removed(cs, p, m.st.tciSize, after.st.contexts)
        else after.st.contexts == cs[p := parent])
  }

  lemma ExportIff(m: Machine, a: DeriveArgs, p: nat, parent: Context, cert: Result<nat, Error>, r: Response,
      after: Machine)
    requires IsForest(m.st.contexts) && Live(m.st.contexts, p)
    requires !a.flags.retainParent ==> parent.handle == INVALID_HANDLE
    ensures DeriveExport(m, a, p, parent, cert, true) == Outcome(after, Ok(r)) <==>
        ExportFrom(m, a, p, parent, cert, r, after)
  {
    hide IsForest, Doomed, Removed, Without;
    var cs := m.st.contexts;
    RemovedIff(cs, p, m.st.tciSize, after.st.contexts);
    GoneHandle(cs, p, m.st.tciSize);
  }

  lemma GoneHandle(cs: seq<Context>, p: nat, tciSize: nat)
    requires IsForest(cs) && Live(cs, p)
    ensures |Without(cs, Doomed(cs, p), tciSize)| == |cs|
    ensures Without(cs, Doomed(cs, p), tciSize)[p].handle == INVALID_HANDLE
  {
    OneUp(cs, p);
    assert p in Doomed(cs, p);
  }

  /** The rest of ChildLaw, likewise. */
  ghost predicate ChildFrom(env: Env, m: Machine, a: DeriveArgs, p: nat, parent: Context, locality: u32, w: Course,
      r: Response, after: Machine)
    requires p < |m.st.contexts| <= 64
  {
    var cs, i, f, target := m.st.contexts, w.other, a.flags, Target(a, locality);
    && r.DeriveContextResp? && FirstFree(cs, i) && Room(cs, f, p, target) && r.parentHandle == parent.handle
    && (if f.makeDefault then r.handle == 0 && w.to == m.drawn else DrawsTo(env, cs, m.drawn, 8, r.handle, w.to))
    && |after.st.contexts| == |cs| && var d := after.st.contexts[i].tci.cumulative;
       && Hashes(env, Zeros(m.st.tciSize), a.data, d)
       && after == Machine(m.st.(contexts := cs[i := NewChild(a, p, parent, r.handle, target, d)]
                                              [p := parent.(children := parent.children + {i})]), w.to)
  }

  lemma BlankChild(env: Env, a: DeriveArgs, p: u8, parent: Context, h: Handle, target: u32, tciSize: nat,
      child: Context)
    ensures var blank := Activated(ChildArgs(a, p, parent, h, target), tciSize);
            AddMeasurement(env, blank, a.data, target) == Ok(child) <==>
            Hashes(env, Zeros(tciSize), a.data, child.tci.cumulative)
            && child == NewChild(a, p, parent, h, target, child.tci.cumulative)
  {
    assert Zeros(tciSize) == ZeroDigest(tciSize);
  }

  lemma ChildBy(env: Env, m: Machine, a: DeriveArgs, p: nat, parent: Context, locality: u32, r: Response,
      after: Machine) returns (w: Course)
    requires InRange(m.st.contexts) && p < |m.st.contexts| && Live(m.st.contexts, p)
    ensures w.slot == p
    ensures DeriveChild(env, m, a, p, parent, locality, true) == Outcome(after, Ok(r)) ==>
      ChildFrom(env, m, a, p, parent, locality, w, r, after)
  {
    hide NewHandle, DrawsTo, SafeToMakeChild, Room, AddMeasurement, Activated, ChildArgs, NewChild, Hashes;
    hide NextInactive, FirstFree;
    var cs, target := m.st.contexts, Target(a, locality);
    NextInactiveSpec(cs, 0);
    w := Course(p, if NextInactive(cs, 0).Some? then NextInactive(cs, 0).value else 0, m.drawn, after.drawn);
    FirstFreeIff(cs, w.other);
    RoomIff(cs, a.flags, p, target);
    if r.DeriveContextResp? && NextInactive(cs, 0).Some? {
      DrawsIff(env, cs, m.drawn, 8, r.handle, w.to);
      var child := AddMeasurement(env, Activated(ChildArgs(a, p, parent, r.handle, target), m.st.tciSize), a.data,
          target);
      if child.Ok? {
        BlankChild(env, a, p, parent, r.handle, target, m.st.tciSize, child.value);
      }
      SlotsApart(cs, p, w.other);
    }
  }

  lemma SlotsApart(cs: seq<Context>, p: nat, i: nat)
    requires Live(cs, p) && NextInactive(cs, 0) == Some(i)
    ensures p != i && i < |cs|
  {
    NextInactiveSpec(cs, 0);
  }

  lemma ChildIf(env: Env, m: Machine, a: DeriveArgs, p: nat, parent: Context, locality: u32, w: Course, r: Response,
      after: Machine)
    requires InRange(m.st.contexts) && p < |m.st.contexts| && Live(m.st.contexts, p)
    requires ChildFrom(env, m, a, p, parent, locality, w, r, after)
    ensures DeriveChild(env, m, a, p, parent, locality, true) == Outcome(after, Ok(r))
  {
    hide NewHandle, DrawsTo, SafeToMakeChild, Room, AddMeasurement, Activated, ChildArgs, NewChild, Hashes;
    hide NextInactive, FirstFree;
    var cs, target := m.st.contexts, Target(a, locality);
    FirstFreeIff(cs, w.other);
    RoomIff(cs, a.flags, p, target);
    DrawsIff(env, cs, m.drawn, 8, r.handle, w.to);
    SlotsApart(cs, p, w.other);
    var d := after.st.contexts[w.other].tci.cumulative;
    NewChildDigest(a, p, parent, r.handle, target, d);
    BlankChild(env, a, p, parent, r.handle, target, m.st.tciSize, NewChild(a, p, parent, r.handle, target, d));
  }

  lemma NewChildDigest(a: DeriveArgs, p: u8, parent: Context, h: Handle, target: u32, d: Digest)
    ensures NewChild(a, p, parent, h, target, d).tci.cumulative == d
  {}

  lemma SameNewChild(a: DeriveArgs, p: u8, b: Context, retain: bool, h: Handle, ph: Handle, target: u32, d: Digest)
    ensures NewChild(a, p, Parent(b, retain, ph), h, target, d) == NewChild(a, p, b, h, target, d)
  {}

  lemma DeriveBy(env: Env, m: Machine, a: DeriveArgs, cert: Result<nat, Error>, locality: u32, r: Response,
      after: Machine) returns (w: Course)
    requires IsForest(m.st.contexts)
    ensures Derive(env, m, a, cert, locality, true) == Outcome(after, Ok(r)) ==>
      RecursiveLaw(env, m, a, locality, w, r, after) || ExportLaw(env, m, a, cert, locality, w, r, after)
      || ChildLaw(env, m, a, locality, w, r, after)
  {
    hide IsForest, ActivePos, Asked, DeriveSupported, DeriveAllowed, TypeTaken, TypeFree, ParentAfter, ParentGets;
    hide Removed;
    hide DeriveRecursive, DeriveExport, DeriveChild, RecursiveLaw, DrawsTo, Room, FirstFree, Hashes, NewChild, Parent;
    var cs := m.st.contexts;
    var p := Slot(ActivePos(cs, a.handle, locality));
    w := Course(p, 0, 0, 0);
    ForestBounds(cs);
    ActivePosFacts(cs, a.handle, locality);
    AskedIff(m.st, a, locality, p);
    if Asked(m.st, a, locality, p) {
      if a.flags.recursive {
        w := RecursiveBy(env, m, a, locality, p, r, after);
      } else {
        TypeFreeIff(cs, p, a.tciType);
        var (parent, mid) := ParentAfter(env, m, p, a.flags.retainParent);
        if parent.Ok? {
          ParentForm(env, m, p, a.flags.retainParent);
          ParentIff(env, m, p, a.flags.retainParent, parent.value.handle, mid);
          GetsInvalid(env, m, a.flags.retainParent, cs[p].handle, parent.value.handle, mid);
          var m1 := m.(drawn := mid);
          if a.flags.createCertificate && a.flags.exportCdi {
            ExportIff(m1, a, p, parent.value, cert, r, after);
            w := Course(p, 0, mid, mid);
          } else {
            w := ChildBy(env, m1, a, p, parent.value, locality, r, after);
            w := w.(mid := mid);
            KidsOf(cs[p], a.flags.retainParent, parent.value.handle);
            FreeBound(cs, w.other);
            if r.DeriveContextResp? && w.other < |after.st.contexts| {
              SameNewChild(a, p, cs[p], a.flags.retainParent, r.handle, parent.value.handle, Target(a, locality),
                           after.st.contexts[w.other].tci.cumulative);
            }
          }
        }
      }
    }
  }

  lemma GetsInvalid(env: Env, m: Machine, retain: bool, old_: Handle, h: Handle, to: nat)
    requires ParentGets(env, m, retain, old_, h, to)
    ensures !retain ==> h == INVALID_HANDLE
  {}

  lemma FreeBound(cs: seq<Context>, i: nat)
    ensures FirstFree(cs, i) ==> i < |cs|
  {}

  lemma ExportIsNotRecursive(st: State, a: DeriveArgs, locality: u32, p: nat)
    requires Asked(st, a, locality, p) && a.flags.exportCdi
    ensures !a.flags.recursive
  {}

  lemma KidsOf(c: Context, retain: bool, h: Handle)
    ensures Parent(c, retain, h).children == c.children && Parent(c, retain, h).handle == h
  {}

  lemma DeriveIf(env: Env, m: Machine, a: DeriveArgs, cert: Result<nat, Error>, locality: u32, w: Course, r: Response,
      after: Machine)
    requires InRange(m.st.contexts) && IsForest(m.st.contexts)
    requires RecursiveLaw(env, m, a, locality, w, r, after) || ExportLaw(env, m, a, cert, locality, w, r, after)
             || ChildLaw(env, m, a, locality, w, r, after)
    ensures Derive(env, m, a, cert, locality, true) == Outcome(after, Ok(r))
  {
    hide IsForest, ActivePos, Asked, DeriveSupported, DeriveAllowed, TypeTaken, TypeFree, ParentAfter, ParentGets;
    hide Removed, DeriveRecursive, DeriveExport, DeriveChild, DrawsTo, Room, FirstFree, Hashes, NewChild, Parent;
    var cs, p := m.st.contexts, w.slot;
    AskedIff(m.st, a, locality, p);
    ActivePosFacts(cs, a.handle, locality);
    if RecursiveLaw(env, m, a, locality, w, r, after) {
      RecursiveIf(env, m, a, locality, w, r, after);
    } else {
      TypeFreeIff(cs, p, a.tciType);
      var mid := if ExportLaw(env, m, a, cert, locality, w, r, after) then w.to else w.mid;
      var ph := r.parentHandle;
      var parent := Parent(cs[p], a.flags.retainParent, ph);
      ParentIff(env, m, p, a.flags.retainParent, ph, mid);
      GetsInvalid(env, m, a.flags.retainParent, cs[p].handle, ph, mid);
      KidsOf(cs[p], a.flags.retainParent, ph);
      var m1 := m.(drawn := mid);
      FreeBound(cs, w.other);
      if ExportLaw(env, m, a, cert, locality, w, r, after) {
        ExportIsNotRecursive(m.st, a, locality, p);
        ExportIff(m1, a, p, parent, cert, r, after);
      } else {
        SameNewChild(a, p, cs[p], a.flags.retainParent, r.handle, ph, Target(a, locality),
            after.st.contexts[w.other].tci.cumulative);
        ChildIf(env, m1, a, p, parent, locality, w, r, after);
      }
    }
  }

  // ----- all commands -----

  /** The law of the command, for some course of it. */
  ghost predicate Law(env: Env, m: Machine, q: Request, r: Response, after: Machine) {
    exists w :: LawBy(env, m, q, w, r, after)
  }

  lemma ExecuteBy(env: Env, m: Machine, q: Request, r: Response, after: Machine) returns (w: Course)
    requires WellFormed(m.st) && q.fits
    ensures IsForest(m.st.contexts)
    ensures Execute(env, m, q) == Outcome(after, Ok(r)) ==> LawBy(env, m, q, w, r, after)
  {
    hide WellFormed, Initialize, Derive, Rotate, CertifyKey, Sign, Destroy, Update, InitializeLaw, RotateLaw;
    hide CertifyKeyLaw, SignLaw, UpdateLaw, DestroyLaw, RecursiveLaw, ExportLaw, ChildLaw;
    WellFormedForest(m.st);
    match q.cmd
    case InitializeCmd(d, s) => w := InitializeBy(env, m, d, s, q.locality, r, after);
    case RotateCmd(h, d) => w := RotateBy(env, m, h, d, q.locality, r, after);
    case CertifyKeyCmd(h, f, cert) => w := CertifyKeyBy(env, m, h, f, cert, q.locality, r, after);
    case SignCmd(h, s) => w := SignBy(env, m, h, s, q.locality, r, after);
    case UpdateCmd(h, d, t) => w := UpdateBy(env, m, h, d, t, q.locality, r, after);
    case DestroyCmd(h) => w := DestroyBy(m, h, q.locality, r, after);
    case DeriveCmd(a, cert) => w := DeriveBy(env, m, a, cert, q.locality, r, after);
  }

  lemma ExecuteIf(env: Env, m: Machine, q: Request, w: Course, r: Response, after: Machine)
    requires WellFormed(m.st) && q.fits && LawBy(env, m, q, w, r, after)
    ensures IsForest(m.st.contexts)
    ensures Execute(env, m, q) == Outcome(after, Ok(r))
  {
    hide WellFormed, Initialize, Derive, Rotate, CertifyKey, Sign, Destroy, Update, InitializeLaw, RotateLaw;
    hide CertifyKeyLaw, SignLaw, UpdateLaw, DestroyLaw, RecursiveLaw, ExportLaw, ChildLaw;
    WellFormedForest(m.st);
    ForestBounds(m.st.contexts);
    match q.cmd
    case InitializeCmd(d, s) => InitializeIf(env, m, d, s, q.locality, w, r, after);
    case RotateCmd(h, d) => RotateIf(env, m, h, d, q.locality, w, r, after);
    case CertifyKeyCmd(h, f, cert) => CertifyKeyIf(env, m, h, f, cert, q.locality, w, r, after);
    case SignCmd(h, s) => SignIf(env, m, h, s, q.locality, w, r, after);
    case UpdateCmd(h, d, t) => UpdateIf(env, m, h, d, t, q.locality, w, r, after);
    case DestroyCmd(h) => DestroyIf(m, h, q.locality, w, r, after);
    case DeriveCmd(a, cert) => DeriveIf(env, m, a, cert, q.locality, w, r, after);
  }

  lemma NoAnswerWithoutRoom(env: Env, m: Machine, q: Request)
    requires IsForest(m.st.contexts) && !q.fits
    ensures Execute(env, m, q).result.Err?
  {
    hide IsForest, NewHandle, ActivePos, AddMeasurement, SafeToMakeChild, Certifiable, ChildOfType;
  }

  /** A command is answered, and leaves this state, exactly if the response fits and the law of the command holds. */
  lemma ExecuteLaw(env: Env, m: Machine, q: Request, r: Response, after: Machine)
    requires WellFormed(m.st)
    ensures IsForest(m.st.contexts)
    ensures Execute(env, m, q) == Outcome(after, Ok(r)) <==> q.fits && Law(env, m, q, r, after)
  {
    hide WellFormed, Execute, LawBy;
    WellFormedForest(m.st);
    if q.fits {
      var w := ExecuteBy(env, m, q, r, after);
      if Law(env, m, q, r, after) {
        var v :| LawBy(env, m, q, v, r, after);
        ExecuteIf(env, m, q, v, r, after);
      }
    } else {
      NoAnswerWithoutRoom(env, m, q);
    }
  }
}
