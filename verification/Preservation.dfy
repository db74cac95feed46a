/** Every command keeps the state well formed. */
module Preservation {
  import opened Bitmap
  import opened Contexts
  import opened Forest
  import opened States
  import opened Destruction
  import opened Commands

  // ----- paths survive changes that keep live slots live and parents in place -----

  ghost predicate KeepsParents(cs: seq<Context>, after: seq<Context>) {
    && |after| == |cs|
    && forall k: nat :: Live(cs, k) ==> Live(after, k) && after[k].parent == cs[k].parent
  }

  lemma {:induction false} KeepsPath(cs: seq<Context>, after: seq<Context>, j: nat)
    requires KeepsParents(cs, after) && Rooted(cs, j)
    ensures Rooted(after, j) && Depth(after, j) == Depth(cs, j)
    ensures PathUp(after, j) == PathUp(cs, j)
    decreases Depth(cs, j)
  {
    if cs[j].parent == ROOT_INDEX {
      DepthIs(cs, j, 0);
      DepthIs(after, j, 0);
    } else {
      ParentRooted(cs, j);
      KeepsPath(cs, after, cs[j].parent);
      DepthIs(after, j, Depth(after, cs[j].parent) + 1);
    }
  }

  // ----- a live slot changes its handle or its measurements -----

  /** `c` differs from `b` in nothing but handle and digests. */
  predicate SameNode(b: Context, c: Context) {
    c == b.(handle := c.handle, tci := b.tci.(cumulative := c.tci.cumulative, current := c.tci.current))
  }

  lemma TreesKept(cs: seq<Context>, after: seq<Context>)
    requires TreesOk(cs) && KeepsParents(cs, after)
    requires forall k: nat :: Live(after, k) ==> Live(cs, k) && after[k].contextType == cs[k].contextType
    ensures TreesOk(after)
  {
    forall j: nat | Live(after, j) ensures Rooted(after, j) {
      KeepsPath(cs, after, j);
    }
    forall j: nat | Rooted(after, j) && after[j].parent != ROOT_INDEX
      ensures after[j].contextType == after[after[j].parent].contextType
    {
      ParentRooted(after, j);
      assert Rooted(cs, j);
    }
    forall j: nat, k: nat | NormalRoot(after, j) && NormalRoot(after, k) ensures j == k {
      assert NormalRoot(cs, j) && NormalRoot(cs, k);
    }
  }

  lemma NodeUpdateKeepsWellFormed(st: State, i: nat, c: Context)
    requires WellFormed(st) && Live(st.contexts, i) && SameNode(st.contexts[i], c)
    ensures WellFormed(st.(contexts := st.contexts[i := c]))
  {
    var st' := st.(contexts := st.contexts[i := c]);
    forall j: nat | j < |st'.contexts| ensures SlotOk(st', j) {
      assert SlotOk(st, j);
    }
    TreesKept(st.contexts, st'.contexts);
  }

  // ----- a retired context has an active descendant -----

  lemma {:induction false} ActiveBelow(st: State, i: nat) returns (d: nat)
    requires WellFormed(st) && Live(st.contexts, i)
    ensures Above(st.contexts, i, d) && st.contexts[d].state == Active
    ensures st.contexts[d].contextType == st.contexts[i].contextType
    decreases |st.contexts| - (if Rooted(st.contexts, i) then Depth(st.contexts, i) else 0)
  {
    var cs := st.contexts;
    WellFormedForest(st);
    OneUp(cs, i);
    assert SlotOk(st, i);
    if cs[i].state == Active {
      d := i;
    } else {
      var c :| c in cs[i].children;
      ChildRooted(cs, i, c);
      PathDistinct(cs, c);
      d := ActiveBelow(st, c);
      AboveTransitive(cs, i, c, d);
    }
  }

  /** Before the one-time initialization there is no Normal tree at all, retired or not. */
  lemma NoNormalRoot(st: State, i: nat)
    requires WellFormed(st) && NormalRoot(st.contexts, i)
    ensures st.hasInitialized
  {
    var d := ActiveBelow(st, i);
    AboveFacts(st.contexts, i, d);
    OnPathInRange(st, d);
    assert SlotOk(st, d);
  }

  lemma OnPathInRange(st: State, d: nat)
    requires d < |st.contexts|
    ensures SlotsOk(st) ==> SlotOk(st, d)
  {}

  // ----- an inactive slot becomes a root -----

  lemma InactiveUnlinked(st: State, i: nat, j: nat)
    requires WellFormed(st) && i < |st.contexts| && st.contexts[i].state == Inactive && Live(st.contexts, j)
    ensures st.contexts[j].parent != i && i !in st.contexts[j].children
  {
    assert SlotOk(st, j);
  }

  lemma NewRootKeepsWellFormed(st: State, i: nat, args: ActivateArgs)
    requires WellFormed(st) && i < |st.contexts| && st.contexts[i].state == Inactive
    requires args.parent == ROOT_INDEX && !args.usesInternalInfo && !args.usesInternalDice
    requires args.contextType == Simulation ==> st.support.simulation
    requires args.contextType == Normal ==> !st.hasInitialized
    ensures WellFormed(st.(contexts := st.contexts[i := Activated(args, st.tciSize)],
        hasInitialized := st.hasInitialized || args.contextType == Normal))
  {
    var cs := st.contexts;
    var st' := st.(contexts := cs[i := Activated(args, st.tciSize)], hasInitialized := st.hasInitialized
        || args.contextType == Normal);
    var after := st'.contexts;
    forall j: nat | j < |after| ensures SlotOk(st', j) {
      assert SlotOk(st, j);
      if j != i && Live(cs, j) {
        InactiveUnlinked(st, i, j);
      }
    }
    forall j: nat | Live(after, j) ensures Rooted(after, j) {
      if j == i {
        DepthIs(after, i, 0);
      } else {
        KeepsPath(cs, after, j);
      }
    }
    forall j: nat | Rooted(after, j) && after[j].parent != ROOT_INDEX
      ensures after[j].contextType == after[after[j].parent].contextType
    {
      InactiveUnlinked(st, i, j);
      assert Rooted(cs, j);
      ParentRooted(cs, j);
    }
    forall j: nat, k: nat | NormalRoot(after, j) && NormalRoot(after, k) ensures j == k {
      if j != i {
        assert NormalRoot(cs, j);
        NoNormalRoot(st, j);
      }
      if k != i {
        assert NormalRoot(cs, k);
        NoNormalRoot(st, k);
      }
    }
  }

  // ----- an inactive slot becomes a child -----

  /** `parent` is `b` with a new child `i`, possibly retired. */
  predicate GainsChild(b: Context, parent: Context, i: nat)
    requires i < 64
  {
    && parent == b.(handle := parent.handle, state := parent.state, children := b.children + {i})
    && parent.state != Inactive && b.state == Active
  }

  /** `after` is `cs` except that the free slot `i` holds a new child of `p`. */
  predicate Grown(cs: seq<Context>, after: seq<Context>, p: nat, i: nat) {
    && |after| == |cs| <= 64 && p < |cs| && i < |cs| && p != i
    && (forall k :: 0 <= k < |cs| && k != i && k != p ==> after[k] == cs[k])
    && cs[i].state == Inactive && GainsChild(cs[p], after[p], i)
    && after[i].state == Active && after[i].parent == p && after[i].children == {}
    && after[i].contextType == after[p].contextType
  }

  lemma GrownLinks(st: State, after: seq<Context>, p: nat, i: nat, j: nat)
    requires WellFormed(st) && Grown(st.contexts, after, p, i) && Live(after, j)
    ensures ParentLinkOk(after, j) && ChildLinksOk(after, j)
  {
    if j != i {
      assert SlotOk(st, j);
      InactiveUnlinked(st, i, j);
    }
  }

  lemma NewChildKeepsSlots(st: State, after: seq<Context>, p: nat, i: nat)
    requires WellFormed(st) && Grown(st.contexts, after, p, i)
    requires after[i].locality == after[i].tci.locality && SupportOk(st, after[i])
    ensures SlotsOk(st.(contexts := after))
  {
    var st' := st.(contexts := after);
    OnPathInRange(st, p);
    forall j: nat | j < |after| ensures SlotOk(st', j) {
      OnPathInRange(st, j);
      if Live(after, j) {
        GrownLinks(st, after, p, i, j);
      }
    }
  }

  lemma WellFormedSlots(st: State)
    requires WellFormed(st)
    ensures SlotsOk(st) && TreesOk(st.contexts) && InRange(st.contexts)
  {}

  lemma NewChildKeepsTrees(cs: seq<Context>, after: seq<Context>, p: nat, i: nat)
    requires TreesOk(cs) && Grown(cs, after, p, i)
    ensures TreesOk(after)
  {
    forall j: nat | Live(after, j) ensures Rooted(after, j) {
      if j == i {
        KeepsPath(cs, after, p);
        DepthIs(after, i, Depth(after, p) + 1);
      } else {
        KeepsPath(cs, after, j);
      }
    }
    forall j: nat | Rooted(after, j) && after[j].parent != ROOT_INDEX
      ensures after[j].contextType == after[after[j].parent].contextType
    {
      if j != i {
        assert Rooted(cs, j);
        ParentRooted(cs, j);
      }
    }
    forall j: nat, k: nat | NormalRoot(after, j) && NormalRoot(after, k) ensures j == k {
      assert NormalRoot(cs, j) && NormalRoot(cs, k);
    }
  }

  lemma NewChildKeepsWellFormed(st: State, after: seq<Context>, p: nat, i: nat)
    requires WellFormed(st) && Grown(st.contexts, after, p, i)
    requires after[i].locality == after[i].tci.locality && SupportOk(st, after[i])
    ensures WellFormed(st.(contexts := after))
  {
    NewChildKeepsSlots(st, after, p, i);
    NewChildKeepsTrees(st.contexts, after, p, i);
  }

  lemma RetireKeepsWellFormed(st: State, p: nat, h: Handle)
    requires WellFormed(st) && p < |st.contexts| && st.contexts[p].state == Active && st.contexts[p].children != {}
    ensures WellFormed(st.(contexts := st.contexts[p := st.contexts[p].(state := Retired, handle := h)]))
  {
    var st' := st.(contexts := st.contexts[p := st.contexts[p].(state := Retired, handle := h)]);
    forall j: nat | j < |st'.contexts| ensures SlotOk(st', j) {
      assert SlotOk(st, j);
    }
    TreesKept(st.contexts, st'.contexts);
  }

  // ----- the commands -----

  lemma InitializeKeeps(env: Env, m: Machine, d: bool, s: bool, locality: u32, fits: bool)
    requires WellFormed(m.st)
    ensures WellFormed(Initialize(env, m, d, s, locality, fits).m.st)
  {
    hide WellFormed;
    var cs := m.st.contexts;
    NextInactiveSpec(cs, 0);
    if (!d || !m.st.hasInitialized) && (!s || m.st.support.simulation) && d != s && NextInactive(cs, 0).Some? {
      var i := NextInactive(cs, 0).value;
      var (r, drawn) := NewHandle(env, cs, m.drawn, MAX_NEW_HANDLE_ATTEMPTS);
      var h := if d then DEFAULT_HANDLE else if r.Ok? then r.value else DEFAULT_HANDLE;
      NewRootKeepsWellFormed(m.st, i, RootArgs(d, h, locality));
    }
  }

  lemma RotateKeeps(env: Env, m: Machine, handle: Handle, toDefault: bool, locality: u32, fits: bool)
    requires WellFormed(m.st)
    ensures WellFormed(Rotate(env, m, handle, toDefault, locality, fits).m.st)
  {
    hide WellFormed;
    var cs := m.st.contexts;
    ActivePosFacts(cs, handle, locality);
    if ActivePos(cs, handle, locality).Ok? {
      var i := ActivePos(cs, handle, locality).value;
      forall h: Handle ensures WellFormed(m.st.(contexts := cs[i := cs[i].(handle := h)])) {
        NodeUpdateKeepsWellFormed(m.st, i, cs[i].(handle := h));
      }
    }
  }

  lemma CertifyKeyKeeps(env: Env, m: Machine, handle: Handle, format: u32, cert: Result<nat, Error>, locality: u32,
      fits: bool)
    requires WellFormed(m.st)
    ensures WellFormed(CertifyKey(env, m, handle, format, cert, locality, fits).m.st)
  {
    hide WellFormed;
    var cs := m.st.contexts;
    ActivePosFacts(cs, handle, locality);
    if ActivePos(cs, handle, locality).Ok? {
      var i := ActivePos(cs, handle, locality).value;
      forall h: Handle ensures WellFormed(m.st.(contexts := cs[i := cs[i].(handle := h)])) {
        NodeUpdateKeepsWellFormed(m.st, i, cs[i].(handle := h));
      }
    }
  }

  lemma SignKeeps(env: Env, m: Machine, handle: Handle, signature: Result<(), Error>, locality: u32, fits: bool)
    requires WellFormed(m.st)
    ensures WellFormed(Sign(env, m, handle, signature, locality, fits).m.st)
  {
    hide WellFormed;
    var cs := m.st.contexts;
    ActivePosFacts(cs, handle, locality);
    if ActivePos(cs, handle, locality).Ok? {
      var i := ActivePos(cs, handle, locality).value;
      forall h: Handle ensures WellFormed(m.st.(contexts := cs[i := cs[i].(handle := h)])) {
        NodeUpdateKeepsWellFormed(m.st, i, cs[i].(handle := h));
      }
    }
  }

  /** A child is never its own parent. */
  lemma ChildIsOther(cs: seq<Context>, p: nat, c: nat)
    requires IsForest(cs) && Live(cs, p) && c in cs[p].children
    ensures c != p
  {
    ChildRooted(cs, p, c);
  }

  lemma UpdateKeeps(env: Env, m: Machine, parentHandle: Handle, data: Digest, tciType: u32, locality: u32, fits: bool)
    requires WellFormed(m.st)
    ensures WellFormed(Update(env, m, parentHandle, data, tciType, locality, fits).m.st)
  {
    hide WellFormed, NewHandle, ChildOfType, Ascending, FirstMatch, LocalityInUse;
    var cs := m.st.contexts;
    WellFormedForest(m.st);
    ActivePosFacts(cs, parentHandle, locality);
    if ActivePos(cs, parentHandle, locality).Ok? {
      var p := ActivePos(cs, parentHandle, locality).value;
      var kids := Ascending(cs[p].children, 0, |cs|);
      AscendingSpec(cs[p].children, 0, |cs|);
      ChildOfTypeSpec(cs, kids, tciType);
      if ChildOfType(cs, kids, tciType).Some? {
        var c := ChildOfType(cs, kids, tciType).value;
        ChildIsOther(cs, p, c);
        var child := AddMeasurement(env, cs[c], data, cs[c].locality);
        var (r, drawn) := RolledHandle(env, cs, cs[p].handle, m.drawn);
        if child.Ok? && r.Ok? {
          var m1 := WithSlot(m.(drawn := drawn), p, cs[p].(handle := r.value));
          var (r2, drawn2) := RolledHandle(env, m1.st.contexts, child.value.handle, drawn);
          NodeUpdateKeepsWellFormed(m.st, p, cs[p].(handle := r.value));
          if r2.Ok? {
            NodeUpdateKeepsWellFormed(m1.st, c, child.value.(handle := r2.value));
          }
        }
      }
    }
  }

  lemma DestroyKeeps(m: Machine, handle: Handle, locality: u32, fits: bool)
    requires WellFormed(m.st)
    ensures IsForest(m.st.contexts)
    ensures WellFormed(Destroy(m, handle, locality, fits).m.st)
  {
    WellFormedForest(m.st);
    ActivePosFacts(m.st.contexts, handle, locality);
    if ActivePos(m.st.contexts, handle, locality).Ok? {
      DestroyKeepsWellFormed(m.st, ActivePos(m.st.contexts, handle, locality).value);
    }
  }

  lemma DeriveRecursiveKeeps(env: Env, m: Machine, a: DeriveArgs, p: nat, locality: u32, fits: bool)
    requires WellFormed(m.st) && Live(m.st.contexts, p)
    ensures WellFormed(DeriveRecursive(env, m, a, p, locality, fits).m.st)
  {
    hide WellFormed;
    var cs := m.st.contexts;
    var c := AddMeasurement(env, cs[p], a.data, TargetLocality(a, locality));
    if c.Ok? {
      forall h: Handle ensures WellFormed(m.st.(contexts := cs[p := c.value.(handle := h)])) {
        NodeUpdateKeepsWellFormed(m.st, p, c.value.(handle := h));
      }
    }
  }

  /** What `ParentAfter` yields: the active parent under a new handle, or the parent retired. */
  predicate ParentReady(b: Context, parent: Context, retain: bool) {
    parent == b.(handle := parent.handle, state := if retain then Active else Retired)
  }

  lemma DeriveExportKeeps(m: Machine, a: DeriveArgs, p: nat, parent: Context, cert: Result<nat, Error>, fits: bool)
    requires WellFormed(m.st) && p < |m.st.contexts| && m.st.contexts[p].state == Active
    requires ParentReady(m.st.contexts[p], parent, a.flags.retainParent)
    ensures IsForest(m.st.contexts)
    ensures WellFormed(DeriveExport(m, a, p, parent, cert, fits).m.st)
  {
    WellFormedForest(m.st);
    if a.flags.retainParent {
      NodeUpdateKeepsWellFormed(m.st, p, parent);
    } else if m.st.contexts[p].children != {} {
      RetireKeepsWellFormed(m.st, p, parent.handle);
    } else {
      DestroyKeepsWellFormed(m.st, p);
    }
  }

  /** The child that DeriveContext builds respects the supported flags and inherits the parent's type. */
  lemma ChildWellMade(env: Env, st: State, a: DeriveArgs, p: nat, parent: Context, h: Handle, target: u32)
    requires WellFormed(st) && p < |st.contexts| && ParentReady(st.contexts[p], parent, a.flags.retainParent)
    requires DeriveSupported(st.support, a.flags)
    ensures var r := AddMeasurement(env, Activated(ChildArgs(a, p, parent, h, target), st.tciSize), a.data, target);
      r.Ok? ==>
        && r.value.state == Active && r.value.parent == p && r.value.children == {} && r.value.handle == h
        && r.value.locality == r.value.tci.locality == target
        && r.value.contextType == parent.contextType && SupportOk(st, r.value)
  {
    OnPathInRange(st, p);
  }

  /** What DeriveContext stores when it makes a child, and when it does. */
  ghost predicate ChildEffect(env: Env, m: Machine, a: DeriveArgs, p: nat, parent: Context, locality: u32, fits: bool,
      o: Outcome, i: nat, child: Context)
    requires InRange(m.st.contexts) && p < |m.st.contexts| && i < |m.st.contexts|
  {
    var cs := m.st.contexts;
    var target := TargetLocality(a, locality);
    && cs[i].state == Inactive && SafeToMakeChild(cs, a.flags, p, target)
    && (if a.flags.makeDefault then child.handle == DEFAULT_HANDLE
        else NewHandle(env, cs, m.drawn, MAX_NEW_HANDLE_ATTEMPTS).0 == Ok(child.handle))
    && AddMeasurement(env, Activated(ChildArgs(a, p, parent, child.handle, target), m.st.tciSize), a.data, target)
        == Ok(child)
    && o.m.st == m.st.(contexts := cs[i := child][p := parent.(children := parent.children + {i})])
    && o.result == if fits then Ok(DeriveContextResp(child.handle, parent.handle)) else Err(InvalidResponseBuf)
  }

  lemma ActivatedHandle(args: ActivateArgs, tciSize: nat)
    ensures Activated(args, tciSize).handle == args.handle
  {}

  lemma BlankMeasured(env: Env, args: ActivateArgs, tciSize: nat, data: Digest)
    ensures AddMeasurement(env, Activated(args, tciSize), data, args.locality).Ok? <==>
        FirstMeasurementOk(env, tciSize, data)
  {}

  /** A child is stored exactly if there are a slot, a locality, a measurement and a handle for it. */
  lemma DeriveChildEffect(env: Env, m: Machine, a: DeriveArgs, p: nat, parent: Context, locality: u32, fits: bool)
      returns (stored: bool, i: nat, child: Context)
    requires InRange(m.st.contexts) && p < |m.st.contexts|
    ensures stored <==>
        ChildFits(env, m.st, a, p, locality) && ChildNamed(env, m.st.contexts, a.flags.makeDefault, m.drawn)
    ensures var o := DeriveChild(env, m, a, p, parent, locality, fits);
      if stored then i < |m.st.contexts| && ChildEffect(env, m, a, p, parent, locality, fits, o, i, child)
      else o.m.st == m.st && o.result.Err? && o.result.error != InvalidResponseBuf
  {
    hide NewHandle, SafeToMakeChild, NextInactive, Activated, AddMeasurement;
    var cs := m.st.contexts;
    stored, i, child := false, 0, cs[p];
    NextInactiveSpec(cs, 0);
    NewHandleSpec(env, cs, m.drawn, MAX_NEW_HANDLE_ATTEMPTS);
    var target := TargetLocality(a, locality);
    if NextInactive(cs, 0).Some? && SafeToMakeChild(cs, a.flags, p, target) {
      var (r, drawn) := if a.flags.makeDefault then (Ok(DEFAULT_HANDLE), m.drawn)
          else NewHandle(env, cs, m.drawn, MAX_NEW_HANDLE_ATTEMPTS);
      if r.Ok? {
        var blank := Activated(ChildArgs(a, p, parent, r.value, target), m.st.tciSize);
        var c := AddMeasurement(env, blank, a.data, target);
        AddMeasurementSpec(env, blank, a.data, target);
        ActivatedHandle(ChildArgs(a, p, parent, r.value, target), m.st.tciSize);
        BlankMeasured(env, ChildArgs(a, p, parent, r.value, target), m.st.tciSize, a.data);
        if c.Ok? {
          stored, i, child := true, NextInactive(cs, 0).value, c.value;
        }
      }
    }
  }

  lemma DeriveChildKeeps(env: Env, m: Machine, a: DeriveArgs, p: nat, parent: Context, locality: u32, fits: bool)
    requires WellFormed(m.st) && p < |m.st.contexts| && m.st.contexts[p].state == Active
    requires ParentReady(m.st.contexts[p], parent, a.flags.retainParent)
    requires DeriveSupported(m.st.support, a.flags)
    ensures WellFormed(DeriveChild(env, m, a, p, parent, locality, fits).m.st)
  {
    hide WellFormed, DeriveChild, AddMeasurement, SafeToMakeChild, NewHandle, SupportOk, DeriveSupported;
    WellFormedSlots(m.st);
    var stored, i, child := DeriveChildEffect(env, m, a, p, parent, locality, fits);
    if stored {
      ChildWellMade(env, m.st, a, p, parent, child.handle, TargetLocality(a, locality));
      var o := DeriveChild(env, m, a, p, parent, locality, fits);
      NewChildKeepsWellFormed(m.st, o.m.st.contexts, p, i);
    }
  }

  lemma DeriveKeeps(env: Env, m: Machine, a: DeriveArgs, cert: Result<nat, Error>, locality: u32, fits: bool)
    requires WellFormed(m.st)
    ensures IsForest(m.st.contexts)
    ensures WellFormed(Derive(env, m, a, cert, locality, fits).m.st)
  {
    hide WellFormed, DeriveExport, DeriveChild, DeriveRecursive;
    WellFormedForest(m.st);
    var cs := m.st.contexts;
    ActivePosFacts(cs, a.handle, locality);
    if DeriveSupported(m.st.support, a.flags) && ActivePos(cs, a.handle, locality).Ok? {
      var p := ActivePos(cs, a.handle, locality).value;
      var (r, drawn) := ParentAfter(env, m, p, a.flags.retainParent);
      if a.flags.recursive {
        DeriveRecursiveKeeps(env, m, a, p, locality, fits);
      } else if r.Ok? {
        DeriveExportKeeps(m.(drawn := drawn), a, p, r.value, cert, fits);
        DeriveChildKeeps(env, m.(drawn := drawn), a, p, r.value, locality, fits);
      }
    }
  }

  /** Every command, accepted or rejected, from any locality and with any randomness, keeps the state well formed. */
  lemma ExecuteKeepsWellFormed(env: Env, m: Machine, q: Request)
    requires WellFormed(m.st)
    ensures IsForest(m.st.contexts)
    ensures WellFormed(Execute(env, m, q).m.st)
  {
    hide Initialize, Derive, Rotate, CertifyKey, Sign, Destroy, Update;
    WellFormedForest(m.st);
    match q.cmd
    case InitializeCmd(d, s) => InitializeKeeps(env, m, d, s, q.locality, q.fits);
    case DeriveCmd(a, cert) => DeriveKeeps(env, m, a, cert, q.locality, q.fits);
    case RotateCmd(h, d) => RotateKeeps(env, m, h, d, q.locality, q.fits);
    case CertifyKeyCmd(h, f, cert) => CertifyKeyKeeps(env, m, h, f, cert, q.locality, q.fits);
    case SignCmd(h, s) => SignKeeps(env, m, h, s, q.locality, q.fits);
    case DestroyCmd(h) => DestroyKeeps(m, h, q.locality, q.fits);
    case UpdateCmd(h, d, t) => UpdateKeeps(env, m, h, d, t, q.locality, q.fits);
  }
}
