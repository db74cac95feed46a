/** What contexts inherit: types that tell siblings apart, permissions no wider than the parent's, and measurements
    along the path. */
module Kinship {
  import opened Bitmap
  import opened Contexts
  import opened Forest
  import opened RootToChild
  import opened States
  import opened Destruction
  import opened Commands
  import opened Preservation
  import opened Runs
  import opened History
  import opened Measurement

  // ----- one slot, one command -----

  /** `c` differs from `b` in nothing but handle, state, children and digests. */
  predicate SameKin(b: Context, c: Context) {
    c == b.(handle := c.handle, state := c.state, children := c.children,
            tci := b.tci.(cumulative := c.tci.cumulative, current := c.tci.current))
  }

  /** What `c` may do, its parent may do. */
  predicate Permitted(parent: Context, c: Context) {
    && (c.allowX509 ==> parent.allowX509)
    && (c.allowExportCdi ==> parent.allowExportCdi)
    && (c.allowRecursive ==> parent.allowRecursive)
  }

  /** No live child of `p` has this type. */
  ghost predicate TypeFree(cs: seq<Context>, p: nat, tciType: u32) {
    forall k: nat :: k < |cs| && Live(cs, k) && cs[k].parent == p ==> cs[k].tci.tciType != tciType
  }

  /** A slot that was free holds a root, or a child that its live parent permits, of a type its siblings have not. */
  ghost predicate NewKin(cs: seq<Context>, c: Context) {
    c.parent == ROOT_INDEX ||
    (c.parent < |cs| && Live(cs, c.parent) && Permitted(cs[c.parent], c) && TypeFree(cs, c.parent, c.tci.tciType))
  }

  ghost predicate KinStep(cs: seq<Context>, after: seq<Context>, k: nat)
    requires k < |cs| == |after|
  {
    Live(after, k) ==> if Live(cs, k) then SameKin(cs[k], after[k]) else NewKin(cs, after[k])
  }

  /** Every slot takes such a step, and at most one was free before. */
  ghost predicate KinSteps(cs: seq<Context>, after: seq<Context>) {
    && |after| == |cs|
    && (forall k: nat :: k < |cs| ==> KinStep(cs, after, k))
    && (forall j: nat, k: nat ::
          j < |cs| && k < |cs| && Live(after, j) && Live(after, k) && !Live(cs, j) && !Live(cs, k) ==> j == k)
  }

  // ----- every command takes such a step -----

  lemma SlotKin(cs: seq<Context>, i: nat, c: Context)
    requires i < |cs| && Live(cs, i) && SameKin(cs[i], c)
    ensures KinSteps(cs, cs[i := c])
  {}

  lemma RootKin(cs: seq<Context>, i: nat, c: Context)
    requires i < |cs| && !Live(cs, i) && c.parent == ROOT_INDEX
    ensures KinSteps(cs, cs[i := c])
  {}

  lemma NoKin(cs: seq<Context>)
    ensures KinSteps(cs, cs)
  {}

  lemma InitializeKin(env: Env, m: Machine, d: bool, s: bool, locality: u32, fits: bool)
    ensures KinSteps(m.st.contexts, Initialize(env, m, d, s, locality, fits).m.st.contexts)
  {
    hide KinSteps, NewHandle;
    var cs := m.st.contexts;
    NoKin(cs);
    NextInactiveSpec(cs, 0);
    if Initializes(env, m, d, s) {
      var i := NextInactive(cs, 0).value;
      var after := Initialize(env, m, d, s, locality, fits).m.st.contexts;
      assert after == cs[i := after[i]];
      RootKin(cs, i, after[i]);
    }
  }

  lemma MeasuredKin(env: Env, c: Context, data: Digest, locality: u32, h: Handle)
    ensures AddMeasurement(env, c, data, locality).Ok? ==>
      SameKin(c, AddMeasurement(env, c, data, locality).value.(handle := h))
  {}

  /** The outcome of a command that gives one active context a handle and leaves the rest. */
  lemma HandleKin(cs: seq<Context>, pos: Result<nat, Error>, after: seq<Context>)
    requires pos.Ok? ==> pos.value < |cs| && Live(cs, pos.value)
    requires after == cs || (pos.Ok? && |after| == |cs| &&
                             after == cs[pos.value := cs[pos.value].(handle := after[pos.value].handle)])
    ensures KinSteps(cs, after)
  {
    hide KinSteps;
    NoKin(cs);
    if after != cs {
      SlotKin(cs, pos.value, after[pos.value]);
    }
  }

  lemma RotateKin(env: Env, m: Machine, handle: Handle, toDefault: bool, locality: u32, fits: bool)
    ensures KinSteps(m.st.contexts, Rotate(env, m, handle, toDefault, locality, fits).m.st.contexts)
  {
    hide KinSteps, NewHandle, ActivePos;
    ActivePosFacts(m.st.contexts, handle, locality);
    HandleKin(m.st.contexts, ActivePos(m.st.contexts, handle, locality),
              Rotate(env, m, handle, toDefault, locality, fits).m.st.contexts);
  }

  lemma CertifyKin(env: Env, m: Machine, handle: Handle, format: u32, cert: Result<nat, Error>, locality: u32,
                   fits: bool)
    ensures KinSteps(m.st.contexts, CertifyKey(env, m, handle, format, cert, locality, fits).m.st.contexts)
  {
    hide KinSteps, RolledHandle, ActivePos, Certifiable;
    ActivePosFacts(m.st.contexts, handle, locality);
    HandleKin(m.st.contexts, Certifiable(m.st, handle, format, locality),
              CertifyKey(env, m, handle, format, cert, locality, fits).m.st.contexts);
  }

  lemma SignKin(env: Env, m: Machine, handle: Handle, signature: Result<(), Error>, locality: u32, fits: bool)
    ensures KinSteps(m.st.contexts, Sign(env, m, handle, signature, locality, fits).m.st.contexts)
  {
    hide KinSteps, RolledHandle, ActivePos;
    ActivePosFacts(m.st.contexts, handle, locality);
    HandleKin(m.st.contexts, ActivePos(m.st.contexts, handle, locality),
              Sign(env, m, handle, signature, locality, fits).m.st.contexts);
  }

  lemma TwoSlotsKin(cs: seq<Context>, p: nat, b: Context, i: nat, c: Context)
    requires p < |cs| && i < |cs| && Live(cs, p) && Live(cs, i) && SameKin(cs[p], b) && SameKin(cs[i], c)
    ensures KinSteps(cs, cs[p := b][i := c])
  {
    hide SameKin;
    SelfKin();
  }

  lemma SelfKin()
    ensures forall c: Context :: SameKin(c, c)
  {}

  lemma NodeKin(b: Context, c: Context)
    requires SameNode(b, c)
    ensures SameKin(b, c)
  {}

  lemma UpdateKin(env: Env, m: Machine, q: Request)
    requires WellFormed(m.st) && q.cmd.UpdateCmd?
    ensures var o := Update(env, m, q.cmd.handle, q.cmd.data, q.cmd.tciType, q.locality, q.fits);
            KinSteps(m.st.contexts, o.m.st.contexts)
  {
    hide WellFormed, Measures, ChildRollFails, Update, ActivePos, KinSteps, TciSteps, Atomic, SameNode, Extends;
    var o := Update(env, m, q.cmd.handle, q.cmd.data, q.cmd.tciType, q.locality, q.fits);
    var cs, after := m.st.contexts, o.m.st.contexts;
    UpdateEffect(env, m, q, o);
    NoKin(cs);
    if Measures(m, q).Some? && q.cmd.handle != DEFAULT_HANDLE {
      UpdateTarget(m, q);
      var p, c := ActivePos(cs, q.cmd.handle, q.locality).value, Measures(m, q).value.0;
      var parent := cs[p].(handle := after[p].handle);
      if Stored(o) {
        NodeKin(cs[c], after[c]);
        TwoSlotsKin(cs, p, parent, c, after[c]);
      } else {
        SlotKin(cs, p, parent);
      }
    }
  }

  lemma WithoutKin(cs: seq<Context>, gone: set<nat>, tciSize: nat)
    ensures KinSteps(cs, Without(cs, gone, tciSize))
  {
    var after := Without(cs, gone, tciSize);
    forall k: nat | k < |cs| && Live(after, k) ensures SameKin(cs[k], after[k]) {
    }
  }

  lemma DestroyKin(m: Machine, handle: Handle, locality: u32, fits: bool)
    requires IsForest(m.st.contexts)
    ensures KinSteps(m.st.contexts, Destroy(m, handle, locality, fits).m.st.contexts)
  {
    hide IsForest, Doomed, FirstMatch, LocalityInUse, KinSteps, Without;
    var cs := m.st.contexts;
    NoKin(cs);
    ActivePosFacts(cs, handle, locality);
    if ActivePos(cs, handle, locality).Ok? {
      WithoutKin(cs, Doomed(cs, ActivePos(cs, handle, locality).value), m.st.tciSize);
    }
  }

  lemma TypeFreeIf(cs: seq<Context>, p: nat, tciType: u32)
    requires IsForest(cs) && p < |cs| && !TypeTaken(cs, p, tciType)
    ensures TypeFree(cs, p, tciType)
  {
    forall k: nat | k < |cs| && Live(cs, k) && cs[k].parent == p ensures cs[k].tci.tciType != tciType {
      assert ParentLinkOk(cs, k);
    }
  }

  lemma GrownKin(cs: seq<Context>, p: nat, parent: Context, i: nat, child: Context)
    requires p < |cs| && i < |cs| && p != i && Live(cs, p) && !Live(cs, i) && SameKin(cs[p], parent)
    requires child.parent == p && Permitted(cs[p], child) && TypeFree(cs, p, child.tci.tciType)
    ensures KinSteps(cs, cs[i := child][p := parent])
  {
    hide SameKin, Permitted, TypeFree;
    SelfKin();
  }

  lemma ChildKin(env: Env, m: Machine, a: DeriveArgs, p: nat, parent: Context, drawn: nat, locality: u32, fits: bool)
    requires IsForest(m.st.contexts) && p < |m.st.contexts| && m.st.contexts[p].state == Active
    requires ParentReady(m.st.contexts[p], parent, a.flags.retainParent)
    requires DeriveAllowed(m.st.contexts[p], a.flags) && !TypeTaken(m.st.contexts, p, a.tciType)
    ensures InRange(m.st.contexts)
    ensures KinSteps(m.st.contexts, DeriveChild(env, m.(drawn := drawn), a, p, parent, locality, fits).m.st.contexts)
  {
    hide IsForest, DeriveChild, NewHandle, SafeToMakeChild, TypeTaken, ChildFits, ChildNamed, TypeFree, KinSteps;
    ForestBounds(m.st.contexts);
    TypeFreeIf(m.st.contexts, p, a.tciType);
    var stored, i, child := DeriveChildEffect(env, m.(drawn := drawn), a, p, parent, locality, fits);
    NoKin(m.st.contexts);
    if stored {
      assert child.parent == p && child.tci.tciType == a.tciType && Permitted(m.st.contexts[p], child);
      GrownKin(m.st.contexts, p, parent.(children := parent.children + {i}), i, child);
    }
  }

  lemma ExportKin(m: Machine, a: DeriveArgs, p: nat, parent: Context, cert: Result<nat, Error>, fits: bool)
    requires IsForest(m.st.contexts) && p < |m.st.contexts| && m.st.contexts[p].state == Active
    requires ParentReady(m.st.contexts[p], parent, a.flags.retainParent)
    ensures KinSteps(m.st.contexts, DeriveExport(m, a, p, parent, cert, fits).m.st.contexts)
  {
    hide IsForest, Doomed, KinSteps, Without;
    var cs := m.st.contexts;
    NoKin(cs);
    WithoutKin(cs, Doomed(cs, p), m.st.tciSize);
    SlotKin(cs, p, parent);
  }

  lemma RecursiveKin(env: Env, m: Machine, a: DeriveArgs, p: nat, locality: u32, fits: bool)
    requires p < |m.st.contexts| && m.st.contexts[p].state == Active
    ensures KinSteps(m.st.contexts, DeriveRecursive(env, m, a, p, locality, fits).m.st.contexts)
  {
    hide DeriveRecursive, AddMeasurement, KinSteps, SameKin;
    var cs, o := m.st.contexts, DeriveRecursive(env, m, a, p, locality, fits);
    DeriveRecursiveShape(env, m, a, p, locality, fits);
    NoKin(cs);
    if Stored(o) {
      MeasuredKin(env, cs[p], a.data, TargetLocality(a, locality), o.m.st.contexts[p].handle);
      SlotKin(cs, p, o.m.st.contexts[p]);
    }
  }

  lemma DeriveKin(env: Env, m: Machine, a: DeriveArgs, cert: Result<nat, Error>, locality: u32, fits: bool)
    requires IsForest(m.st.contexts)
    ensures KinSteps(m.st.contexts, Derive(env, m, a, cert, locality, fits).m.st.contexts)
  {
    hide IsForest, KinSteps, NewHandle, FirstMatch, LocalityInUse, DeriveChild, DeriveExport, DeriveRecursive;
    hide TypeTaken;
    var cs := m.st.contexts;
    NoKin(cs);
    ForestBounds(cs);
    ActivePosFacts(cs, a.handle, locality);
    var pos := ActivePos(cs, a.handle, locality);
    if DeriveSupported(m.st.support, a.flags) && pos.Ok? && DeriveAllowed(cs[pos.value], a.flags) {
      var p := pos.value;
      var (r, drawn) := ParentAfter(env, m, p, a.flags.retainParent);
      if a.flags.recursive {
        RecursiveKin(env, m, a, p, locality, fits);
      } else if !TypeTaken(cs, p, a.tciType) && r.Ok? {
        ChildKin(env, m, a, p, r.value, drawn, locality, fits);
        ExportKin(m.(drawn := drawn), a, p, r.value, cert, fits);
      }
    }
  }

  lemma ExecuteKin(env: Env, m: Machine, q: Request)
    requires WellFormed(m.st)
    ensures IsForest(m.st.contexts)
    ensures KinSteps(m.st.contexts, Execute(env, m, q).m.st.contexts)
  {
    hide WellFormed, KinSteps, Initialize, Derive, Rotate, CertifyKey, Sign, Destroy, Update;
    WellFormedForest(m.st);
    match q.cmd
    case InitializeCmd(d, s) => InitializeKin(env, m, d, s, q.locality, q.fits);
    case DeriveCmd(a, cert) => DeriveKin(env, m, a, cert, q.locality, q.fits);
    case DestroyCmd(h) => DestroyKin(m, h, q.locality, q.fits);
    case UpdateCmd(_, _, _) => UpdateKin(env, m, q);
    case RotateCmd(h, d) => RotateKin(env, m, h, d, q.locality, q.fits);
    case CertifyKeyCmd(h, f, cert) => CertifyKin(env, m, h, f, cert, q.locality, q.fits);
    case SignCmd(h, s) => SignKin(env, m, h, s, q.locality, q.fits);
  }

  // ----- siblings -----

  /** Live children of one parent have different types. */
  ghost predicate SiblingsDiffer(cs: seq<Context>) {
    forall j: nat, k: nat ::
      j < k < |cs| && Live(cs, j) && Live(cs, k) && cs[j].parent == cs[k].parent != ROOT_INDEX ==>
        cs[j].tci.tciType != cs[k].tci.tciType
  }

  /** Along every parent link, permissions only narrow. */
  ghost predicate Narrowing(cs: seq<Context>) {
    forall k: nat :: k < |cs| && Live(cs, k) && cs[k].parent < |cs| ==> Permitted(cs[cs[k].parent], cs[k])
  }

  lemma KinKeepsSiblings(cs: seq<Context>, after: seq<Context>)
    requires KinSteps(cs, after) && SiblingsDiffer(cs)
    ensures SiblingsDiffer(after)
  {
    hide SameKin;
    forall j: nat, k: nat | j < k < |after| && Live(after, j) && Live(after, k)
                            && after[j].parent == after[k].parent != ROOT_INDEX
      ensures after[j].tci.tciType != after[k].tci.tciType
    {
      assert KinStep(cs, after, j) && KinStep(cs, after, k);
      SameKinFields(cs[j], after[j]);
      SameKinFields(cs[k], after[k]);
    }
  }

  lemma SameKinFields(b: Context, c: Context)
    ensures SameKin(b, c) ==>
      && c.parent == b.parent && c.tci.tciType == b.tci.tciType && c.allowX509 == b.allowX509
      && c.allowExportCdi == b.allowExportCdi && c.allowRecursive == b.allowRecursive
  {}

  lemma KinKeepsNarrowing(cs: seq<Context>, after: seq<Context>)
    requires KinSteps(cs, after) && Narrowing(cs) && IsForest(cs) && IsForest(after)
    ensures Narrowing(after)
  {
    hide SameKin, TypeFree;
    forall k: nat | k < |after| && Live(after, k) && after[k].parent < |after|
      ensures Permitted(after[after[k].parent], after[k])
    {
      var p := after[k].parent;
      assert KinStep(cs, after, k) && KinStep(cs, after, p);
      assert ParentLinkOk(after, k);
      SameKinFields(cs[k], after[k]);
      SameKinFields(cs[p], after[p]);
      if Live(cs, k) {
        assert ParentLinkOk(cs, k);
      }
    }
  }

  /** Over any run, siblings stay told apart by their types, and no context may do what its parent may not. */
  lemma {:induction false} RunKin(env: Env, m: Machine, qs: seq<Request>)
    requires WellFormed(m.st) && SiblingsDiffer(m.st.contexts) && Narrowing(m.st.contexts)
    ensures SiblingsDiffer(Run(env, m, qs).st.contexts) && Narrowing(Run(env, m, qs).st.contexts)
    decreases |qs|
  {
    hide WellFormed, Execute, SiblingsDiffer, Narrowing, KinSteps, IsForest;
    if qs != [] {
      ExecuteKeepsWellFormed(env, m, qs[0]);
      var next := Execute(env, m, qs[0]).m;
      WellFormedForest(m.st);
      WellFormedForest(next.st);
      ExecuteKin(env, m, qs[0]);
      KinKeepsSiblings(m.st.contexts, next.st.contexts);
      KinKeepsNarrowing(m.st.contexts, next.st.contexts);
      RunKin(env, next, qs[1..]);
    }
  }

  lemma NewDpeKin(env: Env, slots: nat, support: Support, tciSize: nat, qs: seq<Request>)
    requires 1 <= slots <= 64
    ensures var m := Machine(NewState(slots, support, tciSize), 0);
            && WellFormed(m.st)
            && SiblingsDiffer(Run(env, m, qs).st.contexts) && Narrowing(Run(env, m, qs).st.contexts)
  {
    hide Valid, WellFormed;
    NewStateValid(slots, support, tciSize);
    ValidWellFormed(NewState(slots, support, tciSize));
    RunKin(env, Machine(NewState(slots, support, tciSize), 0), qs);
  }

  /** Among different siblings, UpdateContextMeasurement measures the only child of the type it asks for. */
  lemma UpdateTargetUnique(m: Machine, q: Request, k: nat)
    requires WellFormed(m.st) && SiblingsDiffer(m.st.contexts) && q.cmd.UpdateCmd? && Measures(m, q).Some?
    requires Live(m.st.contexts, k) && m.st.contexts[k].tci.tciType == q.cmd.tciType
    requires ActivePos(m.st.contexts, q.cmd.handle, q.locality) == Ok(m.st.contexts[k].parent)
    ensures Measures(m, q).value.0 == k
  {
    hide WellFormed, Measures, FirstMatch, LocalityInUse;
    var cs := m.st.contexts;
    UpdateTarget(m, q);
    var p, c := ActivePos(cs, q.cmd.handle, q.locality).value, Measures(m, q).value.0;
    ChildOfTypeSpec(cs, Ascending(cs[p].children, 0, |cs|), q.cmd.tciType);
    WellFormedForest(m.st);
    OnPathInRange(m.st, p);
  }

  /** No context may do what an ancestor of it may not. */
  lemma {:induction false} AncestorsPermit(cs: seq<Context>, a: nat, j: nat)
    requires IsForest(cs) && Narrowing(cs) && Above(cs, a, j)
    ensures a < |cs| && j < |cs| && Permitted(cs[a], cs[j])
    decreases Depth(cs, j)
  {
    AboveFacts(cs, a, j);
    if a != j {
      OneUp(cs, j);
      var p := cs[j].parent;
      assert Above(cs, a, p);
      ParentRooted(cs, j);
      AncestorsPermit(cs, a, p);
    }
  }

  // ----- measurements along the path -----

  /** `c` differs from `b` in nothing but handle, state and children. */
  predicate Steady(b: Context, c: Context) {
    SameKin(b, c) && SameDigests(b, c)
  }

  /** If nothing on the path changes but handles, states and children, the path stays, node by node. */
  lemma {:induction false} SteadyLineage(cs: seq<Context>, after: seq<Context>, j: nat)
    requires IsForest(cs) && IsForest(after) && |after| == |cs| && Live(cs, j) && Live(after, j)
    requires forall k: nat :: Above(cs, k, j) && Live(cs, k) && Live(after, k) ==> Steady(cs[k], after[k])
    ensures Rooted(cs, j) && Rooted(after, j) && AllAlike(Lineage(after, j), Lineage(cs, j))
    decreases Depth(cs, j)
  {
    hide SameKin;
    OneUp(cs, j);
    SteadyFields(cs[j], after[j]);
    if cs[j].parent != ROOT_INDEX {
      var p := cs[j].parent;
      assert ParentLinkOk(cs, j) && ParentLinkOk(after, j);
      ParentRooted(cs, j);
      ParentRooted(after, j);
      forall k: nat | Above(cs, k, p) ensures Above(cs, k, j) {
        AboveParent(cs, k, j);
      }
      SteadyLineage(cs, after, p);
    }
  }

  lemma AboveParent(cs: seq<Context>, k: nat, j: nat)
    requires Rooted(cs, j) && cs[j].parent != ROOT_INDEX && Above(cs, k, cs[j].parent)
    ensures Above(cs, k, j)
  {
    OneStep(cs, j);
  }

  lemma SteadyFields(b: Context, c: Context)
    ensures Steady(b, c) ==> Alike(c, b) && c.parent == b.parent
  {}

  /** A context that survives a command keeps its hash input, and with it its keys, unless the command
      measures a context on its path. */
  lemma ExecuteKeepsHashInput(env: Env, m: Machine, q: Request, j: nat, info: seq<u8>, chain: seq<u8>)
    requires WellFormed(m.st) && Live(m.st.contexts, j)
    ensures IsForest(m.st.contexts)
    ensures var cs, o := m.st.contexts, Execute(env, m, q);
            Live(o.m.st.contexts, j)
            && !(Stored(o) && Measures(m, q).Some? && Above(cs, Measures(m, q).value.0, j)) ==>
              && Rooted(cs, j) && Rooted(o.m.st.contexts, j)
              && HashInput(Lineage(o.m.st.contexts, j), info, chain) == HashInput(Lineage(cs, j), info, chain)
  {
    hide WellFormed, Execute, Measures, Stored, SameKin, NewKin, IsForest, HashInput, Above, Rooted, Lineage;
    ExecuteKeepsWellFormed(env, m, q);
    WellFormedForest(m.st);
    var cs, o := m.st.contexts, Execute(env, m, q);
    var after := o.m.st.contexts;
    WellFormedForest(o.m.st);
    ExecuteKin(env, m, q);
    ExecuteEffect(env, m, q);
    if Live(after, j) && !(Stored(o) && Measures(m, q).Some? && Above(cs, Measures(m, q).value.0, j)) {
      forall k: nat | Above(cs, k, j) && Live(cs, k) && Live(after, k) ensures Steady(cs[k], after[k]) {
        assert KinStep(cs, after, k) && TciStep(env, m, q, o, k);
      }
      SteadyLineage(cs, after, j);
      SameInput(Lineage(after, j), Lineage(cs, j), info, chain);
    }
  }
}
