/** Handles: distinctness of the active ones, and the rule on default handles per locality. */
module Handles {
  import opened Bitmap
  import opened Contexts
  import opened Forest
  import opened States
  import opened Destruction
  import opened Commands
  import opened Preservation

  /** No two active contexts share a handle other than the default one. */
  ghost predicate DistinctHandles(cs: seq<Context>) {
    forall i: nat, j: nat ::
      i < j < |cs| && cs[i].state == Active && cs[j].state == Active && cs[i].handle == cs[j].handle ==>
        cs[i].handle == DEFAULT_HANDLE
  }

  /** Every active context of `after` was active before, in the same locality and with the same handle. */
  ghost predicate OnlyFewer(cs: seq<Context>, after: seq<Context>) {
    && |after| == |cs|
    && forall k :: 0 <= k < |cs| && after[k].state == Active ==>
         cs[k].state == Active && after[k].handle == cs[k].handle && after[k].locality == cs[k].locality
  }

  /** The slot `i` of an array gets the handle `h`, which no slot had; nothing else is gained. */
  ghost predicate FreshHandle(cs: seq<Context>, after: seq<Context>, i: nat, h: Handle) {
    && |after| == |cs| && i < |cs|
    && after[i].handle == h && !HandleUsed(cs, h)
    && forall k :: 0 <= k < |cs| && k != i && after[k].state == Active ==>
        cs[k].state == Active && after[k].handle == cs[k].handle
  }

  lemma FewerKeepsDistinct(cs: seq<Context>, after: seq<Context>)
    requires DistinctHandles(cs) && OnlyFewer(cs, after)
    ensures DistinctHandles(after)
  {}

  lemma FreshKeepsDistinct(cs: seq<Context>, after: seq<Context>, i: nat, h: Handle)
    requires DistinctHandles(cs) && FreshHandle(cs, after, i, h)
    ensures DistinctHandles(after)
  {}

  lemma DefaultKeepsDistinct(cs: seq<Context>, i: nat, c: Context)
    requires DistinctHandles(cs) && i < |cs| && c.handle == DEFAULT_HANDLE
    ensures DistinctHandles(cs[i := c])
  {}

  lemma RollKeepsDistinct(env: Env, cs: seq<Context>, i: nat, c: Context, drawn: nat)
    requires DistinctHandles(cs) && i < |cs|
    ensures var (r, after) := RolledHandle(env, cs, c.handle, drawn);
      r.Ok? ==> DistinctHandles(cs[i := c.(handle := r.value)])
  {
    NewHandleSpec(env, cs, drawn, MAX_NEW_HANDLE_ATTEMPTS);
    var (r, after) := RolledHandle(env, cs, c.handle, drawn);
    if r.Ok? {
      if c.handle == DEFAULT_HANDLE {
        DefaultKeepsDistinct(cs, i, c.(handle := r.value));
      } else {
        FreshKeepsDistinct(cs, cs[i := c.(handle := r.value)], i, r.value);
      }
    }
  }

  // ----- DeriveContext: the one command that can break distinctness -----

  /** The retained parent and the new child are handed the same handle. */
  predicate DrawsCollide(env: Env, m: Machine, a: DeriveArgs, p: nat)
    requires p < |m.st.contexts|
  {
    var cs := m.st.contexts;
    a.flags.retainParent && !a.flags.makeDefault && cs[p].handle != DEFAULT_HANDLE &&
    var (r1, d1) := NewHandle(env, cs, m.drawn, MAX_NEW_HANDLE_ATTEMPTS);
    var (r2, d2) := NewHandle(env, cs, d1, MAX_NEW_HANDLE_ATTEMPTS);
    r1.Ok? && r2 == r1
  }

  /** The request would store a child under the handle that its parent is given. */
  predicate Collides(env: Env, m: Machine, a: DeriveArgs, locality: u32) {
    AdmitsChild(env, m.st, a, locality) && DrawsCollide(env, m, a, ActivePos(m.st.contexts, a.handle, locality).value)
  }

  /** Once a child is stored, nothing but a collision can make two handles equal. */
  lemma StoredChildDistinct(env: Env, m: Machine, a: DeriveArgs, p: nat, parent: Context, drawn: nat, locality: u32,
                            fits: bool, o: Outcome, i: nat, child: Context)
    requires InRange(m.st.contexts) && DistinctHandles(m.st.contexts)
    requires p < |m.st.contexts| && i < |m.st.contexts| && m.st.contexts[p].state == Active
    requires ParentAfter(env, m, p, a.flags.retainParent) == (Ok(parent), drawn)
    requires ChildEffect(env, m.(drawn := drawn), a, p, parent, locality, fits, o, i, child)
    ensures DistinctHandles(o.m.st.contexts) <==> !DrawsCollide(env, m, a, p)
  {
    hide SafeToMakeChild, NewHandle;
    var cs, after := m.st.contexts, o.m.st.contexts;
    assert after[i].state == Active;
    NewHandleSpec(env, cs, m.drawn, MAX_NEW_HANDLE_ATTEMPTS);
    NewHandleSpec(env, cs, drawn, MAX_NEW_HANDLE_ATTEMPTS);
    DerivedPair(cs, after, p, i, DrawsCollide(env, m, a, p));
  }

  /** Colliding draws are draws: they leave no parent or child without a handle. */
  lemma CollidingDraws(env: Env, m: Machine, a: DeriveArgs, p: nat)
    requires p < |m.st.contexts| && DrawsCollide(env, m, a, p)
    ensures var (r, drawn) := ParentAfter(env, m, p, a.flags.retainParent);
            r.Ok? && ChildNamed(env, m.st.contexts, a.flags.makeDefault, drawn)
  {
    hide NewHandle;
  }

  lemma DeriveChildDistinct(env: Env, m: Machine, a: DeriveArgs, p: nat, locality: u32, fits: bool)
    requires WellFormed(m.st) && DistinctHandles(m.st.contexts)
    requires p < |m.st.contexts| && m.st.contexts[p].state == Active
    ensures var (r, drawn) := ParentAfter(env, m, p, a.flags.retainParent);
      r.Ok? ==>
        var after := DeriveChild(env, m.(drawn := drawn), a, p, r.value, locality, fits).m.st.contexts;
        DistinctHandles(after) <==> !(ChildFits(env, m.st, a, p, locality) && DrawsCollide(env, m, a, p))
  {
    hide WellFormed, DistinctHandles, DeriveChild, ChildFits, ChildEffect, ChildNamed, DrawsCollide, ParentAfter;
    WellFormedSlots(m.st);
    var (r, drawn) := ParentAfter(env, m, p, a.flags.retainParent);
    if DrawsCollide(env, m, a, p) {
      CollidingDraws(env, m, a, p);
    }
    if r.Ok? {
      var m1 := m.(drawn := drawn);
      var stored, i, child := DeriveChildEffect(env, m1, a, p, r.value, locality, fits);
      if stored {
        StoredChildDistinct(env, m, a, p, r.value, drawn, locality, fits,
            DeriveChild(env, m1, a, p, r.value, locality, fits), i, child);
      }
    }
  }

  lemma DerivedPair(cs: seq<Context>, after: seq<Context>, p: nat, i: nat, collide: bool)
    requires DistinctHandles(cs) && |after| == |cs| && p < |cs| && i < |cs| && p != i
    requires cs[p].state == Active && after[i].state == Active
    requires forall k :: 0 <= k < |cs| && k != i && k != p ==> after[k] == cs[k]
    requires after[i].handle == DEFAULT_HANDLE || !HandleUsed(cs, after[i].handle)
    requires after[p].state == Active && after[p].handle != DEFAULT_HANDLE && after[p].handle != cs[p].handle ==>
        !HandleUsed(cs, after[p].handle)
    requires collide <==> after[p].state == Active && after[p].handle == after[i].handle != DEFAULT_HANDLE
    ensures DistinctHandles(after) <==> !collide
  {}

  /** DeriveContext keeps the handles distinct exactly unless it admits a child while the two draws collide. */
  lemma DeriveDistinct(env: Env, m: Machine, a: DeriveArgs, cert: Result<nat, Error>, locality: u32, fits: bool)
    requires WellFormed(m.st) && DistinctHandles(m.st.contexts)
    ensures IsForest(m.st.contexts)
    ensures var after := Derive(env, m, a, cert, locality, fits).m.st.contexts;
      DistinctHandles(after) <==> !Collides(env, m, a, locality)
  {
    hide WellFormed, DistinctHandles, DeriveChild, ChildFits, NewHandle, FirstMatch, LocalityInUse, Doomed;
    WellFormedForest(m.st);
    var cs := m.st.contexts;
    ActivePosFacts(cs, a.handle, locality);
    if DeriveSupported(m.st.support, a.flags) && ActivePos(cs, a.handle, locality).Ok? {
      var p := ActivePos(cs, a.handle, locality).value;
      if a.flags.recursive {
        var c := AddMeasurement(env, cs[p], a.data, TargetLocality(a, locality));
        if c.Ok? {
          RollKeepsDistinct(env, cs, p, c.value, m.drawn);
        }
      } else {
        var (r, drawn) := ParentAfter(env, m, p, a.flags.retainParent);
        RollKeepsDistinct(env, cs, p, cs[p], m.drawn);
        if r.Ok? {
          DeriveChildDistinct(env, m, a, p, locality, fits);
          DeriveExportDistinct(m.(drawn := drawn), a, p, r.value, cert, fits);
        }
      }
    }
  }

  lemma DeriveExportDistinct(m: Machine, a: DeriveArgs, p: nat, parent: Context, cert: Result<nat, Error>, fits: bool)
    requires IsForest(m.st.contexts) && p < |m.st.contexts| && m.st.contexts[p].state == Active
    requires DistinctHandles(m.st.contexts) && ParentReady(m.st.contexts[p], parent, a.flags.retainParent)
    requires a.flags.retainParent ==> DistinctHandles(m.st.contexts[p := parent])
    ensures DistinctHandles(DeriveExport(m, a, p, parent, cert, fits).m.st.contexts)
  {
    hide IsForest, Doomed, DistinctHandles;
    var cs := m.st.contexts;
    var after := DeriveExport(m, a, p, parent, cert, fits).m.st.contexts;
    if !a.flags.retainParent {
      FewerKeepsDistinct(cs, after);
    }
  }

  lemma InitializeDistinct(env: Env, m: Machine, d: bool, s: bool, locality: u32, fits: bool)
    requires DistinctHandles(m.st.contexts)
    ensures DistinctHandles(Initialize(env, m, d, s, locality, fits).m.st.contexts)
  {
    hide DistinctHandles, NewHandle;
    var cs := m.st.contexts;
    NextInactiveSpec(cs, 0);
    NewHandleSpec(env, cs, m.drawn, MAX_NEW_HANDLE_ATTEMPTS);
    if NextInactive(cs, 0).Some? {
      var i := NextInactive(cs, 0).value;
      DefaultKeepsDistinct(cs, i, Activated(RootArgs(true, DEFAULT_HANDLE, locality), m.st.tciSize));
      var r := NewHandle(env, cs, m.drawn, MAX_NEW_HANDLE_ATTEMPTS).0;
      if r.Ok? {
        var root := Activated(RootArgs(false, r.value, locality), m.st.tciSize);
        FreshKeepsDistinct(cs, cs[i := root], i, r.value);
      }
    }
  }

  lemma RotateDistinct(env: Env, m: Machine, handle: Handle, toDefault: bool, locality: u32, fits: bool)
    requires DistinctHandles(m.st.contexts)
    ensures DistinctHandles(Rotate(env, m, handle, toDefault, locality, fits).m.st.contexts)
  {
    hide DistinctHandles, NewHandle, FirstMatch, LocalityInUse;
    var cs := m.st.contexts;
    ActivePosFacts(cs, handle, locality);
    NewHandleSpec(env, cs, m.drawn, MAX_NEW_HANDLE_ATTEMPTS);
    if ActivePos(cs, handle, locality).Ok? {
      var i := ActivePos(cs, handle, locality).value;
      DefaultKeepsDistinct(cs, i, cs[i].(handle := DEFAULT_HANDLE));
      var r := NewHandle(env, cs, m.drawn, MAX_NEW_HANDLE_ATTEMPTS).0;
      if r.Ok? {
        FreshKeepsDistinct(cs, cs[i := cs[i].(handle := r.value)], i, r.value);
      }
    }
  }

  lemma CertifyAndSignDistinct(env: Env, m: Machine, handle: Handle, format: u32, cert: Result<nat, Error>,
                               signature: Result<(), Error>, locality: u32, fits: bool)
    requires DistinctHandles(m.st.contexts)
    ensures DistinctHandles(CertifyKey(env, m, handle, format, cert, locality, fits).m.st.contexts)
    ensures DistinctHandles(Sign(env, m, handle, signature, locality, fits).m.st.contexts)
  {
    hide DistinctHandles, NewHandle, FirstMatch, LocalityInUse;
    var cs := m.st.contexts;
    ActivePosFacts(cs, handle, locality);
    if ActivePos(cs, handle, locality).Ok? {
      var i := ActivePos(cs, handle, locality).value;
      RollKeepsDistinct(env, cs, i, cs[i], m.drawn);
    }
  }

  lemma UpdateDistinct(env: Env, m: Machine, parentHandle: Handle, data: Digest, tciType: u32, locality: u32,
      fits: bool)
    requires DistinctHandles(m.st.contexts)
    ensures DistinctHandles(Update(env, m, parentHandle, data, tciType, locality, fits).m.st.contexts)
  {
    hide DistinctHandles, NewHandle, FirstMatch, LocalityInUse, ChildOfType, Ascending;
    var cs := m.st.contexts;
    ActivePosFacts(cs, parentHandle, locality);
    if ActivePos(cs, parentHandle, locality).Ok? {
      var p := ActivePos(cs, parentHandle, locality).value;
      var kids := Ascending(cs[p].children, 0, |cs|);
      ChildOfTypeSpec(cs, kids, tciType);
      if ChildOfType(cs, kids, tciType).Some? {
        var c := ChildOfType(cs, kids, tciType).value;
        var child := AddMeasurement(env, cs[c], data, cs[c].locality);
        var (r, drawn) := RolledHandle(env, cs, cs[p].handle, m.drawn);
        RollKeepsDistinct(env, cs, p, cs[p], m.drawn);
        if child.Ok? && r.Ok? {
          RollKeepsDistinct(env, cs[p := cs[p].(handle := r.value)], c, child.value, drawn);
        }
      }
    }
  }

  lemma DestroyDistinct(m: Machine, handle: Handle, locality: u32, fits: bool)
    requires IsForest(m.st.contexts) && DistinctHandles(m.st.contexts)
    ensures DistinctHandles(Destroy(m, handle, locality, fits).m.st.contexts)
  {
    hide IsForest, Doomed, DistinctHandles, FirstMatch, LocalityInUse;
    FewerKeepsDistinct(m.st.contexts, Destroy(m, handle, locality, fits).m.st.contexts);
  }

  /** Only a DeriveContext whose two draws collide can leave two active contexts with the same handle of their own. */
  lemma ExecuteDistinct(env: Env, m: Machine, q: Request)
    requires WellFormed(m.st) && DistinctHandles(m.st.contexts)
    ensures IsForest(m.st.contexts)
    ensures var after := Execute(env, m, q).m.st.contexts;
      DistinctHandles(after) <==> !(q.cmd.DeriveCmd? && Collides(env, m, q.cmd.args, q.locality))
  {
    hide WellFormed, DistinctHandles, Initialize, Derive, Rotate, CertifyKey, Sign, Destroy, Update, Collides;
    WellFormedForest(m.st);
    match q.cmd
    case InitializeCmd(d, s) => InitializeDistinct(env, m, d, s, q.locality, q.fits);
    case DeriveCmd(a, cert) => DeriveDistinct(env, m, a, cert, q.locality, q.fits);
    case RotateCmd(h, d) => RotateDistinct(env, m, h, d, q.locality, q.fits);
    case CertifyKeyCmd(h, f, cert) => CertifyAndSignDistinct(env, m, h, f, cert, Ok(()), q.locality, q.fits);
    case SignCmd(h, s) => CertifyAndSignDistinct(env, m, h, 0, Ok(0), s, q.locality, q.fits);
    case DestroyCmd(h) => DestroyDistinct(m, h, q.locality, q.fits);
    case UpdateCmd(h, d, t) => UpdateDistinct(env, m, h, d, t, q.locality, q.fits);
  }

  // ----- the rule on default handles -----

  /** No active context is new, has moved, or has become the default one. */
  ghost predicate NoNewDefault(cs: seq<Context>, after: seq<Context>) {
    && |after| == |cs|
    && forall k :: 0 <= k < |cs| && after[k].state == Active ==>
         cs[k].state == Active && after[k].locality == cs[k].locality
             && (after[k].handle == DEFAULT_HANDLE ==> cs[k].handle == DEFAULT_HANDLE)
  }

  lemma RuleKept(cs: seq<Context>, after: seq<Context>)
    requires LocalityRule(cs) && NoNewDefault(cs, after)
    ensures LocalityRule(after)
  {
    forall i: nat, j: nat | i != j && i < |after| && ActiveIn(after, i, after[i].locality)
        && ActiveIn(after, j, after[i].locality)
      ensures after[i].handle != DEFAULT_HANDLE
    {
      assert ActiveIn(cs, i, cs[i].locality) && ActiveIn(cs, j, cs[i].locality);
    }
  }

  lemma RotateRule(env: Env, m: Machine, handle: Handle, toDefault: bool, locality: u32, fits: bool)
    requires LocalityRule(m.st.contexts)
    ensures LocalityRule(Rotate(env, m, handle, toDefault, locality, fits).m.st.contexts)
  {
    hide NewHandle, FirstMatch, LocalityInUse;
    var cs := m.st.contexts;
    var after := Rotate(env, m, handle, toDefault, locality, fits).m.st.contexts;
    ActivePosFacts(cs, handle, locality);
    ActivePosFacts(cs, DEFAULT_HANDLE, locality);
    NewHandleSpec(env, cs, m.drawn, MAX_NEW_HANDLE_ATTEMPTS);
    if !toDefault || after == cs {
      RuleKept(cs, after);
    } else {
      var t := ActivePos(cs, handle, locality).value;
      assert forall k: nat :: k != t && ActiveIn(cs, k, locality) ==> false;
      forall i: nat, j: nat | i != j && i < |after| && ActiveIn(after, i, after[i].locality)
          && ActiveIn(after, j, after[i].locality)
        ensures after[i].handle != DEFAULT_HANDLE
      {
        assert ActiveIn(cs, i, cs[i].locality) && ActiveIn(cs, j, cs[i].locality);
      }
    }
  }

  lemma RollKeepsRule(env: Env, cs: seq<Context>, i: nat, c: Context, drawn: nat)
    requires LocalityRule(cs) && i < |cs| && cs[i].state == Active
    requires c.state == Active && c.locality == cs[i].locality && c.handle == cs[i].handle
    ensures var (r, after) := RolledHandle(env, cs, c.handle, drawn);
      r.Ok? ==> LocalityRule(cs[i := c.(handle := r.value)])
  {
    hide LocalityRule, NewHandle;
    NewHandleSpec(env, cs, drawn, MAX_NEW_HANDLE_ATTEMPTS);
    var (r, after) := RolledHandle(env, cs, c.handle, drawn);
    if r.Ok? {
      RuleKept(cs, cs[i := c.(handle := r.value)]);
    }
  }

  lemma CertifyAndSignRule(env: Env, m: Machine, handle: Handle, format: u32, cert: Result<nat, Error>,
                           signature: Result<(), Error>, locality: u32, fits: bool)
    requires LocalityRule(m.st.contexts)
    ensures LocalityRule(CertifyKey(env, m, handle, format, cert, locality, fits).m.st.contexts)
    ensures LocalityRule(Sign(env, m, handle, signature, locality, fits).m.st.contexts)
  {
    hide RolledHandle, FirstMatch, LocalityInUse, LocalityRule;
    var cs := m.st.contexts;
    ActivePosFacts(cs, handle, locality);
    if ActivePos(cs, handle, locality).Ok? {
      var i := ActivePos(cs, handle, locality).value;
      RollKeepsRule(env, cs, i, cs[i], m.drawn);
    }
  }

  lemma UpdateRule(env: Env, m: Machine, parentHandle: Handle, data: Digest, tciType: u32, locality: u32, fits: bool)
    requires WellFormed(m.st) && LocalityRule(m.st.contexts)
    ensures LocalityRule(Update(env, m, parentHandle, data, tciType, locality, fits).m.st.contexts)
  {
    hide WellFormed, RolledHandle, FirstMatch, LocalityInUse, ChildOfType, Ascending, LocalityRule;
    var cs := m.st.contexts;
    ActivePosFacts(cs, parentHandle, locality);
    if ActivePos(cs, parentHandle, locality).Ok? {
      var p := ActivePos(cs, parentHandle, locality).value;
      WellFormedForest(m.st);
      AscendingSpec(cs[p].children, 0, |cs|);
      ChildOfTypeSpec(cs, Ascending(cs[p].children, 0, |cs|), tciType);
      if ChildOfType(cs, Ascending(cs[p].children, 0, |cs|), tciType).Some? {
        var c := ChildOfType(cs, Ascending(cs[p].children, 0, |cs|), tciType).value;
        ChildIsOther(cs, p, c);
        var child := AddMeasurement(env, cs[c], data, cs[c].locality);
        var (r, drawn) := RolledHandle(env, cs, cs[p].handle, m.drawn);
        RollKeepsRule(env, cs, p, cs[p], m.drawn);
        if child.Ok? && r.Ok? {
          RollKeepsRule(env, cs[p := cs[p].(handle := r.value)], c, child.value, drawn);
        }
      }
    }
  }

  lemma DestroyRule(m: Machine, handle: Handle, locality: u32, fits: bool)
    requires IsForest(m.st.contexts) && LocalityRule(m.st.contexts)
    ensures LocalityRule(Destroy(m, handle, locality, fits).m.st.contexts)
  {
    hide IsForest, Doomed, LocalityRule, FirstMatch, LocalityInUse;
    RuleKept(m.st.contexts, Destroy(m, handle, locality, fits).m.st.contexts);
  }

  /** The default context of a locality is its only active context. */
  lemma DefaultIsAlone(cs: seq<Context>, locality: u32, j: nat)
    requires LocalityRule(cs) && ActivePos(cs, DEFAULT_HANDLE, locality).Ok? && ActiveIn(cs, j, locality)
    ensures ActivePos(cs, DEFAULT_HANDLE, locality).value == j
  {
    ActivePosFacts(cs, DEFAULT_HANDLE, locality);
  }

  /** A child made in a locality that is safe for it keeps the rule. */
  lemma SafeChildRule(cs: seq<Context>, after: seq<Context>, f: DeriveFlags, p: nat, i: nat, target: u32)
    requires LocalityRule(cs) && SafeToMakeChild(cs, f, p, target)
    requires |after| == |cs| && p < |cs| && i < |cs| && p != i && cs[p].state == Active && cs[i].state == Inactive
    requires forall k :: 0 <= k < |cs| && k != i && k != p ==> after[k] == cs[k]
    requires after[i].state == Active && after[i].locality == target
        && (f.makeDefault <==> after[i].handle == DEFAULT_HANDLE)
    requires after[p].state == (if f.retainParent then Active else Retired) && after[p].locality == cs[p].locality
    requires f.retainParent && after[p].handle == DEFAULT_HANDLE ==> cs[p].handle == DEFAULT_HANDLE
    ensures LocalityRule(after)
  {
    ActivePosFacts(cs, DEFAULT_HANDLE, target);
    CountActiveFew(cs, target, |cs|);
    forall j: nat | j != i && ActiveIn(after, j, target)
      ensures !f.makeDefault && after[j].handle != DEFAULT_HANDLE
    {
      assert ActiveIn(cs, j, target);
      if ActivePos(cs, DEFAULT_HANDLE, target).Ok? {
        DefaultIsAlone(cs, target, j);
      }
    }
    forall x: nat, y: nat | x != y && x < |after| && ActiveIn(after, x, after[x].locality)
        && ActiveIn(after, y, after[x].locality)
      ensures after[x].handle != DEFAULT_HANDLE
    {
      if x != i && y != i {
        assert ActiveIn(cs, x, cs[x].locality) && ActiveIn(cs, y, cs[x].locality);
      }
    }
  }

  lemma DeriveChildRule(env: Env, m: Machine, a: DeriveArgs, p: nat, locality: u32, fits: bool)
    requires WellFormed(m.st) && LocalityRule(m.st.contexts)
    requires p < |m.st.contexts| && m.st.contexts[p].state == Active
    ensures var (r, drawn) := ParentAfter(env, m, p, a.flags.retainParent);
      r.Ok? ==> LocalityRule(DeriveChild(env, m.(drawn := drawn), a, p, r.value, locality, fits).m.st.contexts)
  {
    hide WellFormed, LocalityRule, DeriveChild, SafeToMakeChild;
    WellFormedSlots(m.st);
    var cs := m.st.contexts;
    var (r, drawn) := ParentAfter(env, m, p, a.flags.retainParent);
    if r.Ok? {
      var m1 := m.(drawn := drawn);
      var stored, i, child := DeriveChildEffect(env, m1, a, p, r.value, locality, fits);
      if stored {
        NewHandleSpec(env, cs, m.drawn, MAX_NEW_HANDLE_ATTEMPTS);
        NewHandleSpec(env, cs, drawn, MAX_NEW_HANDLE_ATTEMPTS);
        var after := DeriveChild(env, m1, a, p, r.value, locality, fits).m.st.contexts;
        SafeChildRule(cs, after, a.flags, p, i, TargetLocality(a, locality));
      }
    }
  }

  lemma DeriveExportRule(env: Env, m: Machine, a: DeriveArgs, p: nat, parent: Context, cert: Result<nat, Error>,
      fits: bool)
    requires IsForest(m.st.contexts) && p < |m.st.contexts| && m.st.contexts[p].state == Active
    requires LocalityRule(m.st.contexts) && ParentReady(m.st.contexts[p], parent, a.flags.retainParent)
    requires a.flags.retainParent ==> LocalityRule(m.st.contexts[p := parent])
    ensures LocalityRule(DeriveExport(m, a, p, parent, cert, fits).m.st.contexts)
  {
    hide IsForest, Doomed, LocalityRule;
    if !a.flags.retainParent {
      RuleKept(m.st.contexts, DeriveExport(m, a, p, parent, cert, fits).m.st.contexts);
    }
  }

  lemma DeriveRule(env: Env, m: Machine, a: DeriveArgs, cert: Result<nat, Error>, locality: u32, fits: bool)
    requires WellFormed(m.st) && LocalityRule(m.st.contexts)
    ensures IsForest(m.st.contexts)
    ensures LocalityRule(Derive(env, m, a, cert, locality, fits).m.st.contexts)
  {
    hide WellFormed, LocalityRule, DeriveChild, DeriveExport, RolledHandle, FirstMatch, LocalityInUse;
    WellFormedForest(m.st);
    var cs := m.st.contexts;
    ActivePosFacts(cs, a.handle, locality);
    if DeriveSupported(m.st.support, a.flags) && ActivePos(cs, a.handle, locality).Ok? {
      var p := ActivePos(cs, a.handle, locality).value;
      if a.flags.recursive {
        var c := AddMeasurement(env, cs[p], a.data, TargetLocality(a, locality));
        if c.Ok? {
          RollKeepsRule(env, cs, p, c.value, m.drawn);
        }
      } else {
        var (r, drawn) := ParentAfter(env, m, p, a.flags.retainParent);
        RollKeepsRule(env, cs, p, cs[p], m.drawn);
        if r.Ok? {
          DeriveChildRule(env, m, a, p, locality, fits);
          DeriveExportRule(env, m.(drawn := drawn), a, p, r.value, cert, fits);
        }
      }
    }
  }

  /** When InitializeContext may add its root without breaking the rule. */
  predicate SafeToInitialize(cs: seq<Context>, isDefault: bool, locality: u32) {
    if isDefault then !LocalityInUse(cs, locality) else ActivePos(cs, DEFAULT_HANDLE, locality).Err?
  }

  /** The request would store a root in a locality that is not safe for it. */
  predicate UnsafeInitialize(env: Env, m: Machine, isDefault: bool, isSimulation: bool, locality: u32) {
    Initializes(env, m, isDefault, isSimulation) && !SafeToInitialize(m.st.contexts, isDefault, locality)
  }

  /** InitializeContext does not look at the locality; the rule survives exactly when the locality was safe. */
  lemma InitializeRule(env: Env, m: Machine, d: bool, s: bool, locality: u32, fits: bool)
    requires LocalityRule(m.st.contexts)
    ensures var after := Initialize(env, m, d, s, locality, fits).m.st.contexts;
      LocalityRule(after) <==> !UnsafeInitialize(env, m, d, s, locality)
  {
    hide NewHandle, FirstMatch;
    var cs := m.st.contexts;
    var after := Initialize(env, m, d, s, locality, fits).m.st.contexts;
    NextInactiveSpec(cs, 0);
    NewHandleSpec(env, cs, m.drawn, MAX_NEW_HANDLE_ATTEMPTS);
    ActivePosFacts(cs, DEFAULT_HANDLE, locality);
    if Initializes(env, m, d, s) {
      var i := NextInactive(cs, 0).value;
      NewRootRule(cs, after, i, d, locality);
    }
  }

  lemma NewRootRule(cs: seq<Context>, after: seq<Context>, i: nat, d: bool, locality: u32)
    requires LocalityRule(cs) && |after| == |cs| && i < |cs| && cs[i].state == Inactive
    requires forall k :: 0 <= k < |cs| && k != i ==> after[k] == cs[k]
    requires after[i].state == Active && after[i].locality == locality && (d <==> after[i].handle == DEFAULT_HANDLE)
    ensures LocalityRule(after) <==> SafeToInitialize(cs, d, locality)
  {
    ActivePosFacts(cs, DEFAULT_HANDLE, locality);
    if SafeToInitialize(cs, d, locality) {
      forall x: nat, y: nat | x != y && x < |after| && ActiveIn(after, x, after[x].locality)
          && ActiveIn(after, y, after[x].locality)
        ensures after[x].handle != DEFAULT_HANDLE
      {
        if x != i && y != i {
          assert ActiveIn(cs, x, cs[x].locality) && ActiveIn(cs, y, cs[x].locality);
        } else if x == i {
          assert ActiveIn(cs, y, locality);
        } else {
          assert ActiveIn(cs, x, locality);
        }
      }
    } else {
      var k: nat :| k < |cs| && ActiveIn(cs, k, locality) && (d || cs[k].handle == DEFAULT_HANDLE);
      assert ActiveIn(after, k, after[i].locality) && ActiveIn(after, i, after[k].locality);
    }
  }

  /** Every command but InitializeContext keeps the rule; InitializeContext keeps it exactly when the locality is
      safe. */
  lemma ExecuteRule(env: Env, m: Machine, q: Request)
    requires Valid(m.st)
    ensures IsForest(m.st.contexts)
    ensures var after := Execute(env, m, q).m.st.contexts;
      LocalityRule(after) <==>
        !(q.cmd.InitializeCmd? && UnsafeInitialize(env, m, q.cmd.isDefault, q.cmd.isSimulation, q.locality))
  {
    hide LocalityRule, Initialize, Derive, Rotate, CertifyKey, Sign, Destroy, Update, UnsafeInitialize;
    WellFormedForest(m.st);
    match q.cmd
    case InitializeCmd(d, s) => InitializeRule(env, m, d, s, q.locality, q.fits);
    case DeriveCmd(a, cert) => DeriveRule(env, m, a, cert, q.locality, q.fits);
    case RotateCmd(h, d) => RotateRule(env, m, h, d, q.locality, q.fits);
    case CertifyKeyCmd(h, f, cert) => CertifyAndSignRule(env, m, h, f, cert, Ok(()), q.locality, q.fits);
    case SignCmd(h, s) => CertifyAndSignRule(env, m, h, 0, Ok(0), s, q.locality, q.fits);
    case DestroyCmd(h) => DestroyRule(m, h, q.locality, q.fits);
    case UpdateCmd(h, d, t) => UpdateRule(env, m, h, d, t, q.locality, q.fits);
  }
}
