/** What each validation error means: the faults a state can have, one for each error, in the fields of the slots. */
module Faults {
  import opened Contexts
  import opened Forest
  import opened States

  /** The faults of a used slot's links. */
  ghost predicate LinkFault(cs: seq<Context>, i: nat, e: ValidationError) {
    i < |cs| && cs[i].state != Inactive &&
    var c, n := cs[i], |cs|;
    match e
    case ParentDoesNotExist => n <= c.parent < 0xff
    case InactiveParent => c.parent < n && cs[c.parent].state == Inactive
    case ParentChildLinksCorrupted =>
      || (c.parent < n && i !in cs[c.parent].children)
      || (exists k :: k in c.children && k < n && cs[k].parent != i)
    case ChildDoesNotExist => exists k :: k in c.children && k >= n
    case InactiveChild => exists k :: k in c.children && k < n && cs[k].state == Inactive
    case MixedContextTypeConnectedComponents => c.parent < n && c.contextType != cs[c.parent].contextType
    case _ => false
  }

  /** The faults of one slot and its links. */
  ghost predicate SlotFault(st: State, i: nat, e: ValidationError) {
    i < |st.contexts| &&
    var c := st.contexts[i];
    var used := c.state != Inactive;
    match e
    case SimulationNotSupported => c.contextType == Simulation && !st.support.simulation
    case InternalDiceNotSupported => c.usesInternalDice && !st.support.internalDice
    case InternalInfoNotSupported => c.usesInternalInfo && !st.support.internalInfo
    case AllowX509NotSupported => c.allowX509 && c.parent != 0xff && !st.support.x509
    case InactiveContextInvalidParent => !used && c.parent != 0xff
    case InactiveContextWithChildren => !used && |c.children| > 0
    case InactiveContextWithMeasurement =>
      !used && !(c.tci.tciType == c.tci.locality == c.tci.svn == 0 && AllZero(c.tci.cumulative, st.tciSize)
                 && AllZero(c.tci.current, st.tciSize))
    case InactiveContextWithFlagSet => !used && (c.usesInternalDice || c.allowX509 || c.usesInternalInfo)
    case DpeNotMarkedInitialized => c.state == Active && c.contextType == Normal && !st.hasInitialized
    case DanglingRetiredContext => c.state == Retired && |c.children| == 0
    case LocalityMismatch => c.locality != c.tci.locality
    case _ => LinkFault(st.contexts, i, e)
  }

  predicate AllZero(b: seq<u8>, size: nat) {
    |b| == size && forall k :: 0 <= k < size ==> b[k] == 0
  }

  /** Faults that show on two slots. */
  ghost predicate PairFault(cs: seq<Context>, i: nat, j: nat, e: ValidationError) {
    i < |cs| && j < |cs| && i != j &&
    var c, d := cs[i], cs[j];
    match e
    case MultipleDefaultContexts =>
      c.state == d.state == Active && c.locality == d.locality && c.handle == d.handle == 0
    case MixedContextLocality =>
      c.state == d.state == Active && c.locality == d.locality && c.handle == 0 != d.handle
    case MultipleNormalConnectedComponents =>
      c.state != Inactive && d.state != Inactive && c.parent == d.parent == 0xff
      && c.contextType == d.contextType == Normal
    case ChildWithMultipleParents =>
      c.state != Inactive && d.state != Inactive && exists k :: k in c.children && k in d.children
    case _ => false
  }

  /** Slots in use whose parents are all among them: going up from one of them never ends. */
  ghost predicate Endless(cs: seq<Context>, loop: set<nat>) {
    loop != {} && forall i :: i in loop ==> Live(cs, i) && cs[i].parent < |cs| && cs[i].parent in loop
  }

  /** The state has the fault that the error reports. */
  ghost predicate Faulty(st: State, e: ValidationError) {
    match e
    case InvalidMarker => st.marker != 0x4450_4553
    case VersionMismatch => st.version != 1
    case CyclesInTree => exists loop :: Endless(st.contexts, loop)
    case _ =>
      || (exists i: nat :: SlotFault(st, i, e))
      || (exists i: nat, j: nat :: PairFault(st.contexts, i, j, e))
  }

  lemma SlotFaulty(st: State, i: nat, e: ValidationError)
    requires SlotFault(st, i, e)
    ensures Faulty(st, e)
  {
    assert e !in {InvalidMarker, VersionMismatch, CyclesInTree};
  }

  lemma LinkFaulty(st: State, i: nat, e: ValidationError)
    requires LinkFault(st.contexts, i, e)
    ensures Faulty(st, e)
  {
    assert SlotFault(st, i, e);
    SlotFaulty(st, i, e);
  }

  lemma PairFaulty(st: State, i: nat, j: nat, e: ValidationError)
    requires PairFault(st.contexts, i, j, e)
    ensures Faulty(st, e)
  {
    assert e !in {InvalidMarker, VersionMismatch, CyclesInTree};
  }

  lemma NotMarked(st: State, i: nat)
    requires i < |st.contexts| && st.contexts[i].state == Active && st.contexts[i].contextType == Normal
    requires !st.hasInitialized
    ensures Faulty(st, DpeNotMarkedInitialized)
  {
    SlotFaulty(st, i, DpeNotMarkedInitialized);
  }

  lemma Dangling(st: State, i: nat)
    requires i < |st.contexts| && st.contexts[i].state == Retired && st.contexts[i].children == {}
    ensures Faulty(st, DanglingRetiredContext)
  {
    SlotFaulty(st, i, DanglingRetiredContext);
  }

  lemma OtherLocality(st: State, i: nat)
    requires i < |st.contexts| && st.contexts[i].locality != st.contexts[i].tci.locality
    ensures Faulty(st, LocalityMismatch)
  {
    SlotFaulty(st, i, LocalityMismatch);
  }

  lemma EndlessFaulty(st: State, loop: set<nat>)
    requires Endless(st.contexts, loop)
    ensures Faulty(st, CyclesInTree)
  {}

  // ----- a valid state has none of them -----

  lemma NoSlotFault(st: State, i: nat, e: ValidationError)
    requires Valid(st)
    ensures !SlotFault(st, i, e)
  {
    if i < |st.contexts| {
      assert SlotOk(st, i);
      assert Live(st.contexts, i) ==> Rooted(st.contexts, i);
    }
  }

  lemma NoPairFault(st: State, i: nat, j: nat, e: ValidationError)
    requires Valid(st)
    ensures !PairFault(st.contexts, i, j, e)
  {
    var cs := st.contexts;
    if i < |cs| && j < |cs| && i != j {
      assert SlotOk(st, i) && SlotOk(st, j);
      assert NormalRoot(cs, i) && NormalRoot(cs, j) ==> i == j;
      assert Live(cs, i) ==> ChildLinksOk(cs, i);
      assert Live(cs, j) ==> ChildLinksOk(cs, j);
      assert ActiveIn(cs, i, cs[i].locality) && ActiveIn(cs, j, cs[i].locality) ==> cs[i].handle != 0;
    }
  }

  lemma {:induction false} NotEndless(cs: seq<Context>, loop: set<nat>, i: nat)
    requires Endless(cs, loop) && |cs| <= 64 && Rooted(cs, i)
    ensures i !in loop
    decreases Depth(cs, i)
  {
    if cs[i].parent != ROOT_INDEX {
      ParentRooted(cs, i);
      NotEndless(cs, loop, cs[i].parent);
    }
  }

  lemma NoLoop(st: State, loop: set<nat>)
    requires Valid(st)
    ensures !Endless(st.contexts, loop)
  {
    if Endless(st.contexts, loop) {
      var i :| i in loop;
      NotEndless(st.contexts, loop, i);
    }
  }

  // ----- a state without them is valid -----

  ghost predicate Faultless(st: State) {
    forall e :: !Faulty(st, e)
  }

  lemma NoFaultAt(st: State, i: nat)
    requires Faultless(st)
    ensures forall e :: e !in {InvalidMarker, VersionMismatch, CyclesInTree} ==> !SlotFault(st, i, e)
  {
    hide SlotFault, PairFault;
    forall e | e !in {InvalidMarker, VersionMismatch, CyclesInTree} ensures !SlotFault(st, i, e) {
      assert !Faulty(st, e);
    }
  }

  lemma NoFaultBetween(st: State, i: nat, j: nat)
    requires Faultless(st)
    ensures forall e :: e !in {InvalidMarker, VersionMismatch, CyclesInTree} ==> !PairFault(st.contexts, i, j, e)
  {
    hide SlotFault, PairFault;
    forall e | e !in {InvalidMarker, VersionMismatch, CyclesInTree} ensures !PairFault(st.contexts, i, j, e) {
      assert !Faulty(st, e);
    }
  }

  lemma ZeroIff(b: seq<u8>, size: nat)
    ensures AllZero(b, size) <==> b == ZeroDigest(size)
  {}

  lemma UnusedClean(st: State, i: nat)
    requires Faultless(st) && i < |st.contexts| && st.contexts[i].state == Inactive
    ensures InactiveOk(st, st.contexts[i])
  {
    NoFaultAt(st, i);
    ZeroIff(st.contexts[i].tci.cumulative, st.tciSize);
    ZeroIff(st.contexts[i].tci.current, st.tciSize);
    assert !SlotFault(st, i, InactiveContextInvalidParent) && !SlotFault(st, i, InactiveContextWithChildren);
    assert !SlotFault(st, i, InactiveContextWithMeasurement) && !SlotFault(st, i, InactiveContextWithFlagSet);
  }

  lemma LinksClean(st: State, i: nat)
    requires InRange(st.contexts) && Faultless(st) && Live(st.contexts, i)
    ensures ParentLinkOk(st.contexts, i) && ChildLinksOk(st.contexts, i)
  {
    NoFaultAt(st, i);
    assert !SlotFault(st, i, ParentDoesNotExist) && !SlotFault(st, i, InactiveParent);
    assert !SlotFault(st, i, ParentChildLinksCorrupted);
    assert !SlotFault(st, i, ChildDoesNotExist) && !SlotFault(st, i, InactiveChild);
  }

  lemma SlotClean(st: State, i: nat)
    requires InRange(st.contexts) && Faultless(st) && i < |st.contexts|
    ensures SlotOk(st, i)
  {
    hide InactiveOk, ParentLinkOk, ChildLinksOk;
    NoFaultAt(st, i);
    assert !SlotFault(st, i, SimulationNotSupported) && !SlotFault(st, i, InternalDiceNotSupported);
    assert !SlotFault(st, i, InternalInfoNotSupported) && !SlotFault(st, i, AllowX509NotSupported);
    assert !SlotFault(st, i, DpeNotMarkedInitialized) && !SlotFault(st, i, DanglingRetiredContext);
    assert !SlotFault(st, i, LocalityMismatch);
    if st.contexts[i].state == Inactive {
      UnusedClean(st, i);
    } else {
      LinksClean(st, i);
    }
  }

  lemma HandlesClean(st: State)
    requires Faultless(st)
    ensures LocalityRule(st.contexts)
  {
    forall i: nat, j: nat
        | i != j && i < |st.contexts| && ActiveIn(st.contexts, i, st.contexts[i].locality)
          && ActiveIn(st.contexts, j, st.contexts[i].locality)
      ensures st.contexts[i].handle != DEFAULT_HANDLE
    {
      NoFaultBetween(st, i, j);
      assert !PairFault(st.contexts, i, j, MultipleDefaultContexts);
      assert !PairFault(st.contexts, i, j, MixedContextLocality);
    }
  }

  /** Slots in use from which no root is reached have parents of the same kind. */
  lemma UnrootedEndless(st: State, i: nat) returns (loop: set<nat>)
    requires InRange(st.contexts) && Linked(st.contexts) && Live(st.contexts, i) && !Rooted(st.contexts, i)
    ensures Endless(st.contexts, loop)
  {
    var cs := st.contexts;
    loop := set j: nat | j < |cs| && Live(cs, j) && !Rooted(cs, j);
    assert i in loop;
    forall j | j in loop ensures Live(cs, j) && cs[j].parent < |cs| && cs[j].parent in loop {
      UpUnrooted(cs, j);
    }
  }

  lemma UpUnrooted(cs: seq<Context>, j: nat)
    requires InRange(cs) && Linked(cs) && Live(cs, j) && !Rooted(cs, j)
    ensures cs[j].parent < |cs| && Live(cs, cs[j].parent) && !Rooted(cs, cs[j].parent)
  {
    assert ParentLinkOk(cs, j);
    if cs[j].parent == ROOT_INDEX {
      assert RootedIn(cs, j, 0);
    } else if Rooted(cs, cs[j].parent) {
      assert RootedIn(cs, j, Depth(cs, cs[j].parent) + 1);
    }
  }

  lemma RootsReached(st: State)
    requires InRange(st.contexts) && Faultless(st) && Linked(st.contexts)
    ensures forall i: nat :: Live(st.contexts, i) ==> Rooted(st.contexts, i)
  {
    hide Rooted, Linked, Endless;
    assert !Faulty(st, CyclesInTree);
    forall i: nat | Live(st.contexts, i) ensures Rooted(st.contexts, i) {
      if !Rooted(st.contexts, i) {
        var loop := UnrootedEndless(st, i);
        assert false;
      }
    }
  }

  lemma TypesClean(st: State)
    requires Faultless(st)
    ensures TypesUniform(st.contexts)
  {
    forall i: nat | Rooted(st.contexts, i) && st.contexts[i].parent != ROOT_INDEX
      ensures st.contexts[i].contextType == st.contexts[st.contexts[i].parent].contextType
    {
      TypeClean(st, i);
    }
  }

  lemma TypeClean(st: State, i: nat)
    requires Faultless(st) && Rooted(st.contexts, i) && st.contexts[i].parent != ROOT_INDEX
    ensures st.contexts[i].contextType == st.contexts[st.contexts[i].parent].contextType
  {
    ParentRooted(st.contexts, i);
    NoFaultAt(st, i);
    assert !SlotFault(st, i, MixedContextTypeConnectedComponents);
  }

  lemma NormalsClean(st: State)
    requires Faultless(st)
    ensures OneNormalTree(st.contexts)
  {
    forall i: nat, j: nat | NormalRoot(st.contexts, i) && NormalRoot(st.contexts, j) ensures i == j {
      NoFaultBetween(st, i, j);
      assert !PairFault(st.contexts, i, j, MultipleNormalConnectedComponents);
    }
  }

  /** Validity is the absence of all faults. */
  lemma ValidIffFaultless(st: State)
    requires InRange(st.contexts)
    ensures Valid(st) <==> Faultless(st)
  {
    hide SlotFault, PairFault, Endless, SlotOk, LocalityRule, Rooted, Linked, TypesUniform, OneNormalTree;
    if Valid(st) {
      forall e ensures !Faulty(st, e) {
        forall i ensures !SlotFault(st, i, e) {
          NoSlotFault(st, i, e);
        }
        forall i, j ensures !PairFault(st.contexts, i, j, e) {
          NoPairFault(st, i, j, e);
        }
        forall loop ensures !Endless(st.contexts, loop) {
          NoLoop(st, loop);
        }
      }
    }
    if Faultless(st) {
      assert !Faulty(st, InvalidMarker) && !Faulty(st, VersionMismatch);
      forall i: nat | i < |st.contexts| ensures SlotOk(st, i) {
        SlotClean(st, i);
      }
      SlotsLinked(st);
      HandlesClean(st);
      RootsReached(st);
      TypesClean(st);
      NormalsClean(st);
    }
  }

  // ----- what the search reports -----

  lemma MixedTypes(cs: seq<Context>)
    requires !TypesUniform(cs)
    ensures exists i: nat :: LinkFault(cs, i, MixedContextTypeConnectedComponents)
  {
    var i: nat :| Rooted(cs, i) && cs[i].parent != ROOT_INDEX && cs[i].contextType != cs[cs[i].parent].contextType;
    ParentRooted(cs, i);
    assert LinkFault(cs, i, MixedContextTypeConnectedComponents);
  }

  lemma TwoNormalTrees(cs: seq<Context>)
    requires !OneNormalTree(cs)
    ensures exists i: nat, j: nat :: PairFault(cs, i, j, MultipleNormalConnectedComponents)
  {
    var i: nat, j: nat :| NormalRoot(cs, i) && NormalRoot(cs, j) && i != j;
    assert PairFault(cs, i, j, MultipleNormalConnectedComponents);
  }
}
