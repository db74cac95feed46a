/** The validator: an executable check that decides `States.Valid`. */
module Validation {
  import opened Bitmap
  import opened Contexts
  import opened Forest
  import opened States
  import opened Faults

  type Check = Result<(), ValidationError>

  // ----- per-slot checks -----

  method CheckSupport(st: State, c: Context) returns (r: Check)
    ensures r.Ok? <==> SupportOk(st, c)
    ensures r.Err? ==> forall i: nat :: i < |st.contexts| && st.contexts[i] == c ==> SlotFault(st, i, r.error)
  {
    if !st.support.simulation && c.contextType == Simulation {
      return Err(SimulationNotSupported);
    }
    if !st.support.internalDice && c.usesInternalDice {
      return Err(InternalDiceNotSupported);
    }
    if !st.support.internalInfo && c.usesInternalInfo {
      return Err(InternalInfoNotSupported);
    }
    if c.parent != ROOT_INDEX && !st.support.x509 && c.allowX509 {
      return Err(AllowX509NotSupported);
    }
    return Ok(());
  }

  method ValidateInactiveContext(st: State, c: Context) returns (r: Check)
    ensures r.Ok? <==> InactiveOk(st, c)
    ensures r.Err? ==>
      forall i: nat :: i < |st.contexts| && st.contexts[i] == c && c.state == Inactive ==> SlotFault(st, i, r.error)
  {
    ZeroIff(c.tci.cumulative, st.tciSize);
    ZeroIff(c.tci.current, st.tciSize);
    if c.parent != ROOT_INDEX {
      return Err(InactiveContextInvalidParent);
    } else if c.children != {} {
      return Err(InactiveContextWithChildren);
    } else if c.tci != EmptyTci(st.tciSize) {
      return Err(InactiveContextWithMeasurement);
    } else if c.usesInternalDice || c.allowX509 || c.usesInternalInfo {
      return Err(InactiveContextWithFlagSet);
    } else {
      return Ok(());
    }
  }

  method CheckChildrenAndParent(cs: seq<Context>, idx: nat) returns (r: Check)
    requires InRange(cs)
    ensures r.Ok? <==> idx < |cs| && ParentLinkOk(cs, idx) && ChildLinksOk(cs, idx)
    ensures r.Err? && Live(cs, idx) ==> LinkFault(cs, idx, r.error)
  {
    hide Ascending;
    if idx >= |cs| {
      return Err(BadContextState);
    }
    var c := cs[idx];
    var kids := Ascending(c.children, 0, 64);
    AscendingSpec(c.children, 0, 64);
    if c.parent >= |cs| && c.parent != ROOT_INDEX {
      return Err(ParentDoesNotExist);
    }
    if c.parent != ROOT_INDEX {
      var p := cs[c.parent];
      if p.state == Inactive {
        return Err(InactiveParent);
      }
      if idx !in p.children {
        return Err(ParentChildLinksCorrupted);
      }
    }
    for k := 0 to |kids|
      invariant forall j :: 0 <= j < k ==> Live(cs, kids[j]) && cs[kids[j]].parent == idx
    {
      assert kids[k] in kids;
      if kids[k] >= |cs| {
        return Err(ChildDoesNotExist);
      }
      var child := cs[kids[k]];
      if child.state == Inactive {
        return Err(InactiveChild);
      }
      if child.parent != idx {
        return Err(ParentChildLinksCorrupted);
      }
    }
    return Ok(());
  }

  // ----- handles per locality -----

  ghost predicate SharedDefault(cs: seq<Context>, k: nat, locality: u32) {
    exists i: nat, j: nat :: i != j && i < k && j < k && ActiveIn(cs, i, locality) && ActiveIn(cs, j, locality)
      && cs[i].handle == DEFAULT_HANDLE
  }

  method CheckContextHandlesPerLocality(cs: seq<Context>) returns (r: Check)
    ensures r.Ok? <==> LocalityRule(cs)
    ensures r.Err? ==> exists i: nat, j: nat :: PairFault(cs, i, j, r.error)
  {
    for l := 0 to |cs|
      invariant forall m :: 0 <= m < l ==> !SharedDefault(cs, |cs|, cs[m].locality)
    {
      var locality := cs[l].locality;
      var defaultCount, nonDefaultCount := 0, 0;
      ghost var firstDefault, firstOther := 0, 0;
      for k := 0 to |cs|
        invariant 0 <= defaultCount <= 1 && 0 <= nonDefaultCount && (defaultCount == 0 || nonDefaultCount == 0)
        invariant defaultCount == 1 ==>
            firstDefault < k && ActiveIn(cs, firstDefault, locality) && cs[firstDefault].handle == DEFAULT_HANDLE
        invariant nonDefaultCount > 0 ==>
            firstOther < k && ActiveIn(cs, firstOther, locality) && cs[firstOther].handle != DEFAULT_HANDLE
        invariant forall j: nat :: j < k && ActiveIn(cs, j, locality) ==>
          if cs[j].handle == DEFAULT_HANDLE then defaultCount == 1 && j == firstDefault else nonDefaultCount > 0
      {
        var c := cs[k];
        ghost var before := defaultCount;
        if c.locality == locality && c.state == Active {
          assert ActiveIn(cs, k, locality);
          if c.handle == DEFAULT_HANDLE {
            defaultCount := defaultCount + 1;
          } else {
            nonDefaultCount := nonDefaultCount + 1;
            firstOther := k;
          }
        }
        if defaultCount > 1 {
          assert SharedDefault(cs, |cs|, locality);
          RuleBroken(cs, locality);
          assert PairFault(cs, firstDefault, k, MultipleDefaultContexts);
          return Err(MultipleDefaultContexts);
        }
        if defaultCount > before {
          firstDefault := k;
        }
        if defaultCount > 0 && nonDefaultCount > 0 {
          assert SharedDefault(cs, |cs|, locality);
          RuleBroken(cs, locality);
          assert PairFault(cs, firstDefault, firstOther, MixedContextLocality);
          return Err(MixedContextLocality);
        }
      }
    }
    forall i: nat, j: nat | i != j && i < |cs| && ActiveIn(cs, i, cs[i].locality) && ActiveIn(cs, j, cs[i].locality)
      ensures cs[i].handle != DEFAULT_HANDLE
    {
      assert !SharedDefault(cs, |cs|, cs[i].locality);
    }
    return Ok(());
  }

  lemma RuleBroken(cs: seq<Context>, locality: u32)
    requires SharedDefault(cs, |cs|, locality)
    ensures !LocalityRule(cs)
  {}

  // ----- all checks that look at one slot and its neighbours -----

  method ValidateDpeState(st: State) returns (r: Check)
    requires InRange(st.contexts)
    ensures r.Ok? <==> st.marker == MAGIC && st.version == VERSION && SlotsOk(st) && LocalityRule(st.contexts)
    ensures r.Err? ==> Faulty(st, r.error)
  {
    hide SlotFault, LinkFault, PairFault;
    if st.marker != MAGIC {
      return Err(InvalidMarker);
    }
    if st.version != VERSION {
      return Err(VersionMismatch);
    }
    for i := 0 to |st.contexts|
      invariant forall j: nat :: j < i ==> SlotOk(st, j)
    {
      var c := st.contexts[i];
      assert SlotsOk(st) ==> SlotOk(st, i);
      r := CheckSupport(st, c);
      if r.Err? {
        SlotFaulty(st, i, r.error);
        return;
      }
      match c.state {
        case Inactive =>
          r := ValidateInactiveContext(st, c);
          if r.Err? {
            SlotFaulty(st, i, r.error);
          }
        case Active =>
          if c.contextType == Normal && !st.hasInitialized {
            NotMarked(st, i);
            return Err(DpeNotMarkedInitialized);
          }
          r := CheckChildrenAndParent(st.contexts, i);
          if r.Err? {
            LinkFaulty(st, i, r.error);
          }
        case Retired =>
          r := CheckChildrenAndParent(st.contexts, i);
          if r.Err? {
            LinkFaulty(st, i, r.error);
          } else {
            var kids := Ascending(c.children, 0, |st.contexts|);
            AscendingSpec(c.children, 0, |st.contexts|);
            NonemptyListed(c.children, kids, |st.contexts|);
            if |kids| == 0 {
              Dangling(st, i);
              return Err(DanglingRetiredContext);
            }
          }
      }
      if r.Err? {
        return;
      }
      if c.locality != c.tci.locality {
        OtherLocality(st, i);
        return Err(LocalityMismatch);
      }
    }
    r := CheckContextHandlesPerLocality(st.contexts);
    if r.Err? {
      ghost var i: nat, j: nat :| PairFault(st.contexts, i, j, r.error);
      PairFaulty(st, i, j, r.error);
    }
  }

  lemma NonemptyListed(s: Children, kids: seq<nat>, n: nat)
    requires forall c :: c in s ==> c < n
    requires forall c :: c in kids <==> 0 <= c < n && c in s
    ensures kids == [] <==> s == {}
  {
    if s != {} {
      var c :| c in s;
      assert c in kids;
    }
    if kids != [] {
      assert kids[0] in kids;
    }
  }

  // ----- depth-first search -----

  ghost function SeenSet(seen: seq<bool>): set<nat> {
    set j | j in Range(|seen|) && seen[j]
  }

  ghost predicate AllOfType(cs: seq<Context>, s: set<nat>, t: ContextType) {
    forall w :: w in s ==> w < |cs| && cs[w].contextType == t
  }

  /** The situation in which the search is started: nothing below `i` was visited. */
  ghost predicate Fresh(cs: seq<Context>, i: nat, seen: set<nat>) {
    Linked(cs) && Rooted(cs, i) && Subtree(cs, i) !! seen
  }

  /** What a search started in a fresh subtree does: it visits exactly the subtree, or finds a foreign type in it. */
  ghost predicate Visits(cs: seq<Context>, i: nat, t: ContextType, before: set<nat>, after: set<nat>, r: Check) {
    Fresh(cs, i, before) ==>
      if r.Ok? then after == before + Subtree(cs, i) && AllOfType(cs, Subtree(cs, i), t)
      else r == Err(MixedContextTypeConnectedComponents) && !AllOfType(cs, Subtree(cs, i), t)
  }

  /** The same, with only the children `kids` done. */
  ghost predicate VisitsSome(cs: seq<Context>, i: nat, t: ContextType, before: set<nat>, after: set<nat>,
      kids: seq<nat>) {
    Fresh(cs, i, before) ==>
      after == before + {i} + Subtrees(cs, kids) && AllOfType(cs, {i} + Subtrees(cs, kids), t)
  }

  method DetectInvalidSubtree(cs: seq<Context>, i: nat, seen: array<bool>, t: ContextType) returns (r: Check)
    requires InRange(cs) && seen.Length == |cs|
    modifies seen
    ensures SeenSet(old(seen[..])) <= SeenSet(seen[..])
    ensures r.Ok? ==> i < |cs| && i in SeenSet(seen[..])
    ensures Visits(cs, i, t, SeenSet(old(seen[..])), SeenSet(seen[..]), r)
    decreases Range(|cs|) - SeenSet(seen[..])
  {
    hide SeenSet, Linked, Subtree, Rooted, Above, Fresh, Visits, VisitsSome;
    ghost var before := SeenSet(seen[..]);
    FreshStart(cs, i, t, before);
    if i >= |cs| {
      return Err(BadContextState);
    }
    var c := cs[i];
    SeenAt(seen[..], i);
    if c.state == Inactive || seen[i] {
      return Err(CyclesInTree);
    }
    if c.contextType != t {
      return Err(MixedContextTypeConnectedComponents);
    }
    ghost var was := seen[..];
    seen[i] := true;
    assert seen[..] == was[i := true];
    ghost var now := before + {i};
    var kids := Ascending(c.children, 0, |cs|);
    for k := 0 to |kids|
      invariant now == SeenSet(seen[..]) && before + {i} <= now
      invariant VisitsSome(cs, i, t, before, now, kids[..k])
    {
      ghost var start := now;
      r := DetectInvalidSubtree(cs, kids[k], seen, t);
      now := SeenSet(seen[..]);
      NextChild(cs, i, t, before, start, now, kids, k, r);
      if r.Err? {
        return;
      }
    }
    AllChildren(cs, i, t, before, now, kids);
    return Ok(());
  }

  lemma SeenAt(seen: seq<bool>, i: nat)
    requires i < |seen|
    ensures seen[i] <==> i in SeenSet(seen)
    ensures SeenSet(seen[i := true]) == SeenSet(seen) + {i}
    ensures i in Range(|seen|) && SeenSet(seen) <= Range(|seen|)
  {}

  lemma FreshStart(cs: seq<Context>, i: nat, t: ContextType, before: set<nat>)
    ensures !Live(cs, i) || i in before ==> forall r: Check :: Visits(cs, i, t, before, before, r)
    ensures i < |cs| && cs[i].contextType != t ==>
        Visits(cs, i, t, before, before, Err(MixedContextTypeConnectedComponents))
    ensures i < |cs| && cs[i].contextType == t ==> VisitsSome(cs, i, t, before, before + {i}, [])
  {
    if Fresh(cs, i, before) {
      SubtreeSplit(cs, i);
    }
  }

  lemma NextChild(cs: seq<Context>, i: nat, t: ContextType, before: set<nat>, start: set<nat>, now: set<nat>,
                  kids: seq<nat>, k: nat, r: Check)
    requires i < |cs| && kids == Ascending(cs[i].children, 0, |cs|) && k < |kids|
    requires VisitsSome(cs, i, t, before, start, kids[..k])
    requires Visits(cs, kids[k], t, start, now, r)
    ensures r.Ok? ==> VisitsSome(cs, i, t, before, now, kids[..k + 1])
    ensures r.Err? ==> Visits(cs, i, t, before, now, r)
  {
    hide Linked, Subtree, Rooted, Above;
    if Fresh(cs, i, before) {
      FreshChild(cs, i, kids, k, before);
      assert kids[..k + 1][..k] == kids[..k];
      assert Subtrees(cs, kids[..k + 1]) == Subtrees(cs, kids[..k]) + Subtree(cs, kids[k]);
    }
  }

  lemma AllChildren(cs: seq<Context>, i: nat, t: ContextType, before: set<nat>, now: set<nat>, kids: seq<nat>)
    requires i < |cs| && kids == Ascending(cs[i].children, 0, |cs|)
    requires VisitsSome(cs, i, t, before, now, kids[..|kids|])
    ensures Visits(cs, i, t, before, now, Ok(()))
  {
    assert kids[..|kids|] == kids;
    if Fresh(cs, i, before) {
      SubtreeSplit(cs, i);
    }
  }

  /** After some children are done, the next one is still fresh. */
  lemma FreshChild(cs: seq<Context>, i: nat, kids: seq<nat>, k: nat, seen: set<nat>)
    requires Fresh(cs, i, seen) && kids == Ascending(cs[i].children, 0, |cs|) && k < |kids|
    ensures Fresh(cs, kids[k], seen + {i} + Subtrees(cs, kids[..k]))
    ensures Subtree(cs, kids[k]) <= Subtree(cs, i)
  {
    SubtreeSplit(cs, i);
    AscendingSpec(cs[i].children, 0, |cs|);
    AscendingSorted(cs[i].children, 0, |cs|);
    assert kids[k] in kids;
    ChildRooted(cs, i, kids[k]);
    forall w | w in Subtree(cs, kids[k])
      ensures w in Subtree(cs, i) && w != i && w !in Subtrees(cs, kids[..k])
    {
      SubtreesMember(cs, kids, w);
      SubtreesMember(cs, kids[..k], w);
      AboveFacts(cs, kids[k], w);
      if w in Subtrees(cs, kids[..k]) {
        var v :| v in kids[..k] && w in Subtree(cs, v);
        assert v in kids;
        ChildRooted(cs, i, v);
        SubtreesDisjoint(cs, v, kids[k]);
      }
    }
  }

  // ----- the whole forest -----

  predicate RootAt(cs: seq<Context>, i: nat) {
    Live(cs, i) && cs[i].parent == ROOT_INDEX
  }

  ghost predicate HasParentBefore(cs: seq<Context>, c: nat, i: nat) {
    Live(cs, c) && cs[c].parent != ROOT_INDEX && cs[c].parent < i
  }

  /** The slots in the trees of the roots below `n`. */
  ghost function TreesBelow(cs: seq<Context>, n: nat): set<nat> {
    set w | w in Range(|cs|) && exists r: nat :: r < n && RootAt(cs, r) && Above(cs, r, w)
  }

  /** What each verdict on a linked array means. */
  ghost predicate ForestVerdict(cs: seq<Context>, r: Check) {
    match r
    case Ok(_) => TreesOk(cs)
    case Err(e) =>
      || (e == MixedContextTypeConnectedComponents && !TypesUniform(cs))
      || (e == MultipleNormalConnectedComponents && !OneNormalTree(cs))
      || (e == CyclesInTree && exists i: nat :: Live(cs, i) && !Rooted(cs, i))
  }

  lemma RootIsRooted(cs: seq<Context>, i: nat)
    requires RootAt(cs, i)
    ensures Rooted(cs, i) && Depth(cs, i) == 0
  {
    DepthIs(cs, i, 0);
  }

  lemma {:induction false} RootOf(cs: seq<Context>, w: nat) returns (r: nat)
    requires Rooted(cs, w)
    ensures RootAt(cs, r) && Above(cs, r, w)
    ensures TypesUniform(cs) ==> cs[w].contextType == cs[r].contextType
    decreases Depth(cs, w)
  {
    if cs[w].parent == ROOT_INDEX {
      r := w;
    } else {
      ParentRooted(cs, w);
      r := RootOf(cs, cs[w].parent);
    }
  }

  lemma RootUnique(cs: seq<Context>, r: nat, s: nat, w: nat)
    requires RootAt(cs, r) && RootAt(cs, s) && Above(cs, r, w) && Above(cs, s, w)
    ensures r == s
  {
    RootIsRooted(cs, r);
    RootIsRooted(cs, s);
    AboveComparable(cs, r, s, w);
  }

  /** A search may start at the next root: it is fresh. */
  lemma NextRoot(cs: seq<Context>, i: nat)
    requires Linked(cs) && RootAt(cs, i)
    ensures Fresh(cs, i, TreesBelow(cs, i))
    ensures TreesBelow(cs, i + 1) == TreesBelow(cs, i) + Subtree(cs, i)
  {
    RootIsRooted(cs, i);
    forall w | w in Subtree(cs, i) ensures w !in TreesBelow(cs, i) {
      if w in TreesBelow(cs, i) {
        var r: nat :| r < i && RootAt(cs, r) && Above(cs, r, w);
        RootUnique(cs, r, i, w);
      }
    }
  }

  lemma TreeUniform(cs: seq<Context>, i: nat)
    requires RootAt(cs, i) && TypesUniform(cs)
    ensures AllOfType(cs, Subtree(cs, i), cs[i].contextType)
  {
    forall w | w in Subtree(cs, i) ensures cs[w].contextType == cs[i].contextType {
      var r := RootOf(cs, w);
      RootUnique(cs, r, i, w);
    }
  }

  method CountInDegrees(cs: seq<Context>) returns (inDegree: array<nat>)
    requires InRange(cs)
    ensures fresh(inDegree) && inDegree.Length == |cs|
    ensures Linked(cs) ==> forall c: nat :: c < |cs| ==> inDegree[c] == if HasParentBefore(cs, c, |cs|) then 1 else 0
  {
    inDegree := new nat[|cs|](_ => 0);
    for i := 0 to |cs|
      invariant Linked(cs) ==> forall c: nat :: c < |cs| ==> inDegree[c] == if HasParentBefore(cs, c, i) then 1 else 0
    {
      var kids := Ascending(cs[i].children, 0, |cs|);
      AscendingSpec(cs[i].children, 0, |cs|);
      AscendingSorted(cs[i].children, 0, |cs|);
      ghost var before := inDegree[..];
      for k := 0 to |kids|
        invariant forall c: nat :: c < |cs| ==> inDegree[c] == if c in kids[..k] then before[c] + 1 else before[c]
      {
        assert kids[k] in kids;
        inDegree[kids[k]] := inDegree[kids[k]] + 1;
      }
      assert kids[..|kids|] == kids;
      if Linked(cs) {
        forall c: nat | c < |cs| ensures c in kids <==> Live(cs, c) && cs[c].parent == i {}
      }
    }
  }

  /** Progress of the search over the roots below `n`. */
  ghost predicate Searched(cs: seq<Context>, n: nat, seen: set<nat>) {
    && seen == TreesBelow(cs, n)
    && forall r: nat :: r < n && RootAt(cs, r) ==> AllOfType(cs, Subtree(cs, r), cs[r].contextType)
  }

  /** `normals` are exactly the Normal roots below `i`, in order. */
  ghost predicate NormalsBelow(cs: seq<Context>, i: nat, normals: seq<nat>) {
    && (forall k :: 0 <= k < |normals| ==> normals[k] < i && NormalRoot(cs, normals[k]))
    && (forall j, k :: 0 <= j < k < |normals| ==> normals[j] < normals[k])
    && (forall v: nat :: v < i && NormalRoot(cs, v) ==> v in normals)
  }

  /** One more tree has been searched. */
  lemma SearchTree(cs: seq<Context>, i: nat, before: set<nat>, after: set<nat>, r: Check, normals: seq<nat>)
    requires Linked(cs) && Searched(cs, i, before) && RootAt(cs, i) && NormalsBelow(cs, i, normals)
    requires Visits(cs, i, cs[i].contextType, before, after, r)
    ensures r.Ok? ==> Searched(cs, i + 1, after)
    ensures r.Err? ==> ForestVerdict(cs, r)
    ensures NormalsBelow(cs, i + 1, if cs[i].contextType == Normal then normals + [i] else normals)
  {
    hide Linked, Subtree, Rooted, Above, TypesUniform;
    NextRoot(cs, i);
    NextNormal(cs, i, normals);
    if r.Err? && TypesUniform(cs) {
      TreeUniform(cs, i);
    }
  }

  lemma StartSearch(cs: seq<Context>)
    ensures Searched(cs, 0, {}) && NormalsBelow(cs, 0, [])
  {}

  lemma SkipSlot(cs: seq<Context>, i: nat, seen: set<nat>, normals: seq<nat>)
    requires Searched(cs, i, seen) && !RootAt(cs, i) && NormalsBelow(cs, i, normals)
    ensures Searched(cs, i + 1, seen) && NormalsBelow(cs, i + 1, normals)
  {
    assert TreesBelow(cs, i + 1) == TreesBelow(cs, i);
    NextNormal(cs, i, normals);
  }

  lemma AllSearched(cs: seq<Context>, seen: set<nat>, normals: seq<nat>)
    requires Linked(cs) && Searched(cs, |cs|, seen) && NormalsBelow(cs, |cs|, normals)
    ensures SearchOutcome(cs, Ok(()), seen, |normals|)
  {
    NormalsCounted(cs, normals);
    forall w: nat | Rooted(cs, w) ensures w in seen {
      var r := RootOf(cs, w);
    }
    forall w: nat | Rooted(cs, w) && cs[w].parent != ROOT_INDEX
      ensures cs[w].contextType == cs[cs[w].parent].contextType
    {
      ParentRooted(cs, w);
      var p := cs[w].parent;
      var r := RootOf(cs, p);
      assert PathUp(cs, w) == [w] + PathUp(cs, p);
      assert w in Subtree(cs, r) && p in Subtree(cs, r);
    }
  }

  lemma NextNormal(cs: seq<Context>, i: nat, normals: seq<nat>)
    requires NormalsBelow(cs, i, normals)
    ensures NormalsBelow(cs, i + 1, if NormalRoot(cs, i) then normals + [i] else normals)
  {
    hide NormalRoot;
    var more := if NormalRoot(cs, i) then normals + [i] else normals;
    forall v: nat | v < i + 1 && NormalRoot(cs, v) ensures v in more {
      if v == i {
        assert more[|normals|] == i;
      } else {
        assert v in normals;
      }
    }
  }

  lemma NormalsCounted(cs: seq<Context>, normals: seq<nat>)
    requires NormalsBelow(cs, |cs|, normals)
    ensures OneNormalTree(cs) <==> |normals| <= 1
  {
    if |normals| > 1 {
      assert NormalRoot(cs, normals[0]) && NormalRoot(cs, normals[1]);
    }
  }

  method CheckInDegrees(inDegree: seq<nat>) returns (r: Check)
    ensures r == if forall c :: 0 <= c < |inDegree| ==> inDegree[c] <= 1 then Ok(()) else Err(ChildWithMultipleParents)
  {
    for c := 0 to |inDegree|
      invariant forall d :: 0 <= d < c ==> inDegree[d] <= 1
    {
      if inDegree[c] > 1 {
        return Err(ChildWithMultipleParents);
      }
    }
    return Ok(());
  }

  method CheckAllVisited(cs: seq<Context>, seen: seq<bool>) returns (r: Check)
    requires |seen| == |cs|
    ensures r == if forall i: nat :: Live(cs, i) ==> seen[i] then Ok(()) else Err(CyclesInTree)
  {
    for i := 0 to |cs|
      invariant forall j: nat :: j < i && Live(cs, j) ==> seen[j]
    {
      if cs[i].state != Inactive && !seen[i] {
        return Err(CyclesInTree);
      }
    }
    return Ok(());
  }

  /** What the search over all roots leaves behind, on a linked array. */
  ghost predicate SearchOutcome(cs: seq<Context>, r: Check, seen: set<nat>, normalTrees: nat) {
    if r.Err? then ForestVerdict(cs, r)
    else
      && TypesUniform(cs)
      && (forall w: nat :: w in seen <==> Rooted(cs, w))
      && (OneNormalTree(cs) <==> normalTrees <= 1)
  }

  lemma NoneSeen(seen: seq<bool>)
    requires forall i :: 0 <= i < |seen| ==> !seen[i]
    ensures SeenSet(seen) == {}
  {}

  lemma FailedSearch(cs: seq<Context>, r: Check, seen: set<nat>, normalTrees: nat)
    requires r.Err? && ForestVerdict(cs, r)
    ensures SearchOutcome(cs, r, seen, normalTrees)
  {}

  method SearchTrees(cs: seq<Context>, inDegree: seq<nat>) returns (r: Check, seen: array<bool>, normalTrees: nat)
    requires InRange(cs) && |inDegree| == |cs|
    requires Linked(cs) ==> forall c: nat :: c < |cs| ==> (inDegree[c] == 0 && Live(cs, c) <==> RootAt(cs, c))
    ensures fresh(seen) && seen.Length == |cs|
    ensures Linked(cs) ==> SearchOutcome(cs, r, SeenSet(seen[..]), normalTrees)
  {
    hide Linked, SeenSet, Searched, NormalsBelow, Visits, ForestVerdict, TypesUniform, OneNormalTree, Rooted;
    hide SearchOutcome;
    ghost var linked := Linked(cs);
    seen := new bool[|cs|](_ => false);
    ghost var found := SeenSet(seen[..]);
    NoneSeen(seen[..]);
    StartSearch(cs);
    normalTrees := 0;
    ghost var normals: seq<nat> := [];
    for i := 0 to |cs|
      invariant found == SeenSet(seen[..])
      invariant linked ==> Searched(cs, i, found)
      invariant linked ==> NormalsBelow(cs, i, normals)
      invariant normalTrees == |normals|
    {
      if inDegree[i] == 0 && cs[i].state != Inactive {
        var t := cs[i].contextType;
        ghost var before, normalsBefore := found, normals;
        if t == Normal {
          normalTrees := normalTrees + 1;
          normals := normals + [i];
        }
        r := DetectInvalidSubtree(cs, i, seen, t);
        found := SeenSet(seen[..]);
        if linked {
          SearchTree(cs, i, before, found, r, normalsBefore);
        }
        if r.Err? {
          if linked {
            FailedSearch(cs, r, found, normalTrees);
          }
          return;
        }
      } else if linked {
        SkipSlot(cs, i, found, normals);
      }
    }
    r := Ok(());
    if linked {
      AllSearched(cs, found, normals);
    }
  }

  method ValidateContextForest(cs: seq<Context>) returns (r: Check)
    requires InRange(cs)
    ensures Linked(cs) ==> ForestVerdict(cs, r)
  {
    var degrees := CountInDegrees(cs);
    var inDegree := degrees[..];
    r := CheckInDegrees(inDegree);
    if r.Err? {
      return;
    }
    var seen, normalTrees;
    r, seen, normalTrees := SearchTrees(cs, inDegree);
    if r.Err? {
      return;
    }
    if normalTrees > 1 {
      return Err(MultipleNormalConnectedComponents);
    }
    r := CheckAllVisited(cs, seen[..]);
  }

  /** On a linked array, the search reports a fault that is there. */
  lemma VerdictTrue(st: State, r: Check)
    requires Linked(st.contexts) && r.Err? && ForestVerdict(st.contexts, r)
    ensures Faulty(st, r.error)
  {
    hide Linked, TypesUniform, OneNormalTree, Rooted, Endless, PairFault, LinkFault, SlotFault, Faulty;
    var cs, e := st.contexts, r.error;
    if e == MixedContextTypeConnectedComponents && !TypesUniform(cs) {
      MixedTypes(cs);
      var i: nat :| LinkFault(cs, i, e);
      LinkFaulty(st, i, e);
    } else if e == MultipleNormalConnectedComponents && !OneNormalTree(cs) {
      TwoNormalTrees(cs);
      var i: nat, j: nat :| PairFault(cs, i, j, e);
      PairFaulty(st, i, j, e);
    } else {
      assert InRange(cs) by { LinkedInRange(cs); }
      var i: nat :| Live(cs, i) && !Rooted(cs, i);
      var loop := UnrootedEndless(st, i);
      EndlessFaulty(st, loop);
    }
  }

  lemma LinkedInRange(cs: seq<Context>)
    requires Linked(cs)
    ensures InRange(cs)
  {}

  /** The validator accepts exactly the valid states, which are those without any fault, and otherwise reports a fault
      that the state has. */
  method ValidateDpe(st: State) returns (r: Result<(), Error>)
    requires InRange(st.contexts)
    ensures r.Ok? <==> Valid(st)
    ensures r.Ok? <==> Faultless(st)
    ensures r.Err? ==> r.error.Validation? && Faulty(st, r.error.why)
  {
    ValidIffFaultless(st);
    var slots := ValidateDpeState(st);
    if slots.Err? {
      return Err(Error.Validation(slots.error));
    }
    SlotsLinked(st);
    var trees := ValidateContextForest(st.contexts);
    if trees.Err? {
      VerdictTrue(st, trees);
      return Err(Error.Validation(trees.error));
    }
    return Ok(());
  }
}
