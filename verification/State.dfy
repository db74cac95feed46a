/** The persistent DPE state, and what it means for it to be well formed. */
module States {
  import opened Contexts
  import opened Forest

  datatype Support = Support(
    simulation: bool,
    recursive: bool,
    autoInit: bool,
    rotateContext: bool,
    x509: bool,
    csr: bool,
    internalInfo: bool,
    internalDice: bool,
    retainParent: bool,
    cdiExport: bool)

  const MAGIC: u32 := 0x4450_4553
  const VERSION: u32 := 1

  /** `|contexts|` plays MAX_HANDLES and `tciSize` plays TCI_SIZE, both fixed when the program is built. */
  datatype State = State(
    marker: u32,
    version: u32,
    contexts: seq<Context>,
    support: Support,
    hasInitialized: bool,
    tciSize: nat)

  function NewState(slots: nat, support: Support, tciSize: nat): State {
    State(MAGIC, VERSION, seq(slots, _ => NewContext(tciSize)), support, false, tciSize)
  }

  // ----- per slot -----

  predicate SupportOk(st: State, c: Context) {
    && (c.contextType == Simulation ==> st.support.simulation)
    && (c.usesInternalDice ==> st.support.internalDice)
    && (c.usesInternalInfo ==> st.support.internalInfo)
    && (c.allowX509 && c.parent != ROOT_INDEX ==> st.support.x509)
  }

  predicate InactiveOk(st: State, c: Context) {
    && Detached(c)
    && c.tci == EmptyTci(st.tciSize)
    && !c.usesInternalDice && !c.allowX509 && !c.usesInternalInfo
  }

  predicate SlotOk(st: State, i: nat)
    requires i < |st.contexts|
  {
    var c := st.contexts[i];
    && SupportOk(st, c)
    && c.locality == c.tci.locality
    && match c.state
       case Inactive => InactiveOk(st, c)
       case Active => (c.contextType == Normal ==> st.hasInitialized) && ParentLinkOk(st.contexts, i)
           && ChildLinksOk(st.contexts, i)
       case Retired => ParentLinkOk(st.contexts, i) && ChildLinksOk(st.contexts, i) && c.children != {}
  }

  ghost predicate SlotsOk(st: State) {
    forall i: nat :: i < |st.contexts| ==> SlotOk(st, i)
  }

  // ----- across slots -----

  predicate ActiveIn(cs: seq<Context>, i: nat, locality: u32) {
    i < |cs| && cs[i].state == Active && cs[i].locality == locality
  }

  /** A default handle is the only active handle of its locality. */
  ghost predicate LocalityRule(cs: seq<Context>) {
    forall i: nat, j: nat :: i != j && i < |cs| && ActiveIn(cs, i, cs[i].locality) && ActiveIn(cs, j, cs[i].locality)
      ==> cs[i].handle != DEFAULT_HANDLE
  }

  ghost predicate TypesUniform(cs: seq<Context>) {
    forall i: nat :: Rooted(cs, i) && cs[i].parent != ROOT_INDEX ==> cs[i].contextType == cs[cs[i].parent].contextType
  }

  predicate NormalRoot(cs: seq<Context>, i: nat) {
    Live(cs, i) && cs[i].parent == ROOT_INDEX && cs[i].contextType == Normal
  }

  ghost predicate OneNormalTree(cs: seq<Context>) {
    forall i: nat, j: nat :: NormalRoot(cs, i) && NormalRoot(cs, j) ==> i == j
  }

  ghost predicate TreesOk(cs: seq<Context>) {
    && (forall i: nat :: Live(cs, i) ==> Rooted(cs, i))
    && TypesUniform(cs)
    && OneNormalTree(cs)
  }

  /** Everything but the rule on handles per locality. */
  ghost predicate WellFormed(st: State) {
    && InRange(st.contexts)
    && st.marker == MAGIC && st.version == VERSION
    && SlotsOk(st)
    && TreesOk(st.contexts)
  }

  ghost predicate Valid(st: State) {
    WellFormed(st) && LocalityRule(st.contexts)
  }

  lemma SlotsLinked(st: State)
    requires InRange(st.contexts) && SlotsOk(st)
    ensures Linked(st.contexts)
  {
    forall i: nat | i < |st.contexts|
      ensures if Live(st.contexts, i) then ParentLinkOk(st.contexts, i) && ChildLinksOk(st.contexts, i)
          else Detached(st.contexts[i])
    {
      assert SlotOk(st, i);
    }
  }

  lemma WellFormedForest(st: State)
    requires WellFormed(st)
    ensures IsForest(st.contexts)
  {
    SlotsLinked(st);
  }
}
