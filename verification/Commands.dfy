/** What each DPE command does to the state: one function from machine to outcome per command. */
module Commands {
  import opened Bitmap
  import opened Contexts
  import opened Forest
  import opened States
  import opened Destruction

  /** The `n`-th call of the random source, and the hash of two concatenated digests; either may fail. */
  datatype Env = Env(draw: nat -> Option<Handle>, hash: (Digest, Digest) -> Option<Digest>)

  /** The state, and how often the random source was called. */
  datatype Machine = Machine(st: State, drawn: nat)

  datatype Response =
    | NewHandleResp(handle: Handle)
    | DeriveContextResp(handle: Handle, parentHandle: Handle)
    | ExportedCdiResp(parentHandle: Handle, certSize: nat)
    | CertifyKeyResp(handle: Handle, certSize: nat)
    | SignResp(handle: Handle)
    | DestroyResp
    | UpdateResp(handle: Handle, parentHandle: Handle)

  datatype Outcome = Outcome(m: Machine, result: Result<Response, Error>)

  function Reject(m: Machine, e: Error): Outcome {
    Outcome(m, Err(e))
  }

  /** The response is written last; the state change before it stays even when the buffer is too small. */
  function Respond(m: Machine, r: Response, fits: bool): Outcome {
    Outcome(m, if fits then Ok(r) else Err(InvalidResponseBuf))
  }

  // ----- lookup -----

  /** The first active context at or after `k` with this handle and locality, or `|cs|`. */
  function FirstMatch(cs: seq<Context>, h: Handle, locality: u32, k: nat): nat
    requires k <= |cs|
    decreases |cs| - k
  {
    if k == |cs| || (ActiveIn(cs, k, locality) && cs[k].handle == h) then k else FirstMatch(cs, h, locality, k + 1)
  }

  predicate LocalityInUse(cs: seq<Context>, locality: u32) {
    exists i :: 0 <= i < |cs| && ActiveIn(cs, i, locality)
  }

  /** The position of the active context that `h` names in `locality`. */
  function ActivePos(cs: seq<Context>, h: Handle, locality: u32): Result<nat, Error> {
    if !LocalityInUse(cs, locality) then Err(InvalidLocality)
    else if FirstMatch(cs, h, locality, 0) == |cs| then Err(InvalidHandle)
    else Ok(FirstMatch(cs, h, locality, 0))
  }

  function NextInactive(cs: seq<Context>, k: nat): Option<nat>
    requires k <= |cs|
    decreases |cs| - k
  {
    if k == |cs| then None else if cs[k].state == Inactive then Some(k) else NextInactive(cs, k + 1)
  }

  function CountActive(cs: seq<Context>, locality: u32, k: nat): nat
    requires k <= |cs|
  {
    if k == 0 then 0 else CountActive(cs, locality, k - 1) + if ActiveIn(cs, k - 1, locality) then 1 else 0
  }

  lemma {:induction false} FirstMatchSpec(cs: seq<Context>, h: Handle, locality: u32, k: nat)
    requires k <= |cs|
    ensures k <= FirstMatch(cs, h, locality, k) <= |cs|
    ensures FirstMatch(cs, h, locality, k) < |cs| ==>
      ActiveIn(cs, FirstMatch(cs, h, locality, k), locality) && cs[FirstMatch(cs, h, locality, k)].handle == h
    ensures forall j :: k <= j < FirstMatch(cs, h, locality, k) ==> !(ActiveIn(cs, j, locality) && cs[j].handle == h)
    decreases |cs| - k
  {
    if k < |cs| && !(ActiveIn(cs, k, locality) && cs[k].handle == h) {
      FirstMatchSpec(cs, h, locality, k + 1);
    }
  }

  lemma ActivePosFacts(cs: seq<Context>, h: Handle, locality: u32)
    ensures ActivePos(cs, h, locality).Ok? <==> exists j ::
        0 <= j < |cs| && ActiveIn(cs, j, locality) && cs[j].handle == h
    ensures ActivePos(cs, h, locality).Ok? ==>
      ActiveIn(cs, ActivePos(cs, h, locality).value, locality) && cs[ActivePos(cs, h, locality).value].handle == h
  {
    FirstMatchSpec(cs, h, locality, 0);
  }

  /** The lookup finds the first match, or tells whether it was the locality or the handle that matched nothing. */
  lemma ActivePosSpec(cs: seq<Context>, h: Handle, locality: u32)
    ensures match ActivePos(cs, h, locality)
            case Ok(i) =>
              && i < |cs| && ActiveIn(cs, i, locality) && cs[i].handle == h
              && forall j: nat :: j < i ==> !(ActiveIn(cs, j, locality) && cs[j].handle == h)
            case Err(e) =>
              && (forall j: nat :: j < |cs| && ActiveIn(cs, j, locality) ==> cs[j].handle != h)
              && e == if exists j: nat :: j < |cs| && ActiveIn(cs, j, locality) then InvalidHandle else InvalidLocality
  {
    FirstMatchSpec(cs, h, locality, 0);
  }

  lemma {:induction false} NextInactiveSpec(cs: seq<Context>, k: nat)
    requires k <= |cs|
    ensures match NextInactive(cs, k)
            case None => forall j :: k <= j < |cs| ==> cs[j].state != Inactive
            case Some(i) => k <= i < |cs| && cs[i].state == Inactive && forall j :: k <= j < i ==>
                cs[j].state != Inactive
    decreases |cs| - k
  {
    if k < |cs| && cs[k].state != Inactive {
      NextInactiveSpec(cs, k + 1);
    }
  }

  ghost function ActiveBefore(cs: seq<Context>, locality: u32, k: nat): set<nat> {
    set j | j in Range(k) && ActiveIn(cs, j, locality)
  }

  lemma OneMoreActive(cs: seq<Context>, locality: u32, k: nat)
    requires 0 < k <= |cs|
    ensures var before := ActiveBefore(cs, locality, k - 1);
            && k - 1 !in before
            && ActiveBefore(cs, locality, k) == if ActiveIn(cs, k - 1, locality) then before + {k - 1} else before
  {
    hide ActiveIn;
  }

  /** The loop counts the active contexts of the locality. */
  lemma {:induction false} CountActiveSpec(cs: seq<Context>, locality: u32, k: nat)
    requires k <= |cs|
    ensures CountActive(cs, locality, k) == |ActiveBefore(cs, locality, k)|
  {
    hide ActiveIn, Range;
    if k == 0 {
      assert ActiveBefore(cs, locality, 0) == {};
    } else {
      CountActiveSpec(cs, locality, k - 1);
      OneMoreActive(cs, locality, k);
    }
  }

  lemma {:induction false} CountActiveFew(cs: seq<Context>, locality: u32, k: nat)
    requires k <= |cs|
    ensures CountActive(cs, locality, k) == 0 <==> forall j: nat :: j < k ==> !ActiveIn(cs, j, locality)
    ensures CountActive(cs, locality, k) <= 1 <==>
      forall i: nat, j: nat :: i < j < k ==> !(ActiveIn(cs, i, locality) && ActiveIn(cs, j, locality))
  {
    if k > 0 {
      CountActiveFew(cs, locality, k - 1);
    }
  }

  // ----- handles -----

  const MAX_NEW_HANDLE_ATTEMPTS := 8

  predicate HandleUsed(cs: seq<Context>, h: Handle) {
    exists i :: 0 <= i < |cs| && cs[i].handle == h
  }

  /** Draws until a handle is neither the default one nor held by any slot. */
  function NewHandle(env: Env, cs: seq<Context>, drawn: nat, attempts: nat): (Result<Handle, Error>, nat)
    decreases attempts
  {
    if attempts == 0 then (Err(HandleGenerationExhausted), drawn)
    else match env.draw(drawn)
         case None => (Err(Crypto), drawn + 1)
         case Some(h) =>
           if h != DEFAULT_HANDLE && !HandleUsed(cs, h) then (Ok(h), drawn + 1)
           else NewHandle(env, cs, drawn + 1, attempts - 1)
  }

  /** The default handle is never rolled. */
  function RolledHandle(env: Env, cs: seq<Context>, old_: Handle, drawn: nat): (Result<Handle, Error>, nat) {
    if old_ == DEFAULT_HANDLE then (Ok(old_), drawn) else NewHandle(env, cs, drawn, MAX_NEW_HANDLE_ATTEMPTS)
  }

  lemma {:induction false} NewHandleSpec(env: Env, cs: seq<Context>, drawn: nat, attempts: nat)
    ensures var (r, after) := NewHandle(env, cs, drawn, attempts);
      && drawn <= after <= drawn + attempts
      && (r.Ok? ==>
          r.value != DEFAULT_HANDLE && !HandleUsed(cs, r.value) && after > drawn
              && env.draw(after - 1) == Some(r.value))
      && (r.Err? ==> r.error == Crypto || r.error == HandleGenerationExhausted)
    decreases attempts
  {
    if attempts > 0 && env.draw(drawn).Some? {
      NewHandleSpec(env, cs, drawn + 1, attempts - 1);
    }
  }

  // ----- measurements -----

  function AddMeasurement(env: Env, c: Context, data: Digest, locality: u32): Result<Context, Error> {
    if c.state != Active then Err(InvalidHandle)
    else if c.locality != locality then Err(InvalidLocality)
    else match env.hash(c.tci.cumulative, data)
         case None => Err(Crypto)
         case Some(d) =>
           if |d| != |c.tci.cumulative| then Err(DigestLengthMismatch)
           else Ok(c.(tci := c.tci.(cumulative := d, current := data)))
  }

  /** A measurement touches the two registers only. */
  lemma AddMeasurementSpec(env: Env, c: Context, data: Digest, locality: u32)
    ensures match AddMeasurement(env, c, data, locality)
            case Ok(d) =>
              && c.state == Active && c.locality == locality
              && d == c.(tci := c.tci.(cumulative := d.tci.cumulative, current := data))
              && env.hash(c.tci.cumulative, data) == Some(d.tci.cumulative) && |d.tci.cumulative| == |c.tci.cumulative|
            case Err(e) => e != InvalidResponseBuf
  {}

  // ----- InitializeContext -----

  function RootArgs(isDefault: bool, h: Handle, locality: u32): ActivateArgs {
    ActivateArgs(if isDefault then Normal else Simulation, locality, h, 0, ROOT_INDEX,
                 true, false, false, true, 0, isDefault)
  }

  function WithSlot(m: Machine, i: nat, c: Context): Machine
    requires i < |m.st.contexts|
  {
    m.(st := m.st.(contexts := m.st.contexts[i := c]))
  }

  function Initialize(env: Env, m: Machine, isDefault: bool, isSimulation: bool, locality: u32, fits: bool): Outcome {
    var st := m.st;
    if (isDefault && st.hasInitialized) || (isSimulation && !st.support.simulation) then Reject(m, ArgumentNotSupported)
    else if isDefault == isSimulation then Reject(m, InvalidArgument)
    else
      NextInactiveSpec(st.contexts, 0);
      match NextInactive(st.contexts, 0)
      case None => Reject(m, MaxTcis)
      case Some(i) =>
        if isDefault then
          var root := Activated(RootArgs(true, DEFAULT_HANDLE, locality), st.tciSize);
          Respond(WithSlot(m.(st := st.(hasInitialized := true)), i, root), NewHandleResp(DEFAULT_HANDLE), fits)
        else
          var (r, drawn) := NewHandle(env, st.contexts, m.drawn, MAX_NEW_HANDLE_ATTEMPTS);
          match r
          case Err(e) => Reject(m.(drawn := drawn), e)
          case Ok(h) =>
            var root := Activated(RootArgs(false, h, locality), st.tciSize);
            Respond(WithSlot(m.(drawn := drawn), i, root), NewHandleResp(h), fits)
  }

  /** The request gets as far as storing a root. */
  predicate Initializes(env: Env, m: Machine, isDefault: bool, isSimulation: bool) {
    && !(isDefault && m.st.hasInitialized) && !(isSimulation && !m.st.support.simulation) && isDefault != isSimulation
    && NextInactive(m.st.contexts, 0).Some?
    && (isDefault || NewHandle(env, m.st.contexts, m.drawn, MAX_NEW_HANDLE_ATTEMPTS).0.Ok?)
  }

  // ----- RotateContext -----

  /** Another active context of the locality has a handle of its own. */
  predicate NonDefaultHandlesExist(cs: seq<Context>, locality: u32, except: nat) {
    exists i :: 0 <= i < |cs| && ActiveIn(cs, i, locality) && cs[i].handle != DEFAULT_HANDLE && i != except
  }

  function Rotate(env: Env, m: Machine, handle: Handle, toDefault: bool, locality: u32, fits: bool): Outcome {
    var cs := m.st.contexts;
    if !m.st.support.rotateContext then Reject(m, InvalidCommand)
    else
      match ActivePos(cs, handle, locality)
      case Err(e) => Reject(m, e)
      case Ok(i) =>
        ActivePosFacts(cs, handle, locality);
        if toDefault then
          if ActivePos(cs, DEFAULT_HANDLE, locality).Ok? || NonDefaultHandlesExist(cs, locality, i) then
            Reject(m, InvalidArgument)
          else Respond(WithSlot(m, i, cs[i].(handle := DEFAULT_HANDLE)), NewHandleResp(DEFAULT_HANDLE), fits)
        else
          var (r, drawn) := NewHandle(env, cs, m.drawn, MAX_NEW_HANDLE_ATTEMPTS);
          match r
          case Err(e) => Reject(m.(drawn := drawn), e)
          case Ok(h) => Respond(WithSlot(m.(drawn := drawn), i, cs[i].(handle := h)), NewHandleResp(h), fits)
  }

  // ----- CertifyKey and Sign: as far as they touch the state, a roll of the handle -----

  /** The position of the context to certify; `format` is 0 for X.509 and 1 for CSR. */
  function Certifiable(st: State, handle: Handle, format: u32, locality: u32): (r: Result<nat, Error>)
    ensures r.Ok? ==> r.value < |st.contexts| && ActivePos(st.contexts, handle, locality) == r && format <= 1
  {
    match ActivePos(st.contexts, handle, locality)
    case Err(e) => Err(e)
    case Ok(i) =>
      ActivePosFacts(st.contexts, handle, locality);
      if format == 0 && !st.support.x509 then Err(ArgumentNotSupported)
      else if format == 0 && !st.contexts[i].allowX509 then Err(InvalidArgument)
      else if format == 1 && !st.support.csr then Err(ArgumentNotSupported)
      else if format > 1 then Err(InvalidArgument)
      else Ok(i)
  }

  /** `cert` is what encoding the certificate came to. */
  function CertifyKey(env: Env, m: Machine, handle: Handle, format: u32, cert: Result<nat, Error>, locality: u32,
      fits: bool): Outcome {
    var cs := m.st.contexts;
    match Certifiable(m.st, handle, format, locality)
    case Err(e) => Reject(m, e)
    case Ok(i) =>
      if cert.Err? then Reject(m, cert.error)
      else
        var (r, drawn) := RolledHandle(env, cs, cs[i].handle, m.drawn);
        match r
        case Err(e) => Reject(m.(drawn := drawn), e)
        case Ok(h) => Respond(WithSlot(m.(drawn := drawn), i, cs[i].(handle := h)), CertifyKeyResp(h, cert.value), fits)
  }

  /** Unlike the other commands, Sign stores the rolled handle only after the response was written. */
  function Sign(env: Env, m: Machine, handle: Handle, signature: Result<(), Error>, locality: u32,
      fits: bool): Outcome {
    var cs := m.st.contexts;
    match ActivePos(cs, handle, locality)
    case Err(e) => Reject(m, e)
    case Ok(i) =>
      ActivePosFacts(cs, handle, locality);
      if cs[i].contextType == Simulation then Reject(m, InvalidArgument)
      else if signature.Err? then Reject(m, signature.error)
      else
        var (r, drawn) := RolledHandle(env, cs, cs[i].handle, m.drawn);
        match r
        case Err(e) => Reject(m.(drawn := drawn), e)
        case Ok(h) =>
          if fits then Outcome(WithSlot(m.(drawn := drawn), i, cs[i].(handle := h)), Ok(SignResp(h)))
          else Reject(m.(drawn := drawn), InvalidResponseBuf)
  }

  // ----- UpdateContextMeasurement -----

  /** The lowest-numbered active child of `p` with this type. */
  function ChildOfType(cs: seq<Context>, kids: seq<nat>, tciType: u32): Option<nat> {
    if kids == [] then None
    else if kids[0] < |cs| && cs[kids[0]].state == Active && cs[kids[0]].tci.tciType == tciType then Some(kids[0])
    else ChildOfType(cs, kids[1..], tciType)
  }

  lemma {:induction false} ChildOfTypeSpec(cs: seq<Context>, kids: seq<nat>, tciType: u32)
    ensures match ChildOfType(cs, kids, tciType)
            case Some(c) => c in kids && c < |cs| && cs[c].state == Active && cs[c].tci.tciType == tciType
            case None => forall c :: c in kids && c < |cs| && cs[c].state == Active ==> cs[c].tci.tciType != tciType
  {
    if kids != [] {
      ChildOfTypeSpec(cs, kids[1..], tciType);
    }
  }

  /** Child `c` is measured on the authority of parent `p`; the parent is stored before the child's handle is drawn. */
  function UpdateAt(env: Env, m: Machine, p: nat, c: nat, data: Digest, fits: bool): Outcome
    requires p < |m.st.contexts| && c < |m.st.contexts|
  {
    var cs := m.st.contexts;
    match AddMeasurement(env, cs[c], data, cs[c].locality)
    case Err(e) => Reject(m, e)
    case Ok(child) =>
      var (r, drawn) := RolledHandle(env, cs, cs[p].handle, m.drawn);
      match r
      case Err(e) => Reject(m.(drawn := drawn), e)
      case Ok(ph) =>
        var m1 := WithSlot(m.(drawn := drawn), p, cs[p].(handle := ph));
        var (r2, drawn2) := RolledHandle(env, m1.st.contexts, child.handle, drawn);
        match r2
        case Err(e) => Reject(m1.(drawn := drawn2), e)
        case Ok(ch) => Respond(WithSlot(m1.(drawn := drawn2), c, child.(handle := ch)), UpdateResp(ch, ph), fits)
  }

  function Update(env: Env, m: Machine, parentHandle: Handle, data: Digest, tciType: u32, locality: u32,
      fits: bool): Outcome {
    var cs := m.st.contexts;
    if parentHandle == DEFAULT_HANDLE then Reject(m, InvalidArgument)
    else
      match ActivePos(cs, parentHandle, locality)
      case Err(_) => Reject(m, InvalidParentLocality)
      case Ok(p) =>
        ActivePosFacts(cs, parentHandle, locality);
        var kids := Ascending(cs[p].children, 0, |cs|);
        ChildOfTypeSpec(cs, kids, tciType);
        match ChildOfType(cs, kids, tciType)
        case None => Reject(m, InvalidArgument)
        case Some(c) => UpdateAt(env, m, p, c, data, fits)
  }

  // ----- DestroyContext -----

  ghost function Destroy(m: Machine, handle: Handle, locality: u32, fits: bool): Outcome
    requires IsForest(m.st.contexts)
  {
    var cs := m.st.contexts;
    match ActivePos(cs, handle, locality)
    case Err(e) => Reject(m, e)
    case Ok(i) =>
      ActivePosFacts(cs, handle, locality);
      Respond(m.(st := m.st.(contexts := Without(cs, Doomed(cs, i), m.st.tciSize))), DestroyResp, fits)
  }

  // ----- DeriveContext -----

  datatype DeriveFlags = DeriveFlags(
    internalInfo: bool,
    internalDice: bool,
    retainParent: bool,
    makeDefault: bool,
    changeLocality: bool,
    allowExport: bool,
    allowX509: bool,
    recursive: bool,
    exportCdi: bool,
    createCertificate: bool,
    allowRecursive: bool)

  datatype DeriveArgs = DeriveArgs(
    handle: Handle, data: Digest, flags: DeriveFlags, tciType: u32, targetLocality: u32, svn: u32)

  predicate DeriveSupported(s: Support, f: DeriveFlags) {
    && (f.internalInfo ==> s.internalInfo)
    && (f.internalDice ==> s.internalDice)
    && (f.retainParent ==> s.retainParent)
    && (f.allowX509 ==> s.x509)
    && (f.createCertificate || f.exportCdi ==> s.cdiExport)
    && (f.recursive ==> s.recursive)
  }

  predicate DeriveAllowed(parent: Context, f: DeriveFlags) {
    && (f.allowX509 ==> parent.allowX509)
    && (f.exportCdi ==>
        f.createCertificate && !f.recursive && !f.changeLocality && parent.contextType != Simulation
            && parent.allowExportCdi)
    && (f.recursive ==> !f.retainParent && !f.allowRecursive && parent.allowRecursive)
  }

  function TargetLocality(a: DeriveArgs, locality: u32): u32 {
    if a.flags.changeLocality then a.targetLocality else locality
  }

  /** Whether the target locality may take the new child. */
  function SafeToMakeChild(cs: seq<Context>, f: DeriveFlags, p: nat, locality: u32): bool {
    var default := ActivePos(cs, DEFAULT_HANDLE, locality);
    var parentMakesWay := default.Ok? && default.value == p && !f.retainParent;
    if f.makeDefault then
      var n := CountActive(cs, locality, |cs|);
      (n == 0 && default.Err?) || (n == 1 && parentMakesWay)
    else
      default.Err? || parentMakesWay
  }

  predicate TypeTaken(cs: seq<Context>, p: nat, tciType: u32)
    requires p < |cs|
  {
    exists c :: c in cs[p].children && c < |cs| && cs[c].tci.tciType == tciType
  }

  /** The parent as it is stored back: rolled if it is retained, retired otherwise. */
  function ParentAfter(env: Env, m: Machine, p: nat, retain: bool): (Result<Context, Error>, nat)
    requires p < |m.st.contexts|
  {
    var c := m.st.contexts[p];
    if retain then
      var (r, drawn) := RolledHandle(env, m.st.contexts, c.handle, m.drawn);
      (match r case Err(e) => Err(e) case Ok(h) => Ok(c.(handle := h)), drawn)
    else (Ok(c.(state := Retired, handle := INVALID_HANDLE)), m.drawn)
  }

  function DeriveRecursive(env: Env, m: Machine, a: DeriveArgs, p: nat, locality: u32, fits: bool): Outcome
    requires p < |m.st.contexts|
  {
    var cs := m.st.contexts;
    if cs[p].tci.tciType != a.tciType then Reject(m, InvalidArgument)
    else
      match AddMeasurement(env, cs[p], a.data, TargetLocality(a, locality))
      case Err(e) => Reject(m, e)
      case Ok(c) =>
        var (r, drawn) := RolledHandle(env, cs, c.handle, m.drawn);
        match r
        case Err(e) => Reject(m.(drawn := drawn), e)
        case Ok(h) => Respond(WithSlot(m.(drawn := drawn), p, c.(handle := h)), DeriveContextResp(h, DEFAULT_HANDLE),
            fits)
  }

  /** The exported CDI takes no slot; a parent that is neither retained nor has children is destroyed. */
  ghost function DeriveExport(m: Machine, a: DeriveArgs, p: nat, parent: Context, cert: Result<nat, Error>,
      fits: bool): Outcome
    requires IsForest(m.st.contexts) && Live(m.st.contexts, p)
  {
    var cs := m.st.contexts;
    match cert
    case Err(e) => Reject(m, e)
    case Ok(size) =>
      if !a.flags.retainParent && cs[p].children == {} then
        var after := Without(cs, Doomed(cs, p), m.st.tciSize);
        Respond(m.(st := m.st.(contexts := after)), ExportedCdiResp(after[p].handle, size), fits)
      else Respond(WithSlot(m, p, parent), ExportedCdiResp(parent.handle, size), fits)
  }

  function ChildArgs(a: DeriveArgs, p: u8, parent: Context, h: Handle, locality: u32): ActivateArgs {
    ActivateArgs(parent.contextType, locality, h, a.tciType, p, a.flags.allowX509, a.flags.internalInfo,
                 a.flags.internalDice, a.flags.allowExport && parent.allowExportCdi, a.svn,
                 a.flags.allowRecursive && parent.allowRecursive)
  }

  /** The child's handle is drawn while the array still holds the parent's old handle. */
  function DeriveChild(env: Env, m: Machine, a: DeriveArgs, p: nat, parent: Context, locality: u32, fits: bool): Outcome
    requires InRange(m.st.contexts) && p < |m.st.contexts|
  {
    var cs := m.st.contexts;
    var target := TargetLocality(a, locality);
    NextInactiveSpec(cs, 0);
    match NextInactive(cs, 0)
    case None => Reject(m, MaxTcis)
    case Some(i) =>
      if !SafeToMakeChild(cs, a.flags, p, target) then Reject(m, InvalidArgument)
      else
        var (r, drawn) := if a.flags.makeDefault then (Ok(DEFAULT_HANDLE), m.drawn)
            else NewHandle(env, cs, m.drawn, MAX_NEW_HANDLE_ATTEMPTS);
        match r
        case Err(e) => Reject(m.(drawn := drawn), e)
        case Ok(h) =>
          match AddMeasurement(env, Activated(ChildArgs(a, p, parent, h, target), m.st.tciSize), a.data, target)
          case Err(e) => Reject(m.(drawn := drawn), e)
          case Ok(child) =>
            var m1 := WithSlot(m.(drawn := drawn), i, child);
            Respond(WithSlot(m1, p, parent.(children := parent.children + {i})), DeriveContextResp(h, parent.handle),
                fits)
  }

  /** The hash accepts the first measurement of a new context. */
  predicate FirstMeasurementOk(env: Env, tciSize: nat, data: Digest) {
    var d := env.hash(ZeroDigest(tciSize), data);
    d.Some? && |d.value| == tciSize
  }

  /** There are a slot, a locality and a measurement for a child of `p`. */
  predicate ChildFits(env: Env, st: State, a: DeriveArgs, p: nat, locality: u32) {
    && NextInactive(st.contexts, 0).Some? && SafeToMakeChild(st.contexts, a.flags, p, TargetLocality(a, locality))
    && FirstMeasurementOk(env, st.tciSize, a.data)
  }

  predicate ChildNamed(env: Env, cs: seq<Context>, makeDefault: bool, drawn: nat) {
    makeDefault || NewHandle(env, cs, drawn, MAX_NEW_HANDLE_ATTEMPTS).0.Ok?
  }

  /** The request asks for a child, and nothing but the random source can keep it from being stored. */
  predicate AdmitsChild(env: Env, st: State, a: DeriveArgs, locality: u32) {
    var cs, pos := st.contexts, ActivePos(st.contexts, a.handle, locality);
    && DeriveSupported(st.support, a.flags) && pos.Ok? && pos.value < |cs| && DeriveAllowed(cs[pos.value], a.flags)
    && !a.flags.recursive && !TypeTaken(cs, pos.value, a.tciType) && !(a.flags.createCertificate && a.flags.exportCdi)
    && ChildFits(env, st, a, pos.value, locality)
  }

  ghost function Derive(env: Env, m: Machine, a: DeriveArgs, cert: Result<nat, Error>, locality: u32,
      fits: bool): Outcome
    requires IsForest(m.st.contexts)
  {
    var cs := m.st.contexts;
    if !DeriveSupported(m.st.support, a.flags) then Reject(m, ArgumentNotSupported)
    else
      match ActivePos(cs, a.handle, locality)
      case Err(e) => Reject(m, e)
      case Ok(p) =>
        ActivePosFacts(cs, a.handle, locality);
        if !DeriveAllowed(cs[p], a.flags) then Reject(m, InvalidArgument)
        else if a.flags.recursive then DeriveRecursive(env, m, a, p, locality, fits)
        else if TypeTaken(cs, p, a.tciType) then Reject(m, InvalidArgument)
        else
          var (r, drawn) := ParentAfter(env, m, p, a.flags.retainParent);
          match r
          case Err(e) => Reject(m.(drawn := drawn), e)
          case Ok(parent) =>
            if a.flags.createCertificate && a.flags.exportCdi then
              DeriveExport(m.(drawn := drawn), a, p, parent, cert, fits)
            else DeriveChild(env, m.(drawn := drawn), a, p, parent, locality, fits)
  }

  // ----- all commands -----

  datatype Command =
    | InitializeCmd(isDefault: bool, isSimulation: bool)
    | DeriveCmd(args: DeriveArgs, cert: Result<nat, Error>)
    | RotateCmd(handle: Handle, toDefault: bool)
    | CertifyKeyCmd(handle: Handle, format: u32, cert: Result<nat, Error>)
    | SignCmd(handle: Handle, signature: Result<(), Error>)
    | DestroyCmd(handle: Handle)
    | UpdateCmd(handle: Handle, data: Digest, tciType: u32)

  /** A command as it arrives: from a locality, with a response buffer that holds the answer or not. */
  datatype Request = Request(cmd: Command, locality: u32, fits: bool)

  ghost function Execute(env: Env, m: Machine, q: Request): Outcome
    requires IsForest(m.st.contexts)
  {
    match q.cmd
    case InitializeCmd(d, s) => Initialize(env, m, d, s, q.locality, q.fits)
    case DeriveCmd(a, cert) => Derive(env, m, a, cert, q.locality, q.fits)
    case RotateCmd(h, d) => Rotate(env, m, h, d, q.locality, q.fits)
    case CertifyKeyCmd(h, f, cert) => CertifyKey(env, m, h, f, cert, q.locality, q.fits)
    case SignCmd(h, s) => Sign(env, m, h, s, q.locality, q.fits)
    case DestroyCmd(h) => Destroy(m, h, q.locality, q.fits)
    case UpdateCmd(h, d, t) => Update(env, m, h, d, t, q.locality, q.fits)
  }
}
