/** The DPE instance: the commands as they run, changing the context array in place. */
module Instance {
  import opened Bitmap
  import opened Contexts
  import opened Forest
  import opened States
  import opened Destruction
  import opened Commands
  import opened Preservation

  /** The number of set bits of a children word whose members are all slots. */
  lemma {:induction false} AscendingCount(s: set<nat>, lo: nat, hi: nat)
    requires lo <= hi && forall c :: c in s ==> lo <= c < hi
    ensures |Ascending(s, lo, hi)| == |s|
    decreases hi - lo
  {
    if lo < hi {
      AscendingFrame(s, s - {lo}, lo + 1, hi);
      AscendingCount(s - {lo}, lo + 1, hi);
    } else {
      assert s == {};
    }
  }

  class Dpe {
    const env: Env
    const contexts: array<Context>
    const support: Support
    const tciSize: nat
    const marker: u32
    const version: u32
    var hasInitialized: bool
    var drawn: nat

    ghost function Now(): Machine
      reads this, contexts
    {
      Machine(State(marker, version, contexts[..], support, hasInitialized, tciSize), drawn)
    }

    ghost predicate Valid()
      reads this, contexts
    {
      WellFormed(Now().st)
    }

    constructor (env: Env, slots: nat, support: Support, tciSize: nat)
      requires 1 <= slots <= 64
      ensures fresh(contexts) && this.env == env
      ensures Now() == Machine(NewState(slots, support, tciSize), 0)
    {
      this.env := env;
      this.support := support;
      this.tciSize := tciSize;
      marker, version := MAGIC, VERSION;
      contexts := new Context[slots](_ => NewContext(tciSize));
      hasInitialized := false;
      drawn := 0;
    }

    /** Overwrites one slot. */
    method Store(i: nat, c: Context)
      requires i < contexts.Length
      modifies contexts
      ensures contexts[..] == old(contexts[..])[i := c]
    {
      contexts[i] := c;
    }

    method GenerateNewHandle() returns (r: Result<Handle, Error>)
      modifies this`drawn
      ensures (r, drawn) == NewHandle(env, contexts[..], old(drawn), MAX_NEW_HANDLE_ATTEMPTS)
    {
      for k := 0 to MAX_NEW_HANDLE_ATTEMPTS
        invariant NewHandle(env, contexts[..], drawn, MAX_NEW_HANDLE_ATTEMPTS - k)
            == NewHandle(env, contexts[..], old(drawn), MAX_NEW_HANDLE_ATTEMPTS)
      {
        var h := env.draw(drawn);
        drawn := drawn + 1;
        if h.None? {
          return Err(Crypto);
        }
        if h.value != DEFAULT_HANDLE && !HandleUsed(contexts[..], h.value) {
          return Ok(h.value);
        }
      }
      return Err(HandleGenerationExhausted);
    }

    method RollOnetimeUseHandle(c: Context) returns (r: Result<Context, Error>)
      modifies this`drawn
      ensures var (h, after) := RolledHandle(env, contexts[..], c.handle, old(drawn));
        drawn == after && r == match h case Ok(v) => Ok(c.(handle := v)) case Err(e) => Err(e)
    {
      if c.handle != DEFAULT_HANDLE {
        var h := GenerateNewHandle();
        if h.Err? {
          return Err(h.error);
        }
        return Ok(c.(handle := h.value));
      }
      return Ok(c);
    }

    // ----- InitializeContext -----

    method InitializeContext(isDefault: bool, isSimulation: bool, locality: u32, fits: bool)
        returns (r: Result<Response, Error>)
      modifies this`drawn, this`hasInitialized, contexts
      ensures Outcome(Now(), r) == Initialize(env, old(Now()), isDefault, isSimulation, locality, fits)
    {
      if (isDefault && hasInitialized) || (isSimulation && !support.simulation) {
        return Err(ArgumentNotSupported);
      }
      if isDefault == isSimulation {
        return Err(InvalidArgument);
      }
      NextInactiveSpec(contexts[..], 0);
      var slot := NextInactive(contexts[..], 0);
      if slot.None? {
        return Err(MaxTcis);
      }
      var h: Handle := DEFAULT_HANDLE;
      if isDefault {
        hasInitialized := true;
      } else {
        var fresh_ := GenerateNewHandle();
        if fresh_.Err? {
          return Err(fresh_.error);
        }
        h := fresh_.value;
      }
      Store(slot.value, Activated(RootArgs(isDefault, h, locality), tciSize));
      if !fits {
        return Err(InvalidResponseBuf);
      }
      return Ok(NewHandleResp(h));
    }

    // ----- RotateContext -----

    method RotateContext(handle: Handle, toDefault: bool, locality: u32, fits: bool)
        returns (r: Result<Response, Error>)
      modifies this`drawn, contexts
      ensures Outcome(Now(), r) == Rotate(env, old(Now()), handle, toDefault, locality, fits)
    {
      if !support.rotateContext {
        return Err(InvalidCommand);
      }
      var pos := ActivePos(contexts[..], handle, locality);
      if pos.Err? {
        return Err(pos.error);
      }
      ActivePosFacts(contexts[..], handle, locality);
      var i := pos.value;
      var h: Handle := DEFAULT_HANDLE;
      if toDefault {
        if ActivePos(contexts[..], DEFAULT_HANDLE, locality).Ok? || NonDefaultHandlesExist(contexts[..], locality, i) {
          return Err(InvalidArgument);
        }
      } else {
        var fresh_ := GenerateNewHandle();
        if fresh_.Err? {
          return Err(fresh_.error);
        }
        h := fresh_.value;
      }
      Store(i, contexts[i].(handle := h));
      if !fits {
        return Err(InvalidResponseBuf);
      }
      return Ok(NewHandleResp(h));
    }

    // ----- CertifyKey and Sign -----

    /** Lookup and checks of CertifyKey, before anything is written. */
    method CheckCertifyKey(handle: Handle, format: u32, locality: u32) returns (r: Result<nat, Error>)
      ensures r == Certifiable(Now().st, handle, format, locality)
    {
      var pos := ActivePos(contexts[..], handle, locality);
      if pos.Err? {
        return Err(pos.error);
      }
      ActivePosFacts(contexts[..], handle, locality);
      var i := pos.value;
      if format == 0 {
        if !support.x509 {
          return Err(ArgumentNotSupported);
        }
        if !contexts[i].allowX509 {
          return Err(InvalidArgument);
        }
      } else if format == 1 && !support.csr {
        return Err(ArgumentNotSupported);
      }
      if format > 1 {
        return Err(InvalidArgument);
      }
      return Ok(i);
    }

    method CertifyKeyCommand(handle: Handle, format: u32, cert: Result<nat, Error>, locality: u32, fits: bool)
        returns (r: Result<Response, Error>)
      modifies this`drawn, contexts
      ensures Outcome(Now(), r) == CertifyKey(env, old(Now()), handle, format, cert, locality, fits)
    {
      var pos := CheckCertifyKey(handle, format, locality);
      if pos.Err? {
        return Err(pos.error);
      }
      if cert.Err? {
        return Err(cert.error);
      }
      var c := RollOnetimeUseHandle(contexts[pos.value]);
      if c.Err? {
        return Err(c.error);
      }
      Store(pos.value, c.value);
      if !fits {
        return Err(InvalidResponseBuf);
      }
      return Ok(CertifyKeyResp(c.value.handle, cert.value));
    }

    method SignCommand(handle: Handle, signature: Result<(), Error>, locality: u32, fits: bool)
        returns (r: Result<Response, Error>)
      modifies this`drawn, contexts
      ensures Outcome(Now(), r) == Sign(env, old(Now()), handle, signature, locality, fits)
    {
      var pos := ActivePos(contexts[..], handle, locality);
      if pos.Err? {
        return Err(pos.error);
      }
      ActivePosFacts(contexts[..], handle, locality);
      var i := pos.value;
      if contexts[i].contextType == Simulation {
        return Err(InvalidArgument);
      }
      if signature.Err? {
        return Err(signature.error);
      }
      var c := RollOnetimeUseHandle(contexts[i]);
      if c.Err? {
        return Err(c.error);
      }
      if !fits {
        return Err(InvalidResponseBuf);
      }
      Store(i, c.value);
      return Ok(SignResp(c.value.handle));
    }

    // ----- UpdateContextMeasurement -----

    method FindChild(kids: seq<nat>, tciType: u32) returns (r: Option<nat>)
      ensures r == ChildOfType(contexts[..], kids, tciType)
    {
      for k := 0 to |kids|
        invariant ChildOfType(contexts[..], kids, tciType) == ChildOfType(contexts[..], kids[k..], tciType)
      {
        var c := kids[k];
        assert kids[k..][1..] == kids[k + 1..];
        if c < contexts.Length && contexts[c].state == Active && contexts[c].tci.tciType == tciType {
          return Some(c);
        }
      }
      return None;
    }

    method UpdateContextMeasurement(parentHandle: Handle, data: Digest, tciType: u32, locality: u32, fits: bool)
        returns (r: Result<Response, Error>)
      modifies this`drawn, contexts
      ensures Outcome(Now(), r) == Update(env, old(Now()), parentHandle, data, tciType, locality, fits)
    {
      if parentHandle == DEFAULT_HANDLE {
        return Err(InvalidArgument);
      }
      var pos := ActivePos(contexts[..], parentHandle, locality);
      if pos.Err? {
        return Err(InvalidParentLocality);
      }
      ActivePosFacts(contexts[..], parentHandle, locality);
      var p := pos.value;
      var kids := Ascending(contexts[p].children, 0, contexts.Length);
      var found := FindChild(kids, tciType);
      if found.None? {
        return Err(InvalidArgument);
      }
      ChildOfTypeSpec(contexts[..], kids, tciType);
      var c := found.value;
      var child := AddMeasurement(env, contexts[c], data, contexts[c].locality);
      if child.Err? {
        return Err(child.error);
      }
      var parent := RollOnetimeUseHandle(contexts[p]);
      if parent.Err? {
        return Err(parent.error);
      }
      Store(p, parent.value);
      var rolled := RollOnetimeUseHandle(child.value);
      if rolled.Err? {
        return Err(rolled.error);
      }
      Store(c, rolled.value);
      if !fits {
        return Err(InvalidResponseBuf);
      }
      return Ok(UpdateResp(rolled.value.handle, parent.value.handle));
    }

    // ----- DestroyContext -----

    /** The strict descendants of slot `i`, found through the children bitmaps alone. On a forest the recursion ends. */
    method GetDescendants(i: nat) returns (r: Result<set<nat>, Error>)
      requires IsForest(contexts[..]) && i < contexts.Length
      ensures r == if Live(contexts[..], i) then Ok(Subtree(contexts[..], i) - {i}) else Err(InvalidHandle)
      decreases contexts.Length - (if Live(contexts[..], i) then Depth(contexts[..], i) else 0)
    {
      ghost var cs := contexts[..];
      if contexts[i].state == Inactive {
        return Err(InvalidHandle);
      }
      var kids := Ascending(contexts[i].children, 0, contexts.Length);
      var descendants: set<nat> := contexts[i].children;
      BelowKids(cs, i, kids);
      for k := 0 to |kids|
        invariant descendants == cs[i].children + Subtrees(cs, kids[..k])
      {
        assert kids[k] in kids;
        ChildRooted(cs, i, kids[k]);
        PathDistinct(cs, kids[k]);
        var below := GetDescendants(kids[k]);
        descendants := descendants + below.value;
        NextKid(cs, i, kids, k);
      }
      assert kids[..|kids|] == kids;
      return Ok(descendants);
    }

    /** The consecutive dangling ancestors of slot `i`. */
    method CollectRetired(i: nat) returns (retired: set<nat>)
      requires IsForest(contexts[..]) && Live(contexts[..], i)
      ensures Rooted(contexts[..], i)
      ensures contexts[i].parent != ROOT_INDEX ==> Rooted(contexts[..], contexts[i].parent)
      ensures retired == RetiredRun(contexts[..], contexts[i].parent)
    {
      ghost var cs := contexts[..];
      OneUp(cs, i);
      retired := {};
      var p := contexts[i].parent;
      while p != ROOT_INDEX
        invariant p != ROOT_INDEX ==> Rooted(cs, p)
        invariant retired + RetiredRun(cs, p) == RetiredRun(cs, cs[i].parent)
        decreases if p == ROOT_INDEX then 0 else Depth(cs, p) + 1
      {
        OneUp(cs, p);
        var parent := contexts[p];
        ForestKids(cs, p);
        if parent.state == Retired && |Ascending(parent.children, 0, contexts.Length)| == 1 {
          retired := retired + {p};
        } else {
          break;
        }
        p := parent.parent;
      }
    }

    /** Clears the doomed bits in every context and resets the doomed contexts. */
    method Sweep(doomed: set<nat>)
      modifies contexts
      ensures contexts[..] == Without(old(contexts[..]), doomed, tciSize)
    {
      ghost var cs := contexts[..];
      for k := 0 to contexts.Length
        invariant forall j :: 0 <= j < k ==> contexts[j] == Swept(cs[j], j, doomed, tciSize)
        invariant forall j :: k <= j < contexts.Length ==> contexts[j] == cs[j]
      {
        var c := contexts[k];
        c := c.(children := c.children - doomed);
        c := if k in doomed then Destroyed(c, tciSize) else c;
        assert c == Swept(cs[k], k, doomed, tciSize);
        contexts[k] := c;
      }
      assert contexts[..] == Without(cs, doomed, tciSize);
    }

    method DestroyContext(handle: Handle, locality: u32) returns (r: Result<(), Error>)
      requires IsForest(contexts[..])
      modifies contexts
      ensures var pos := ActivePos(old(contexts[..]), handle, locality);
        if pos.Err? then r == Err(pos.error) && contexts[..] == old(contexts[..])
        else
          && r == Ok(()) && pos.value < contexts.Length && Live(old(contexts[..]), pos.value)
          && contexts[..] == Without(old(contexts[..]), Doomed(old(contexts[..]), pos.value), tciSize)
    {
      ghost var cs := contexts[..];
      var pos := ActivePos(contexts[..], handle, locality);
      if pos.Err? {
        return Err(pos.error);
      }
      ActivePosFacts(contexts[..], handle, locality);
      var i := pos.value;
      var retired := CollectRetired(i);
      var descendants := GetDescendants(i);
      DoomedParts(cs, i);
      Sweep(descendants.value + {i} + retired);
      return Ok(());
    }

    method DestroyContextCommand(handle: Handle, locality: u32, fits: bool) returns (r: Result<Response, Error>)
      requires IsForest(contexts[..])
      modifies contexts
      ensures Outcome(Now(), r) == Destroy(old(Now()), handle, locality, fits)
    {
      var done := DestroyContext(handle, locality);
      if done.Err? {
        return Err(done.error);
      }
      if !fits {
        return Err(InvalidResponseBuf);
      }
      return Ok(DestroyResp);
    }

    // ----- DeriveContext -----

    method TciTypeIsUniqueAmongChildren(p: nat, tciType: u32) returns (unique: bool)
      requires p < contexts.Length <= 64
      ensures unique <==> !TypeTaken(contexts[..], p, tciType)
    {
      var kids := Ascending(contexts[p].children, 0, contexts.Length);
      AscendingSpec(contexts[p].children, 0, contexts.Length);
      for k := 0 to |kids|
        invariant forall j :: 0 <= j < k ==> kids[j] < contexts.Length && contexts[kids[j]].tci.tciType != tciType
      {
        assert kids[k] in kids;
        if contexts[kids[k]].tci.tciType == tciType {
          return false;
        }
      }
      return true;
    }

    method UpdateRecursively(a: DeriveArgs, p: nat, locality: u32, fits: bool) returns (r: Result<Response, Error>)
      requires p < contexts.Length
      modifies this`drawn, contexts
      ensures Outcome(Now(), r) == DeriveRecursive(env, old(Now()), a, p, locality, fits)
    {
      if contexts[p].tci.tciType != a.tciType {
        return Err(InvalidArgument);
      }
      var c := AddMeasurement(env, contexts[p], a.data, TargetLocality(a, locality));
      if c.Err? {
        return Err(c.error);
      }
      var rolled := RollOnetimeUseHandle(c.value);
      if rolled.Err? {
        return Err(rolled.error);
      }
      Store(p, rolled.value);
      if !fits {
        return Err(InvalidResponseBuf);
      }
      return Ok(DeriveContextResp(rolled.value.handle, DEFAULT_HANDLE));
    }

    method PrepareParent(p: nat, retain: bool) returns (r: Result<Context, Error>)
      requires p < contexts.Length
      modifies this`drawn
      ensures (r, drawn) == ParentAfter(env, old(Now()), p, retain)
    {
      var parent := contexts[p];
      if retain {
        r := RollOnetimeUseHandle(parent);
      } else {
        r := Ok(parent.(state := Retired, handle := INVALID_HANDLE));
      }
    }

    method ExportCdi(a: DeriveArgs, p: nat, parent: Context, cert: Result<nat, Error>, locality: u32, fits: bool)
        returns (r: Result<Response, Error>)
      requires IsForest(contexts[..]) && Live(contexts[..], p) && ActivePos(contexts[..], a.handle, locality) == Ok(p)
      modifies contexts
      ensures Outcome(Now(), r) == DeriveExport(old(Now()), a, p, parent, cert, fits)
    {
      if cert.Err? {
        return Err(cert.error);
      }
      if !a.flags.retainParent && contexts[p].children == {} {
        var done := DestroyContext(a.handle, locality);
      } else {
        Store(p, parent);
      }
      if !fits {
        return Err(InvalidResponseBuf);
      }
      return Ok(ExportedCdiResp(contexts[p].handle, cert.value));
    }

    method MakeChild(a: DeriveArgs, p: nat, parent: Context, locality: u32, fits: bool)
        returns (r: Result<Response, Error>)
      requires p < contexts.Length <= 64
      modifies this`drawn, contexts
      ensures Outcome(Now(), r) == DeriveChild(env, old(Now()), a, p, parent, locality, fits)
    {
      hide NewHandle, SafeToMakeChild, AddMeasurement, Activated, ChildArgs, NextInactive;
      var target := TargetLocality(a, locality);
      NextInactiveSpec(contexts[..], 0);
      var slot := NextInactive(contexts[..], 0);
      if slot.None? {
        return Err(MaxTcis);
      }
      if !SafeToMakeChild(contexts[..], a.flags, p, target) {
        return Err(InvalidArgument);
      }
      var h: Handle := DEFAULT_HANDLE;
      if !a.flags.makeDefault {
        var fresh_ := GenerateNewHandle();
        if fresh_.Err? {
          return Err(fresh_.error);
        }
        h := fresh_.value;
      }
      var child := AddMeasurement(env, Activated(ChildArgs(a, p, parent, h, target), tciSize), a.data, target);
      if child.Err? {
        return Err(child.error);
      }
      Store(slot.value, child.value);
      Store(p, parent.(children := parent.children + {slot.value}));
      if !fits {
        return Err(InvalidResponseBuf);
      }
      return Ok(DeriveContextResp(h, contexts[p].handle));
    }

    method DeriveContext(a: DeriveArgs, cert: Result<nat, Error>, locality: u32, fits: bool)
        returns (r: Result<Response, Error>)
      requires IsForest(contexts[..])
      modifies this`drawn, contexts
      ensures Outcome(Now(), r) == Derive(env, old(Now()), a, cert, locality, fits)
    {
      hide DeriveChild, DeriveExport, DeriveRecursive;
      if !DeriveSupported(support, a.flags) {
        return Err(ArgumentNotSupported);
      }
      var pos := ActivePos(contexts[..], a.handle, locality);
      if pos.Err? {
        return Err(pos.error);
      }
      ActivePosFacts(contexts[..], a.handle, locality);
      var p := pos.value;
      if !DeriveAllowed(contexts[p], a.flags) {
        return Err(InvalidArgument);
      }
      if a.flags.recursive {
        r := UpdateRecursively(a, p, locality, fits);
        return;
      }
      var unique := TciTypeIsUniqueAmongChildren(p, a.tciType);
      if !unique {
        return Err(InvalidArgument);
      }
      var parent := PrepareParent(p, a.flags.retainParent);
      if parent.Err? {
        return Err(parent.error);
      }
      if a.flags.createCertificate && a.flags.exportCdi {
        r := ExportCdi(a, p, parent.value, cert, locality, fits);
      } else {
        r := MakeChild(a, p, parent.value, locality, fits);
      }
    }

    // ----- the command loop -----

    /** Serves one request; the state it leaves is well formed again. */
    method Serve(q: Request) returns (r: Result<Response, Error>)
      requires Valid()
      modifies this`drawn, this`hasInitialized, contexts
      ensures IsForest(old(Now()).st.contexts)
      ensures Outcome(Now(), r) == Execute(env, old(Now()), q)
      ensures Valid()
    {
      hide WellFormed, Initialize, Derive, Rotate, CertifyKey, Sign, Destroy, Update;
      WellFormedForest(Now().st);
      ExecuteKeepsWellFormed(env, Now(), q);
      match q.cmd {
        case InitializeCmd(d, s) => r := InitializeContext(d, s, q.locality, q.fits);
        case DeriveCmd(a, cert) => r := DeriveContext(a, cert, q.locality, q.fits);
        case RotateCmd(h, d) => r := RotateContext(h, d, q.locality, q.fits);
        case CertifyKeyCmd(h, f, cert) => r := CertifyKeyCommand(h, f, cert, q.locality, q.fits);
        case SignCmd(h, sig) => r := SignCommand(h, sig, q.locality, q.fits);
        case DestroyCmd(h) => r := DestroyContextCommand(h, q.locality, q.fits);
        case UpdateCmd(h, d, t) => r := UpdateContextMeasurement(h, d, t, q.locality, q.fits);
      }
    }
  }

  // ----- facts for the bitmap walk -----

  lemma ForestKids(cs: seq<Context>, i: nat)
    requires IsForest(cs) && Live(cs, i)
    ensures forall c :: c in cs[i].children ==> c < |cs|
    ensures |Ascending(cs[i].children, 0, |cs|)| == |cs[i].children|
  {
    AscendingCount(cs[i].children, 0, |cs|);
  }

  lemma DoomedParts(cs: seq<Context>, i: nat)
    requires IsForest(cs) && Live(cs, i)
    ensures Rooted(cs, i) && (cs[i].parent != ROOT_INDEX ==> Rooted(cs, cs[i].parent))
    ensures (Subtree(cs, i) - {i}) + {i} + RetiredRun(cs, cs[i].parent) == Doomed(cs, i)
  {
    OneUp(cs, i);
    assert i in Subtree(cs, i);
  }

  lemma BelowKids(cs: seq<Context>, i: nat, kids: seq<nat>)
    requires IsForest(cs) && Live(cs, i) && kids == Ascending(cs[i].children, 0, |cs|)
    ensures Rooted(cs, i) && Depth(cs, i) < |cs|
    ensures forall c :: c in kids <==> c in cs[i].children
    ensures cs[i].children + Subtrees(cs, kids) == Subtree(cs, i) - {i}
  {
    SubtreeSplit(cs, i);
    PathDistinct(cs, i);
    AscendingSpec(cs[i].children, 0, |cs|);
    forall w | w in cs[i].children + Subtrees(cs, kids) ensures w in Subtrees(cs, kids) && w != i {
      SubtreesMember(cs, kids, w);
      if w in cs[i].children {
        ChildRooted(cs, i, w);
        assert PathUp(cs, w)[0] == w;
        assert w in Subtree(cs, w);
      } else {
        var c :| c in kids && w in Subtree(cs, c);
        ChildRooted(cs, i, c);
        AboveFacts(cs, c, w);
      }
    }
  }

  lemma NextKid(cs: seq<Context>, i: nat, kids: seq<nat>, k: nat)
    requires IsForest(cs) && Live(cs, i) && k < |kids| && kids[k] in cs[i].children
    ensures cs[i].children + Subtrees(cs, kids[..k]) + (Subtree(cs, kids[k]) - {kids[k]}) == cs[i].children
        + Subtrees(cs, kids[..k + 1])
  {
    OneUp(cs, i);
    ChildRooted(cs, i, kids[k]);
    OneUp(cs, kids[k]);
    assert kids[..k + 1][..k] == kids[..k];
    assert kids[k] in Subtree(cs, kids[k]);
  }
}
