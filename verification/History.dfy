/** What a command leaves alone: failures change nothing, and measurements only ever accumulate. */
module History {
  import opened Bitmap
  import opened Contexts
  import opened Forest
  import opened States
  import opened Destruction
  import opened Commands
  import opened Preservation
  import opened Runs

  // ----- measurement registers as folds -----

  /** The cumulative register after measuring `log` in order, from a register of zeros. */
  function Fold(env: Env, tciSize: nat, log: seq<Digest>): Option<Digest> {
    if log == [] then Some(ZeroDigest(tciSize))
    else match Fold(env, tciSize, log[..|log| - 1])
         case None => None
         case Some(d) => env.hash(d, log[|log| - 1])
  }

  function Last(tciSize: nat, log: seq<Digest>): Digest {
    if log == [] then ZeroDigest(tciSize) else log[|log| - 1]
  }

  predicate Records(env: Env, tciSize: nat, c: Context, log: seq<Digest>) {
    Fold(env, tciSize, log) == Some(c.tci.cumulative) && c.tci.current == Last(tciSize, log)
  }

  /** `logs[k]` lists the measurements applied to slot `k` since it was activated. */
  ghost predicate HistoryOk(env: Env, st: State, logs: seq<seq<Digest>>) {
    && |logs| == |st.contexts|
    && forall k :: 0 <= k < |logs| && Live(st.contexts, k) ==> Records(env, st.tciSize, st.contexts[k], logs[k])
  }

  /** The state change of a command took place. */
  predicate Stored(o: Outcome) {
    o.result.Ok? || o.result == Err(InvalidResponseBuf)
  }

  /** The slot that a request extends with a measurement, and the measurement. */
  function Measures(m: Machine, q: Request): Option<(nat, Digest)> {
    match q.cmd
    case UpdateCmd(h, d, t) =>
      var p := ActivePos(m.st.contexts, h, q.locality);
      if p.Err? || p.value >= |m.st.contexts| then None
      else (match ChildOfType(m.st.contexts, Ascending(m.st.contexts[p.value].children, 0, |m.st.contexts|), t)
            case None => None
            case Some(c) => Some((c, d)))
    case DeriveCmd(a, _) =>
      var p := ActivePos(m.st.contexts, a.handle, q.locality);
      if p.Ok? && a.flags.recursive then Some((p.value, a.data)) else None
    case _ => None
  }

  /** The measurement that a freshly activated slot starts with, if any. */
  function InitialLog(q: Request): seq<Digest> {
    if q.cmd.DeriveCmd? then [q.cmd.args.data] else []
  }

  /** How the log of slot `k` grows when `q` is executed. */
  function NextLog(m: Machine, q: Request, o: Outcome, k: nat, log: seq<Digest>): seq<Digest>
    requires k < |m.st.contexts| && k < |o.m.st.contexts|
  {
    if o.m.st.contexts[k].state == Inactive then []
    else if m.st.contexts[k].state == Inactive then InitialLog(q)
    else if Stored(o) && Measures(m, q).Some? && Measures(m, q).value.0 == k then log + [Measures(m, q).value.1]
    else log
  }

  function NextLogs(m: Machine, q: Request, o: Outcome, logs: seq<seq<Digest>>): seq<seq<Digest>>
    requires |logs| == |m.st.contexts| == |o.m.st.contexts|
  {
    seq(|logs|, k requires 0 <= k < |logs| => NextLog(m, q, o, k, logs[k]))
  }

  predicate SameDigests(b: Context, c: Context) {
    c.tci.cumulative == b.tci.cumulative && c.tci.current == b.tci.current
  }

  predicate Extends(env: Env, before: Digest, c: Context, data: Digest) {
    env.hash(before, data) == Some(c.tci.cumulative) && c.tci.current == data
  }

  /** Slot by slot: kept, reset, started, or extended by exactly the requested measurement. */
  predicate TciStep(env: Env, m: Machine, q: Request, o: Outcome, k: nat)
    requires k < |m.st.contexts| && k < |o.m.st.contexts|
  {
    var b, c := m.st.contexts[k], o.m.st.contexts[k];
    if c.state == Inactive then true
    else if b.state == Inactive then
      if q.cmd.DeriveCmd? then Extends(env, ZeroDigest(m.st.tciSize), c, q.cmd.args.data)
      else c.tci.cumulative == c.tci.current == ZeroDigest(m.st.tciSize)
    else if Stored(o) && Measures(m, q).Some? && Measures(m, q).value.0 == k then
      Extends(env, b.tci.cumulative, c, Measures(m, q).value.1)
    else SameDigests(b, c)
  }

  ghost predicate TciSteps(env: Env, m: Machine, q: Request, o: Outcome) {
    && |o.m.st.contexts| == |m.st.contexts| && o.m.st.tciSize == m.st.tciSize
    && forall k :: 0 <= k < |m.st.contexts| ==> TciStep(env, m, q, o, k)
  }

  // ----- failures -----

  /** The parent's handle can be rolled, but then none is found for the child. */
  predicate ChildRollFails(env: Env, m: Machine, p: nat, c: nat, data: Digest)
    requires p < |m.st.contexts| && c < |m.st.contexts|
  {
    var cs := m.st.contexts;
    var (r, drawn) := NewHandle(env, cs, m.drawn, MAX_NEW_HANDLE_ATTEMPTS);
    && AddMeasurement(env, cs[c], data, cs[c].locality).Ok?
    && r.Ok? && cs[c].handle != DEFAULT_HANDLE
    && NewHandle(env, cs[p := cs[p].(handle := r.value)], drawn, MAX_NEW_HANDLE_ATTEMPTS).0.Err?
  }

  /** UpdateContextMeasurement rolled the parent's handle and then found none for the child. */
  predicate StoppedHalfway(env: Env, m: Machine, q: Request) {
    q.cmd.UpdateCmd? && q.cmd.handle != DEFAULT_HANDLE &&
    var p := ActivePos(m.st.contexts, q.cmd.handle, q.locality);
    p.Ok? && p.value < |m.st.contexts| && Measures(m, q).Some? && Measures(m, q).value.0 < |m.st.contexts| &&
    ChildRollFails(env, m, p.value, Measures(m, q).value.0, q.cmd.data)
  }

  /** With room for the response, a rejected request leaves the state alone, unless it stopped halfway. */
  ghost predicate Atomic(env: Env, m: Machine, q: Request, o: Outcome) {
    q.fits && o.result.Err? ==> (o.m.st == m.st <==> !StoppedHalfway(env, m, q))
  }

  // ----- command by command -----

  lemma InitializeEffect(env: Env, m: Machine, q: Request, o: Outcome)
    requires q.cmd.InitializeCmd? && o == Initialize(env, m, q.cmd.isDefault, q.cmd.isSimulation, q.locality, q.fits)
    ensures TciSteps(env, m, q, o) && Atomic(env, m, q, o)
  {
    NextInactiveSpec(m.st.contexts, 0);
  }

  lemma RotateEffect(env: Env, m: Machine, q: Request, o: Outcome)
    requires q.cmd.RotateCmd? && o == Rotate(env, m, q.cmd.handle, q.cmd.toDefault, q.locality, q.fits)
    ensures TciSteps(env, m, q, o) && Atomic(env, m, q, o)
  {
    ActivePosFacts(m.st.contexts, q.cmd.handle, q.locality);
  }

  lemma CertifyKeyEffect(env: Env, m: Machine, q: Request, o: Outcome)
    requires q.cmd.CertifyKeyCmd? && o == CertifyKey(env, m, q.cmd.handle, q.cmd.format, q.cmd.cert, q.locality, q.fits)
    ensures TciSteps(env, m, q, o) && Atomic(env, m, q, o)
  {
    ActivePosFacts(m.st.contexts, q.cmd.handle, q.locality);
  }

  lemma SignEffect(env: Env, m: Machine, q: Request, o: Outcome)
    requires q.cmd.SignCmd? && o == Sign(env, m, q.cmd.handle, q.cmd.signature, q.locality, q.fits)
    ensures TciSteps(env, m, q, o) && Atomic(env, m, q, o)
  {
    ActivePosFacts(m.st.contexts, q.cmd.handle, q.locality);
  }

  lemma DestroyEffect(env: Env, m: Machine, q: Request, o: Outcome)
    requires q.cmd.DestroyCmd? && IsForest(m.st.contexts) && o == Destroy(m, q.cmd.handle, q.locality, q.fits)
    ensures TciSteps(env, m, q, o) && Atomic(env, m, q, o)
  {
    hide IsForest, Doomed;
    ActivePosFacts(m.st.contexts, q.cmd.handle, q.locality);
  }

  /** The context that UpdateContextMeasurement extends is another one than the one that authorizes it. */
  lemma UpdateTarget(m: Machine, q: Request)
    requires WellFormed(m.st) && q.cmd.UpdateCmd? && Measures(m, q).Some?
    ensures var cs := m.st.contexts;
      var p, c := ActivePos(cs, q.cmd.handle, q.locality), Measures(m, q).value.0;
      && p.Ok? && p.value < |cs| && cs[p.value].state == Active && cs[p.value].handle == q.cmd.handle
      && c < |cs| && c != p.value && cs[c].parent == p.value && cs[c].state == Active
      && ChildOfType(cs, Ascending(cs[p.value].children, 0, |cs|), q.cmd.tciType) == Some(c)
  {
    hide WellFormed, FirstMatch, LocalityInUse, ChildOfType, Ascending;
    WellFormedForest(m.st);
    var cs := m.st.contexts;
    ActivePosFacts(cs, q.cmd.handle, q.locality);
    var p := ActivePos(cs, q.cmd.handle, q.locality).value;
    AscendingSpec(cs[p].children, 0, |cs|);
    ChildOfTypeSpec(cs, Ascending(cs[p].children, 0, |cs|), q.cmd.tciType);
    ChildRooted(cs, p, Measures(m, q).value.0);
  }

  /** UpdateContextMeasurement extends one child; otherwise only the two handles change. */
  ghost predicate UpdateShape(env: Env, m: Machine, p: nat, c: nat, data: Digest, fits: bool, o: Outcome)
    requires p < |m.st.contexts| && c < |m.st.contexts|
  {
    var cs := m.st.contexts;
    && |o.m.st.contexts| == |cs|
    && (Stored(o) ==>
          && (o.result.Ok? <==> fits)
          && SameNode(cs[c], o.m.st.contexts[c]) && Extends(env, cs[c].tci.cumulative, o.m.st.contexts[c], data)
          && o.m.st == m.st.(contexts := cs[p := cs[p].(handle := o.m.st.contexts[p].handle)][c := o.m.st.contexts[c]]))
    && (if ChildRollFails(env, m, p, c, data) then
          && !Stored(o) && o.m.st.contexts[p].handle != cs[p].handle
          && o.m.st == m.st.(contexts := cs[p := cs[p].(handle := o.m.st.contexts[p].handle)])
        else !Stored(o) ==> o.m.st == m.st)
  }

  lemma RolledSpec(env: Env, cs: seq<Context>, h: Handle, drawn: nat)
    ensures var (r, after) := RolledHandle(env, cs, h, drawn);
      && (h != DEFAULT_HANDLE ==> (r, after) == NewHandle(env, cs, drawn, MAX_NEW_HANDLE_ATTEMPTS))
      && (h == DEFAULT_HANDLE ==> r == Ok(h))
      && (r.Ok? && h != DEFAULT_HANDLE && HandleUsed(cs, h) ==> r.value != h)
      && (r.Err? ==> r.error != InvalidResponseBuf)
  {
    hide NewHandle;
    NewHandleSpec(env, cs, drawn, MAX_NEW_HANDLE_ATTEMPTS);
  }

  lemma UpdateAtShape(env: Env, m: Machine, p: nat, c: nat, data: Digest, fits: bool)
    requires p < |m.st.contexts| && c < |m.st.contexts| && p != c && m.st.contexts[p].handle != DEFAULT_HANDLE
    ensures UpdateShape(env, m, p, c, data, fits, UpdateAt(env, m, p, c, data, fits))
  {
    hide NewHandle, RolledHandle, AddMeasurement, SameNode, Extends;
    var cs := m.st.contexts;
    var o := UpdateAt(env, m, p, c, data, fits);
    var child := AddMeasurement(env, cs[c], data, cs[c].locality);
    AddMeasurementSpec(env, cs[c], data, cs[c].locality);
    if child.Ok? {
      MeasuredNode(env, cs[c], data, child.value);
      RolledSpec(env, cs, cs[p].handle, m.drawn);
      var (r, drawn) := RolledHandle(env, cs, cs[p].handle, m.drawn);
      assert HandleUsed(cs, cs[p].handle);
      if r.Ok? {
        var rolled := cs[p := cs[p].(handle := r.value)];
        RolledSpec(env, rolled, cs[c].handle, drawn);
        var (r2, drawn2) := RolledHandle(env, rolled, child.value.handle, drawn);
        if r2.Ok? {
          assert o.m.st.contexts == rolled[c := child.value.(handle := r2.value)];
        } else {
          assert o.m.st.contexts == rolled;
        }
      }
    }
  }

  lemma MeasuredNode(env: Env, b: Context, data: Digest, c: Context)
    requires AddMeasurement(env, b, data, b.locality) == Ok(c)
    ensures c.handle == b.handle
    ensures forall h: Handle :: SameNode(b, c.(handle := h)) && Extends(env, b.tci.cumulative, c.(handle := h), data)
  {}

  lemma UpdateEffect(env: Env, m: Machine, q: Request, o: Outcome)
    requires WellFormed(m.st) && q.cmd.UpdateCmd?
    requires o == Update(env, m, q.cmd.handle, q.cmd.data, q.cmd.tciType, q.locality, q.fits)
    ensures TciSteps(env, m, q, o) && Atomic(env, m, q, o)
    ensures Measures(m, q).Some? && q.cmd.handle != DEFAULT_HANDLE ==>
      && ActivePos(m.st.contexts, q.cmd.handle, q.locality).Ok?
      && var p, c := ActivePos(m.st.contexts, q.cmd.handle, q.locality).value, Measures(m, q).value.0;
         p < |m.st.contexts| && c < |m.st.contexts| && p != c && m.st.contexts[c].parent == p
         && UpdateShape(env, m, p, c, q.cmd.data, q.fits, o)
    ensures Measures(m, q).None? || q.cmd.handle == DEFAULT_HANDLE ==> !Stored(o) && o.m.st == m.st
  {
    hide WellFormed, FirstMatch, LocalityInUse, ChildOfType, Ascending, UpdateAt, ChildRollFails;
    ActivePosFacts(m.st.contexts, q.cmd.handle, q.locality);
    if Measures(m, q).Some? {
      UpdateTarget(m, q);
      var p, c := ActivePos(m.st.contexts, q.cmd.handle, q.locality).value, Measures(m, q).value.0;
      if q.cmd.handle != DEFAULT_HANDLE {
        UpdateAtShape(env, m, p, c, q.cmd.data, q.fits);
      }
    }
  }

  /** A derived child starts with one measurement; its parent keeps its registers. */
  lemma DeriveChildHistory(env: Env, m: Machine, q: Request, p: nat, parent: Context, drawn: nat)
    requires q.cmd.DeriveCmd? && !q.cmd.args.flags.recursive
    requires InRange(m.st.contexts) && p < |m.st.contexts| && m.st.contexts[p].state == Active
    requires ParentReady(m.st.contexts[p], parent, q.cmd.args.flags.retainParent)
    ensures var o := DeriveChild(env, m.(drawn := drawn), q.cmd.args, p, parent, q.locality, q.fits);
      TciSteps(env, m, q, o) && Atomic(env, m, q, o)
  {
    hide DeriveChild, NewHandle, SafeToMakeChild, FirstMatch;
    var stored, i, child := DeriveChildEffect(env, m.(drawn := drawn), q.cmd.args, p, parent, q.locality, q.fits);
  }

  lemma DeriveExportHistory(env: Env, m: Machine, q: Request, p: nat, parent: Context, drawn: nat)
    requires q.cmd.DeriveCmd? && !q.cmd.args.flags.recursive
    requires IsForest(m.st.contexts) && p < |m.st.contexts| && m.st.contexts[p].state == Active
    requires ParentReady(m.st.contexts[p], parent, q.cmd.args.flags.retainParent)
    ensures var o := DeriveExport(m.(drawn := drawn), q.cmd.args, p, parent, q.cmd.cert, q.fits);
      TciSteps(env, m, q, o) && Atomic(env, m, q, o)
  {
    hide IsForest, Doomed;
  }

  lemma DeriveRecursiveShape(env: Env, m: Machine, a: DeriveArgs, p: nat, locality: u32, fits: bool)
    requires p < |m.st.contexts|
    ensures var o := DeriveRecursive(env, m, a, p, locality, fits);
      var c := AddMeasurement(env, m.st.contexts[p], a.data, TargetLocality(a, locality));
      if Stored(o) then
        && c.Ok? && p < |o.m.st.contexts| && (o.result.Ok? <==> fits)
        && o.m.st == m.st.(contexts := m.st.contexts[p := c.value.(handle := o.m.st.contexts[p].handle)])
      else o.m.st == m.st
  {
    hide NewHandle;
    var c := AddMeasurement(env, m.st.contexts[p], a.data, TargetLocality(a, locality));
    NewHandleSpec(env, m.st.contexts, m.drawn, MAX_NEW_HANDLE_ATTEMPTS);
    if c.Ok? {
      var r := RolledHandle(env, m.st.contexts, c.value.handle, m.drawn).0;
      assert r.Err? ==> r.error != InvalidResponseBuf;
    }
  }

  lemma DeriveRecursiveHistory(env: Env, m: Machine, q: Request, p: nat)
    requires q.cmd.DeriveCmd? && q.cmd.args.flags.recursive
    requires p < |m.st.contexts| && ActivePos(m.st.contexts, q.cmd.args.handle, q.locality) == Ok(p)
    ensures var o := DeriveRecursive(env, m, q.cmd.args, p, q.locality, q.fits);
      TciSteps(env, m, q, o) && Atomic(env, m, q, o)
  {
    hide DeriveRecursive, FirstMatch, LocalityInUse;
    DeriveRecursiveShape(env, m, q.cmd.args, p, q.locality, q.fits);
  }

  lemma DeriveEffect(env: Env, m: Machine, q: Request, o: Outcome)
    requires q.cmd.DeriveCmd? && IsForest(m.st.contexts)
    requires o == Derive(env, m, q.cmd.args, q.cmd.cert, q.locality, q.fits)
    ensures TciSteps(env, m, q, o) && Atomic(env, m, q, o)
  {
    hide IsForest, NewHandle, FirstMatch, LocalityInUse, DeriveChild, DeriveExport, DeriveRecursive;
    var cs := m.st.contexts;
    var a := q.cmd.args;
    ForestInRange(cs);
    ActivePosFacts(cs, a.handle, q.locality);
    if DeriveSupported(m.st.support, a.flags) && ActivePos(cs, a.handle, q.locality).Ok? {
      var p := ActivePos(cs, a.handle, q.locality).value;
      var (r, drawn) := ParentAfter(env, m, p, a.flags.retainParent);
      if a.flags.recursive {
        DeriveRecursiveHistory(env, m, q, p);
      } else if r.Ok? {
        DeriveChildHistory(env, m, q, p, r.value, drawn);
        DeriveExportHistory(env, m, q, p, r.value, drawn);
      }
    }
  }

  lemma ForestInRange(cs: seq<Context>)
    requires IsForest(cs)
    ensures InRange(cs)
  {}

  // ----- all commands -----

  lemma ExecuteEffect(env: Env, m: Machine, q: Request)
    requires WellFormed(m.st)
    ensures IsForest(m.st.contexts)
    ensures TciSteps(env, m, q, Execute(env, m, q)) && Atomic(env, m, q, Execute(env, m, q))
  {
    hide WellFormed, TciSteps, Atomic, Initialize, Derive, Rotate, CertifyKey, Sign, Destroy, Update;
    WellFormedForest(m.st);
    var o := Execute(env, m, q);
    match q.cmd
    case InitializeCmd(_, _) => InitializeEffect(env, m, q, o);
    case DeriveCmd(_, _) => DeriveEffect(env, m, q, o);
    case RotateCmd(_, _) => RotateEffect(env, m, q, o);
    case CertifyKeyCmd(_, _, _) => CertifyKeyEffect(env, m, q, o);
    case SignCmd(_, _) => SignEffect(env, m, q, o);
    case DestroyCmd(_) => DestroyEffect(env, m, q, o);
    case UpdateCmd(_, _, _) => UpdateEffect(env, m, q, o);
  }

  /** With room for the response, a rejected command changes nothing unless it stopped halfway; and one that
      stopped halfway is rejected, and has changed the handle of the parent and nothing else. */
  lemma FailureAtomicity(env: Env, m: Machine, q: Request)
    requires WellFormed(m.st)
    ensures IsForest(m.st.contexts)
    ensures var o := Execute(env, m, q);
            q.fits && o.result.Err? ==> (o.m.st == m.st <==> !StoppedHalfway(env, m, q))
    ensures StoppedHalfway(env, m, q) ==>
      var cs, o, p := m.st.contexts, Execute(env, m, q), ActivePos(m.st.contexts, q.cmd.handle, q.locality).value;
      && o.result.Err? && p < |o.m.st.contexts| && o.m.st.contexts[p].handle != cs[p].handle
      && o.m.st == m.st.(contexts := cs[p := cs[p].(handle := o.m.st.contexts[p].handle)])
  {
    hide WellFormed, Measures, ChildRollFails, FirstMatch, LocalityInUse, Update, SameNode, TciSteps;
    ExecuteEffect(env, m, q);
    if StoppedHalfway(env, m, q) {
      UpdateEffect(env, m, q, Execute(env, m, q));
    }
  }

  function ParentOfOne(tciSize: nat): Context {
    Activated(RootArgs(false, 5, 0), tciSize).(children := {1})
  }

  function OneChild(tciSize: nat): Context {
    Activated(ActivateArgs(Simulation, 0, 6, 9, 0, true, false, false, true, 0, false), tciSize)
  }

  function ParentAndChild(tciSize: nat): State {
    State(MAGIC, VERSION, [ParentOfOne(tciSize), OneChild(tciSize)], AllSupported(), false, tciSize)
  }

  /** A source that answers once and then fails leaves the parent with a new handle and the command rejected. */
  lemma HalfwayExample(env: Env, tciSize: nat, data: Digest)
    requires env.draw(0) == Some(7) && env.draw(1) == None && FirstMeasurementOk(env, tciSize, data)
    ensures var m, q := Machine(ParentAndChild(tciSize), 0), Request(UpdateCmd(5, data, 9), 0, true);
      && Valid(m.st) && IsForest(m.st.contexts) && StoppedHalfway(env, m, q)
      && Execute(env, m, q).result == Err(Crypto) && Execute(env, m, q).m.st.contexts[0].handle == 7
  {
    var st := ParentAndChild(tciSize);
    var cs := st.contexts;
    assert cs[0] == ParentOfOne(tciSize) && cs[1] == OneChild(tciSize);
    DepthIs(cs, 0, 0);
    DepthIs(cs, 1, 1);
    assert ActiveIn(cs, 0, 0);
    assert Valid(st) && IsForest(cs);
    assert FirstMatch(cs, 5, 0, 0) == 0;
    AscendingSpec(cs[0].children, 0, 2);
    ChildOfTypeSpec(cs, Ascending(cs[0].children, 0, 2), 9);
    assert 1 in Ascending(cs[0].children, 0, 2);
    assert ChildOfType(cs, Ascending(cs[0].children, 0, 2), 9) == Some(1);
    assert !HandleUsed(cs, 7);
    var rolled := cs[0 := cs[0].(handle := 7)];
    assert NewHandle(env, cs, 0, MAX_NEW_HANDLE_ATTEMPTS) == (Ok(7), 1);
    assert NewHandle(env, rolled, 1, MAX_NEW_HANDLE_ATTEMPTS) == (Err(Crypto), 2);
  }

  lemma {:induction false} FoldExtends(env: Env, tciSize: nat, log: seq<Digest>, data: Digest)
    ensures Fold(env, tciSize, log + [data])
        == match Fold(env, tciSize, log) case None => None case Some(d) => env.hash(d, data)
  {
    assert (log + [data])[..|log|] == log;
  }

  /** Executing a command and extending the logs keeps registers and logs in step. */
  lemma ExecuteHistory(env: Env, m: Machine, q: Request, logs: seq<seq<Digest>>)
    requires WellFormed(m.st) && HistoryOk(env, m.st, logs)
    ensures IsForest(m.st.contexts)
    ensures |Execute(env, m, q).m.st.contexts| == |logs|
    ensures HistoryOk(env, Execute(env, m, q).m.st, NextLogs(m, q, Execute(env, m, q), logs))
  {
    hide WellFormed, Execute, Measures, Stored;
    ExecuteEffect(env, m, q);
    var o := Execute(env, m, q);
    var next := NextLogs(m, q, o, logs);
    forall k | 0 <= k < |logs| && Live(o.m.st.contexts, k)
      ensures Records(env, o.m.st.tciSize, o.m.st.contexts[k], next[k])
    {
      assert TciStep(env, m, q, o, k);
      if q.cmd.DeriveCmd? {
        FoldExtends(env, m.st.tciSize, [], q.cmd.args.data);
        assert [] + [q.cmd.args.data] == InitialLog(q);
      }
      if Measures(m, q).Some? {
        FoldExtends(env, m.st.tciSize, logs[k], Measures(m, q).value.1);
      }
    }
  }

  /** The logs after a run. */
  ghost function RunLogs(env: Env, m: Machine, qs: seq<Request>, logs: seq<seq<Digest>>): seq<seq<Digest>>
    requires WellFormed(m.st) && |logs| == |m.st.contexts|
    decreases |qs|
  {
    if qs == [] then logs
    else
      ExecuteKeepsWellFormed(env, m, qs[0]);
      ExecuteEffect(env, m, qs[0]);
      var o := Execute(env, m, qs[0]);
      RunLogs(env, o.m, qs[1..], NextLogs(m, qs[0], o, logs))
  }

  /** After any run, every live context's registers are the fold of all measurements applied to it since activation. */
  lemma {:induction false} RunHistory(env: Env, m: Machine, qs: seq<Request>, logs: seq<seq<Digest>>)
    requires WellFormed(m.st) && HistoryOk(env, m.st, logs)
    ensures HistoryOk(env, Run(env, m, qs).st, RunLogs(env, m, qs, logs))
    decreases |qs|
  {
    if qs != [] {
      ExecuteKeepsWellFormed(env, m, qs[0]);
      ExecuteEffect(env, m, qs[0]);
      ExecuteHistory(env, m, qs[0], logs);
      var o := Execute(env, m, qs[0]);
      RunHistory(env, o.m, qs[1..], NextLogs(m, qs[0], o, logs));
    }
  }
}
