/** What callers may rely on: handles that are answered, handles that are used up, permissions, and removal. */
module Promises {
  import opened Bitmap
  import opened Contexts
  import opened Forest
  import opened States
  import opened Commands
  import opened Preservation
  import opened Handles
  import opened Runs
  import opened History
  import opened Kinship
  import opened Laws

  // ----- room for the response -----

  /** Without room for the response a command is not answered; only SignCommand then leaves out its effect. */
  lemma WithoutRoom(env: Env, m: Machine, q: Request)
    requires WellFormed(m.st) && !q.fits
    ensures IsForest(m.st.contexts) && Execute(env, m, q).result.Err?
    ensures Execute(env, m, q).m.st == if q.cmd.SignCmd? then m.st else Execute(env, m, q.(fits := true)).m.st
  {
    hide WellFormed, NewHandle, ActivePos, AddMeasurement, SafeToMakeChild, Certifiable, ChildOfType;
    WellFormedForest(m.st);
  }

  // ----- handles -----

  /** In a state that keeps the rules on handles, an active context is named by its own handle. */
  lemma OwnHandle(cs: seq<Context>, i: nat, locality: u32)
    requires DistinctHandles(cs) && LocalityRule(cs) && There(cs, i, locality)
    ensures Names(cs, cs[i].handle, locality, i)
  {
    forall j: nat | j < i && There(cs, j, locality) ensures cs[j].handle != cs[i].handle {
      assert ActiveIn(cs, i, cs[i].locality) && ActiveIn(cs, j, cs[i].locality);
    }
  }

  /** Every handle in the answer names the context it was given to. */
  ghost predicate AnswerNames(m: Machine, q: Request, w: Course, r: Response, after: Machine) {
    var cs, next := m.st.contexts, after.st.contexts;
    match r
    case NewHandleResp(h) => Names(next, h, q.locality, w.slot)
    case CertifyKeyResp(h, _) => Names(next, h, q.locality, w.slot)
    case SignResp(h) => Names(next, h, q.locality, w.slot)
    case UpdateResp(h, ph) =>
      w.other < |cs| && Names(next, ph, q.locality, w.slot) && Names(next, h, cs[w.other].locality, w.other)
    case DeriveContextResp(h, ph) =>
      q.cmd.DeriveCmd? &&
      if q.cmd.args.flags.recursive then Names(next, h, q.locality, w.slot)
      else
        && Names(next, h, Target(q.cmd.args, q.locality), w.other)
        && (q.cmd.args.flags.retainParent ==> Names(next, ph, q.locality, w.slot))
    case ExportedCdiResp(ph, _) =>
      q.cmd.DeriveCmd? && (q.cmd.args.flags.retainParent ==> Names(next, ph, q.locality, w.slot))
    case DestroyResp => true
  }

  /** The same, before it is known that handles tell contexts apart: the slot is active, there, and has the handle. */
  ghost predicate AnswerHeld(m: Machine, q: Request, w: Course, r: Response, after: Machine) {
    var cs, next := m.st.contexts, after.st.contexts;
    match r
    case NewHandleResp(h) => Held(next, h, q.locality, w.slot)
    case CertifyKeyResp(h, _) => Held(next, h, q.locality, w.slot)
    case SignResp(h) => Held(next, h, q.locality, w.slot)
    case UpdateResp(h, ph) =>
      w.other < |cs| && Held(next, ph, q.locality, w.slot) && Held(next, h, cs[w.other].locality, w.other)
    case DeriveContextResp(h, ph) =>
      q.cmd.DeriveCmd? &&
      if q.cmd.args.flags.recursive then Held(next, h, q.locality, w.slot)
      else
        && Held(next, h, Target(q.cmd.args, q.locality), w.other)
        && (q.cmd.args.flags.retainParent ==> Held(next, ph, q.locality, w.slot))
    case ExportedCdiResp(ph, _) =>
      q.cmd.DeriveCmd? && (q.cmd.args.flags.retainParent ==> Held(next, ph, q.locality, w.slot))
    case DestroyResp => true
  }

  predicate Held(cs: seq<Context>, h: Handle, locality: u32, i: nat) {
    There(cs, i, locality) && cs[i].handle == h
  }

  /** A child is another context than the parent it is looked up or made under. */
  lemma OtherSlot(env: Env, m: Machine, q: Request, w: Course, r: Response, after: Machine)
    requires WellFormed(m.st) && LawBy(env, m, q, w, r, after)
    ensures q.cmd.UpdateCmd? || (q.cmd.DeriveCmd? && r.DeriveContextResp? && !q.cmd.args.flags.recursive) ==>
      w.slot != w.other
  {
    hide WellFormed;
    if q.cmd.UpdateCmd? {
      WellFormedForest(m.st);
      var cs := m.st.contexts;
      assert ParentLinkOk(cs, w.other);
      ChildIsOther(cs, w.slot, w.other);
    }
  }

  lemma AnswerIsHeld(env: Env, m: Machine, q: Request, w: Course, r: Response, after: Machine)
    requires WellFormed(m.st) && LawBy(env, m, q, w, r, after)
    ensures AnswerHeld(m, q, w, r, after)
  {
    hide WellFormed, DrawsTo, Removed, Room, TypeFree, Supported, Granted, Hashes;
    OtherSlot(env, m, q, w, r, after);
  }

  /** Whenever no two draws collide and no root is added to an occupied locality, every answered handle works. */
  lemma AnsweredHandles(env: Env, m: Machine, q: Request, r: Response, after: Machine) returns (w: Course)
    requires Valid(m.st) && DistinctHandles(m.st.contexts)
    requires IsForest(m.st.contexts) && Execute(env, m, q) == Outcome(after, Ok(r))
    requires !(q.cmd.DeriveCmd? && Collides(env, m, q.cmd.args, q.locality))
    requires !(q.cmd.InitializeCmd? && UnsafeInitialize(env, m, q.cmd.isDefault, q.cmd.isSimulation, q.locality))
    ensures LawBy(env, m, q, w, r, after) && AnswerNames(m, q, w, r, after)
  {
    hide WellFormed, Execute, LawBy, LocalityRule, DistinctHandles, Collides, UnsafeInitialize, There, Names;
    ExecuteLaw(env, m, q, r, after);
    w :| LawBy(env, m, q, w, r, after);
    AnswerIsHeld(env, m, q, w, r, after);
    ExecuteDistinct(env, m, q);
    ExecuteRule(env, m, q);
    forall i: nat, locality: u32 | There(after.st.contexts, i, locality)
      ensures i < |after.st.contexts| && Names(after.st.contexts, after.st.contexts[i].handle, locality, i)
    {
      ThereIs(after.st.contexts, i, locality);
      OwnHandle(after.st.contexts, i, locality);
    }
  }

  lemma ThereIs(cs: seq<Context>, i: nat, locality: u32)
    ensures There(cs, i, locality) ==> i < |cs|
  {}

  /** The handle that a command is given. */
  function Given(q: Request): Handle {
    match q.cmd
    case InitializeCmd(_, _) => DEFAULT_HANDLE
    case DeriveCmd(a, _) => a.handle
    case RotateCmd(h, _) => h
    case CertifyKeyCmd(h, _, _) => h
    case SignCmd(h, _) => h
    case DestroyCmd(h) => h
    case UpdateCmd(h, _, _) => h
  }

  /** A handle of its own is used up by the command it is given to: no active context has it any more, unless
      UpdateContextMeasurement drew the parent's old handle for the child. */
  lemma HandleUsedUp(env: Env, m: Machine, q: Request, r: Response, after: Machine, j: nat)
    requires WellFormed(m.st) && DistinctHandles(m.st.contexts)
    requires IsForest(m.st.contexts) && Execute(env, m, q) == Outcome(after, Ok(r))
    requires Given(q) != DEFAULT_HANDLE && j < |after.st.contexts| && after.st.contexts[j].state == Active
    ensures after.st.contexts[j].handle == Given(q) ==> r.UpdateResp? && r.handle == Given(q)
  {
    hide WellFormed, Execute, LawBy;
    ExecuteLaw(env, m, q, r, after);
    var w :| LawBy(env, m, q, w, r, after);
    UsedUpBy(env, m, q, w, r, after, j);
  }

  lemma UsedUpBy(env: Env, m: Machine, q: Request, w: Course, r: Response, after: Machine, j: nat)
    requires WellFormed(m.st) && DistinctHandles(m.st.contexts) && LawBy(env, m, q, w, r, after)
    requires Given(q) != DEFAULT_HANDLE && j < |after.st.contexts| && after.st.contexts[j].state == Active
    ensures after.st.contexts[j].handle == Given(q) ==> r.UpdateResp? && r.handle == Given(q)
  {
    hide WellFormed, Room, TypeFree, Supported, Granted, Hashes, GoesWith;
    OtherSlot(env, m, q, w, r, after);
    if q.cmd.DestroyCmd? || r.ExportedCdiResp? {
      WellFormedForest(m.st);
      SelfGoes(m.st.contexts, w.slot);
    }
  }

  lemma SelfGoes(cs: seq<Context>, i: nat)
    requires IsForest(cs)
    ensures Live(cs, i) ==> Goes(cs, i, i)
  {
    if Live(cs, i) {
      OnPathSelf(cs, i);
    }
  }

  lemma OnPathSelf(cs: seq<Context>, i: nat)
    requires Rooted(cs, i)
    ensures Above(cs, i, i)
  {
    assert PathUp(cs, i)[0] == i;
  }

  /** A source that says 7 and then 5 makes the child inherit the handle that its parent has just given up. */
  lemma ReuseExample(env: Env, tciSize: nat, data: Digest)
    requires env.draw(0) == Some(7) && env.draw(1) == Some(5) && FirstMeasurementOk(env, tciSize, data)
    ensures var m, q := Machine(ParentAndChild(tciSize), 0), Request(UpdateCmd(5, data, 9), 0, true);
            && Valid(m.st) && DistinctHandles(m.st.contexts) && IsForest(m.st.contexts)
            && Execute(env, m, q).result == Ok(UpdateResp(5, 7))
  {
    var st, cs := ParentAndChild(tciSize), ParentAndChild(tciSize).contexts;
    ParentAndChildValid(tciSize);
    var m, q := Machine(st, 0), Request(UpdateCmd(5, data, 9), 0, true);
    var d := env.hash(ZeroDigest(tciSize), data).value;
    var rolled := cs[0 := cs[0].(handle := 7)];
    var after := Machine(st.(contexts := rolled[1 := Measured(cs[1], d, data).(handle := 5)]), 2);
    assert after.st.contexts[1].tci.cumulative == d;
    assert Names(cs, 5, 0, 0) && ActiveChild(cs, 1, 0, 9) && !ActiveChild(cs, 0, 0, 9);
    assert Usable(cs, 7) && Usable(rolled, 5);
    assert DrawsTo(env, cs, 0, 8, 7, 1) && DrawsTo(env, rolled, 1, 8, 5, 2);
    assert UpdateLaw(env, m, 5, data, 9, 0, Course(0, 1, 1, 2), UpdateResp(5, 7), after);
    assert LawBy(env, m, q, Course(0, 1, 1, 2), UpdateResp(5, 7), after);
    ExecuteLaw(env, m, q, UpdateResp(5, 7), after);
  }

  lemma ParentAndChildValid(tciSize: nat)
    ensures var st := ParentAndChild(tciSize);
            Valid(st) && WellFormed(st) && IsForest(st.contexts) && DistinctHandles(st.contexts)
  {
    var st, cs := ParentAndChild(tciSize), ParentAndChild(tciSize).contexts;
    assert cs[0] == ParentOfOne(tciSize) && cs[1] == OneChild(tciSize);
    DepthIs(cs, 0, 0);
    DepthIs(cs, 1, 1);
    assert Valid(st) && IsForest(cs);
  }

  // ----- RotateContext -----

  /** An answered rotation has given the named context the answered handle, and has changed nothing else. */
  lemma RotatePromise(env: Env, m: Machine, q: Request, i: nat)
    requires Valid(m.st) && DistinctHandles(m.st.contexts) && q.cmd.RotateCmd?
    requires Names(m.st.contexts, q.cmd.handle, q.locality, i)
    ensures IsForest(m.st.contexts)
    ensures var cs, o := m.st.contexts, Execute(env, m, q);
            && (o.result.Ok? <==>
                  && q.fits && m.st.support.rotateContext
                  && if q.cmd.toDefault then
                       q.cmd.handle != DEFAULT_HANDLE
                       && forall j: nat :: j < |cs| && There(cs, j, q.locality) ==> j == i
                     else exists h: Handle, to: nat :: DrawsTo(env, cs, m.drawn, 8, h, to))
            && (o.result.Ok? ==>
                  && o.result.value.NewHandleResp?
                  && var h := o.result.value.handle;
                     && Names(o.m.st.contexts, h, q.locality, i) && (h == DEFAULT_HANDLE <==> q.cmd.toDefault)
                     && o.m.st == m.st.(contexts := cs[i := cs[i].(handle := h)])
                     && (q.cmd.handle != DEFAULT_HANDLE ==>
                           forall j: nat :: j < |cs| && There(o.m.st.contexts, j, q.locality) ==>
                             o.m.st.contexts[j].handle != q.cmd.handle))
  {
    hide WellFormed, Execute, DrawsTo, DistinctHandles, LocalityRule;
    WellFormedForest(m.st);
    var cs, o := m.st.contexts, Execute(env, m, q);
    if o.result.Ok? {
      ExecuteLaw(env, m, q, o.result.value, o.m);
      var w := AnsweredHandles(env, m, q, o.result.value, o.m);
      OneName(cs, q.cmd.handle, q.locality, i, w.slot);
      DrawnUsable(env, cs, m.drawn, o.result.value.handle, w.to);
      forall j: nat | j < |cs| && q.cmd.handle != DEFAULT_HANDLE && There(o.m.st.contexts, j, q.locality)
        ensures o.m.st.contexts[j].handle != q.cmd.handle
      {
        HandleUsedUp(env, m, q, o.result.value, o.m, j);
      }
    }
    if q.fits && m.st.support.rotateContext {
      if q.cmd.toDefault {
        if q.cmd.handle != DEFAULT_HANDLE && forall j: nat :: j < |cs| && There(cs, j, q.locality) ==> j == i {
          var after := Machine(m.st.(contexts := cs[i := cs[i].(handle := 0)]), m.drawn);
          assert LawBy(env, m, q, Course(i, 0, 0, m.drawn), NewHandleResp(0), after);
          ExecuteLaw(env, m, q, NewHandleResp(0), after);
        }
      } else if exists h: Handle, to: nat :: DrawsTo(env, cs, m.drawn, 8, h, to) {
        var h: Handle, to: nat :| DrawsTo(env, cs, m.drawn, 8, h, to);
        var after := Machine(m.st.(contexts := cs[i := cs[i].(handle := h)]), to);
        assert LawBy(env, m, q, Course(i, 0, 0, to), NewHandleResp(h), after);
        ExecuteLaw(env, m, q, NewHandleResp(h), after);
      }
    }
  }

  lemma OneName(cs: seq<Context>, h: Handle, locality: u32, i: nat, j: nat)
    requires Names(cs, h, locality, i) && Names(cs, h, locality, j)
    ensures i == j
  {}

  lemma DrawnUsable(env: Env, cs: seq<Context>, from: nat, h: Handle, to: nat)
    ensures DrawsTo(env, cs, from, 8, h, to) ==> h != DEFAULT_HANDLE
  {}

  // ----- removal -----

  /** Exactly the live slots that go with `i` are no longer live; every survivor keeps everything but its lost
      children. */
  ghost predicate RemovedLive(cs: seq<Context>, i: nat, after: seq<Context>) {
    && |after| == |cs|
    && (forall w: nat :: w < |cs| ==> (Live(after, w) <==> Live(cs, w) && !GoesWith(cs, i, w)))
    && (forall w: nat :: w < |cs| && Live(after, w) ==>
          after[w] == cs[w].(children := set c | c in cs[w].children && Live(after, c)))
  }

  lemma RemovedIsLive(cs: seq<Context>, i: nat, tciSize: nat, after: seq<Context>)
    requires IsForest(cs) && Removed(cs, i, tciSize, after)
    ensures RemovedLive(cs, i, after)
  {
    hide GoesWith;
    forall w: nat | w < |cs| ensures Live(after, w) <==> Live(cs, w) && !GoesWith(cs, i, w) {
    }
    forall w: nat | w < |cs| && Live(after, w)
      ensures after[w] == cs[w].(children := set c | c in cs[w].children && Live(after, c))
    {
      assert ChildLinksOk(cs, w);
      forall c | c in cs[w].children ensures !Goes(cs, i, c) <==> Live(after, c) {
      }
      assert Remaining(cs, i, cs[w].children) == set c | c in cs[w].children && Live(after, c);
    }
  }

  /** DestroyContext removes what it must, whether or not there is room for the response; it fails only without
      room, or if nothing is named, and then changes nothing. */
  lemma DestroyPromise(env: Env, m: Machine, q: Request)
    requires WellFormed(m.st) && q.cmd.DestroyCmd?
    ensures IsForest(m.st.contexts)
    ensures forall i: nat :: Names(m.st.contexts, q.cmd.handle, q.locality, i) ==>
      && (Execute(env, m, q).result == if q.fits then Ok(DestroyResp) else Err(InvalidResponseBuf))
      && RemovedLive(m.st.contexts, i, Execute(env, m, q).m.st.contexts)
    ensures (forall i: nat :: !Names(m.st.contexts, q.cmd.handle, q.locality, i)) ==>
      && Execute(env, m, q).m == m
      && (Execute(env, m, q).result == Err(InvalidHandle) || Execute(env, m, q).result == Err(InvalidLocality))
  {
    hide WellFormed, Execute, Removed, RemovedLive, Names;
    WellFormedForest(m.st);
    var cs, roomy := m.st.contexts, q.(fits := true);
    forall i: nat | Names(cs, q.cmd.handle, q.locality, i)
      ensures Execute(env, m, q).result == if q.fits then Ok(DestroyResp) else Err(InvalidResponseBuf)
      ensures RemovedLive(cs, i, Execute(env, m, q).m.st.contexts)
    {
      var after := Execute(env, m, roomy).m;
      DestroyAnswered(env, m, q, i);
      ExecuteLaw(env, m, roomy, DestroyResp, after);
      var w :| LawBy(env, m, roomy, w, DestroyResp, after);
      OneNameHidden(cs, q.cmd.handle, q.locality, i, w.slot);
      RemovedIsLive(cs, i, m.st.tciSize, after.st.contexts);
    }
    if forall i: nat :: !Names(cs, q.cmd.handle, q.locality, i) {
      NothingNamed(env, m, q);
    }
  }

  lemma OneNameHidden(cs: seq<Context>, h: Handle, locality: u32, i: nat, j: nat)
    requires Names(cs, h, locality, i) && Names(cs, h, locality, j)
    ensures i == j && Live(cs, i)
  {}

  lemma DestroyAnswered(env: Env, m: Machine, q: Request, i: nat)
    requires IsForest(m.st.contexts) && q.cmd.DestroyCmd? && Names(m.st.contexts, q.cmd.handle, q.locality, i)
    ensures Execute(env, m, q).result == if q.fits then Ok(DestroyResp) else Err(InvalidResponseBuf)
    ensures Execute(env, m, q.(fits := true)).result == Ok(DestroyResp)
    ensures Execute(env, m, q).m == Execute(env, m, q.(fits := true)).m
  {
    hide IsForest, ActivePos, Names;
    NamesIff(m.st.contexts, q.cmd.handle, q.locality, i);
  }

  lemma NothingNamed(env: Env, m: Machine, q: Request)
    requires IsForest(m.st.contexts) && q.cmd.DestroyCmd?
    requires forall i: nat :: !Names(m.st.contexts, q.cmd.handle, q.locality, i)
    ensures Execute(env, m, q).m == m
    ensures Execute(env, m, q).result == Err(InvalidHandle) || Execute(env, m, q).result == Err(InvalidLocality)
  {
    hide IsForest;
    var pos := ActivePos(m.st.contexts, q.cmd.handle, q.locality);
    ActivePosSpec(m.st.contexts, q.cmd.handle, q.locality);
    if pos.Ok? {
      NamesIff(m.st.contexts, q.cmd.handle, q.locality, pos.value);
    }
  }

  /** An answered export whose parent is neither retained nor has children removes the parent like DestroyContext. */
  lemma ExportPromise(env: Env, m: Machine, q: Request, i: nat)
    requires WellFormed(m.st) && q.cmd.DeriveCmd? && Names(m.st.contexts, q.cmd.args.handle, q.locality, i)
    ensures IsForest(m.st.contexts)
    ensures var cs, o, f := m.st.contexts, Execute(env, m, q), q.cmd.args.flags;
            o.result.Ok? && o.result.value.ExportedCdiResp? ==>
              if f.retainParent then
                o.m.st.contexts == cs[i := cs[i].(handle := o.result.value.parentHandle)]
              else if cs[i].children != {} then
                o.m.st.contexts == cs[i := cs[i].(handle := INVALID_HANDLE, state := Retired)]
              else RemovedLive(cs, i, o.m.st.contexts)
  {
    hide WellFormed, Execute, Removed, RemovedLive, Names, TypeFree, Supported, Granted;
    WellFormedForest(m.st);
    var cs, o := m.st.contexts, Execute(env, m, q);
    if o.result.Ok? && o.result.value.ExportedCdiResp? {
      ExecuteLaw(env, m, q, o.result.value, o.m);
      var w :| LawBy(env, m, q, w, o.result.value, o.m);
      OneNameHidden(cs, q.cmd.args.handle, q.locality, i, w.slot);
      StayActive(cs, q.cmd.args.handle, q.locality, i);
      if !q.cmd.args.flags.retainParent && cs[i].children == {} {
        RemovedIsLive(cs, i, m.st.tciSize, o.m.st.contexts);
      }
    }
  }

  lemma StayActive(cs: seq<Context>, h: Handle, locality: u32, i: nat)
    requires Names(cs, h, locality, i)
    ensures cs[i].state == Active
  {}

  // ----- permissions -----

  /** An answered DeriveContext had every permission and every supported flag that it needed. */
  lemma PermissionsEnforced(env: Env, m: Machine, q: Request, i: nat)
    requires WellFormed(m.st) && q.cmd.DeriveCmd? && Names(m.st.contexts, q.cmd.args.handle, q.locality, i)
    ensures IsForest(m.st.contexts)
    ensures var c, o, f := m.st.contexts[i], Execute(env, m, q), q.cmd.args.flags;
            o.result.Ok? ==>
              && (o.result.value.ExportedCdiResp? ==>
                    c.state == Active && c.contextType == Normal && c.allowExportCdi && m.st.support.cdiExport)
              && (f.recursive ==> c.allowRecursive && m.st.support.recursive)
              && (f.allowX509 ==> c.allowX509 && m.st.support.x509)
              && (f.retainParent ==> m.st.support.retainParent)
              && (f.exportCdi ==> o.result.value.ExportedCdiResp?)
  {
    hide WellFormed, Execute, Removed, Names, TypeFree, DrawsTo, Hashes, Room, FirstFree;
    WellFormedForest(m.st);
    var o := Execute(env, m, q);
    if o.result.Ok? {
      ExecuteLaw(env, m, q, o.result.value, o.m);
      var w :| LawBy(env, m, q, w, o.result.value, o.m);
      OneNameHidden(m.st.contexts, q.cmd.args.handle, q.locality, i, w.slot);
      StayActive(m.st.contexts, q.cmd.args.handle, q.locality, i);
    }
  }

  /** And one that lacks any of them is refused for it, and changes nothing. */
  lemma PermissionsRefused(env: Env, m: Machine, q: Request, i: nat)
    requires WellFormed(m.st) && q.cmd.DeriveCmd? && Names(m.st.contexts, q.cmd.args.handle, q.locality, i)
    ensures IsForest(m.st.contexts)
    ensures !Supported(m.st.support, q.cmd.args.flags) ==>
      Execute(env, m, q) == Outcome(m, Err(ArgumentNotSupported))
    ensures Supported(m.st.support, q.cmd.args.flags) && !Granted(m.st.contexts[i], q.cmd.args.flags) ==>
      Execute(env, m, q) == Outcome(m, Err(InvalidArgument))
    ensures Execute(env, m, q).result.Ok? ==>
      Supported(m.st.support, q.cmd.args.flags) && Granted(m.st.contexts[i], q.cmd.args.flags)
  {
    hide WellFormed, Names, ActivePos, DeriveRecursive, DeriveChild, DeriveExport, ParentAfter;
    WellFormedForest(m.st);
    ActivePosFacts(m.st.contexts, q.cmd.args.handle, q.locality);
    NamesIff(m.st.contexts, q.cmd.args.handle, q.locality, i);
  }

  /** Under a narrowing forest, a permission that is used is one that every ancestor has. */
  lemma AncestorsAllow(env: Env, m: Machine, q: Request, i: nat, a: nat)
    requires WellFormed(m.st) && Narrowing(m.st.contexts) && Above(m.st.contexts, a, i)
    requires IsForest(m.st.contexts) && Execute(env, m, q).result.Ok?
    ensures a < |m.st.contexts|
    ensures q.cmd.DeriveCmd? && Names(m.st.contexts, q.cmd.args.handle, q.locality, i) ==>
      var c, r, f := m.st.contexts[a], Execute(env, m, q).result.value, q.cmd.args.flags;
      (r.ExportedCdiResp? ==> c.allowExportCdi) && (f.recursive ==> c.allowRecursive) && (f.allowX509 ==> c.allowX509)
    ensures q.cmd.CertifyKeyCmd? && Names(m.st.contexts, q.cmd.handle, q.locality, i) && q.cmd.format == 0 ==>
      m.st.contexts[a].allowX509
  {
    hide WellFormed, Execute, IsForest, Narrowing, Above, Names, RollsTo;
    AncestorsPermit(m.st.contexts, a, i);
    if q.cmd.DeriveCmd? && Names(m.st.contexts, q.cmd.args.handle, q.locality, i) {
      PermissionsEnforced(env, m, q, i);
    }
    if q.cmd.CertifyKeyCmd? && Names(m.st.contexts, q.cmd.handle, q.locality, i) {
      var o := Execute(env, m, q);
      ExecuteLaw(env, m, q, o.result.value, o.m);
      var w :| LawBy(env, m, q, w, o.result.value, o.m);
      OneNameHidden(m.st.contexts, q.cmd.handle, q.locality, i, w.slot);
    }
  }
}
