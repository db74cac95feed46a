/** Runs of commands: what holds after any sequence of requests. */
module Runs {
  import opened Bitmap
  import opened Contexts
  import opened Forest
  import opened States
  import opened Commands
  import opened Preservation
  import opened Handles

  /** The machine after a sequence of requests. */
  ghost function Run(env: Env, m: Machine, qs: seq<Request>): (r: Machine)
    requires WellFormed(m.st)
    ensures WellFormed(r.st)
    decreases |qs|
  {
    if qs == [] then m
    else
      ExecuteKeepsWellFormed(env, m, qs[0]);
      Run(env, Execute(env, m, qs[0]).m, qs[1..])
  }

  /** No InitializeContext of the run adds a root to a locality that is not safe for it. */
  ghost predicate SafeRun(env: Env, m: Machine, qs: seq<Request>)
    requires WellFormed(m.st)
    decreases |qs|
  {
    qs == [] ||
    (ExecuteKeepsWellFormed(env, m, qs[0]);
     var o := Execute(env, m, qs[0]);
     && !(qs[0].cmd.InitializeCmd?
         && UnsafeInitialize(env, m, qs[0].cmd.isDefault, qs[0].cmd.isSimulation, qs[0].locality))
     && SafeRun(env, o.m, qs[1..]))
  }

  /** Requests that could fail validation are only those that initialize an occupied locality. */
  lemma {:induction false} RunValid(env: Env, m: Machine, qs: seq<Request>)
    requires Valid(m.st) && SafeRun(env, m, qs)
    ensures Valid(Run(env, m, qs).st)
    decreases |qs|
  {
    if qs != [] {
      ExecuteKeepsWellFormed(env, m, qs[0]);
      ExecuteRule(env, m, qs[0]);
      RunValid(env, Execute(env, m, qs[0]).m, qs[1..]);
    }
  }

  // ----- handles -----

  /** No DeriveContext of the run admits a child while its two draws collide. */
  ghost predicate CollisionFree(env: Env, m: Machine, qs: seq<Request>)
    requires WellFormed(m.st)
    decreases |qs|
  {
    qs == [] ||
    (ExecuteKeepsWellFormed(env, m, qs[0]);
     && !(qs[0].cmd.DeriveCmd? && Collides(env, m, qs[0].cmd.args, qs[0].locality))
     && CollisionFree(env, Execute(env, m, qs[0]).m, qs[1..]))
  }

  /** Handles are distinct at every point of the run. */
  ghost predicate AlwaysDistinct(env: Env, m: Machine, qs: seq<Request>)
    requires WellFormed(m.st)
  {
    forall k :: 0 <= k <= |qs| ==> DistinctHandles(Run(env, m, qs[..k]).st.contexts)
  }

  lemma RunStep(env: Env, m: Machine, qs: seq<Request>, k: nat)
    requires WellFormed(m.st) && k < |qs|
    ensures IsForest(m.st.contexts) && WellFormed(Execute(env, m, qs[0]).m.st)
    ensures Run(env, m, qs[..k + 1]) == Run(env, Execute(env, m, qs[0]).m, qs[1..][..k])
  {
    ExecuteKeepsWellFormed(env, m, qs[0]);
    assert qs[..k + 1][0] == qs[0] && qs[..k + 1][1..] == qs[1..][..k];
  }

  /** Whatever the random source does, the handles are distinct all along exactly if no two draws collide in a stored
      child. */
  lemma {:induction false} RunDistinct(env: Env, m: Machine, qs: seq<Request>)
    requires WellFormed(m.st) && DistinctHandles(m.st.contexts)
    ensures CollisionFree(env, m, qs) <==> AlwaysDistinct(env, m, qs)
    decreases |qs|
  {
    hide WellFormed, DistinctHandles, Execute, Collides;
    assert qs[..0] == [];
    if qs != [] {
      ExecuteKeepsWellFormed(env, m, qs[0]);
      ExecuteDistinct(env, m, qs[0]);
      var next, rest := Execute(env, m, qs[0]).m, qs[1..];
      forall k: nat | k < |qs| ensures Run(env, m, qs[..k + 1]) == Run(env, next, rest[..k]) {
        RunStep(env, m, qs, k);
      }
      assert Run(env, m, qs[..1]) == Run(env, next, rest[..0]) == next;
      if DistinctHandles(next.st.contexts) {
        RunDistinct(env, next, rest);
        assert AlwaysDistinct(env, m, qs) ==> AlwaysDistinct(env, next, rest) by {
          if AlwaysDistinct(env, m, qs) {
            forall k | 0 <= k <= |rest| ensures DistinctHandles(Run(env, next, rest[..k]).st.contexts) {
              assert Run(env, m, qs[..k + 1]) == Run(env, next, rest[..k]);
            }
          }
        }
        assert AlwaysDistinct(env, next, rest) ==> AlwaysDistinct(env, m, qs) by {
          if AlwaysDistinct(env, next, rest) {
            forall k | 0 <= k <= |qs| ensures DistinctHandles(Run(env, m, qs[..k]).st.contexts) {
              if k > 0 {
                assert Run(env, m, qs[..(k - 1) + 1]) == Run(env, next, rest[..k - 1]);
              }
            }
          }
        }
      }
    }
  }

  /** A DeriveContext that draws for both parent and child. */
  predicate DrawsTwice(q: Request) {
    q.cmd.DeriveCmd? && q.cmd.args.flags.retainParent && !q.cmd.args.flags.makeDefault
  }

  lemma SingleDraw(env: Env, m: Machine, a: DeriveArgs, locality: u32)
    requires !(a.flags.retainParent && !a.flags.makeDefault)
    ensures !Collides(env, m, a, locality)
  {
    hide AdmitsChild, NewHandle, ActivePos;
  }

  /** A run in which no DeriveContext draws for both cannot collide, whatever the source. */
  lemma {:induction false} SingleDrawsCollisionFree(env: Env, m: Machine, qs: seq<Request>)
    requires WellFormed(m.st) && forall q :: q in qs ==> !DrawsTwice(q)
    ensures CollisionFree(env, m, qs)
    decreases |qs|
  {
    hide WellFormed, Execute, Collides;
    if qs != [] {
      assert qs[0] in qs;
      if qs[0].cmd.DeriveCmd? {
        SingleDraw(env, m, qs[0].cmd.args, qs[0].locality);
      }
      ExecuteKeepsWellFormed(env, m, qs[0]);
      SingleDrawsCollisionFree(env, Execute(env, m, qs[0]).m, qs[1..]);
    }
  }

  /** The source gives no value twice between the draws `lo` and `hi`. */
  ghost predicate NoRepeats(env: Env, lo: nat, hi: nat) {
    forall a: nat, b: nat :: lo <= a < b < hi && env.draw(a).Some? ==> env.draw(a) != env.draw(b)
  }

  lemma ExecuteDraws(env: Env, m: Machine, q: Request)
    requires IsForest(m.st.contexts)
    ensures m.drawn <= Execute(env, m, q).m.drawn
  {
    hide IsForest, NewHandle, ActivePos, AddMeasurement, SafeToMakeChild, Certifiable, ChildOfType;
    forall cs, drawn: nat ensures drawn <= NewHandle(env, cs, drawn, MAX_NEW_HANDLE_ATTEMPTS).1 {
      NewHandleSpec(env, cs, drawn, MAX_NEW_HANDLE_ATTEMPTS);
    }
  }

  /** A collision takes two equal draws within the command. */
  lemma CollisionRepeats(env: Env, m: Machine, q: Request)
    requires IsForest(m.st.contexts) && q.cmd.DeriveCmd? && Collides(env, m, q.cmd.args, q.locality)
    ensures !NoRepeats(env, m.drawn, Execute(env, m, q).m.drawn)
  {
    hide IsForest, NewHandle, ActivePos, SafeToMakeChild, DeriveAllowed, TypeTaken, Activated;
    var cs, a := m.st.contexts, q.cmd.args;
    var p := ActivePos(cs, a.handle, q.locality).value;
    var (r1, d1) := NewHandle(env, cs, m.drawn, MAX_NEW_HANDLE_ATTEMPTS);
    var (r2, d2) := NewHandle(env, cs, d1, MAX_NEW_HANDLE_ATTEMPTS);
    NewHandleSpec(env, cs, m.drawn, MAX_NEW_HANDLE_ATTEMPTS);
    NewHandleSpec(env, cs, d1, MAX_NEW_HANDLE_ATTEMPTS);
    ForestBounds(cs);
    var (r, drawn) := ParentAfter(env, m, p, a.flags.retainParent);
    assert drawn == d1 && r.Ok?;
    assert DeriveChild(env, m.(drawn := d1), a, p, r.value, q.locality, q.fits).m.drawn == d2;
    assert env.draw(d1 - 1) == env.draw(d2 - 1);
  }

  lemma ForestBounds(cs: seq<Context>)
    requires IsForest(cs)
    ensures InRange(cs)
  {}

  lemma {:induction false} RunDraws(env: Env, m: Machine, qs: seq<Request>)
    requires WellFormed(m.st)
    ensures m.drawn <= Run(env, m, qs).drawn
    decreases |qs|
  {
    hide WellFormed, Execute;
    if qs != [] {
      ExecuteKeepsWellFormed(env, m, qs[0]);
      ExecuteDraws(env, m, qs[0]);
      RunDraws(env, Execute(env, m, qs[0]).m, qs[1..]);
    }
  }

  /** If no value came up twice among the draws of the run, no two collided. */
  lemma {:induction false} NoRepeatsCollisionFree(env: Env, m: Machine, qs: seq<Request>)
    requires WellFormed(m.st) && NoRepeats(env, m.drawn, Run(env, m, qs).drawn)
    ensures CollisionFree(env, m, qs)
    decreases |qs|
  {
    hide WellFormed, Execute, Collides;
    if qs != [] {
      ExecuteKeepsWellFormed(env, m, qs[0]);
      ExecuteDraws(env, m, qs[0]);
      RunDraws(env, Execute(env, m, qs[0]).m, qs[1..]);
      if qs[0].cmd.DeriveCmd? && Collides(env, m, qs[0].cmd.args, qs[0].locality) {
        CollisionRepeats(env, m, qs[0]);
      }
      NoRepeatsCollisionFree(env, Execute(env, m, qs[0]).m, qs[1..]);
    }
  }

  lemma NewStateValid(slots: nat, support: Support, tciSize: nat)
    requires 1 <= slots <= 64
    ensures Valid(NewState(slots, support, tciSize)) && DistinctHandles(NewState(slots, support, tciSize).contexts)
  {
    var st := NewState(slots, support, tciSize);
    forall i: nat | i < slots ensures SlotOk(st, i) {
      assert st.contexts[i] == NewContext(tciSize);
    }
  }

  /** Whatever is requested of a new DPE, its state stays well formed, valid if the initializations were safe,
      and its handles distinct as long as no two draws collide. */
  lemma NewDpeRuns(env: Env, slots: nat, support: Support, tciSize: nat, qs: seq<Request>)
    requires 1 <= slots <= 64
    ensures var m := Machine(NewState(slots, support, tciSize), 0);
      && WellFormed(m.st) && WellFormed(Run(env, m, qs).st)
      && (SafeRun(env, m, qs) ==> Valid(Run(env, m, qs).st))
      && (CollisionFree(env, m, qs) <==> AlwaysDistinct(env, m, qs))
      && (NoRepeats(env, 0, Run(env, m, qs).drawn) ==> AlwaysDistinct(env, m, qs))
  {
    hide Valid, DistinctHandles, NewState, AlwaysDistinct, CollisionFree, NoRepeats;
    NewStateValid(slots, support, tciSize);
    var m := Machine(NewState(slots, support, tciSize), 0);
    ValidWellFormed(m.st);
    if SafeRun(env, m, qs) {
      RunValid(env, m, qs);
    }
    RunDistinct(env, m, qs);
    if NoRepeats(env, 0, Run(env, m, qs).drawn) {
      NoRepeatsCollisionFree(env, m, qs);
    }
  }

  lemma ValidWellFormed(st: State)
    requires Valid(st)
    ensures WellFormed(st)
  {}

  // ----- two promises that do not hold without their conditions -----

  function AllSupported(): Support {
    Support(true, true, true, true, true, true, true, true, true, true)
  }

  function SimulationRoot(tciSize: nat): Context {
    Activated(RootArgs(false, 5, 0), tciSize)
  }

  /** One simulation root with handle 5 and one free slot. */
  function TwoSlots(tciSize: nat): State {
    State(MAGIC, VERSION, [SimulationRoot(tciSize), NewContext(tciSize)], AllSupported(), false, tciSize)
  }

  /** A request for a child of the context 5, which is retained. */
  function DeriveRetaining(data: Digest): DeriveArgs {
    var flags := DeriveFlags(false, false, true, false, false, false, false, false, false, false, false);
    DeriveArgs(5, data, flags, 1, 0, 0)
  }

  /** A source that says 7 twice makes DeriveContext give parent and child one handle. */
  lemma CollisionExample(env: Env, tciSize: nat, data: Digest)
    requires env.draw(0) == Some(7) && env.draw(1) == Some(7) && FirstMeasurementOk(env, tciSize, data)
    ensures var m := Machine(TwoSlots(tciSize), 0);
      && Valid(m.st) && DistinctHandles(m.st.contexts) && IsForest(m.st.contexts)
      && var o := Derive(env, m, DeriveRetaining(data), Ok(0), 0, true);
         o.result == Ok(DeriveContextResp(7, 7)) && !DistinctHandles(o.m.st.contexts)
  {
    var st := TwoSlots(tciSize);
    var cs := st.contexts;
    assert cs[0] == SimulationRoot(tciSize) && cs[1] == NewContext(tciSize);
    DepthIs(cs, 0, 0);
    assert ActiveIn(cs, 0, 0);
    assert Valid(st) && IsForest(cs);
    assert FirstMatch(cs, 5, 0, 0) == 0;
    assert FirstMatch(cs, DEFAULT_HANDLE, 0, 0) == 2 by {
      assert FirstMatch(cs, DEFAULT_HANDLE, 0, 2) == 2;
      assert FirstMatch(cs, DEFAULT_HANDLE, 0, 1) == 2;
    }
    assert !HandleUsed(cs, 7);
    assert NextInactive(cs, 0) == NextInactive(cs, 1) == Some(1);
    var m := Machine(st, 0);
    var o := Derive(env, m, DeriveRetaining(data), Ok(0), 0, true);
    assert o.m.st.contexts[0].handle == 7 && o.m.st.contexts[1].handle == 7;
  }

  /** Initializing a simulation root beside the default root breaks the rule that the validator checks. */
  lemma UnsafeInitializeExample(env: Env, tciSize: nat)
    requires env.draw(0) == Some(7)
    ensures var m := Machine(NewState(2, AllSupported(), tciSize), 0);
      var qs := [Request(InitializeCmd(true, false), 0, true), Request(InitializeCmd(false, true), 0, true)];
      Valid(m.st) && !Valid(Run(env, m, qs).st)
  {
    var m := Machine(NewState(2, AllSupported(), tciSize), 0);
    NewStateValid(2, AllSupported(), tciSize);
    var q0, q1 := Request(InitializeCmd(true, false), 0, true), Request(InitializeCmd(false, true), 0, true);
    var m1 := Execute(env, m, q0).m;
    ExecuteKeepsWellFormed(env, m, q0);
    assert NextInactive(m.st.contexts, 0) == Some(0);
    var cs := m1.st.contexts;
    assert cs == [Activated(RootArgs(true, DEFAULT_HANDLE, 0), tciSize), NewContext(tciSize)];
    assert NextInactive(cs, 0) == NextInactive(cs, 1) == Some(1);
    assert !HandleUsed(cs, 7);
    ExecuteKeepsWellFormed(env, m1, q1);
    var m2 := Execute(env, m1, q1).m;
    assert ActiveIn(m2.st.contexts, 0, 0) && ActiveIn(m2.st.contexts, 1, 0);
    assert Run(env, m, [q0, q1]) == Run(env, m1, [q1]) by {
      assert [q0, q1][1..] == [q1];
    }
    assert Run(env, m1, [q1]) == Run(env, m2, []) by {
      assert [q1][1..] == [];
    }
  }
}
