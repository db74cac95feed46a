/** Which contexts DestroyContext removes, and why what is left is again a forest. */
module Destruction {
  import opened Contexts
  import opened Forest
  import opened States
  import opened RootToChild

  /** A retired context kept alive by one child only. */
  predicate Dangling(cs: seq<Context>, p: nat)
    requires p < |cs|
  {
    cs[p].state == Retired && |cs[p].children| == 1
  }

  /** The consecutive dangling contexts from `p` upwards. */
  ghost function RetiredRun(cs: seq<Context>, p: nat): set<nat>
    requires p == ROOT_INDEX || Rooted(cs, p)
    decreases if p == ROOT_INDEX then 0 else Depth(cs, p) + 1
  {
    if p == ROOT_INDEX || !Dangling(cs, p) then {}
    else if cs[p].parent == ROOT_INDEX then {p}
    else
      ParentRooted(cs, p);
      {p} + RetiredRun(cs, cs[p].parent)
  }

  ghost function Doomed(cs: seq<Context>, i: nat): set<nat>
    requires IsForest(cs) && Live(cs, i)
  {
    OneUp(cs, i);
    Subtree(cs, i) + RetiredRun(cs, cs[i].parent)
  }

  lemma OneUp(cs: seq<Context>, i: nat)
    requires IsForest(cs) && Live(cs, i)
    ensures Rooted(cs, i)
    ensures cs[i].parent != ROOT_INDEX ==> Rooted(cs, cs[i].parent) && Depth(cs, i) == Depth(cs, cs[i].parent) + 1
    ensures cs[i].parent != ROOT_INDEX ==> PathUp(cs, i) == [i] + PathUp(cs, cs[i].parent)
    ensures Above(cs, i, i)
  {
    if cs[i].parent != ROOT_INDEX {
      ParentRooted(cs, i);
    }
    assert PathUp(cs, i)[0] == i;
  }

  function Swept(c: Context, j: nat, doomed: set<nat>, tciSize: nat): Context {
    if j in doomed then Destroyed(c, tciSize) else c.(children := c.children - doomed)
  }

  /** The array after `doomed` is destroyed: its members are reset, and no one lists them as children. */
  ghost function Without(cs: seq<Context>, doomed: set<nat>, tciSize: nat): seq<Context> {
    seq(|cs|, j requires 0 <= j < |cs| => Swept(cs[j], j, doomed, tciSize))
  }

  // ----- the run of retired ancestors -----

  /** Every context from `p` up to `a` is dangling. */
  ghost predicate AllDangling(cs: seq<Context>, p: nat, a: nat) {
    Above(cs, a, p) && forall b: nat :: Above(cs, b, p) && Above(cs, a, b) ==> b < |cs| && Dangling(cs, b)
  }

  /** The run consists of the ancestors up to which every context is dangling. */
  lemma {:induction false} RunIsMaximal(cs: seq<Context>, p: nat, a: nat)
    requires IsForest(cs) && Rooted(cs, p)
    ensures a in RetiredRun(cs, p) <==> AllDangling(cs, p, a)
    decreases Depth(cs, p)
  {
    OneUp(cs, p);
    var q := cs[p].parent;
    if q != ROOT_INDEX {
      RunIsMaximal(cs, q, a);
    }
    if AllDangling(cs, p, a) && a != p {
      AboveTransitive(cs, a, q, p);
      forall b | Above(cs, b, q) && Above(cs, a, b) ensures Dangling(cs, b) {
        AboveTransitive(cs, b, q, p);
      }
    }
    if a in RetiredRun(cs, p) {
      forall b | Above(cs, b, p) && Above(cs, a, b) ensures Dangling(cs, b) {
        if b != p {
          assert Above(cs, b, q);
          if a == p {
            AboveFacts(cs, a, b);
            AboveFacts(cs, b, p);
            assert false;
          }
        }
      }
    }
  }

  // ----- the doomed set is closed downwards and cut off at one place -----

  lemma InDoomed(cs: seq<Context>, i: nat, w: nat)
    requires IsForest(cs) && Live(cs, i)
    ensures Rooted(cs, i)
    ensures w in Doomed(cs, i) <==>
        Above(cs, i, w) || (cs[i].parent != ROOT_INDEX && Rooted(cs, cs[i].parent) && AllDangling(cs, cs[i].parent, w))
    ensures w in Doomed(cs, i) ==> Live(cs, w)
  {
    OneUp(cs, i);
    if cs[i].parent != ROOT_INDEX {
      RunIsMaximal(cs, cs[i].parent, w);
    }
    if Above(cs, w, i) {
      AboveFacts(cs, w, i);
    }
    if cs[i].parent != ROOT_INDEX && Above(cs, w, cs[i].parent) {
      AboveFacts(cs, w, cs[i].parent);
    }
    assert Rooted(cs, w) ==> w in Range(|cs|);
  }

  lemma SelfRun(cs: seq<Context>, q: nat)
    requires IsForest(cs) && Live(cs, q) && Dangling(cs, q)
    ensures AllDangling(cs, q, q)
  {
    OneUp(cs, q);
    forall b | Above(cs, b, q) && Above(cs, q, b) ensures b == q {
      AboveFacts(cs, b, q);
      AboveFacts(cs, q, b);
    }
  }

  lemma OnlyChild(s: set<nat>, a: nat, b: nat)
    requires |s| == 1 && a in s && b in s
    ensures a == b
  {
    if a != b {
      assert {a, b} <= s;
      SubsetSize({a, b}, s);
    }
  }

  /** The child of a doomed context is doomed. */
  lemma DoomedClosed(cs: seq<Context>, i: nat, w: nat)
    requires IsForest(cs) && Live(cs, i) && Live(cs, w) && cs[w].parent != ROOT_INDEX
    requires cs[w].parent in Doomed(cs, i)
    ensures w in Doomed(cs, i)
  {
    var p := cs[w].parent;
    OneUp(cs, i);
    OneUp(cs, w);
    InDoomed(cs, i, p);
    InDoomed(cs, i, w);
    if Above(cs, i, p) {
      AboveTransitive(cs, i, p, w);
    } else {
      var q := cs[i].parent;
      AboveTransitive(cs, p, q, i);
      assert p != i by { AboveFacts(cs, p, q); }
      var c := StepDown(cs, p, i);
      assert Dangling(cs, p) by { OneUp(cs, p); }
      OnlyChild(cs[p].children, c, w);
      if c != i {
        assert Above(cs, c, q);
        forall b | Above(cs, b, q) && Above(cs, c, b) ensures Dangling(cs, b) {
          AboveTransitive(cs, p, c, b);
        }
      }
    }
  }

  /** A context that loses a child is not dangling, and loses only that one. */
  lemma DoomedTop(cs: seq<Context>, i: nat, p: nat, c: nat, d: nat)
    requires IsForest(cs) && Live(cs, i) && Live(cs, p) && p !in Doomed(cs, i)
    requires c in cs[p].children && d in cs[p].children && c in Doomed(cs, i) && d in Doomed(cs, i)
    ensures c == d && !Dangling(cs, p)
  {
    OneUp(cs, i);
    OneUp(cs, p);
    ChildRooted(cs, p, c);
    ChildRooted(cs, p, d);
    DoomedAboveOrSelf(cs, i, p, c);
    DoomedAboveOrSelf(cs, i, p, d);
    if Depth(cs, c) == Depth(cs, d) {
      AboveComparable(cs, c, d, i);
      AboveFacts(cs, c, d);
    }
    InDoomed(cs, i, p);
    InDoomed(cs, i, c);
    if Dangling(cs, p) {
      var q := cs[i].parent;
      if c == i {
        SelfRun(cs, q);
        assert false;
      } else {
        AboveTransitive(cs, p, c, q);
        forall b | Above(cs, b, q) && Above(cs, p, b) ensures Dangling(cs, b) {
          if b != p {
            var e := StepDown(cs, p, b);
            OnlyChild(cs[p].children, e, c);
          }
        }
        assert false;
      }
    }
  }

  /** A doomed child of a survivor lies on the path of `i`. */
  lemma DoomedAboveOrSelf(cs: seq<Context>, i: nat, p: nat, c: nat)
    requires IsForest(cs) && Live(cs, i) && Live(cs, p) && p !in Doomed(cs, i)
    requires c in cs[p].children && c in Doomed(cs, i)
    ensures Above(cs, c, i)
    ensures c != i ==> cs[i].parent != ROOT_INDEX && Above(cs, c, cs[i].parent)
  {
    OneUp(cs, i);
    OneUp(cs, p);
    ChildRooted(cs, p, c);
    InDoomed(cs, i, c);
    InDoomed(cs, i, p);
    assert Above(cs, i, c) ==> i == c || Above(cs, i, p);
    if c != i {
      AboveTransitive(cs, c, cs[i].parent, i);
    }
  }

  /** DestroyContext deactivates the target, its descendants, and the dangling ancestors up to the first that is not;
      nothing else. */
  lemma DestroyRemovesExactly(cs: seq<Context>, i: nat, tciSize: nat, w: nat)
    requires IsForest(cs) && Live(cs, i) && Live(cs, w)
    ensures Live(Without(cs, Doomed(cs, i), tciSize), w) <==>
      !(Above(cs, i, w)
          || (w != i && Above(cs, w, i) && forall b: nat :: b != i && Above(cs, b, i) && Above(cs, w, b) ==>
              b < |cs| && Dangling(cs, b)))
  {
    OneUp(cs, i);
    InDoomed(cs, i, w);
    var q := cs[i].parent;
    if q != ROOT_INDEX {
      forall b: nat ensures b != i && Above(cs, b, i) <==> Above(cs, b, q) {
        if Above(cs, b, q) {
          AboveTransitive(cs, b, q, i);
          AboveFacts(cs, b, q);
        }
      }
    }
  }

  // ----- what is left -----

  /** `gone` contains the children of its members. */
  ghost predicate ClosedDown(cs: seq<Context>, gone: set<nat>) {
    forall w: nat :: Live(cs, w) && cs[w].parent in gone ==> w in gone
  }

  lemma DoomedClosedDown(cs: seq<Context>, i: nat)
    requires IsForest(cs) && Live(cs, i)
    ensures ClosedDown(cs, Doomed(cs, i))
  {
    forall w: nat | Live(cs, w) && cs[w].parent in Doomed(cs, i) ensures w in Doomed(cs, i) {
      InDoomed(cs, i, cs[w].parent);
      DoomedClosed(cs, i, w);
    }
  }

  /** The whole path of a survivor survives. */
  lemma {:induction false} SurvivorPath(cs: seq<Context>, gone: set<nat>, j: nat, tciSize: nat)
    requires ClosedDown(cs, gone) && Rooted(cs, j) && j !in gone
    ensures Rooted(Without(cs, gone, tciSize), j)
    ensures Depth(cs, j) == Depth(Without(cs, gone, tciSize), j)
    ensures PathUp(Without(cs, gone, tciSize), j) == PathUp(cs, j)
    decreases Depth(cs, j)
  {
    var after := Without(cs, gone, tciSize);
    if cs[j].parent == ROOT_INDEX {
      DepthIs(cs, j, 0);
      DepthIs(after, j, 0);
    } else {
      ParentRooted(cs, j);
      SurvivorPath(cs, gone, cs[j].parent, tciSize);
      DepthIs(after, j, Depth(after, cs[j].parent) + 1);
    }
  }

  lemma SingletonSize(s: set<nat>, c: nat)
    requires c in s && forall d :: d in s ==> d == c
    ensures |s| == 1
  {
    assert s == {c};
  }

  lemma SurvivorLinks(cs: seq<Context>, i: nat, j: nat, tciSize: nat)
    requires IsForest(cs) && Live(cs, i) && Live(cs, j) && j !in Doomed(cs, i)
    ensures ParentLinkOk(Without(cs, Doomed(cs, i), tciSize), j) && ChildLinksOk(Without(cs, Doomed(cs, i), tciSize), j)
    ensures cs[j].state == Retired && cs[j].children != {} ==> cs[j].children - Doomed(cs, i) != {}
  {
    var doomed := Doomed(cs, i);
    if cs[j].parent != ROOT_INDEX && cs[j].parent in doomed {
      DoomedClosed(cs, i, j);
    }
    if cs[j].state == Retired && cs[j].children != {} && cs[j].children <= doomed {
      var c :| c in cs[j].children;
      forall d | d in cs[j].children ensures d == c && !Dangling(cs, j) {
        DoomedTop(cs, i, j, c, d);
      }
      SingletonSize(cs[j].children, c);
    }
  }

  lemma DestroyKeepsSlots(st: State, i: nat)
    requires SlotsOk(st) && IsForest(st.contexts) && Live(st.contexts, i)
    ensures SlotsOk(st.(contexts := Without(st.contexts, Doomed(st.contexts, i), st.tciSize)))
  {
    var cs := st.contexts;
    var st' := st.(contexts := Without(cs, Doomed(cs, i), st.tciSize));
    forall j: nat | j < |cs| ensures SlotOk(st', j) {
      assert SlotOk(st, j);
      if Live(cs, j) && j !in Doomed(cs, i) {
        SurvivorLinks(cs, i, j, st.tciSize);
      }
    }
  }

  lemma DestroyKeepsTrees(cs: seq<Context>, gone: set<nat>, tciSize: nat)
    requires TreesOk(cs) && ClosedDown(cs, gone)
    ensures TreesOk(Without(cs, gone, tciSize))
  {
    var after := Without(cs, gone, tciSize);
    forall j: nat | Live(after, j) ensures Rooted(after, j) {
      SurvivorPath(cs, gone, j, tciSize);
    }
    forall j: nat | Rooted(after, j) && after[j].parent != ROOT_INDEX
      ensures after[j].contextType == after[after[j].parent].contextType
    {
      assert Rooted(cs, j);
    }
    forall j: nat, k: nat | NormalRoot(after, j) && NormalRoot(after, k) ensures j == k {
      assert NormalRoot(cs, j) && NormalRoot(cs, k);
    }
  }

  /** DestroyContext keeps the state well formed; in particular it leaves no childless retired context. */
  lemma DestroyKeepsWellFormed(st: State, i: nat)
    requires WellFormed(st) && Live(st.contexts, i)
    ensures IsForest(st.contexts)
    ensures WellFormed(st.(contexts := Without(st.contexts, Doomed(st.contexts, i), st.tciSize)))
  {
    hide SlotsOk, TreesOk, Doomed, ClosedDown, IsForest;
    WellFormedForest(st);
    DoomedClosedDown(st.contexts, i);
    DestroyKeepsSlots(st, i);
    DestroyKeepsTrees(st.contexts, Doomed(st.contexts, i), st.tciSize);
  }

  /** What identifies a context to its descendants: everything except its list of children. */
  function Identity(c: Context): Context {
    c.(children := {})
  }

  /** Each survivor keeps its path from the root, with every context on it unchanged but for lost children. */
  lemma {:induction false} SurvivorLineage(cs: seq<Context>, gone: set<nat>, j: nat, tciSize: nat)
    requires ClosedDown(cs, gone) && Rooted(cs, j) && j !in gone
    ensures Rooted(Without(cs, gone, tciSize), j)
    ensures |Lineage(Without(cs, gone, tciSize), j)| == |Lineage(cs, j)|
    ensures forall k :: 0 <= k < |Lineage(cs, j)| ==>
      Identity(Lineage(Without(cs, gone, tciSize), j)[k]) == Identity(Lineage(cs, j)[k])
    decreases Depth(cs, j)
  {
    SurvivorPath(cs, gone, j, tciSize);
    if cs[j].parent != ROOT_INDEX {
      ParentRooted(cs, j);
      SurvivorLineage(cs, gone, cs[j].parent, tciSize);
    }
  }
}
