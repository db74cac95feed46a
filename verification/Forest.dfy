/** The context array as a forest: parent links, children bitmaps, and paths to the root. */
module Forest {
  import opened Bitmap
  import opened Contexts

  predicate InRange(cs: seq<Context>) {
    1 <= |cs| <= 64
  }

  predicate Live(cs: seq<Context>, i: nat) {
    i < |cs| && cs[i].state != Inactive
  }

  // ----- the parent view -----

  /** What a walk towards the root demands of each slot it meets. */
  predicate OnPath(cs: seq<Context>, i: nat) {
    Live(cs, i) && (cs[i].parent < |cs| || cs[i].parent == ROOT_INDEX)
  }

  /** The parent links lead from `i` to a root in `k` steps. */
  predicate RootedIn(cs: seq<Context>, i: nat, k: nat)
    decreases k
  {
    && OnPath(cs, i)
    && if cs[i].parent == ROOT_INDEX then k == 0 else k > 0 && RootedIn(cs, cs[i].parent, k - 1)
  }

  ghost predicate Rooted(cs: seq<Context>, i: nat) {
    exists k: nat :: RootedIn(cs, i, k)
  }

  lemma {:induction false} DepthUnique(cs: seq<Context>, i: nat, k: nat, m: nat)
    requires RootedIn(cs, i, k) && RootedIn(cs, i, m)
    ensures k == m
    decreases k
  {
    if cs[i].parent != ROOT_INDEX {
      DepthUnique(cs, cs[i].parent, k - 1, m - 1);
    }
  }

  ghost function Depth(cs: seq<Context>, i: nat): (k: nat)
    requires Rooted(cs, i)
    ensures RootedIn(cs, i, k)
  {
    var k: nat :| RootedIn(cs, i, k); k
  }

  lemma DepthIs(cs: seq<Context>, i: nat, k: nat)
    requires RootedIn(cs, i, k)
    ensures Rooted(cs, i) && Depth(cs, i) == k
  {
    assert Rooted(cs, i);
    DepthUnique(cs, i, k, Depth(cs, i));
  }

  lemma ParentRooted(cs: seq<Context>, i: nat)
    requires Rooted(cs, i) && cs[i].parent != ROOT_INDEX
    ensures Rooted(cs, cs[i].parent) && Depth(cs, i) == Depth(cs, cs[i].parent) + 1
  {
    DepthIs(cs, cs[i].parent, Depth(cs, i) - 1);
  }

  /** The indices from `i` up to its root. */
  ghost function PathUp(cs: seq<Context>, i: nat): (p: seq<nat>)
    requires Rooted(cs, i)
    ensures p != [] && p[0] == i && |p| == Depth(cs, i) + 1
    decreases Depth(cs, i)
  {
    if cs[i].parent == ROOT_INDEX then [i]
    else
      ParentRooted(cs, i);
      [i] + PathUp(cs, cs[i].parent)
  }

  /** `a` is `i` or an ancestor of `i`. */
  ghost predicate Above(cs: seq<Context>, a: nat, i: nat) {
    Rooted(cs, i) && a in PathUp(cs, i)
  }

  lemma {:induction false} PathElement(cs: seq<Context>, i: nat, j: nat)
    requires Rooted(cs, i) && j < |PathUp(cs, i)|
    ensures Rooted(cs, PathUp(cs, i)[j]) && Depth(cs, PathUp(cs, i)[j]) == Depth(cs, i) - j
    ensures PathUp(cs, PathUp(cs, i)[j]) == PathUp(cs, i)[j..]
    decreases j
  {
    if j > 0 {
      ParentRooted(cs, i);
      PathElement(cs, cs[i].parent, j - 1);
    }
  }

  lemma AboveFacts(cs: seq<Context>, a: nat, i: nat)
    requires Above(cs, a, i)
    ensures Rooted(cs, a) && Depth(cs, a) <= Depth(cs, i)
    ensures Depth(cs, a) == Depth(cs, i) ==> a == i
    ensures PathUp(cs, a) == PathUp(cs, i)[Depth(cs, i) - Depth(cs, a)..]
  {
    var j :| 0 <= j < |PathUp(cs, i)| && PathUp(cs, i)[j] == a;
    PathElement(cs, i, j);
  }

  lemma AboveTransitive(cs: seq<Context>, a: nat, b: nat, i: nat)
    requires Above(cs, a, b) && Above(cs, b, i)
    ensures Above(cs, a, i)
  {
    AboveFacts(cs, b, i);
  }

  /** Two nodes above the same node are comparable. */
  lemma AboveComparable(cs: seq<Context>, a: nat, b: nat, i: nat)
    requires Above(cs, a, i) && Above(cs, b, i)
    requires Rooted(cs, a) && Rooted(cs, b) && Depth(cs, a) <= Depth(cs, b)
    ensures Above(cs, a, b)
  {
    AboveFacts(cs, a, i);
    AboveFacts(cs, b, i);
    var p := PathUp(cs, i);
    var da, db := Depth(cs, i) - Depth(cs, a), Depth(cs, i) - Depth(cs, b);
    assert PathUp(cs, b)[da - db] == p[da] == PathUp(cs, a)[0];
  }

  /** A path visits no slot twice, so it fits in the array. */
  lemma PathDistinct(cs: seq<Context>, i: nat)
    requires Rooted(cs, i)
    ensures forall j, k :: 0 <= j < k < |PathUp(cs, i)| ==> PathUp(cs, i)[j] != PathUp(cs, i)[k]
    ensures forall j :: 0 <= j < |PathUp(cs, i)| ==> OnPath(cs, PathUp(cs, i)[j])
    ensures Depth(cs, i) < |cs|
  {
    var p := PathUp(cs, i);
    forall j, k | 0 <= j < k < |p| ensures p[j] != p[k] {
      PathElement(cs, i, j);
      PathElement(cs, i, k);
    }
    forall j | 0 <= j < |p| ensures OnPath(cs, p[j]) && p[j] < |cs| {
      PathElement(cs, i, j);
    }
    DistinctFits(p, |cs|);
  }

  // ----- the children view, and its agreement with the parent view -----

  /** The parent of `i`, if any, is live and lists `i`. */
  predicate ParentLinkOk(cs: seq<Context>, i: nat)
    requires i < |cs|
  {
    var p := cs[i].parent;
    p == ROOT_INDEX || (Live(cs, p) && i in cs[p].children)
  }

  /** Every child that `i` lists is live and names `i` as its parent. */
  predicate ChildLinksOk(cs: seq<Context>, i: nat)
    requires i < |cs|
  {
    forall c :: c in cs[i].children ==> Live(cs, c) && cs[c].parent == i
  }

  predicate Detached(c: Context) {
    c.parent == ROOT_INDEX && c.children == {}
  }

  /** The two copies of the tree agree link by link. */
  ghost predicate Linked(cs: seq<Context>) {
    && InRange(cs)
    && forall i: nat :: i < |cs| ==>
         if Live(cs, i) then ParentLinkOk(cs, i) && ChildLinksOk(cs, i) else Detached(cs[i])
  }

  /** Linked, and no live slot lies on a cycle. */
  ghost predicate IsForest(cs: seq<Context>) {
    Linked(cs) && forall i: nat :: Live(cs, i) ==> Rooted(cs, i)
  }

  lemma ChildRooted(cs: seq<Context>, v: nat, c: nat)
    requires Linked(cs) && Rooted(cs, v) && c in cs[v].children
    ensures Rooted(cs, c) && cs[c].parent == v && Depth(cs, c) == Depth(cs, v) + 1
    ensures PathUp(cs, c) == [c] + PathUp(cs, v)
    ensures Above(cs, v, c)
  {
    assert RootedIn(cs, c, Depth(cs, v) + 1);
    DepthIs(cs, c, Depth(cs, v) + 1);
    assert PathUp(cs, v)[0] == v;
  }

  /** `v` and its descendants, read off the parent links. */
  ghost function Subtree(cs: seq<Context>, v: nat): set<nat> {
    set w | w in Range(|cs|) && Above(cs, v, w)
  }

  ghost function Subtrees(cs: seq<Context>, vs: seq<nat>): set<nat> {
    if vs == [] then {} else Subtrees(cs, vs[..|vs| - 1]) + Subtree(cs, vs[|vs| - 1])
  }

  lemma {:induction false} SubtreesMember(cs: seq<Context>, vs: seq<nat>, w: nat)
    ensures w in Subtrees(cs, vs) <==> exists v :: v in vs && w in Subtree(cs, v)
  {
    if vs != [] {
      SubtreesMember(cs, vs[..|vs| - 1], w);
      assert vs == vs[..|vs| - 1] + [vs[|vs| - 1]];
    }
  }

  /** The next node below `v` on the way down to `w`. */
  lemma StepDown(cs: seq<Context>, v: nat, w: nat) returns (c: nat)
    requires Linked(cs) && Above(cs, v, w) && v != w
    ensures v < |cs| && c in cs[v].children && Above(cs, c, w)
  {
    var p := PathUp(cs, w);
    var j :| 0 <= j < |p| && p[j] == v;
    c := p[j - 1];
    PathElement(cs, w, j - 1);
    PathElement(cs, w, j);
    assert PathUp(cs, c)[1] == p[j - 1..][1];
  }

  /** Below `v` lie `v` itself and the disjoint subtrees of its children. */
  lemma SubtreeSplit(cs: seq<Context>, v: nat)
    requires Linked(cs) && Rooted(cs, v)
    ensures Subtree(cs, v) == {v} + Subtrees(cs, Ascending(cs[v].children, 0, |cs|))
  {
    var kids := Ascending(cs[v].children, 0, |cs|);
    AscendingSpec(cs[v].children, 0, |cs|);
    assert PathUp(cs, v)[0] == v;
    forall w: nat
      ensures w in Subtree(cs, v) <==> w == v || w in Subtrees(cs, kids)
    {
      SubtreesMember(cs, kids, w);
      if w in Subtree(cs, v) && w != v {
        var c := StepDown(cs, v, w);
        assert c in kids && w in Subtree(cs, c);
      }
      if w in Subtrees(cs, kids) {
        var c :| c in kids && w in Subtree(cs, c);
        ChildRooted(cs, v, c);
        AboveTransitive(cs, v, c, w);
      }
    }
  }

  /** Subtrees of different nodes of equal depth do not meet. */
  lemma SubtreesDisjoint(cs: seq<Context>, a: nat, b: nat)
    requires Rooted(cs, a) && Rooted(cs, b) && a != b && Depth(cs, a) == Depth(cs, b)
    ensures Subtree(cs, a) !! Subtree(cs, b)
  {
    forall w | w in Subtree(cs, a) && w in Subtree(cs, b) ensures false {
      AboveComparable(cs, a, b, w);
      AboveFacts(cs, a, b);
    }
  }

  /** The indices below `n`. */
  ghost function Range(n: nat): (r: set<nat>)
    ensures |r| == n && forall x: nat :: x in r <==> x < n
  {
    if n == 0 then {} else Range(n - 1) + {n - 1}
  }

  lemma DistinctFits(p: seq<nat>, n: nat)
    requires forall j, k :: 0 <= j < k < |p| ==> p[j] != p[k]
    requires forall j :: 0 <= j < |p| ==> p[j] < n
    ensures |p| <= n
  {
    var s := DistinctElements(p, n);
    SubsetSize(s, Range(n));
  }

  lemma {:induction false} DistinctElements(p: seq<nat>, n: nat) returns (s: set<nat>)
    requires forall j, k :: 0 <= j < k < |p| ==> p[j] != p[k]
    requires forall j :: 0 <= j < |p| ==> p[j] < n
    ensures |s| == |p| && s <= Range(n)
    ensures forall x :: x in s ==> x in p
  {
    if p == [] {
      s := {};
    } else {
      var r := DistinctElements(p[1..], n);
      s := {p[0]} + r;
      assert p[0] !in r;
    }
  }

  lemma {:induction false} SubsetSize(s: set<nat>, t: set<nat>)
    requires s <= t
    ensures |s| <= |t|
  {
    if s != {} {
      var x :| x in s;
      SubsetSize(s - {x}, t - {x});
    }
  }
}
