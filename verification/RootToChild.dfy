/** Iteration over the contexts on the path from a root down to a given context. */
module RootToChild {
  import opened Bitmap
  import opened Contexts
  import opened Forest

  /** The contexts from the root of `i` down to `i`. */
  ghost function Lineage(cs: seq<Context>, i: nat): (l: seq<Context>)
    requires Rooted(cs, i)
    ensures |l| == Depth(cs, i) + 1
    decreases Depth(cs, i)
  {
    if cs[i].parent == ROOT_INDEX then [cs[i]]
    else
      ParentRooted(cs, i);
      Lineage(cs, cs[i].parent) + [cs[i]]
  }

  ghost predicate InBounds(cs: seq<Context>, path: seq<nat>) {
    forall j :: 0 <= j < |path| ==> path[j] < |cs|
  }

  /** The contexts at the first `k` indices of `path`, last first. */
  ghost function Reversed(cs: seq<Context>, path: seq<nat>, k: nat): seq<Context>
    requires k <= |path| && InBounds(cs, path)
  {
    if k == 0 then [] else [cs[path[k - 1]]] + Reversed(cs, path, k - 1)
  }

  lemma {:induction false} ReversedTail(cs: seq<Context>, path: seq<nat>, k: nat)
    requires k < |path| && InBounds(cs, path)
    ensures Reversed(cs, path, k + 1) == Reversed(cs, path[1..], k) + [cs[path[0]]]
  {
    if k > 0 {
      ReversedTail(cs, path, k - 1);
    }
  }

  /** Reading the leaf-to-root path backwards gives the lineage. */
  lemma {:induction false} LineageIsReversedPath(cs: seq<Context>, i: nat)
    requires Rooted(cs, i)
    ensures InBounds(cs, PathUp(cs, i))
    ensures Reversed(cs, PathUp(cs, i), |PathUp(cs, i)|) == Lineage(cs, i)
    decreases Depth(cs, i)
  {
    PathDistinct(cs, i);
    var p := PathUp(cs, i);
    if cs[i].parent != ROOT_INDEX {
      ParentRooted(cs, i);
      LineageIsReversedPath(cs, cs[i].parent);
      assert p[1..] == PathUp(cs, cs[i].parent);
    }
    ReversedTail(cs, p, |p| - 1);
  }

  class RootToChildIter {
    const contexts: seq<Context>
    var path: seq<nat>
    var pathIdx: nat
    var done: bool

    ghost predicate Valid()
      reads this
    {
      && (forall j :: 0 <= j < |path| ==> OnPath(contexts, path[j]))
      && (!done ==> pathIdx < |path|)
    }

    /** What the iterator has still to yield. */
    ghost function Pending(): seq<Context>
      requires Valid()
      reads this
    {
      if done then [] else Reversed(contexts, path, pathIdx + 1)
    }

    constructor (contexts: seq<Context>, path: seq<nat>)
      requires path != [] && forall j :: 0 <= j < |path| ==> OnPath(contexts, path[j])
      ensures this.contexts == contexts && this.path == path
      ensures Valid() && Pending() == Reversed(contexts, path, |path|)
    {
      this.contexts := contexts;
      this.path := path;
      pathIdx := |path| - 1;
      done := false;
    }

    /** The context at `idx`, if a walk may pass through it. */
    static method GetContext(contexts: seq<Context>, idx: nat) returns (r: Result<Context, Error>)
      ensures r.Ok? <==> OnPath(contexts, idx)
      ensures r.Ok? ==> r.value == contexts[idx]
      ensures r.Err? ==> r.error == if idx < |contexts| then InvalidHandle else ContextIndexOob
    {
      if idx >= |contexts| {
        return Err(ContextIndexOob);
      }
      var c := contexts[idx];
      if !(c.parent < |contexts| || c.parent == ROOT_INDEX) || c.state == Inactive {
        return Err(InvalidHandle);
      }
      return Ok(c);
    }

    /** Works on any array, cyclic or corrupt ones included: it succeeds exactly when the leaf has a root. */
    static method New(leaf: nat, contexts: seq<Context>) returns (r: Result<RootToChildIter, Error>)
      requires InRange(contexts)
      ensures r.Ok? <==> Rooted(contexts, leaf)
      ensures r.Ok? ==>
        && fresh(r.value) && r.value.contexts == contexts && r.value.Valid()
        && r.value.path == PathUp(contexts, leaf)
        && r.value.Pending() == Lineage(contexts, leaf)
    {
      hide Rooted, PathUp, Lineage, Reversed;
      var path: seq<nat> := [];
      var curr := leaf;
      while true
        invariant forall j :: 0 <= j < |path| ==> OnPath(contexts, path[j])
        invariant |path| <= |contexts|
        invariant Rooted(contexts, leaf) <==> Rooted(contexts, curr)
        invariant Rooted(contexts, leaf) ==> PathUp(contexts, leaf) == path + PathUp(contexts, curr)
        decreases |contexts| - |path|
      {
        var c := GetContext(contexts, curr);
        OneStep(contexts, curr);
        if c.Err? {
          return Err(c.error);
        }
        if |path| == |contexts| {
          if Rooted(contexts, leaf) {
            PathDistinct(contexts, leaf);
          }
          return Err(TciNodeCountExceeded);
        }
        path := path + [curr];
        if c.value.parent == ROOT_INDEX {
          break;
        }
        curr := c.value.parent;
      }
      LineageIsReversedPath(contexts, leaf);
      var iter := new RootToChildIter(contexts, path);
      return Ok(iter);
    }

    /** On an iterator that `New` made, no item is an error. */
    method Next() returns (r: Option<Result<Context, Error>>)
      modifies this
      ensures old(Valid()) ==> Valid() && path == old(path)
      ensures old(Valid()) ==>
        if old(Pending()) == [] then r == None && Pending() == []
        else r == Some(Ok(old(Pending())[0])) && Pending() == old(Pending())[1..]
    {
      if done {
        return None;
      }
      if pathIdx >= |path| {
        done := true;
        return Some(Err(ChildIndexOob));
      }
      var c := GetContext(contexts, path[pathIdx]);
      if c.Err? {
        done := true;
        return Some(Err(c.error));
      }
      if Valid() {
        assert Reversed(contexts, path, pathIdx + 1)[1..] == Reversed(contexts, path, pathIdx);
      }
      if pathIdx == 0 {
        done := true;
      } else {
        pathIdx := pathIdx - 1;
      }
      return Some(c);
    }
  }

  lemma OneStep(cs: seq<Context>, i: nat)
    ensures Rooted(cs, i) ==> OnPath(cs, i) && PathUp(cs, i) != []
    ensures OnPath(cs, i) && cs[i].parent != ROOT_INDEX ==> (Rooted(cs, i) <==> Rooted(cs, cs[i].parent))
    ensures Rooted(cs, i) && cs[i].parent != ROOT_INDEX ==> PathUp(cs, i) == [i] + PathUp(cs, cs[i].parent)
    ensures OnPath(cs, i) && cs[i].parent == ROOT_INDEX ==> Rooted(cs, i) && PathUp(cs, i) == [i]
  {
    if Rooted(cs, i) && cs[i].parent != ROOT_INDEX {
      ParentRooted(cs, i);
    }
    if OnPath(cs, i) && cs[i].parent != ROOT_INDEX && Rooted(cs, cs[i].parent) {
      DepthIs(cs, i, Depth(cs, cs[i].parent) + 1);
    }
    if OnPath(cs, i) && cs[i].parent == ROOT_INDEX {
      DepthIs(cs, i, 0);
    }
  }
}
