/** The mutable parent list of worker/emi_worker/raster.py, and what its operations do to the
    roots of the forest it encodes. */
module Forest {

  /** Every label's parent is no larger than itself, and only label 0, the background, may
      lead to 0. */
  ghost predicate IsForest(p: seq<nat>) {
    && |p| > 0
    && forall i :: 0 <= i < |p| ==> p[i] <= i && (i > 0 ==> p[i] > 0)
  }

  ghost function Root(p: seq<nat>, i: nat): (r: nat)
    requires IsForest(p) && i < |p|
    ensures r <= i && p[r] == r && (i > 0 ==> r > 0)
    decreases i
  {
    if p[i] == i then i else Root(p, p[i])
  }

  ghost predicate SameRoots(p: seq<nat>, q: seq<nat>) {
    && IsForest(p) && IsForest(q) && |p| == |q|
    && forall i: nat :: i < |p| ==> Root(p, i) == Root(q, i)
  }

  lemma {:induction false} CompressKeepsRoot(p: seq<nat>, x: nat, j: nat)
    requires IsForest(p) && x < |p| && j < |p|
    requires IsForest(p[x := Root(p, x)])
    ensures Root(p[x := Root(p, x)], j) == Root(p, j)
    decreases j
  {
    var q := p[x := Root(p, x)];
    if j != x && p[j] != j {
      CompressKeepsRoot(p, x, p[j]);
    }
  }

  lemma {:induction false} LinkMergesRoot(p: seq<nat>, lo: nat, hi: nat, j: nat)
    requires IsForest(p) && 0 < lo < hi < |p| && j < |p|
    requires p[lo] == lo && p[hi] == hi
    requires IsForest(p[hi := lo])
    ensures Root(p[hi := lo], j) == if Root(p, j) == hi then lo else Root(p, j)
    decreases j
  {
    if j != hi && p[j] != j {
      LinkMergesRoot(p, lo, hi, p[j]);
    }
  }

  lemma {:induction false} GrowKeepsRoot(p: seq<nat>, j: nat)
    requires IsForest(p) && j < |p|
    ensures IsForest(p + [|p|]) && Root(p + [|p|], j) == Root(p, j)
    decreases j
  {
    if p[j] != j {
      GrowKeepsRoot(p, p[j]);
    }
  }

  class UnionFind {
    var parent: seq<nat>

    ghost predicate Valid()
      reads this
    {
      IsForest(parent)
    }

    constructor ()
      ensures Valid() && parent == [0]
    {
      parent := [0];
    }

    method Make() returns (id: nat)
      requires Valid()
      modifies this
      ensures Valid() && id == |old(parent)| && parent == old(parent) + [id]
      ensures Root(parent, id) == id
      ensures forall i: nat :: i < |old(parent)| ==> Root(parent, i) == Root(old(parent), i)
    {
      forall i: nat | i < |parent| ensures Root(parent + [|parent|], i) == Root(parent, i) {
        GrowKeepsRoot(parent, i);
      }
      GrowKeepsRoot(parent, 0);
      id := |parent|;
      parent := parent + [|parent|];
    }

    /** Path compression changes parents but no root. */
    method Find(x0: nat) returns (root: nat)
      requires Valid() && x0 < |parent|
      modifies this
      ensures Valid() && root == Root(old(parent), x0) && root < |parent|
      ensures SameRoots(parent, old(parent))
    {
      root := x0;
      while parent[root] != root
        invariant root < |parent| && Root(parent, root) == Root(parent, x0)
        decreases root
      {
        root := parent[root];
      }
      var x: nat := x0;
      while parent[x] != root
        invariant Valid() && |parent| == |old(parent)| && x < |parent| && root < |parent|
        invariant Root(parent, x) == root && parent[root] == root
        invariant SameRoots(parent, old(parent))
        decreases x
      {
        ghost var before := parent;
        var next := parent[x];
        parent := parent[x := root];
        forall i: nat | i < |parent| ensures Root(parent, i) == Root(before, i) {
          CompressKeepsRoot(before, x, i);
        }
        x := next;
      }
    }

    /** Merges two classes; the smaller root names the result. */
    method Union(a: nat, b: nat) returns (lo: nat)
      requires Valid() && 0 < a < |parent| && 0 < b < |parent|
      modifies this
      ensures Valid() && |parent| == |old(parent)|
      ensures lo == if Root(old(parent), a) < Root(old(parent), b)
                    then Root(old(parent), a) else Root(old(parent), b)
      ensures forall i: nat :: i < |parent| ==>
        Root(parent, i) == if Root(old(parent), i) in {Root(old(parent), a), Root(old(parent), b)}
                           then lo else Root(old(parent), i)
    {
      var ra := Find(a);
      var rb := Find(b);
      if ra == rb {
        return ra;
      }
      var hi := rb;
      lo := ra;
      if rb < ra {
        lo, hi := rb, ra;
      }
      ghost var before := parent;
      assert before[lo] == lo && before[hi] == hi;
      parent := parent[hi := lo];
      forall i: nat | i < |parent|
        ensures Root(parent, i) == if Root(before, i) == hi then lo else Root(before, i)
      {
        LinkMergesRoot(before, lo, hi, i);
      }
    }
  }
}
