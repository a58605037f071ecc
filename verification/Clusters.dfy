// Union-find over provider names, with path compression and no ranks.
module Clusters {
  // What holds of one name: its link goes up in rank and stays in its cluster, and
  // the cluster's root links to itself.
  ghost predicate NodeOk(parent: map<string, string>, root: map<string, string>, rank: map<string, nat>, bound: nat, k: string) {
    && k in parent && k in root && k in rank && rank[k] <= bound
    && parent[k] in root && parent[k] in rank && root[parent[k]] == root[k]
    && (if parent[k] == k then root[k] == k else parent[k] in parent && rank[k] < rank[parent[k]])
    && root[k] in parent && parent[root[k]] == root[k]
  }

  ghost predicate Forest(parent: map<string, string>, root: map<string, string>, rank: map<string, nat>, bound: nat) {
    && parent.Keys == root.Keys == rank.Keys
    && forall k {:trigger NodeOk(parent, root, rank, bound, k)} :: k in parent ==> NodeOk(parent, root, rank, bound, k)
  }

  lemma ForestAt(parent: map<string, string>, root: map<string, string>, rank: map<string, nat>, bound: nat, k: string)
    requires Forest(parent, root, rank, bound) && k in parent
    ensures NodeOk(parent, root, rank, bound, k)
  {
  }

  lemma RootIsRoot(parent: map<string, string>, root: map<string, string>, rank: map<string, nat>, bound: nat, k: string)
    requires Forest(parent, root, rank, bound) && k in parent
    ensures k in root && root[k] in parent && root[k] in root && parent[root[k]] == root[k] && root[root[k]] == root[k]
  {
    ForestAt(parent, root, rank, bound, k);
    ForestAt(parent, root, rank, bound, root[k]);
  }

  // Linking a name straight to a higher-ranked node of its own cluster.
  lemma Compress(parent: map<string, string>, root: map<string, string>, rank: map<string, nat>, bound: nat, i: string, r: string)
    requires Forest(parent, root, rank, bound) && i in parent && parent[i] != i
    requires i in root && r == root[i] && r in rank && i in rank && rank[i] < rank[r]
    ensures Forest(parent[i := r], root, rank, bound)
  {
    RootIsRoot(parent, root, rank, bound, i);
    var after := parent[i := r];
    forall k | k in after ensures NodeOk(after, root, rank, bound, k) {
      ForestAt(parent, root, rank, bound, k);
      RootIsRoot(parent, root, rank, bound, k);
    }
  }

  function Raise(rank: map<string, nat>, a: string, b: string): (r: nat)
    requires a in rank && b in rank
  {
    if rank[a] + 1 > rank[b] then rank[a] + 1 else rank[b]
  }

  ghost function Merged(root: map<string, string>, a: string, b: string): map<string, string> {
    map k | k in root :: if root[k] == a then b else root[k]
  }

  lemma LinkAt(parent: map<string, string>, root: map<string, string>, rank: map<string, nat>, bound: nat,
               a: string, b: string, top: nat, k: string)
    requires NodeOk(parent, root, rank, bound, k) && NodeOk(parent, root, rank, bound, a) && NodeOk(parent, root, rank, bound, b)
    requires a != b && parent[a] == a && parent[b] == b && top == Raise(rank, a, b)
    ensures NodeOk(parent[a := b], Merged(root, a, b), rank[b := top], if top > bound then top else bound, k)
  {
    var p, q, s := parent[a := b], Merged(root, a, b), rank[b := top];
    if k == a {
      assert q[k] == b && q[b] == b && p[k] == b && s[k] < s[b];
    } else {
      assert p[k] == parent[k] && q[k] == (if root[k] == a then b else root[k]);
      assert q[parent[k]] == q[k];
      if k != b && parent[k] != k { assert rank[k] < rank[parent[k]] && s[k] == rank[k] && s[parent[k]] >= rank[parent[k]]; }
    }
  }

  // Linking one root under another.
  lemma Link(parent: map<string, string>, root: map<string, string>, rank: map<string, nat>, bound: nat, a: string, b: string)
    requires Forest(parent, root, rank, bound) && a in parent && b in parent && a != b && a in rank && b in rank
    requires parent[a] == a && parent[b] == b
    ensures var top := Raise(rank, a, b);
            Forest(parent[a := b], Merged(root, a, b), rank[b := top], if top > bound then top else bound)
  {
    hide NodeOk;
    var top := Raise(rank, a, b);
    var p, q, s, t := parent[a := b], Merged(root, a, b), rank[b := top], if top > bound then top else bound;
    ForestAt(parent, root, rank, bound, a);
    ForestAt(parent, root, rank, bound, b);
    forall k | k in p ensures NodeOk(p, q, s, t, k) {
      ForestAt(parent, root, rank, bound, k);
      LinkAt(parent, root, rank, bound, a, b, top, k);
    }
  }

  class UnionFind {
    var parent: map<string, string>
    // The root each name leads to.
    ghost var root: map<string, string>
    // Grows along parent links, so that following them ends.
    ghost var rank: map<string, nat>
    ghost var bound: nat

    ghost predicate Inv()
      reads this
    {
      Forest(parent, root, rank, bound)
    }

    constructor (names: set<string>)
      ensures Inv() && parent.Keys == names && root.Keys == names && forall k :: k in names ==> root[k] == k
    {
      parent := map k | k in names :: k;
      root := map k | k in names :: k;
      rank := map k | k in names :: 0;
      bound := 0;
    }

    // Answers the root and shortens the path; the clusters stay as they are.
    method Find(i: string) returns (r: string)
      requires Inv() && i in parent
      modifies this`parent
      ensures Inv() && parent.Keys == old(parent.Keys)
      ensures i in root && r == root[i] && i in rank && r in rank && rank[i] <= rank[r]
      decreases bound - (if i in rank then rank[i] else 0)
    {
      hide Forest;
      ForestAt(parent, root, rank, bound, i);
      if parent[i] == i { return i; }
      ForestAt(parent, root, rank, bound, parent[i]);
      r := Find(parent[i]);
      ForestAt(parent, root, rank, bound, i);
      if parent[i] != i { Compress(parent, root, rank, bound, i, r); }
      parent := parent[i := r];
    }

    // Merges the clusters of i and j and no others.
    method Union(i: string, j: string)
      requires Inv() && i in parent && j in parent
      modifies this
      ensures Inv() && parent.Keys == old(parent.Keys) && root.Keys == old(root.Keys)
      ensures i in old(root) && j in old(root)
      ensures root == Merged(old(root), old(root[i]), old(root[j]))
    {
      hide Forest;
      var rootI := Find(i);
      var rootJ := Find(j);
      RootIsRoot(parent, root, rank, bound, i);
      RootIsRoot(parent, root, rank, bound, j);
      if rootI != rootJ {
        ForestAt(parent, root, rank, bound, rootI);
        ForestAt(parent, root, rank, bound, rootJ);
        Link(parent, root, rank, bound, rootI, rootJ);
        ghost var top := Raise(rank, rootI, rootJ);
        parent := parent[rootI := rootJ];
        rank := rank[rootJ := top];
        bound := if top > bound then top else bound;
        root := Merged(root, rootI, rootJ);
      }
    }
  }
}
