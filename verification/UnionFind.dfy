/** The parent map both union-finds share, with path compression and without ranks. */
module UnionFind {
  import opened Links

  /** A parent map with a witness that it has no cycles but self-loops: parents rank above their children. */
  datatype Tree = Tree(parent: map<string, string>, rank: string -> nat, top: nat)

  ghost predicate Acyclic(t: Tree) {
    && (forall v <- t.parent :: t.parent[v] != v ==> t.rank(v) < t.rank(t.parent[v]))
    && (forall v :: t.rank(v) <= t.top)
  }

  ghost predicate IsRoot(t: Tree, v: string) { v !in t.parent || t.parent[v] == v }

  ghost function Root(t: Tree, v: string): (r: string)
    requires Acyclic(t)
    ensures IsRoot(t, r) && t.rank(v) <= t.rank(r) && (IsRoot(t, v) <==> r == v)
    decreases t.top - t.rank(v)
  {
    if IsRoot(t, v) then v else Root(t, t.parent[v])
  }

  /** Pointing v at its root changes no root. */
  lemma {:induction false} CompressKeepsRoot(t: Tree, v: string, u: string)
    requires Acyclic(t) && !IsRoot(t, v)
    ensures var t' := t.(parent := t.parent[v := Root(t, v)]);
            Acyclic(t') && Root(t', u) == Root(t, u)
    decreases t.top - t.rank(u)
  {
    if !IsRoot(t, u) {
      CompressKeepsRoot(t, v, t.parent[u]);
    }
  }

  /** Hanging the root `child` under the root `root` moves exactly the tree of `child`. */
  lemma {:induction false} LinkMovesTree(t: Tree, child: string, root: string, t': Tree, u: string)
    requires Acyclic(t) && IsRoot(t, child) && IsRoot(t, root) && Acyclic(t')
    requires t'.parent == t.parent[child := root]
    ensures Root(t', u) == if Root(t, u) == child then root else Root(t, u)
    decreases t.top - t.rank(u)
  {
    if !IsRoot(t, u) {
      LinkMovesTree(t, child, root, t', t.parent[u]);
    }
  }

  class Forest {
    var parent: map<string, string>
    ghost var rank: string -> nat
    ghost var top: nat

    constructor (parent: map<string, string>)
      requires forall v <- parent :: parent[v] == v
      ensures Valid() && this.parent == parent && forall v :: Root(View(), v) == v
    {
      this.parent, rank, top := parent, _ => 0, 0;
    }

    ghost function View(): Tree
      reads this
    {
      Tree(parent, rank, top)
    }

    ghost predicate Valid()
      reads this
    {
      Acyclic(View())
    }

    /** Follows the parents to the root and points everything on the way at it. */
    method Find(v: string) returns (r: string)
      requires Valid()
      modifies this`parent
      ensures Valid() && r == old(Root(View(), v)) && IsRoot(View(), r)
      ensures forall u :: Root(View(), u) == old(Root(View(), u))
      ensures old(parent.Keys) == parent.Keys
      decreases top - rank(v)
    {
      if v !in parent || parent[v] == v {
        return v;
      }
      ghost var before := View();
      assert Root(before, v) == Root(before, parent[v]) != v;
      r := Find(parent[v]);
      ghost var t := View();
      assert Root(t, v) == Root(before, v);
      hide Acyclic;
      forall u { CompressKeepsRoot(t, v, u); }
      parent := parent[v := r];
    }

    /** Makes a root the child of a root; linking a root with itself records it. */
    method Link(child: string, root: string)
      requires Valid() && IsRoot(View(), child) && IsRoot(View(), root)
      modifies this
      ensures Valid() && parent == old(parent)[child := root]
      ensures forall u :: Root(View(), u) == if old(Root(View(), u)) == child then root else old(Root(View(), u))
    {
      ghost var t := View();
      parent := parent[child := root];
      if child != root {
        ghost var old_rank, above := rank, top + 1;
        rank := v => if v == root then above else old_rank(v);
        top := above;
      }
      forall u { LinkMovesTree(t, child, root, View(), u); }
    }
  }
}
