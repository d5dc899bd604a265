/** Being linked by a chain of groups, where neighbours in the chain share a group. */
module Links {
  type Edge = (string, string)

  /** The representative of u in the finest partition that joins the ends of each edge. */
  ghost function Rep(edges: seq<Edge>, u: string): string {
    if edges == [] then u
    else
      var front := edges[..|edges| - 1];
      var (a, b) := edges[|edges| - 1];
      if Rep(front, u) == Rep(front, a) then Rep(front, b) else Rep(front, u)
  }

  ghost predicate Joined(edges: seq<Edge>, u: string, v: string) { Rep(edges, u) == Rep(edges, v) }

  /** A chain in which neighbours share a group. */
  ghost predicate Chain(groups: seq<seq<string>>, p: seq<string>) {
    p != [] && forall i :: 0 <= i < |p| - 1 ==> Share(groups, p[i], p[i + 1])
  }

  ghost predicate Share(groups: seq<seq<string>>, u: string, v: string) {
    exists g <- groups :: u in g && v in g
  }

  ghost predicate Linked(groups: seq<seq<string>>, u: string, v: string) {
    exists p :: Chain(groups, p) && p[0] == u && p[|p| - 1] == v
  }

  /** Every member of a group is joined to the group's first member. */
  ghost function Star(group: seq<string>): (r: seq<Edge>)
    ensures |r| == |group| && forall i :: 0 <= i < |r| ==> r[i] == (group[i], group[0])
  {
    seq(|group|, i requires 0 <= i < |group| => (group[i], group[0]))
  }

  ghost function Stars(groups: seq<seq<string>>): seq<Edge> {
    if groups == [] then [] else Stars(groups[..|groups| - 1]) + Star(groups[|groups| - 1])
  }

  lemma {:induction false} JoinedMore(edges: seq<Edge>, more: seq<Edge>, u: string, v: string)
    requires Joined(edges, u, v)
    ensures Joined(edges + more, u, v)
    decreases |more|
  {
    if more == [] {
      assert edges + more == edges;
    } else {
      var n := |more| - 1;
      assert (edges + more)[..|edges + more| - 1] == edges + more[..n];
      JoinedMore(edges, more[..n], u, v);
    }
  }

  lemma EdgeJoins(edges: seq<Edge>, i: nat)
    requires i < |edges|
    ensures Joined(edges, edges[i].0, edges[i].1)
  {
    var (a, b) := edges[i];
    assert edges[..i + 1][..i] == edges[..i];
    assert edges == edges[..i + 1] + edges[i + 1..];
    JoinedMore(edges[..i + 1], edges[i + 1..], a, b);
  }

  lemma {:induction false} MemberJoinsFirst(groups: seq<seq<string>>, g: seq<string>, u: string)
    requires g in groups && u in g
    ensures Joined(Stars(groups), u, g[0])
  {
    var front, last := groups[..|groups| - 1], groups[|groups| - 1];
    if g == last {
      var i :| 0 <= i < |g| && g[i] == u;
      var edges := Stars(groups);
      assert edges[|Stars(front)| + i] == Star(last)[i];
      EdgeJoins(edges, |Stars(front)| + i);
    } else {
      assert g in front;
      MemberJoinsFirst(front, g, u);
      JoinedMore(Stars(front), Star(last), u, g[0]);
    }
  }

  lemma {:induction false} ChainJoins(groups: seq<seq<string>>, p: seq<string>)
    requires Chain(groups, p)
    ensures Joined(Stars(groups), p[0], p[|p| - 1])
    decreases |p|
  {
    var n, edges := |p| - 1, Stars(groups);
    if n > 0 {
      var front := p[..n];
      forall i | 0 <= i < |front| - 1 ensures Share(groups, front[i], front[i + 1]) {
        assert Share(groups, p[i], p[i + 1]);
      }
      ChainJoins(groups, front);
      assert Share(groups, p[n - 1], p[n]);
      var g :| g in groups && p[n - 1] in g && p[n] in g;
      MemberJoinsFirst(groups, g, p[n - 1]);
      MemberJoinsFirst(groups, g, p[n]);
    }
  }

  lemma LinkedIsEquivalence(groups: seq<seq<string>>, u: string, v: string, w: string)
    ensures Linked(groups, u, u)
    ensures Linked(groups, u, v) ==> Linked(groups, v, u)
    ensures Linked(groups, u, v) && Linked(groups, v, w) ==> Linked(groups, u, w)
  {
    assert Chain(groups, [u]);
    if p :| Chain(groups, p) && p[0] == u && p[|p| - 1] == v {
      var back := seq(|p|, i requires 0 <= i < |p| => p[|p| - 1 - i]);
      assert Chain(groups, back) by {
        forall i | 0 <= i < |back| - 1 ensures Share(groups, back[i], back[i + 1]) {
          assert Share(groups, p[|p| - 2 - i], p[|p| - 2 - i + 1]);
        }
      }
      assert back[0] == v && back[|back| - 1] == u;
      if q :| Chain(groups, q) && q[0] == v && q[|q| - 1] == w {
        var whole := p + q[1..];
        assert Chain(groups, whole) by {
          forall i | 0 <= i < |whole| - 1 ensures Share(groups, whole[i], whole[i + 1]) {
            if i >= |p| - 1 {
              assert Share(groups, q[i - |p| + 1], q[i - |p| + 2]);
            }
          }
        }
        assert whole[0] == u && whole[|whole| - 1] == w;
      }
    }
  }

  lemma SharingLinks(groups: seq<seq<string>>, g: seq<string>, u: string, v: string)
    requires g in groups && u in g && v in g
    ensures Linked(groups, u, v)
  {
    var p := [u, v];
    assert Share(groups, p[0], p[1]);
    assert Chain(groups, p);
  }

  /** Edges whose ends are linked join nothing that is not linked. */
  lemma {:induction false} RepIsLinked(groups: seq<seq<string>>, edges: seq<Edge>, u: string)
    requires forall e <- edges :: Linked(groups, e.0, e.1)
    ensures Linked(groups, u, Rep(edges, u))
    decreases |edges|
  {
    LinkedIsEquivalence(groups, u, u, u);
    if edges != [] {
      var front := edges[..|edges| - 1];
      var (a, b) := edges[|edges| - 1];
      assert (a, b) in edges;
      RepIsLinked(groups, front, u);
      RepIsLinked(groups, front, a);
      RepIsLinked(groups, front, b);
      LinkedIsEquivalence(groups, a, Rep(front, a), a);
      LinkedIsEquivalence(groups, u, Rep(front, a), a);
      LinkedIsEquivalence(groups, u, a, b);
      LinkedIsEquivalence(groups, u, b, Rep(front, b));
    }
  }

  lemma {:induction false} StarEdgesAreLinked(groups: seq<seq<string>>, part: seq<seq<string>>)
    requires forall g <- part :: g in groups
    ensures forall e <- Stars(part) :: Linked(groups, e.0, e.1)
  {
    if part != [] {
      var front, last := part[..|part| - 1], part[|part| - 1];
      StarEdgesAreLinked(groups, front);
      forall e <- Star(last) ensures Linked(groups, e.0, e.1) {
        SharingLinks(groups, last, e.0, e.1);
      }
    }
  }

  /** Joining each member to its group's first member links exactly what the groups link. */
  lemma StarsLink(groups: seq<seq<string>>, u: string, v: string)
    ensures Joined(Stars(groups), u, v) <==> Linked(groups, u, v)
  {
    if Joined(Stars(groups), u, v) {
      StarEdgesAreLinked(groups, groups);
      RepIsLinked(groups, Stars(groups), u);
      RepIsLinked(groups, Stars(groups), v);
      LinkedIsEquivalence(groups, v, Rep(Stars(groups), v), v);
      LinkedIsEquivalence(groups, u, Rep(Stars(groups), u), v);
    }
    if p :| Chain(groups, p) && p[0] == u && p[|p| - 1] == v {
      ChainJoins(groups, p);
    }
  }
}
