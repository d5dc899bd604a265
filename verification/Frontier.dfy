/**
 The training targets of one branch of an operator: `covers` orders them, feasibility and coverage
 select them, and the four nested loops of the engine keep the least ones.
 */
module Frontier {
  import opened Options
  import opened Numbers

  datatype Target = Target(skill: int, moduleId: Option<string>, elite: int, level: int, skillLevel: int, potential: int)

  /** One sample of the branch: what it demands and how much it counts. */
  datatype Row = Row(target: Target, weight: real)

  /** Game limits: the highest level per elite phase, and what the module of the branch needs. */
  datatype Limits = Limits(maxLevel: seq<int>, unlock: Option<Unlock>)
  datatype Unlock = Unlock(phase: int, level: int)

  predicate Covers(t: Target, o: Target) {
    && t.skill == o.skill && t.moduleId == o.moduleId && t.potential >= o.potential
    && (t.elite > o.elite || (t.elite == o.elite && t.level >= o.level)) && t.skillLevel >= o.skillLevel
  }

  function NeededElite(skill: int, skillLevel: int): int {
    var bySkillLevel := if skillLevel > 7 then 2 else if skillLevel > 4 then 1 else 0;
    if skill - 1 > bySkillLevel then skill - 1 else bySkillLevel
  }

  function MaxAt(limits: Limits, elite: int): int {
    if 0 <= elite < |limits.maxLevel| then limits.maxLevel[elite] else 0
  }

  predicate Feasible(limits: Limits, t: Target) {
    && t.level <= MaxAt(limits, t.elite)
    && t.elite >= NeededElite(t.skill, t.skillLevel)
    && (limits.unlock.Some? ==> t.elite >= limits.unlock.value.phase && t.level >= limits.unlock.value.level)
  }

  /** Feasible but for the module's unlock level: what every row without warnings meets. */
  predicate Ready(limits: Limits, t: Target) {
    && t.level <= MaxAt(limits, t.elite)
    && t.elite >= NeededElite(t.skill, t.skillLevel)
    && (limits.unlock.Some? ==> t.elite >= limits.unlock.value.phase)
  }

  function Weight(rows: seq<Row>): real {
    if rows == [] then 0.0 else rows[0].weight + Weight(rows[1..])
  }

  function Covered(rows: seq<Row>, t: Target): seq<Row> {
    if rows == [] then []
    else (if Covers(t, rows[0].target) then [rows[0]] else []) + Covered(rows[1..], t)
  }

  /** One branch: rows of the same skill and module, none of negative weight, some of positive weight. */
  ghost predicate IsBranch(rows: seq<Row>) {
    && rows != []
    && (forall r <- rows :: r.target.skill == rows[0].target.skill && r.target.moduleId == rows[0].target.moduleId)
    && (forall r <- rows :: r.weight >= 0.0)
    && Weight(rows) > 0.0
  }

  predicate InBranch(rows: seq<Row>, t: Target)
    requires rows != []
  {
    t.skill == rows[0].target.skill && t.moduleId == rows[0].target.moduleId
  }

  /** A feasible target of the branch whose covered rows carry the wanted share of the weight. */
  ghost predicate Reaches(rows: seq<Row>, limits: Limits, coverage: real, t: Target)
    requires IsBranch(rows)
  {
    InBranch(rows, t) && Feasible(limits, t) && Weight(Covered(rows, t)) / Weight(rows) >= coverage
  }

  /** A least target: it reaches, and everything that reaches and that it covers is itself. */
  ghost predicate Minimal(rows: seq<Row>, limits: Limits, coverage: real, t: Target)
    requires IsBranch(rows)
  {
    && Reaches(rows, limits, coverage, t)
    && forall u :: Reaches(rows, limits, coverage, u) && Covers(t, u) ==> u == t
  }

  // `Covers` is a partial order.

  lemma CoversOrder(a: Target, b: Target, c: Target)
    ensures Covers(a, a)
    ensures Covers(a, b) && Covers(b, a) ==> a == b
    ensures Covers(a, b) && Covers(b, c) ==> Covers(a, c)
  {
  }

  lemma {:induction false} CoveredHas(rows: seq<Row>, t: Target, r: Row)
    ensures r in Covered(rows, t) <==> r in rows && Covers(t, r.target)
  {
    if rows != [] {
      CoveredHas(rows[1..], t, r);
    }
  }

  lemma {:induction false} CoveredWeightMonotone(rows: seq<Row>, t: Target, u: Target)
    requires forall r <- rows :: r.weight >= 0.0
    requires forall r <- rows :: r.weight > 0.0 && Covers(u, r.target) ==> Covers(t, r.target)
    ensures Weight(Covered(rows, t)) >= Weight(Covered(rows, u)) >= 0.0
  {
    if rows != [] {
      CoveredWeightMonotone(rows[1..], t, u);
      WeightJoin(if Covers(t, rows[0].target) then [rows[0]] else [], Covered(rows[1..], t));
      WeightJoin(if Covers(u, rows[0].target) then [rows[0]] else [], Covered(rows[1..], u));
    }
  }

  lemma {:induction false} WeightJoin(a: seq<Row>, b: seq<Row>)
    ensures Weight(a + b) == Weight(a) + Weight(b)
  {
    if a == [] {
      assert a + b == b;
    } else {
      assert (a + b)[1..] == a[1..] + b;
      WeightJoin(a[1..], b);
    }
  }

  lemma {:induction false} CoversAll(rows: seq<Row>, t: Target)
    requires forall r <- rows :: Covers(t, r.target)
    ensures Covered(rows, t) == rows
  {
    if rows != [] {
      CoversAll(rows[1..], t);
    }
  }

  // The join of rows: the least target that covers them all.

  function Join2(a: Target, b: Target): Target {
    var high := if a.elite > b.elite || (a.elite == b.elite && a.level >= b.level) then a else b;
    Target(a.skill, a.moduleId, high.elite, high.level, Max(a.skillLevel, b.skillLevel), Max(a.potential, b.potential))
  }

  function Join(rows: seq<Row>): Target
    requires rows != []
  {
    if |rows| == 1 then rows[0].target else Join2(rows[0].target, Join(rows[1..]))
  }

  /** Feasibility survives the join, because elite and level come from the same row. */
  lemma JoinIsLeastUpperBound(rows: seq<Row>, limits: Limits, t: Target)
    requires rows != []
    requires forall r <- rows :: r.target.skill == t.skill && r.target.moduleId == t.moduleId && Feasible(limits, r.target)
    ensures Join(rows).skill == t.skill && Join(rows).moduleId == t.moduleId && Feasible(limits, Join(rows))
    ensures forall r <- rows :: Covers(Join(rows), r.target)
    ensures (forall r <- rows :: Covers(t, r.target)) ==> Covers(t, Join(rows))
  {
    hide Join, Covers, MaxAt, NeededElite;
    JoinIsReady(rows, limits, t);
    var top := JoinTop(rows);
  }

  // The grid the loops run over.

  /** The distinct values of a field in ascending order. */
  function Ascending(values: seq<int>): (r: seq<int>)
    ensures forall v :: v in r <==> v in values
    ensures forall i, j :: 0 <= i < j < |r| ==> r[i] < r[j]
  {
    if values == [] then [] else Insert(values[0], Ascending(values[1..]))
  }

  function Insert(v: int, sorted: seq<int>): (r: seq<int>)
    requires forall i, j :: 0 <= i < j < |sorted| ==> sorted[i] < sorted[j]
    ensures forall x :: x in r <==> x == v || x in sorted
    ensures forall i, j :: 0 <= i < j < |r| ==> r[i] < r[j]
  {
    if sorted == [] || v < sorted[0] then [v] + sorted
    else if v == sorted[0] then sorted
    else
      var rest := Insert(v, sorted[1..]);
      assert forall i :: 0 <= i < |rest| ==> rest[i] in rest;
      assert forall x :: x in [sorted[0]] + rest <==> x == sorted[0] || x in rest;
      [sorted[0]] + rest
  }

  datatype Field = Elite | Level | SkillLevel | Potential

  function Get(field: Field, t: Target): int {
    match field
    case Elite => t.elite
    case Level => t.level
    case SkillLevel => t.skillLevel
    case Potential => t.potential
  }

  function Project(rows: seq<Row>, field: Field): (r: seq<int>)
    ensures |r| == |rows|
    ensures forall row <- rows :: Get(field, row.target) in r
  {
    if rows == [] then [] else [Get(field, rows[0].target)] + Project(rows[1..], field)
  }

  datatype Grid = Grid(elites: seq<int>, levels: seq<int>, skills: seq<int>, potentials: seq<int>) {
    ghost predicate Sorted() {
      && (forall i, j :: 0 <= i < j < |elites| ==> elites[i] < elites[j])
      && (forall i, j :: 0 <= i < j < |levels| ==> levels[i] < levels[j])
      && (forall i, j :: 0 <= i < j < |skills| ==> skills[i] < skills[j])
      && (forall i, j :: 0 <= i < j < |potentials| ==> potentials[i] < potentials[j])
    }

    ghost predicate Has(t: Target) {
      t.elite in elites && t.level in levels && t.skillLevel in skills && t.potential in potentials
    }

    /** The loops have been at t before the indices i, j, k, m. */
    ghost predicate Seen(t: Target, i: nat, j: nat, k: nat, m: nat)
      requires i <= |elites| && j <= |levels| && k <= |skills| && m <= |potentials|
    {
      Has(t) &&
      (t.elite in elites[..i] || (i < |elites| && t.elite == elites[i] &&
       (t.level in levels[..j] || (j < |levels| && t.level == levels[j] &&
        (t.skillLevel in skills[..k] || (k < |skills| && t.skillLevel == skills[k] &&
         t.potential in potentials[..m]))))))
    }
  }

  function GridOf(rows: seq<Row>): (g: Grid)
    ensures g.Sorted()
    ensures forall r <- rows :: g.Has(r.target)
  {
    Grid(Ascending(Project(rows, Elite)), Ascending(Project(rows, Level)),
         Ascending(Project(rows, SkillLevel)), Ascending(Project(rows, Potential)))
  }

  lemma {:induction false} JoinInGrid(g: Grid, rows: seq<Row>)
    requires rows != [] && forall r <- rows :: g.Has(r.target)
    ensures g.Has(Join(rows))
  {
    if |rows| > 1 {
      JoinInGrid(g, rows[1..]);
    }
  }

  // The loops.

  datatype Entry = Entry(target: Target, covered: seq<Row>)

  predicate Dominated(frontier: seq<Entry>, t: Target) {
    exists e <- frontier :: Covers(t, e.target)
  }

  ghost predicate Apart(frontier: seq<Entry>) {
    forall x, y :: 0 <= x < |frontier| && 0 <= y < |frontier| && x != y ==> !Covers(frontier[x].target, frontier[y].target)
  }

  /** What holds once the loops have been before the indices i, j, k, m. */
  ghost predicate Progress(rows: seq<Row>, limits: Limits, coverage: real, g: Grid, frontier: seq<Entry>,
                           i: nat, j: nat, k: nat, m: nat)
    requires IsBranch(rows)
    requires i <= |g.elites| && j <= |g.levels| && k <= |g.skills| && m <= |g.potentials|
  {
    && (forall e <- frontier :: g.Seen(e.target, i, j, k, m) && Reaches(rows, limits, coverage, e.target))
    && (forall e <- frontier :: e.covered == Covered(rows, e.target))
    && (forall t :: g.Seen(t, i, j, k, m) && Reaches(rows, limits, coverage, t) ==> Dominated(frontier, t))
    && Apart(frontier)
  }

  /** The loops are a linear extension of `Covers`: nothing visited earlier covers the current point. */
  lemma EarlierDoesNotCover(g: Grid, t: Target, p: Target, i: nat, j: nat, k: nat, m: nat)
    requires g.Sorted() && i < |g.elites| && j < |g.levels| && k < |g.skills| && m < |g.potentials|
    requires p.elite == g.elites[i] && p.level == g.levels[j] && p.skillLevel == g.skills[k] && p.potential == g.potentials[m]
    requires g.Seen(t, i, j, k, m)
    ensures !Covers(t, p)
  {
  }

  lemma SeenNext(g: Grid, t: Target, p: Target, i: nat, j: nat, k: nat, m: nat)
    requires i < |g.elites| && j < |g.levels| && k < |g.skills| && m < |g.potentials|
    requires p.elite == g.elites[i] && p.level == g.levels[j] && p.skillLevel == g.skills[k] && p.potential == g.potentials[m]
    requires t.skill == p.skill && t.moduleId == p.moduleId
    ensures g.Seen(t, i, j, k, m + 1) <==> g.Seen(t, i, j, k, m) || t == p
  {
    assert g.potentials[..m + 1] == g.potentials[..m] + [g.potentials[m]];
  }

  lemma SeenWrap(g: Grid, t: Target, i: nat, j: nat, k: nat)
    requires i <= |g.elites| && j <= |g.levels| && k <= |g.skills|
    ensures i < |g.elites| && j < |g.levels| && k < |g.skills| ==> (g.Seen(t, i, j, k, |g.potentials|) <==> g.Seen(t, i, j, k + 1, 0))
    ensures i < |g.elites| && j < |g.levels| ==> (g.Seen(t, i, j, |g.skills|, 0) <==> g.Seen(t, i, j + 1, 0, 0))
    ensures i < |g.elites| ==> (g.Seen(t, i, |g.levels|, 0, 0) <==> g.Seen(t, i + 1, 0, 0, 0))
  {
    assert g.potentials[..|g.potentials|] == g.potentials;
    assert g.skills[..|g.skills|] == g.skills;
    assert g.levels[..|g.levels|] == g.levels;
    assert k < |g.skills| ==> g.skills[..k + 1] == g.skills[..k] + [g.skills[k]];
    assert j < |g.levels| ==> g.levels[..j + 1] == g.levels[..j] + [g.levels[j]];
    assert i < |g.elites| ==> g.elites[..i + 1] == g.elites[..i] + [g.elites[i]];
  }

  /** One grid point: skipped when infeasible or above a kept target, kept when it covers enough. */
  function Extended(rows: seq<Row>, limits: Limits, coverage: real, p: Target, frontier: seq<Entry>): seq<Entry>
    requires Weight(rows) > 0.0
  {
    if Feasible(limits, p) && !Dominated(frontier, p) && Weight(Covered(rows, p)) / Weight(rows) >= coverage
    then frontier + [Entry(p, Covered(rows, p))] else frontier
  }

  lemma ExtendedKeeps(rows: seq<Row>, limits: Limits, coverage: real, p: Target, frontier: seq<Entry>, g: Grid,
                      i: nat, j: nat, k: nat, m: nat)
    requires IsBranch(rows) && InBranch(rows, p) && g.Sorted()
    requires i < |g.elites| && j < |g.levels| && k < |g.skills| && m < |g.potentials|
    requires p.elite == g.elites[i] && p.level == g.levels[j] && p.skillLevel == g.skills[k] && p.potential == g.potentials[m]
    requires Progress(rows, limits, coverage, g, frontier, i, j, k, m)
    ensures Progress(rows, limits, coverage, g, Extended(rows, limits, coverage, p, frontier), i, j, k, m + 1)
  {
    hide Covers, Grid.Seen, Feasible, Covered, Weight;
    var next := Extended(rows, limits, coverage, p, frontier);
    forall t | InBranch(rows, t) ensures g.Seen(t, i, j, k, m + 1) <==> g.Seen(t, i, j, k, m) || t == p {
      SeenNext(g, t, p, i, j, k, m);
    }
    forall e <- frontier ensures !Covers(e.target, p) {
      EarlierDoesNotCover(g, e.target, p, i, j, k, m);
    }
    forall t | g.Seen(t, i, j, k, m + 1) && Reaches(rows, limits, coverage, t) ensures Dominated(next, t) {
      if t == p {
        CoversOrder(p, p, p);
        if next != frontier {
          assert next[|frontier|] in next;
        }
      } else {
        var e :| e in frontier && Covers(t, e.target);
        assert e in next;
      }
    }
  }

  method Visit(rows: seq<Row>, limits: Limits, coverage: real, p: Target, frontier: seq<Entry>, ghost g: Grid,
               ghost i: nat, ghost j: nat, ghost k: nat, ghost m: nat) returns (next: seq<Entry>)
    requires IsBranch(rows) && InBranch(rows, p) && g.Sorted()
    requires i < |g.elites| && j < |g.levels| && k < |g.skills| && m < |g.potentials|
    requires p.elite == g.elites[i] && p.level == g.levels[j] && p.skillLevel == g.skills[k] && p.potential == g.potentials[m]
    requires Progress(rows, limits, coverage, g, frontier, i, j, k, m)
    ensures Progress(rows, limits, coverage, g, next, i, j, k, m + 1)
  {
    hide Progress;
    ExtendedKeeps(rows, limits, coverage, p, frontier, g, i, j, k, m);
    next := frontier;
    if Feasible(limits, p) && !Dominated(frontier, p) {
      var covered := Covered(rows, p);
      if Weight(covered) / Weight(rows) >= coverage {
        next := frontier + [Entry(p, covered)];
      }
    }
  }

  lemma ProgressMoves(rows: seq<Row>, limits: Limits, coverage: real, g: Grid, frontier: seq<Entry>, i: nat, j: nat, k: nat)
    requires IsBranch(rows)
    requires i <= |g.elites| && j <= |g.levels| && k <= |g.skills|
    ensures i < |g.elites| && j < |g.levels| && k < |g.skills| ==>
            (Progress(rows, limits, coverage, g, frontier, i, j, k, |g.potentials|) <==> Progress(rows, limits, coverage, g, frontier, i, j, k + 1, 0))
    ensures i < |g.elites| && j < |g.levels| ==>
            (Progress(rows, limits, coverage, g, frontier, i, j, |g.skills|, 0) <==> Progress(rows, limits, coverage, g, frontier, i, j + 1, 0, 0))
    ensures i < |g.elites| ==>
            (Progress(rows, limits, coverage, g, frontier, i, |g.levels|, 0, 0) <==> Progress(rows, limits, coverage, g, frontier, i + 1, 0, 0, 0))
  {
    hide Reaches, Dominated, Covered, Grid.Seen, Apart;
    forall t { SeenWrap(g, t, i, j, k); }
  }

  /** The four nested loops. */
  method BuildFrontier(rows: seq<Row>, limits: Limits, coverage: real) returns (frontier: seq<Entry>)
    requires IsBranch(rows)
    ensures IsFrontier(rows, limits, coverage, frontier)
  {
    hide Progress, Reaches;
    var g := GridOf(rows);
    frontier := [];
    Start(rows, limits, coverage, g);
    for i := 0 to |g.elites|
      invariant Progress(rows, limits, coverage, g, frontier, i, 0, 0, 0)
    {
      for j := 0 to |g.levels|
        invariant Progress(rows, limits, coverage, g, frontier, i, j, 0, 0)
      {
        for k := 0 to |g.skills|
          invariant Progress(rows, limits, coverage, g, frontier, i, j, k, 0)
        {
          for m := 0 to |g.potentials|
            invariant Progress(rows, limits, coverage, g, frontier, i, j, k, m)
          {
            var base := rows[0].target;
            var p := base.(elite := g.elites[i], level := g.levels[j], skillLevel := g.skills[k], potential := g.potentials[m]);
            frontier := Visit(rows, limits, coverage, p, frontier, g, i, j, k, m);
          }
          ProgressMoves(rows, limits, coverage, g, frontier, i, j, k);
        }
        ProgressMoves(rows, limits, coverage, g, frontier, i, j, 0);
      }
      ProgressMoves(rows, limits, coverage, g, frontier, i, 0, 0);
    }
    End(rows, limits, coverage, g, frontier);
  }

  /** Entries with distinct, incomparable, reaching grid targets, above which lies every reaching grid target. */
  ghost predicate IsFrontier(rows: seq<Row>, limits: Limits, coverage: real, frontier: seq<Entry>)
    requires IsBranch(rows)
  {
    var g := GridOf(rows);
    && (forall e <- frontier :: g.Has(e.target) && Reaches(rows, limits, coverage, e.target))
    && (forall e <- frontier :: e.covered == Covered(rows, e.target))
    && (forall t :: g.Has(t) && Reaches(rows, limits, coverage, t) ==> Dominated(frontier, t))
    && Apart(frontier)
  }

  lemma Start(rows: seq<Row>, limits: Limits, coverage: real, g: Grid)
    requires IsBranch(rows)
    ensures Progress(rows, limits, coverage, g, [], 0, 0, 0, 0)
  {
  }

  lemma End(rows: seq<Row>, limits: Limits, coverage: real, g: Grid, frontier: seq<Entry>)
    requires IsBranch(rows) && g == GridOf(rows) && Progress(rows, limits, coverage, g, frontier, |g.elites|, 0, 0, 0)
    ensures IsFrontier(rows, limits, coverage, frontier)
  {
    assert g.elites[..|g.elites|] == g.elites;
  }

  lemma Divide(a: real, b: real, w: real)
    requires w > 0.0 && a >= b
    ensures a / w >= b / w
  {
  }

  /** The loops always have a result: every branch has a frontier at every coverage. */
  lemma FrontierExists(rows: seq<Row>, limits: Limits, coverage: real) returns (frontier: seq<Entry>)
    requires IsBranch(rows)
    ensures IsFrontier(rows, limits, coverage, frontier)
  {
    hide Progress;
    var g := GridOf(rows);
    frontier := ProgressExists(rows, limits, coverage, g, |g.elites|, 0, 0, 0);
    End(rows, limits, coverage, g, frontier);
  }

  lemma {:induction false} ProgressExists(rows: seq<Row>, limits: Limits, coverage: real, g: Grid, i: nat, j: nat, k: nat, m: nat)
    returns (frontier: seq<Entry>)
    requires IsBranch(rows) && g.Sorted()
    requires i <= |g.elites| && j <= |g.levels| && k <= |g.skills| && m <= |g.potentials|
    requires (j > 0 || k > 0 || m > 0 ==> i < |g.elites|) && (k > 0 || m > 0 ==> j < |g.levels|) && (m > 0 ==> k < |g.skills|)
    ensures Progress(rows, limits, coverage, g, frontier, i, j, k, m)
    decreases i, j, k, m
  {
    hide Progress, Extended;
    if m > 0 {
      var before := ProgressExists(rows, limits, coverage, g, i, j, k, m - 1);
      var p := rows[0].target.(elite := g.elites[i], level := g.levels[j], skillLevel := g.skills[k], potential := g.potentials[m - 1]);
      ExtendedKeeps(rows, limits, coverage, p, before, g, i, j, k, m - 1);
      frontier := Extended(rows, limits, coverage, p, before);
    } else if k > 0 {
      frontier := ProgressExists(rows, limits, coverage, g, i, j, k - 1, |g.potentials|);
      ProgressMoves(rows, limits, coverage, g, frontier, i, j, k - 1);
    } else if j > 0 {
      frontier := ProgressExists(rows, limits, coverage, g, i, j - 1, |g.skills|, 0);
      ProgressMoves(rows, limits, coverage, g, frontier, i, j - 1, 0);
    } else if i > 0 {
      frontier := ProgressExists(rows, limits, coverage, g, i - 1, |g.levels|, 0, 0);
      ProgressMoves(rows, limits, coverage, g, frontier, i - 1, 0, 0);
    } else {
      frontier := [];
      Start(rows, limits, coverage, g);
    }
  }

  /** The frontier is exactly the set of least ones among the grid points that reach the coverage, whatever the rows. */
  lemma FrontierIsLeastOnGrid(rows: seq<Row>, limits: Limits, coverage: real, frontier: seq<Entry>, t: Target)
    requires IsBranch(rows) && IsFrontier(rows, limits, coverage, frontier)
    ensures (exists e <- frontier :: e.target == t) <==>
            && GridOf(rows).Has(t) && Reaches(rows, limits, coverage, t)
            && forall u :: GridOf(rows).Has(u) && Reaches(rows, limits, coverage, u) && Covers(t, u) ==> u == t
  {
    hide Feasible, Covered, Weight, GridOf, Reaches, Grid.Has;
    if e :| e in frontier && e.target == t {
      forall u | GridOf(rows).Has(u) && Reaches(rows, limits, coverage, u) && Covers(t, u) ensures u == t {
        var low :| low in frontier && Covers(u, low.target);
        CoversOrder(t, u, low.target);
        Together(frontier, e, low);
        CoversOrder(t, u, t);
      }
    }
    if GridOf(rows).Has(t) && Reaches(rows, limits, coverage, t) {
      var low :| low in frontier && Covers(t, low.target);
    }
  }

  lemma Together(frontier: seq<Entry>, a: Entry, b: Entry)
    requires Apart(frontier) && a in frontier && b in frontier && Covers(a.target, b.target)
    ensures a == b
  {
    var x :| 0 <= x < |frontier| && frontier[x] == a;
    var y :| 0 <= y < |frontier| && frontier[y] == b;
    assert x == y;
  }

  // Raising a target to the module's unlock level.

  /** The first phase from e on that allows level l. */
  function PhaseFor(limits: Limits, e: int, l: int): (r: Option<int>)
    ensures r.Some? ==> r.value >= e && MaxAt(limits, r.value) >= l && forall x :: e <= x < r.value ==> MaxAt(limits, x) < l
    ensures r.None? ==> forall x :: e <= x ==> MaxAt(limits, x) < l
    decreases |limits.maxLevel| - e
  {
    if MaxAt(limits, e) >= l then Some(e) else if e >= |limits.maxLevel| then None else PhaseFor(limits, e + 1, l)
  }

  predicate BelowUnlock(limits: Limits, t: Target) { limits.unlock.Some? && t.level < limits.unlock.value.level }

  /** The least feasible target that covers t, if there is one. */
  function Raised(limits: Limits, t: Target): Option<Target> {
    if !BelowUnlock(limits, t) then Some(t)
    else
      var phase := PhaseFor(limits, t.elite, limits.unlock.value.level);
      if phase.None? then None else Some(t.(elite := phase.value, level := limits.unlock.value.level))
  }

  lemma RaisedIsLeast(limits: Limits, t: Target, u: Target)
    requires Ready(limits, t)
    ensures var r := Raised(limits, t);
            && (r.Some? ==> Feasible(limits, r.value) && Covers(r.value, t))
            && (Feasible(limits, u) && Covers(u, t) ==> r.Some? && Covers(u, r.value))
  {
  }

  lemma {:induction false} JoinIsReady(rows: seq<Row>, limits: Limits, t: Target)
    requires rows != []
    requires forall r <- rows :: r.target.skill == t.skill && r.target.moduleId == t.moduleId && Ready(limits, r.target)
    ensures Join(rows).skill == t.skill && Join(rows).moduleId == t.moduleId && Ready(limits, Join(rows))
    ensures forall r <- rows :: Covers(Join(rows), r.target)
    ensures (forall r <- rows :: Covers(t, r.target)) ==> Covers(t, Join(rows))
  {
    if |rows| > 1 {
      JoinIsReady(rows[1..], limits, t);
    }
  }

  /** Elite and level of a join come from one row. */
  lemma {:induction false} JoinTop(rows: seq<Row>) returns (top: Row)
    requires rows != []
    ensures top in rows && top.target.elite == Join(rows).elite && top.target.level == Join(rows).level
  {
    top := rows[0];
    if |rows| > 1 {
      var other := JoinTop(rows[1..]);
      if Join(rows).elite != top.target.elite || Join(rows).level != top.target.level {
        top := other;
      }
    }
  }

  function Heavy(rows: seq<Row>): (r: seq<Row>)
    ensures forall x :: x in r <==> x in rows && x.weight > 0.0
  {
    if rows == [] then [] else (if rows[0].weight > 0.0 then [rows[0]] else []) + Heavy(rows[1..])
  }

  lemma {:induction false} NothingHeavy(rows: seq<Row>)
    requires (forall r <- rows :: r.weight >= 0.0) && Heavy(rows) == []
    ensures Weight(rows) == 0.0
  {
    if rows != [] {
      NothingHeavy(rows[1..]);
    }
  }

  /**
   Below every reaching target lies one made from the rows it covers: the join of those with weight,
   raised to the unlock level if need be.
   */
  lemma RaisedJoinBelow(rows: seq<Row>, limits: Limits, coverage: real, t: Target) returns (heavy: seq<Row>, p: Target)
    requires IsBranch(rows) && coverage > 0.0 && Reaches(rows, limits, coverage, t)
    requires forall r <- rows :: Ready(limits, r.target)
    ensures heavy != [] && (forall r <- heavy :: r in rows && r.weight > 0.0) && Raised(limits, Join(heavy)) == Some(p)
    ensures Reaches(rows, limits, coverage, p) && Covers(t, p)
  {
    hide Raised, Ready, Join, Weight, Covered, Covers;
    var covered := Covered(rows, t);
    heavy := Heavy(covered);
    forall r ensures r in covered <==> r in rows && Covers(t, r.target) {
      CoveredHas(rows, t, r);
    }
    if heavy == [] {
      NothingHeavy(covered);
    }
    JoinIsReady(heavy, limits, t);
    RaisedIsLeast(limits, Join(heavy), t);
    p := Raised(limits, Join(heavy)).value;
    SameBranch(limits, Join(heavy), p);
    forall r <- rows | r.weight > 0.0 && Covers(t, r.target) ensures Covers(p, r.target) {
      assert r in heavy;
      CoversOrder(p, Join(heavy), r.target);
    }
    CoveredWeightMonotone(rows, p, t);
    Divide(Weight(Covered(rows, p)), Weight(covered), Weight(rows));
  }

  lemma SameBranch(limits: Limits, t: Target, p: Target)
    requires Raised(limits, t) == Some(p)
    ensures p.skill == t.skill && p.moduleId == t.moduleId && p.skillLevel == t.skillLevel && p.potential == t.potential
    ensures !BelowUnlock(limits, t) ==> p == t
  {
  }

  // When the grid has all least targets.

  /** Where a row below the unlock level would have to be raised to, the grid has that phase and that level. */
  ghost predicate RaisedOnGrid(rows: seq<Row>, limits: Limits) {
    forall r <- rows :: r.weight > 0.0 && BelowUnlock(limits, r.target) ==>
      var raised := Raised(limits, r.target);
      raised.None? || ((exists a <- rows :: a.target.elite == raised.value.elite) && exists s <- rows :: s.target.level == raised.value.level)
  }

  lemma {:induction false} ProjectHas(rows: seq<Row>, field: Field, v: int)
    ensures v in Project(rows, field) <==> exists r <- rows :: Get(field, r.target) == v
  {
    if rows != [] {
      ProjectHas(rows[1..], field, v);
      if r :| r in rows && Get(field, r.target) == v {
        assert r == rows[0] || r in rows[1..];
      }
    }
  }

  lemma GridHas(rows: seq<Row>, t: Target)
    ensures GridOf(rows).Has(t) <==>
            && (exists r <- rows :: r.target.elite == t.elite) && (exists r <- rows :: r.target.level == t.level)
            && (exists r <- rows :: r.target.skillLevel == t.skillLevel) && exists r <- rows :: r.target.potential == t.potential
  {
    ProjectHas(rows, Elite, t.elite);
    ProjectHas(rows, Level, t.level);
    ProjectHas(rows, SkillLevel, t.skillLevel);
    ProjectHas(rows, Potential, t.potential);
  }

  /** The raised join of some rows is a grid point if the raised rows' phases and levels are on the grid. */
  lemma RaisedJoinOnGrid(rows: seq<Row>, limits: Limits, heavy: seq<Row>, p: Target)
    requires RaisedOnGrid(rows, limits) && heavy != [] && forall r <- heavy :: r in rows && r.weight > 0.0
    requires Raised(limits, Join(heavy)) == Some(p)
    ensures GridOf(rows).Has(p)
  {
    hide GridOf, Join, Grid.Has;
    JoinInGrid(GridOf(rows), heavy);
    GridHas(rows, Join(heavy));
    GridHas(rows, p);
    var top := JoinTop(heavy);
  }

  /** If so, the frontier is exactly the set of least targets among all feasible ones that reach the coverage. */
  lemma FrontierIsMinimal(rows: seq<Row>, limits: Limits, coverage: real, frontier: seq<Entry>, t: Target)
    requires IsBranch(rows) && coverage > 0.0 && IsFrontier(rows, limits, coverage, frontier)
    requires (forall r <- rows :: Ready(limits, r.target)) && RaisedOnGrid(rows, limits)
    ensures (exists e <- frontier :: e.target == t) <==> Minimal(rows, limits, coverage, t)
  {
    hide Ready, Reaches, RaisedOnGrid, GridOf, Grid.Has, Raised, Join;
    FrontierIsLeastOnGrid(rows, limits, coverage, frontier, t);
    if e :| e in frontier && e.target == t {
      forall u | Reaches(rows, limits, coverage, u) && Covers(t, u) ensures u == t {
        var heavy, p := RaisedJoinBelow(rows, limits, coverage, u);
        RaisedJoinOnGrid(rows, limits, heavy, p);
        CoversOrder(t, u, p);
        CoversOrder(t, u, t);
      }
    }
    if Minimal(rows, limits, coverage, t) {
      var heavy, p := RaisedJoinBelow(rows, limits, coverage, t);
      RaisedJoinOnGrid(rows, limits, heavy, p);
    }
  }

  /** A row that would have to be raised off the grid is a least target at the coverage of its raised target. */
  lemma RaisedRowIsMinimal(rows: seq<Row>, limits: Limits, r: Row) returns (t: Target, coverage: real)
    requires IsBranch(rows) && r in rows && r.weight > 0.0 && Ready(limits, r.target) && Raised(limits, r.target).Some?
    ensures t == Raised(limits, r.target).value && 0.0 < coverage <= 1.0 && Minimal(rows, limits, coverage, t)
  {
    hide Raised, Ready, Weight, Covered, Covers;
    t := Raised(limits, r.target).value;
    RaisedIsLeast(limits, r.target, t);
    SameBranch(limits, r.target, t);
    coverage := Weight(Covered(rows, t)) / Weight(rows);
    HeavyCovered(rows, r, t);
    Share(Weight(Covered(rows, t)), Weight(rows));
    forall u | Reaches(rows, limits, coverage, u) && Covers(t, u) ensures u == t {
      if !Covers(u, r.target) {
        forall x <- rows | Covers(u, x.target) ensures Covers(t, x.target) {
          CoversOrder(t, u, x.target);
        }
        HeavyRowCounts(rows, r, t, u);
        Strictly(Weight(Covered(rows, u)), Weight(Covered(rows, t)), Weight(rows));
      }
      RaisedIsLeast(limits, r.target, u);
      CoversOrder(t, u, t);
    }
  }

  lemma {:induction false} HeavyRowCounts(rows: seq<Row>, r: Row, t: Target, u: Target)
    requires (forall x <- rows :: x.weight >= 0.0) && r in rows && r.weight > 0.0
    requires Covers(t, r.target) && !Covers(u, r.target) && forall x <- rows :: Covers(u, x.target) ==> Covers(t, x.target)
    ensures Weight(Covered(rows, u)) < Weight(Covered(rows, t))
  {
    hide Covers;
    var first, rest := rows[0], rows[1..];
    WeightJoin(if Covers(t, first.target) then [first] else [], Covered(rest, t));
    WeightJoin(if Covers(u, first.target) then [first] else [], Covered(rest, u));
    if r in rest {
      HeavyRowCounts(rest, r, t, u);
    } else {
      CoveredWeightMonotone(rest, t, u);
    }
  }

  lemma HeavyCovered(rows: seq<Row>, r: Row, t: Target)
    requires (forall x <- rows :: x.weight >= 0.0) && (forall x <- rows :: x.target.skill == r.target.skill)
    requires r in rows && r.weight > 0.0 && Covers(t, r.target)
    ensures 0.0 < Weight(Covered(rows, t)) <= Weight(rows)
  {
    var none := t.(skill := t.skill + 1);
    CoveredAtMost(rows, t);
    CoveredAtMost(rows, none);
    HeavyRowCounts(rows, r, t, none);
  }

  lemma {:induction false} CoveredAtMost(rows: seq<Row>, t: Target)
    requires forall x <- rows :: x.weight >= 0.0
    ensures 0.0 <= Weight(Covered(rows, t)) <= Weight(rows)
  {
    if rows != [] {
      CoveredAtMost(rows[1..], t);
      WeightJoin(if Covers(t, rows[0].target) then [rows[0]] else [], Covered(rows[1..], t));
    }
  }

  lemma Share(a: real, w: real)
    requires 0.0 < a <= w
    ensures 0.0 < a / w <= 1.0
  {
  }

  lemma Strictly(a: real, b: real, w: real)
    requires a < b && w > 0.0
    ensures a / w < b / w
  {
  }

  /** The frontier is the set of least targets, whatever the coverage. */
  ghost predicate AlwaysMinimal(rows: seq<Row>, limits: Limits)
    requires IsBranch(rows)
  {
    forall coverage: real, frontier: seq<Entry>, t: Target :: 0.0 < coverage <= 1.0 && IsFrontier(rows, limits, coverage, frontier) ==>
      ((exists e <- frontier :: e.target == t) <==> Minimal(rows, limits, coverage, t))
  }

  /** Exactly when the frontier is the set of least targets at every coverage. */
  lemma MinimalExactlyWhen(rows: seq<Row>, limits: Limits)
    requires IsBranch(rows) && forall r <- rows :: Ready(limits, r.target)
    ensures AlwaysMinimal(rows, limits) <==> RaisedOnGrid(rows, limits)
  {
    hide Ready, GridOf, Minimal, IsFrontier, IsBranch;
    if RaisedOnGrid(rows, limits) {
      forall coverage: real, frontier: seq<Entry>, t: Target | 0.0 < coverage <= 1.0 && IsFrontier(rows, limits, coverage, frontier)
        ensures (exists e <- frontier :: e.target == t) <==> Minimal(rows, limits, coverage, t)
      {
        FrontierIsMinimal(rows, limits, coverage, frontier, t);
      }
    }
    if AlwaysMinimal(rows, limits) {
      forall r <- rows | r.weight > 0.0 && BelowUnlock(limits, r.target) && Raised(limits, r.target).Some?
        ensures var raised := Raised(limits, r.target).value;
                (exists a <- rows :: a.target.elite == raised.elite) && exists s <- rows :: s.target.level == raised.level
      {
        var t, coverage := RaisedRowIsMinimal(rows, limits, r);
        var frontier := FrontierExists(rows, limits, coverage);
        assert Minimal(rows, limits, coverage, t);
        FrontierIsLeastOnGrid(rows, limits, coverage, frontier, t);
        GridHas(rows, t);
      }
    }
  }

  /** When every phase from the module's on allows the unlock level: all rows with weight are feasible, or some row has just that level. */
  lemma MinimalExactlyWhenRoomy(rows: seq<Row>, limits: Limits)
    requires IsBranch(rows) && forall r <- rows :: Ready(limits, r.target)
    requires limits.unlock.Some? ==> forall e :: limits.unlock.value.phase <= e < |limits.maxLevel| ==> limits.unlock.value.level <= MaxAt(limits, e)
    requires forall r <- rows :: 0 <= r.target.elite < |limits.maxLevel|
    ensures AlwaysMinimal(rows, limits) <==>
            (forall r <- rows :: r.weight > 0.0 ==> Feasible(limits, r.target))
            || exists s <- rows :: limits.unlock.Some? && s.target.level == limits.unlock.value.level
  {
    hide AlwaysMinimal, IsBranch;
    MinimalExactlyWhen(rows, limits);
    forall r <- rows ensures Raised(limits, r.target).Some? && Raised(limits, r.target).value.elite == r.target.elite {
    }
    forall r <- rows ensures Feasible(limits, r.target) <==> !BelowUnlock(limits, r.target) {
    }
  }

  // When a branch gets a target.

  predicate Room(limits: Limits, e: int, l: int) {
    l <= MaxAt(limits, e) && (limits.unlock.Some? ==> l >= limits.unlock.value.level)
  }

  /** The rows' highest skill level and potential, at this phase and level. */
  function Corner(rows: seq<Row>, e: int, l: int): Target
    requires rows != []
  {
    Join(rows).(elite := e, level := l)
  }

  /** The phase of one row with the level of a row has room for the unlock level, and covers enough. */
  ghost predicate Attainable(rows: seq<Row>, limits: Limits, coverage: real)
    requires IsBranch(rows)
  {
    exists a <- rows, s <- rows :: AttainableAt(rows, limits, coverage, a.target.elite, s.target.level)
  }

  ghost predicate AttainableAt(rows: seq<Row>, limits: Limits, coverage: real, e: int, l: int)
    requires IsBranch(rows)
  {
    Room(limits, e, l) && Weight(Covered(rows, Corner(rows, e, l))) / Weight(rows) >= coverage
  }

  /** Exactly when a branch gets a target. */
  lemma FrontierIsNotEmpty(rows: seq<Row>, limits: Limits, coverage: real, frontier: seq<Entry>)
    requires IsBranch(rows) && IsFrontier(rows, limits, coverage, frontier) && forall r <- rows :: Ready(limits, r.target)
    ensures frontier != [] <==> Attainable(rows, limits, coverage)
  {
    hide IsBranch, Apart, AttainableAt, GridOf, Grid.Has, Reaches;
    if frontier != [] {
      assert frontier[0] in frontier;
      AttainedBy(rows, limits, coverage, frontier[0].target);
    }
    if a, s :| a in rows && s in rows && AttainableAt(rows, limits, coverage, a.target.elite, s.target.level) {
      var p := GridPointAt(rows, limits, coverage, a, s);
      assert Dominated(frontier, p);
    }
  }

  lemma AttainedBy(rows: seq<Row>, limits: Limits, coverage: real, p: Target)
    requires IsBranch(rows) && (forall r <- rows :: Ready(limits, r.target)) && GridOf(rows).Has(p) && Reaches(rows, limits, coverage, p)
    ensures Attainable(rows, limits, coverage)
  {
    hide Covered, Weight, GridOf, Grid.Has, Join, Ready;
    GridHas(rows, p);
    var a :| a in rows && a.target.elite == p.elite;
    var s :| s in rows && s.target.level == p.level;
    var corner := Corner(rows, p.elite, p.level);
    JoinIsReady(rows, limits, p);
    CoveredWeightMonotone(rows, corner, p);
    Divide(Weight(Covered(rows, corner)), Weight(Covered(rows, p)), Weight(rows));
    assert AttainableAt(rows, limits, coverage, a.target.elite, s.target.level);
  }

  /** A grid point at that phase and level covers what the corner covers. */
  lemma GridPointAt(rows: seq<Row>, limits: Limits, coverage: real, a: Row, s: Row) returns (p: Target)
    requires IsBranch(rows) && (forall r <- rows :: Ready(limits, r.target)) && a in rows && s in rows
    requires AttainableAt(rows, limits, coverage, a.target.elite, s.target.level)
    ensures GridOf(rows).Has(p) && Reaches(rows, limits, coverage, p)
  {
    hide Weight, GridOf, Grid.Has, Join, Covered;
    var corner := Corner(rows, a.target.elite, s.target.level);
    var covered := Covered(rows, corner);
    forall r ensures r in covered <==> r in rows && Covers(corner, r.target) {
      CoveredHas(rows, corner, r);
    }
    var from := if covered == [] then [a] else covered;
    JoinIsReady(rows, limits, a.target);
    JoinIsReady(from, limits, corner);
    p := Join(from).(elite := a.target.elite, level := s.target.level);
    JoinInGrid(GridOf(rows), from);
    GridHas(rows, Join(from));
    GridHas(rows, p);
    CoveredWeightMonotone(rows, p, corner);
    Divide(Weight(Covered(rows, p)), Weight(covered), Weight(rows));
    assert Join([a]) == a.target by { JoinOfOne(a); }
  }

  lemma JoinOfOne(a: Row)
    ensures Join([a]) == a.target
  {
  }

  /** Exactly when a branch of rows with weight gets a target at every coverage: a row's level suits the phase of the rows' join. */
  lemma AlwaysGetsATarget(rows: seq<Row>, limits: Limits)
    requires IsBranch(rows) && forall r <- rows :: r.weight > 0.0 && Ready(limits, r.target)
    ensures (forall coverage: real, frontier: seq<Entry> :: 0.0 < coverage <= 1.0 && IsFrontier(rows, limits, coverage, frontier) ==> frontier != [])
            <==> exists s <- rows :: Join(rows).level <= s.target.level && Room(limits, Join(rows).elite, s.target.level)
  {
    hide Weight, Covered, IsFrontier, Ready, Room;
    var top := JoinTop(rows);
    if s :| s in rows && Join(rows).level <= s.target.level && Room(limits, Join(rows).elite, s.target.level) {
      CornerOfAll(rows, limits, s);
      forall coverage: real, frontier: seq<Entry> | 0.0 < coverage <= 1.0 && IsFrontier(rows, limits, coverage, frontier) ensures frontier != [] {
        assert AttainableAt(rows, limits, coverage, top.target.elite, s.target.level);
        FrontierIsNotEmpty(rows, limits, coverage, frontier);
      }
    }
    if forall coverage: real, frontier: seq<Entry> :: 0.0 < coverage <= 1.0 && IsFrontier(rows, limits, coverage, frontier) ==> frontier != [] {
      var frontier := FrontierExists(rows, limits, 1.0);
      FrontierIsNotEmpty(rows, limits, 1.0, frontier);
      var a, s :| a in rows && s in rows && AttainableAt(rows, limits, 1.0, a.target.elite, s.target.level);
      CornerCoversAll(rows, limits, a, s);
    }
  }

  lemma CornerOfAll(rows: seq<Row>, limits: Limits, s: Row)
    requires IsBranch(rows) && (forall r <- rows :: Ready(limits, r.target)) && s in rows && Join(rows).level <= s.target.level
    ensures Weight(Covered(rows, Corner(rows, Join(rows).elite, s.target.level))) / Weight(rows) == 1.0
  {
    hide Ready, Weight;
    JoinIsReady(rows, limits, rows[0].target);
    CoversAll(rows, Corner(rows, Join(rows).elite, s.target.level));
    WholeRatio(Weight(rows));
  }

  /** A corner with full coverage covers every row with weight, and so their join. */
  lemma CornerCoversAll(rows: seq<Row>, limits: Limits, a: Row, s: Row)
    requires IsBranch(rows) && (forall r <- rows :: r.weight > 0.0 && Ready(limits, r.target))
    requires a in rows && AttainableAt(rows, limits, 1.0, a.target.elite, s.target.level)
    ensures a.target.elite == Join(rows).elite && Join(rows).level <= s.target.level
  {
    hide Ready, Weight, Covered, Room;
    var corner := Corner(rows, a.target.elite, s.target.level);
    JoinIsReady(rows, limits, rows[0].target);
    JoinIsReady(rows, limits, corner);
    CoversAll(rows, Join(rows));
    WholeRatio(Weight(rows));
    forall r <- rows ensures Covers(corner, r.target) {
      if !Covers(corner, r.target) {
        HeavyRowCounts(rows, r, Join(rows), corner);
        Strictly(Weight(Covered(rows, corner)), Weight(rows), Weight(rows));
      }
    }
  }

  lemma WholeRatio(w: real)
    requires w > 0.0
    ensures w / w == 1.0
  {
  }

  /** A branch of one row keeps a target exactly when that row is feasible. */
  lemma LoneRow(row: Row, limits: Limits, coverage: real, frontier: seq<Entry>)
    requires 0.0 < coverage <= 1.0 && IsBranch([row]) && IsFrontier([row], limits, coverage, frontier)
    ensures frontier != [] <==> Feasible(limits, row.target)
  {
    var rows, t := [row], row.target;
    if Feasible(limits, t) {
      CoversAll(rows, t);
      WholeRatio(Weight(rows));
      assert AttainableAt(rows, limits, coverage, t.elite, t.level);
      FrontierIsNotEmpty(rows, limits, coverage, frontier);
    }
    if frontier != [] {
      var e := frontier[0];
      assert e in frontier;
      GridOfOne(row, e.target);
      assert e.target == t;
    }
  }

  lemma GridOfOne(row: Row, t: Target)
    requires GridOf([row]).Has(t)
    ensures t.elite == row.target.elite && t.level == row.target.level
    ensures t.skillLevel == row.target.skillLevel && t.potential == row.target.potential
  {
    forall field: Field ensures Ascending(Project([row], field)) == [Get(field, row.target)] {
      assert Project([row], field) == [Get(field, row.target)];
    }
  }

  /**
   A lone row whose elite phase suits the module but whose level is below the unlock level gives no
   target, although training that level as well would cover it.
   */
  lemma InfeasibleRowLosesTarget(row: Row, limits: Limits, coverage: real)
    requires 0.0 < coverage <= 1.0 && IsBranch([row]) && limits.unlock.Some?
    requires var t, u := row.target, limits.unlock.value;
             && u.phase <= t.elite < |limits.maxLevel| && 0 <= t.elite && t.level < u.level <= limits.maxLevel[t.elite]
             && t.elite >= NeededElite(t.skill, t.skillLevel)
    ensures !Feasible(limits, row.target)
    ensures Reaches([row], limits, coverage, row.target.(level := limits.unlock.value.level))
  {
    CoversAll([row], row.target.(level := limits.unlock.value.level));
    WholeRatio(Weight([row]));
  }
}
