/**
 The greedy search for an account that goes straight from registration to export, and the split of
 all events over the account groups.
 */
module RapidPath {
  import opened Options
  import opened Accounts
  import opened Links

  const RAPID_PATH_MS := 30 * MINUTE_MS

  ghost predicate TimeSorted(events: seq<Event>) {
    && (forall e <- events :: e.at.Some?)
    && forall i, j :: 0 <= i < j < |events| ==> events[i].at.value <= events[j].at.value
  }

  datatype Path = Path(registeredAt: int, boundAt: int, generatedAt: int, exportedAt: int, durationMs: int)

  predicate Registers(e: Event) { e.kind == Register || e.kind == Activation }

  /** The events within half an hour after t, that instant and the end included. */
  function Window(events: seq<Event>, t: int): (r: seq<Event>)
    ensures forall e :: e in r <==> e in events && e.at.Some? && t <= e.at.value <= t + RAPID_PATH_MS
  {
    Filter(events, (e: Event) => e.at.Some? && t <= e.at.value <= t + RAPID_PATH_MS)
  }

  /** `firstTime` for a known earliest instant: the first event of a kind in list order. */
  function FirstTime(events: seq<Event>, kind: Kind, after: int): Option<int>
    requires forall e <- events :: e.at.Some?
  {
    if events == [] then None
    else if events[0].kind == kind && events[0].at.value >= after then events[0].at
    else FirstTime(events[1..], kind, after)
  }

  ghost predicate Occurs(events: seq<Event>, kind: Kind, t: int) {
    exists e <- events :: e.kind == kind && e.at == Some(t)
  }

  /** On sorted events the first one is the earliest one. */
  lemma {:induction false} FirstIsEarliest(events: seq<Event>, kind: Kind, after: int)
    requires TimeSorted(events)
    ensures var r := FirstTime(events, kind, after);
            && (r.Some? ==> after <= r.value && Occurs(events, kind, r.value))
            && forall t :: Occurs(events, kind, t) && after <= t ==> r.Some? && r.value <= t
  {
    hide Occurs;
    forall t { OccursFirst(events, kind, t); }
    if events != [] {
      assert forall e <- events[1..] :: e in events;
      FirstIsEarliest(events[1..], kind, after);
      assert forall t :: Occurs(events[1..], kind, t) ==> events[0].at.value <= t by { hide FirstTime; OccursAfter(events, kind); }
    }
  }

  lemma OccursFirst(events: seq<Event>, kind: Kind, t: int)
    ensures events == [] ==> !Occurs(events, kind, t)
    ensures events != [] ==> (Occurs(events, kind, t) <==> (events[0].kind == kind && events[0].at == Some(t)) || Occurs(events[1..], kind, t))
  {
    if e :| e in events && e.kind == kind && e.at == Some(t) {
      assert e == events[0] || e in events[1..];
    }
  }

  lemma OccursAfter(events: seq<Event>, kind: Kind)
    requires events != [] && TimeSorted(events)
    ensures forall t :: Occurs(events[1..], kind, t) ==> events[0].at.value <= t
  {
  }

  lemma WindowOccurs(events: seq<Event>, start: int, kind: Kind, t: int)
    ensures Occurs(Window(events, start), kind, t) <==> Occurs(events, kind, t) && start <= t <= start + RAPID_PATH_MS
  {
  }

  lemma {:induction false} FilterSorted(events: seq<Event>, keep: Event -> bool)
    requires TimeSorted(events)
    ensures TimeSorted(Filter(events, keep))
  {
    if events != [] {
      assert TimeSorted(events[1..]) by {
        assert forall e <- events[1..] :: e in events;
      }
      FilterSorted(events[1..], keep);
      LaterIsLater(events);
      PrependSorted(events[0], Filter(events[1..], keep));
    }
  }

  lemma PrependSorted(e: Event, rest: seq<Event>)
    requires TimeSorted(rest) && e.at.Some? && forall x <- rest :: e.at.value <= x.at.value
    ensures TimeSorted([e] + rest)
  {
    assert forall i :: 0 <= i < |rest| ==> rest[i] in rest;
  }

  lemma LaterIsLater(events: seq<Event>)
    requires TimeSorted(events) && events != []
    ensures forall e <- events[1..] :: e.at.Some? && events[0].at.value <= e.at.value
  {
  }

  /** The categories a user looked at beyond the path itself. */
  function Explored(window: seq<Event>): set<Page> {
    set e <- window | e.kind == PageView && e.page.Some? && e.page.value !in {Auth, Profiles, ResultPage} :: e.page.value
  }

  /** A bind, then a generate, then an export, all within the window of the registration. */
  ghost predicate RapidChain(events: seq<Event>, start: int, bound: int, generated: int, exported: int) {
    && start <= bound <= generated <= exported <= start + RAPID_PATH_MS
    && Occurs(events, Bind, bound) && Occurs(events, Generate, generated) && Occurs(events, Export, exported)
  }

  /** Nothing was saved between the registration and the export, and at most one further category was looked at. */
  ghost predicate Straight(events: seq<Event>, start: int, exported: int) {
    && (forall e <- events :: e.kind == WorkspaceSave && e.at.Some? && start <= e.at.value <= start + RAPID_PATH_MS ==> exported <= e.at.value)
    && |Explored(Window(events, start))| < 2
  }

  /** Whether a registration at this instant begins a straight path. */
  ghost predicate Begins(events: seq<Event>, start: int) {
    exists b, g, x :: RapidChain(events, start, b, g, x) && Straight(events, start, x)
  }

  /** The greedy choice: the first bind, the first generate from there, the first export from there. */
  function Greedy(window: seq<Event>, start: int): Option<(int, int, int)>
    requires forall e <- window :: e.at.Some?
  {
    var b := FirstTime(window, Bind, start);
    if b.None? then None
    else
      var g := FirstTime(window, Generate, b.value);
      if g.None? then None
      else
        var x := FirstTime(window, Export, g.value);
        if x.None? then None else Some((b.value, g.value, x.value))
  }

  /** The greedy choice finds a chain whenever there is one, and none has an earlier export. */
  lemma GreedyIsEarliest(events: seq<Event>, start: int)
    requires TimeSorted(events)
    ensures var r := Greedy(Window(events, start), start);
            && (r.Some? ==> RapidChain(events, start, r.value.0, r.value.1, r.value.2))
            && forall b, g, x :: RapidChain(events, start, b, g, x) ==>
                 r.Some? && r.value.0 <= b && r.value.1 <= g && r.value.2 <= x
  {
    hide Occurs, FirstTime;
    var w := Window(events, start);
    FilterSorted(events, (e: Event) => e.at.Some? && start <= e.at.value <= start + RAPID_PATH_MS);
    forall kind, t { WindowOccurs(events, start, kind, t); }
    FirstIsEarliest(w, Bind, start);
    var b1 := FirstTime(w, Bind, start);
    if b1.Some? {
      FirstIsEarliest(w, Generate, b1.value);
      var g1 := FirstTime(w, Generate, b1.value);
      if g1.Some? {
        FirstIsEarliest(w, Export, g1.value);
      }
    }
  }

  /** A straight path exists exactly if the greedy one is straight. */
  lemma GreedyDecides(events: seq<Event>, start: int)
    requires TimeSorted(events)
    ensures var r := Greedy(Window(events, start), start);
            Begins(events, start) <==> r.Some? && Straight(events, start, r.value.2)
  {
    GreedyIsEarliest(events, start);
    if b, g, x :| RapidChain(events, start, b, g, x) && Straight(events, start, x) {
      assert Straight(events, start, Greedy(Window(events, start), start).value.2);
    }
  }

  /** `findRapidPath`: finds a path iff a registration begins one, then takes the first such registration and its earliest export. */
  method FindRapidPath(events: seq<Event>) returns (path: Option<Path>)
    requires TimeSorted(events)
    ensures path.Some? <==> exists r <- events :: Registers(r) && Begins(events, r.at.value)
    ensures path.Some? ==>
              var p := path.value;
              && RapidChain(events, p.registeredAt, p.boundAt, p.generatedAt, p.exportedAt)
              && Straight(events, p.registeredAt, p.exportedAt)
              && p.durationMs == p.exportedAt - p.registeredAt
              && (exists r <- events :: Registers(r) && r.at == Some(p.registeredAt))
              && (forall r <- events :: Registers(r) && Begins(events, r.at.value) ==> p.registeredAt <= r.at.value)
              && (forall b, g, x :: RapidChain(events, p.registeredAt, b, g, x) ==> p.exportedAt <= x)
  {
    hide Begins, Straight, RapidChain, Greedy, Explored;
    for i := 0 to |events|
      invariant forall k :: 0 <= k < i && Registers(events[k]) ==> !Begins(events, events[k].at.value)
    {
      if Registers(events[i]) {
        var found := TryRegistration(events, i);
        if found.Some? {
          return found;
        }
      }
    }
    return None;
  }

  /** One registration of the loop. */
  method TryRegistration(events: seq<Event>, i: nat) returns (path: Option<Path>)
    requires TimeSorted(events) && i < |events|
    ensures path.Some? <==> Begins(events, events[i].at.value)
    ensures path.Some? ==>
              var p := path.value;
              && events[i].at == Some(p.registeredAt)
              && RapidChain(events, p.registeredAt, p.boundAt, p.generatedAt, p.exportedAt)
              && Straight(events, p.registeredAt, p.exportedAt)
              && p.durationMs == p.exportedAt - p.registeredAt
              && (forall b, g, x :: RapidChain(events, p.registeredAt, b, g, x) ==> p.exportedAt <= x)
  {
    hide Begins, RapidChain, Greedy, Explored;
    var start := events[i].at.value;
    var window := Window(events, start);
    GreedyDecides(events, start);
    GreedyIsEarliest(events, start);
    var chain := Greedy(window, start);
    if chain.None? {
      return None;
    }
    var (bound, generated, exported) := chain.value;
    var adjusted := exists e <- window :: e.kind == WorkspaceSave && e.at.value < exported;
    var explored := |Explored(window)| >= 2;
    assert adjusted || explored <==> !Straight(events, start, exported);
    if adjusted || explored {
      return None;
    }
    return Some(Path(start, bound, generated, exported, exported - start));
  }

  // The whole evaluation, up to the rules applied to each group.

  function Insert(e: Event, sorted: seq<Event>): (r: seq<Event>)
    requires e.at.Some? && forall x <- sorted :: x.at.Some?
    ensures multiset(r) == multiset{e} + multiset(sorted)
    ensures forall x :: x in r <==> x == e || x in sorted
  {
    var n := |sorted| - 1;
    if sorted == [] || sorted[n].at.value <= e.at.value then sorted + [e]
    else
      assert sorted == sorted[..n] + [sorted[n]];
      Insert(e, sorted[..n]) + [sorted[n]]
  }

  lemma {:induction false} InsertSorts(e: Event, sorted: seq<Event>)
    requires e.at.Some? && TimeSorted(sorted)
    ensures TimeSorted(Insert(e, sorted))
  {
    var n := |sorted| - 1;
    if sorted == [] || sorted[n].at.value <= e.at.value {
    } else {
      var front := sorted[..n];
      InsertSorts(e, front);
      var r := Insert(e, front);
      forall i | 0 <= i < |r| ensures r[i].at.value <= sorted[n].at.value {
        assert r[i] in r;
      }
    }
  }

  /** The stable sort by time. */
  function ByTime(events: seq<Event>): (r: seq<Event>)
    requires forall e <- events :: e.at.Some?
    ensures multiset(r) == multiset(events)
    ensures forall x :: x in r <==> x in events
    ensures |r| == |events|
  {
    if events == [] then []
    else
      var n := |events| - 1;
      assert events == events[..n] + [events[n]];
      var r := Insert(events[n], ByTime(events[..n]));
      assert |multiset(r)| == |r|;
      r
  }

  lemma {:induction false} ByTimeSorts(events: seq<Event>)
    requires forall e <- events :: e.at.Some?
    ensures TimeSorted(ByTime(events))
  {
    if events != [] {
      ByTimeSorts(events[..|events| - 1]);
      InsertSorts(events[|events| - 1], ByTime(events[..|events| - 1]));
    }
  }

  function OfUsers(events: seq<Event>, users: seq<string>): (r: seq<Event>)
    ensures forall e :: e in r <==> e in events && e.user.Some? && e.user.value in users
  {
    Filter(events, (e: Event) => e.user.Some? && e.user.value in users)
  }

  /** The event with its uid replaced by its representative. */
  function Canonical(e: Event, uid: Option<string>): Event { e.(uid := e.uid.(primary := uid)) }

  function Canonicals(events: seq<Event>, uids: seq<Option<string>>): (r: seq<Event>)
    requires |uids| == |events|
    ensures |r| == |events| && forall i :: 0 <= i < |r| ==> r[i] == Canonical(events[i], uids[i])
  {
    seq(|events|, i requires 0 <= i < |events| => Canonical(events[i], uids[i]))
  }

  /** Only the uids differ, a uid is None where there was none, and two are equal iff the original ones are linked. */
  ghost predicate UidsReplaced(before: seq<Event>, after: seq<Event>) {
    && |after| == |before|
    && (forall i :: 0 <= i < |after| ==> after[i] == Canonical(before[i], after[i].uid.primary))
    && (forall i :: 0 <= i < |after| ==> (after[i].uid.primary.Some? <==> HasUid(before[i])))
    && (forall i, j :: 0 <= i < |after| && 0 <= j < |after| && HasUid(before[i]) && HasUid(before[j]) ==>
          (after[i].uid.primary == after[j].uid.primary <==>
           Linked(AliasGroups(before), before[i].uid.primary.value, before[j].uid.primary.value)))
  }

  /** g is the one part that holds the event. */
  ghost predicate OnlyIn(parts: seq<seq<Event>>, e: Event, g: nat) {
    g < |parts| && e in parts[g] && forall h :: 0 <= h < |parts| && e in parts[h] ==> h == g
  }

  /** `evaluateBehaviorRiskEvents`: the events each group's rules see; each identified event is seen by exactly one group. */
  method Evaluate(input: seq<Event>, now: int) returns (events: seq<Event>, groups: seq<seq<string>>, parts: seq<seq<Event>>)
    ensures UidsReplaced(ByTime(Filter(input, Identified)), events) && |parts| == |groups|
    ensures Groups(Users(events), groups)
    ensures forall i, j, u, v :: 0 <= i < |groups| && 0 <= j < |groups| && u in groups[i] && v in groups[j] ==>
              (i == j <==> Associated(Within(events, now, ASSOCIATION_MS), u, v))
    ensures forall g :: 0 <= g < |groups| ==> parts[g] != [] && TimeSorted(parts[g])
    ensures forall g :: 0 <= g < |groups| ==> forall e <- parts[g] :: e in events && e.user.Some? && e.user.value in groups[g]
    ensures forall e <- events :: exists g :: OnlyIn(parts, e, g)
  {
    hide Associated, Within, ByTime, Identified, Groups, Users, Canonical, Filter, OnlyIn, UidsReplaced;
    events := Canonicalised(input);
    groups := BuildAssociatedAccountGroups(events, now);
    parts := seq(|groups|, i requires 0 <= i < |groups| => OfUsers(events, groups[i]));
    ghost var recent := Within(events, now, ASSOCIATION_MS);
    EachGroupSees(events, groups, parts);
    forall e <- events ensures exists g :: OnlyIn(parts, e, g) {
      EachEventOnce(events, groups, parts, recent, e);
    }
  }

  /** The identified events in time order, each uid replaced by its representative. */
  method Canonicalised(input: seq<Event>) returns (events: seq<Event>)
    ensures UidsReplaced(ByTime(Filter(input, Identified)), events)
    ensures TimeSorted(events) && forall e <- events :: e.user.Some?
  {
    hide ByTime, Identified, Linked;
    var kept := Filter(input, Identified);
    assert forall e <- kept :: e.user.Some? && e.at.Some? by { IdentifiedHas(kept); }
    var sorted := ByTime(kept);
    ByTimeSorts(kept);
    var uids := NormalizeUidAliases(sorted);
    events := Canonicals(sorted, uids);
    assert forall i :: 0 <= i < |events| ==> sorted[i] in sorted;
  }

  lemma IdentifiedHas(events: seq<Event>)
    requires forall e <- events :: Identified(e)
    ensures forall e <- events :: e.user.Some? && e.at.Some?
  {
  }

  lemma EachGroupSees(events: seq<Event>, groups: seq<seq<string>>, parts: seq<seq<Event>>)
    requires Groups(Users(events), groups) && |parts| == |groups|
    requires forall i :: 0 <= i < |groups| ==> parts[i] == OfUsers(events, groups[i])
    requires TimeSorted(events)
    ensures forall g :: 0 <= g < |groups| ==> parts[g] != [] && TimeSorted(parts[g])
    ensures forall g :: 0 <= g < |groups| ==> forall e <- parts[g] :: e in events && e.user.Some? && e.user.value in groups[g]
  {
    forall g | 0 <= g < |groups| ensures parts[g] != [] && TimeSorted(parts[g]) {
      FilterSorted(events, (e: Event) => e.user.Some? && e.user.value in groups[g]);
      assert groups[g] in groups && groups[g][0] in groups[g];
      assert groups[g][0] in Users(events);
      var e :| e in events && e.user == Some(groups[g][0]);
      assert e in parts[g];
    }
  }

  lemma EachEventOnce(events: seq<Event>, groups: seq<seq<string>>, parts: seq<seq<Event>>, recent: seq<Event>, e: Event)
    requires Groups(Users(events), groups) && |parts| == |groups|
    requires forall i :: 0 <= i < |groups| ==> parts[i] == OfUsers(events, groups[i])
    requires e in events && e.user.Some?
    requires forall i, j, u, v :: 0 <= i < |groups| && 0 <= j < |groups| && u in groups[i] && v in groups[j] ==>
               (i == j <==> Associated(recent, u, v))
    ensures exists g :: OnlyIn(parts, e, g)
  {
    hide Associated;
    var u := e.user.value;
    assert u in Users(events);
    var group :| group in groups && u in group;
    var g :| 0 <= g < |groups| && groups[g] == group;
    AssociatedReflexive(recent, u);
    assert e in OfUsers(events, groups[g]);
    forall h | 0 <= h < |parts| && e in parts[h] ensures h == g {
      assert u in groups[h];
    }
    assert OnlyIn(parts, e, g);
  }

  lemma AssociatedReflexive(events: seq<Event>, u: string)
    ensures Associated(events, u, u)
  {
    assert CohortChain(events, [u]);
  }
}
