/**
 Behaviour-risk events, the signals they carry, and what groups accounts and uids together:
 alias canonicalisation and associated account groups, both by union-find.
 */
module Accounts {
  import opened Options
  import opened Links
  import opened UnionFind

  datatype Kind = Register | Activation | Login | Bind | JobSubmit | Generate | Export | WorkspaceSave | PageView
                | SklandUidMismatch | OperatorDataAnomaly | AccountDeleted

  datatype Page = Landing | Auth | Profiles | Workspace | Optimizer | ResultPage | Account | PublicInfo | Other

  /** A keyed hash of one kind, and the older hashes that stand for the same thing. */
  datatype Signal = Signal(primary: Option<string>, aliases: seq<string>)

  datatype Event = Event(id: string, kind: Kind, user: Option<string>, browser: Signal, network: Signal, ua: Signal,
                         uid: Signal, page: Option<Page>, at: Option<int>)

  const MINUTE_MS := 60 * 1000
  const DAY_MS := 24 * 60 * MINUTE_MS
  const ASSOCIATION_MS := 7 * DAY_MS
  const MULTI_IDENTITY_THRESHOLD := 3

  /** Keeps the first of each element. */
  function Distinct<T(==,!new)>(s: seq<T>): (r: seq<T>)
    ensures forall x :: x in r <==> x in s
    ensures forall i, j :: 0 <= i < j < |r| ==> r[i] != r[j]
  {
    if s == [] then []
    else
      var front, last := Distinct(s[..|s| - 1]), s[|s| - 1];
      if last in front then front else front + [last]
  }

  function NonEmpty(values: seq<string>): (r: seq<string>)
    ensures forall v :: v in r <==> v in values && v != ""
  {
    if values == [] then [] else (if values[0] == "" then [] else [values[0]]) + NonEmpty(values[1..])
  }

  /** `signalValues`: the distinct non-empty values, the primary one first. */
  function Values(s: Signal): seq<string> {
    Distinct(NonEmpty((if s.primary.Some? then [s.primary.value] else []) + s.aliases))
  }

  datatype Key = Browser(hmac: string) | NetworkUa(network: string, ua: string)

  function PairRow(network: string, uas: seq<string>): (r: seq<Key>)
    ensures forall k :: k in r <==> k.NetworkUa? && k.network == network && k.ua in uas
  {
    if uas == [] then [] else [NetworkUa(network, uas[0])] + PairRow(network, uas[1..])
  }

  function Pairs(networks: seq<string>, uas: seq<string>): (r: seq<Key>)
    ensures forall k :: k in r <==> k.NetworkUa? && k.network in networks && k.ua in uas
  {
    if networks == [] then [] else PairRow(networks[0], uas) + Pairs(networks[1..], uas)
  }

  function Browsers(values: seq<string>): (r: seq<Key>)
    ensures forall k :: k in r <==> k.Browser? && k.hmac in values
  {
    if values == [] then [] else [Browser(values[0])] + Browsers(values[1..])
  }

  /** `environmentSignals`: the browser, and each pair of network and user agent. */
  function Signals(e: Event): seq<Key> {
    Distinct(Browsers(Values(e.browser)) + Pairs(Values(e.network), Values(e.ua)))
  }

  /** The signal stands for this value, by its present hash or an older one. */
  predicate Carries(s: Signal, v: string) { v != "" && (s.primary == Some(v) || v in s.aliases) }

  /** What an event is known by: each of its browsers, and each of its networks with each of its user agents. */
  lemma SignalsAre(e: Event, k: Key)
    ensures k in Signals(e) <==>
            match k
            case Browser(hmac) => Carries(e.browser, hmac)
            case NetworkUa(network, ua) => Carries(e.network, network) && Carries(e.ua, ua)
  {
    hide Distinct, NonEmpty, Pairs, Browsers;
    forall s: Signal, v: string ensures v in Values(s) <==> Carries(s, v) {
    }
  }

  predicate Identified(e: Event) { e.user.Some? && e.user.value != "" && e.at.Some? }

  function Filter(events: seq<Event>, keep: Event -> bool): (r: seq<Event>)
    ensures forall e :: e in r <==> e in events && keep(e)
  {
    if events == [] then [] else (if keep(events[0]) then [events[0]] else []) + Filter(events[1..], keep)
  }

  /** `within`: the events not older than the window. */
  function Within(events: seq<Event>, now: int, window: int): seq<Event> {
    Filter(events, (e: Event) => e.at.Some? && e.at.value >= now - window)
  }

  function Users(events: seq<Event>): (r: seq<string>)
    ensures forall u :: u in r <==> exists e <- events :: e.user == Some(u)
  {
    if events == [] then [] else (if events[0].user.Some? then [events[0].user.value] else []) + Users(events[1..])
  }

  // Alias canonicalisation.

  ghost function AliasGroups(events: seq<Event>): (r: seq<seq<string>>)
    ensures |r| == |events|
  {
    seq(|events|, i requires 0 <= i < |events| => Values(events[i].uid))
  }

  ghost predicate Roots(t: Tree, edges: seq<Edge>) {
    Acyclic(t) && forall u, v :: Root(t, u) == Root(t, v) <==> Joined(edges, u, v)
  }

  /** Hanging the root of a under the root of b adds the edge between a and b. */
  lemma LinkAddsEdge(t: Tree, t': Tree, edges: seq<Edge>, a: string, b: string)
    requires Roots(t, edges) && Acyclic(t')
    requires forall u :: Root(t', u) == if Root(t, u) == Root(t, a) then Root(t, b) else Root(t, u)
    ensures Roots(t', edges + [(a, b)])
  {
    hide Acyclic, Root;
    var more := edges + [(a, b)];
    assert more[..|more| - 1] == edges;
    forall u ensures Rep(more, u) == if Joined(edges, u, a) then Rep(edges, b) else Rep(edges, u) {
    }
    forall u, v ensures Root(t', u) == Root(t', v) <==> Joined(more, u, v) {
      assert Root(t, u) == Root(t, a) <==> Joined(edges, u, a);
      assert Root(t, v) == Root(t, a) <==> Joined(edges, v, a);
      assert Root(t, u) == Root(t, b) <==> Joined(edges, u, b);
      assert Root(t, v) == Root(t, b) <==> Joined(edges, v, b);
      assert Root(t, u) == Root(t, v) <==> Joined(edges, u, v);
    }
  }

  /** Joins every value of one event to its first value. */
  method UnifyValues(forest: Forest, values: seq<string>, ghost edges: seq<Edge>)
    requires forest.Valid() && Roots(forest.View(), edges)
    modifies forest
    ensures forest.Valid() && Roots(forest.View(), edges + Star(values))
  {
    hide Acyclic, Rep, Root;
    assert edges + Star(values)[..0] == edges;
    for j := 0 to |values|
      invariant forest.Valid() && Roots(forest.View(), edges + Star(values)[..j])
    {
      var root := forest.Find(values[j]);
      var first := forest.Find(values[0]);
      ghost var t := forest.View();
      forest.Link(root, first);
      LinkAddsEdge(t, forest.View(), edges + Star(values)[..j], values[j], values[0]);
      assert edges + Star(values)[..j + 1] == edges + Star(values)[..j] + [(values[j], values[0])];
    }
    assert Star(values)[..|values|] == Star(values);
  }

  /** `normalizeUidAliases`: the representative of each event's uid, None where it has none. */
  method NormalizeUidAliases(events: seq<Event>) returns (uids: seq<Option<string>>)
    ensures |uids| == |events|
    ensures forall i :: 0 <= i < |events| ==> (uids[i].Some? <==> HasUid(events[i]))
    ensures forall i :: 0 <= i < |events| && HasUid(events[i]) ==>
              Linked(AliasGroups(events), events[i].uid.primary.value, uids[i].value)
    ensures forall i, j :: 0 <= i < |events| && 0 <= j < |events| && HasUid(events[i]) && HasUid(events[j]) ==>
              (uids[i] == uids[j] <==> Linked(AliasGroups(events), events[i].uid.primary.value, events[j].uid.primary.value))
  {
    hide Acyclic, Rep, Root, Linked, Stars, Values;
    var forest := new Forest(map[]);
    ghost var groups := AliasGroups(events);
    EmptyRoots(forest.View());
    assert Stars(groups[..0]) == [] by { NoStars(groups); }
    for i := 0 to |events|
      invariant forest.Valid() && fresh(forest) && Roots(forest.View(), Stars(groups[..i]))
    {
      UnifyValues(forest, Values(events[i].uid), Stars(groups[..i]));
      StarsPlus(groups, i);
    }
    assert groups[..|events|] == groups;
    ghost var t := forest.View();
    uids := [];
    for i := 0 to |events|
      invariant forest.Valid() && fresh(forest) && |uids| == i
      invariant forall u :: Root(forest.View(), u) == Root(t, u)
      invariant forall k :: 0 <= k < i ==>
                  uids[k] == if HasUid(events[k]) then Some(Root(t, events[k].uid.primary.value)) else None
    {
      var uid := events[i].uid.primary;
      if uid.Some? && uid.value != "" {
        var root := forest.Find(uid.value);
        uids := uids + [Some(root)];
      } else {
        uids := uids + [None];
      }
    }
    RootsAreLinked(t, groups);
  }

  predicate HasUid(e: Event) { e.uid.primary.Some? && e.uid.primary.value != "" }

  lemma EmptyRoots(t: Tree)
    requires Acyclic(t) && forall u :: Root(t, u) == u
    ensures Roots(t, [])
  {
  }

  lemma NoStars(groups: seq<seq<string>>)
    ensures Stars(groups[..0]) == []
  {
  }

  lemma StarsPlus(groups: seq<seq<string>>, i: nat)
    requires i < |groups|
    ensures Stars(groups[..i + 1]) == Stars(groups[..i]) + Star(groups[i])
  {
    assert groups[..i + 1][..i] == groups[..i];
  }

  lemma RootsAreLinked(t: Tree, groups: seq<seq<string>>)
    requires Roots(t, Stars(groups))
    ensures forall u, v :: Root(t, u) == Root(t, v) <==> Linked(groups, u, v)
    ensures forall u :: Linked(groups, u, Root(t, u))
  {
    hide Acyclic, Linked, Stars;
    forall u, v ensures Root(t, u) == Root(t, v) <==> Linked(groups, u, v) {
      StarsLink(groups, u, v);
    }
    forall u ensures Linked(groups, u, Root(t, u)) {
      assert Root(t, Root(t, u)) == Root(t, u);
    }
  }

  // Associated account groups.

  /** The events that carry a signal. */
  function Carriers(events: seq<Event>, k: Key): (r: seq<Event>)
    ensures forall e :: e in r <==> e in events && k in Signals(e)
  {
    if events == [] then []
    else
      var front, last := Carriers(events[..|events| - 1], k), events[|events| - 1];
      if k in Signals(last) then front + [last] else front
  }

  /** `environmentCohorts`: the signals in the order they first appear, and the events that carry each. */
  method EnvironmentCohorts(events: seq<Event>) returns (keys: seq<Key>, cohorts: map<Key, seq<Event>>)
    ensures CohortsOf(events, keys, cohorts)
  {
    hide Signals;
    keys, cohorts := [], map[];
    for i := 0 to |events|
      invariant CohortsOf(events[..i], keys, cohorts)
    {
      keys, cohorts := AddSignals(events, i, keys, cohorts);
    }
    assert events[..|events|] == events;
  }

  /** The cohorts of these events: each signal that occurs, with its carriers. */
  ghost predicate CohortsOf(events: seq<Event>, keys: seq<Key>, cohorts: map<Key, seq<Event>>) {
    && (forall k :: k in keys <==> k in cohorts)
    && (forall i, j :: 0 <= i < j < |keys| ==> keys[i] != keys[j])
    && (forall k :: CohortOf(cohorts, k) == Carriers(events, k))
    && (forall k <- cohorts :: cohorts[k] != [])
  }

  ghost function CohortOf(cohorts: map<Key, seq<Event>>, k: Key): seq<Event> {
    if k in cohorts then cohorts[k] else []
  }

  /** One event joins the cohorts of all its signals. */
  method AddSignals(events: seq<Event>, i: nat, keys0: seq<Key>, cohorts0: map<Key, seq<Event>>)
    returns (keys: seq<Key>, cohorts: map<Key, seq<Event>>)
    requires i < |events| && CohortsOf(events[..i], keys0, cohorts0)
    ensures CohortsOf(events[..i + 1], keys, cohorts)
  {
    hide Signals, Carriers;
    keys, cohorts := keys0, cohorts0;
    var e := events[i];
    var signals := Signals(e);
    SignalsDistinct(e);
    for j := 0 to |signals|
      invariant forall k :: k in keys <==> k in cohorts
      invariant forall a, b :: 0 <= a < b < |keys| ==> keys[a] != keys[b]
      invariant forall k :: CohortOf(cohorts, k) == if k in signals[..j] then CohortOf(cohorts0, k) + [e] else CohortOf(cohorts0, k)
      invariant forall k <- cohorts :: cohorts[k] != []
    {
      var k := signals[j];
      if k !in cohorts {
        keys := keys + [k];
      }
      cohorts := cohorts[k := (if k in cohorts then cohorts[k] else []) + [e]];
    }
    assert signals[..|signals|] == signals;
    forall k { CarriersPlus(events, i, k); }
  }

  lemma CarriersPlus(events: seq<Event>, i: nat, k: Key)
    requires i < |events|
    ensures Carriers(events[..i + 1], k) == if k in Signals(events[i]) then Carriers(events[..i], k) + [events[i]] else Carriers(events[..i], k)
  {
    assert events[..i + 1][..i] == events[..i];
  }

  lemma SignalsDistinct(e: Event)
    ensures forall i, j :: 0 <= i < j < |Signals(e)| ==> Signals(e)[i] != Signals(e)[j]
  {
  }

  /** The users whose events carry a signal. */
  ghost function CohortUsers(events: seq<Event>, k: Key): set<string> {
    set e <- events | k in Signals(e) && e.user.Some? :: e.user.value
  }

  ghost predicate ShareCohort(events: seq<Event>, u: string, v: string) {
    exists k :: |CohortUsers(events, k)| >= MULTI_IDENTITY_THRESHOLD && u in CohortUsers(events, k) && v in CohortUsers(events, k)
  }

  /** u and v are connected by accounts that pairwise share a cohort of at least three users. */
  ghost predicate Associated(events: seq<Event>, u: string, v: string) {
    exists p: seq<string> :: p != [] && p[0] == u && p[|p| - 1] == v && CohortChain(events, p)
  }

  ghost predicate CohortChain(events: seq<Event>, p: seq<string>) {
    forall i :: 0 <= i < |p| - 1 ==> ShareCohort(events, p[i], p[i + 1])
  }

  /** Association does not depend on the order of the events, nor on repetitions. */
  lemma AssociationIgnoresOrder(a: seq<Event>, b: seq<Event>, u: string, v: string)
    requires forall e :: e in a <==> e in b
    ensures Associated(a, u, v) <==> Associated(b, u, v)
  {
    hide Signals;
    forall k ensures CohortUsers(a, k) == CohortUsers(b, k) {
    }
    forall x, y ensures ShareCohort(a, x, y) <==> ShareCohort(b, x, y) {
    }
    if p :| p != [] && p[0] == u && p[|p| - 1] == v && CohortChain(a, p) {
      assert CohortChain(b, p);
    }
    if p :| p != [] && p[0] == u && p[|p| - 1] == v && CohortChain(b, p) {
      assert CohortChain(a, p);
    }
  }

  lemma {:induction false} DistinctSize<T(!new)>(s: seq<T>)
    ensures |Distinct(s)| == |set x | x in s|
  {
    if s != [] {
      var front, last := s[..|s| - 1], s[|s| - 1];
      DistinctSize(front);
      assert (set x | x in s) == (set x | x in front) + {last};
    }
  }

  lemma MembersOfCohort(events: seq<Event>, k: Key)
    ensures var members := Distinct(Users(Carriers(events, k)));
            (forall u :: u in members <==> u in CohortUsers(events, k)) && |members| == |CohortUsers(events, k)|
  {
    hide Signals;
    var users := Users(Carriers(events, k));
    DistinctSize(users);
    assert (set u | u in users) == CohortUsers(events, k) by {
      forall u ensures u in users <==> u in CohortUsers(events, k) {
        if u in users {
          var e :| e in Carriers(events, k) && e.user == Some(u);
        }
        if u in CohortUsers(events, k) {
          var e :| e in events && k in Signals(e) && e.user.Some? && e.user.value == u;
          assert e in Carriers(events, k);
        }
      }
    }
  }

  ghost predicate Large(events: seq<Event>, k: Key) { |CohortUsers(events, k)| >= MULTI_IDENTITY_THRESHOLD }

  /** g lists the users of the cohort k, which is large enough. */
  ghost predicate Lists(events: seq<Event>, k: Key, g: seq<string>) {
    Large(events, k) && forall u :: u in g <==> u in CohortUsers(events, k)
  }

  /** The member lists of the cohorts with at least three users. */
  ghost predicate Qualifying(events: seq<Event>, groups: seq<seq<string>>) {
    && (forall g <- groups :: exists k :: Lists(events, k, g))
    && (forall k :: Large(events, k) ==> exists g <- groups :: Lists(events, k, g))
  }

  lemma SharedIsCohort(events: seq<Event>, groups: seq<seq<string>>, x: string, y: string)
    requires Qualifying(events, groups)
    ensures Share(groups, x, y) <==> ShareCohort(events, x, y)
  {
    hide CohortUsers;
    if g :| g in groups && x in g && y in g {
      var k :| Lists(events, k, g);
      assert x in CohortUsers(events, k) && y in CohortUsers(events, k);
    }
    if k :| Large(events, k) && x in CohortUsers(events, k) && y in CohortUsers(events, k) {
      var g :| g in groups && Lists(events, k, g);
      assert x in g && y in g;
    }
  }

  lemma LinkedIsAssociated(events: seq<Event>, groups: seq<seq<string>>, u: string, v: string)
    requires Qualifying(events, groups)
    ensures Linked(groups, u, v) <==> Associated(events, u, v)
  {
    hide CohortUsers, Share, ShareCohort, Qualifying;
    forall x, y ensures Share(groups, x, y) <==> ShareCohort(events, x, y) {
      SharedIsCohort(events, groups, x, y);
    }
    if p :| Chain(groups, p) && p[0] == u && p[|p| - 1] == v {
      assert CohortChain(events, p);
    }
    if p :| p != [] && p[0] == u && p[|p| - 1] == v && CohortChain(events, p) {
      assert Chain(groups, p);
    }
  }

  /** Joins every further member of a cohort to its first one, unless they are joined already. */
  method UniteMembers(forest: Forest, members: seq<string>, ghost edges: seq<Edge>)
    requires forest.Valid() && Roots(forest.View(), edges)
    modifies forest
    ensures forest.Valid() && Roots(forest.View(), edges + Star(members))
  {
    hide Acyclic, Rep, Root;
    assert edges + Star(members)[..0] == edges;
    for j := 0 to |members|
      invariant forest.Valid() && Roots(forest.View(), edges + Star(members)[..j])
    {
      ghost var so_far := edges + Star(members)[..j];
      var left := forest.Find(members[0]);
      var right := forest.Find(members[j]);
      ghost var t := forest.View();
      if left != right {
        forest.Link(right, left);
      }
      LinkAddsEdge(t, forest.View(), so_far, members[j], members[0]);
      assert edges + Star(members)[..j + 1] == so_far + [(members[j], members[0])];
    }
    assert Star(members)[..|members|] == Star(members);
  }

  /** Each qualifying key so far has its member list, and only those. */
  ghost predicate QualifyingSoFar(events: seq<Event>, keys: seq<Key>, groups: seq<seq<string>>) {
    && (forall g <- groups :: exists k :: Lists(events, k, g))
    && (forall k <- keys :: Large(events, k) ==> exists g <- groups :: Lists(events, k, g))
  }

  lemma QualifyingMore(events: seq<Event>, keys: seq<Key>, groups: seq<seq<string>>, k: Key, g: seq<string>)
    requires QualifyingSoFar(events, keys, groups) && (Large(events, k) ==> Lists(events, k, g))
    ensures QualifyingSoFar(events, keys + [k], if Large(events, k) then groups + [g] else groups)
  {
    hide Large, Lists;
    var more := if Large(events, k) then groups + [g] else groups;
    forall x <- keys + [k] | Large(events, x) ensures exists h <- more :: Lists(events, x, h) {
      if x in keys {
        var h :| h in groups && Lists(events, x, h);
        assert h in more;
      } else {
        assert g in more;
      }
    }
  }

  lemma AllKeysQualify(events: seq<Event>, keys: seq<Key>, groups: seq<seq<string>>)
    requires QualifyingSoFar(events, keys, groups)
    requires forall k :: Carriers(events, k) != [] ==> k in keys
    ensures Qualifying(events, groups)
  {
    hide Carriers, Signals;
    forall k | Large(events, k) ensures k in keys {
      var u :| u in CohortUsers(events, k);
      var e :| e in events && k in Signals(e) && e.user.Some? && e.user.value == u;
      assert e in Carriers(events, k);
    }
  }

  /** Unites the users of one cohort if it has enough of them. */
  method UniteCohort(forest: Forest, events: seq<Event>, ghost keys: seq<Key>, ghost k: Key, cohort: seq<Event>, ghost groups: seq<seq<string>>)
    returns (ghost groups': seq<seq<string>>)
    requires forest.Valid() && Roots(forest.View(), Stars(groups))
    requires QualifyingSoFar(events, keys, groups) && cohort == Carriers(events, k)
    modifies forest
    ensures forest.Valid() && Roots(forest.View(), Stars(groups'))
    ensures QualifyingSoFar(events, keys + [k], groups')
  {
    hide Acyclic, Root, Stars, Signals, Carriers, CohortUsers, QualifyingSoFar, Roots;
    var members := Distinct(Users(cohort));
    MembersOfCohort(events, k);
    QualifyingMore(events, keys, groups, k, members);
    groups' := if Large(events, k) then groups + [members] else groups;
    if |members| >= MULTI_IDENTITY_THRESHOLD {
      UniteMembers(forest, members, Stars(groups));
      StarsPlus(groups', |groups|);
      assert groups'[..|groups|] == groups && groups'[..|groups| + 1] == groups';
    }
  }

  /** Unites the users of every cohort that has enough of them. */
  method UniteCohorts(forest: Forest, events: seq<Event>)
    requires forest.Valid() && Roots(forest.View(), [])
    modifies forest
    ensures forest.Valid() && forall u, v :: Root(forest.View(), u) == Root(forest.View(), v) <==> Associated(events, u, v)
  {
    hide Acyclic, Root, Linked, Stars, Signals, Carriers, CohortUsers, QualifyingSoFar, Associated, Qualifying, Roots;
    var keys, cohorts := EnvironmentCohorts(events);
    ghost var groups: seq<seq<string>> := [];
    assert Stars(groups) == [] by { NoStars(groups); }
    assert QualifyingSoFar(events, keys[..0], groups) by { NothingQualifies(events, keys[..0], groups); }
    for i := 0 to |keys|
      invariant forest.Valid() && Roots(forest.View(), Stars(groups))
      invariant QualifyingSoFar(events, keys[..i], groups)
    {
      assert CohortOf(cohorts, keys[i]) == Carriers(events, keys[i]);
      groups := UniteCohort(forest, events, keys[..i], keys[i], cohorts[keys[i]], groups);
      assert keys[..i] + [keys[i]] == keys[..i + 1];
    }
    assert keys[..|keys|] == keys;
    forall k | Carriers(events, k) != [] ensures k in keys {
      assert CohortOf(cohorts, k) == Carriers(events, k);
    }
    AllKeysQualify(events, keys, groups);
    ghost var t := forest.View();
    RootsAreLinked(t, groups);
    forall u, v ensures Root(t, u) == Root(t, v) <==> Associated(events, u, v) {
      LinkedIsAssociated(events, groups, u, v);
    }
  }

  lemma NothingQualifies(events: seq<Event>, keys: seq<Key>, groups: seq<seq<string>>)
    requires keys == [] && groups == []
    ensures QualifyingSoFar(events, keys, groups)
  {
  }

  /** The users whose root is r. */
  ghost function Rooted(t: Tree, users: seq<string>, r: string): (g: seq<string>)
    requires Acyclic(t)
    ensures forall u :: u in g <==> u in users && Root(t, u) == r
  {
    if users == [] then []
    else
      var front, last := Rooted(t, users[..|users| - 1], r), users[|users| - 1];
      if Root(t, last) == r then front + [last] else front
  }

  lemma {:induction false} RootedDistinct(t: Tree, users: seq<string>, r: string)
    requires Acyclic(t) && forall i, j :: 0 <= i < j < |users| ==> users[i] != users[j]
    ensures forall a, b :: 0 <= a < b < |Rooted(t, users, r)| ==> Rooted(t, users, r)[a] != Rooted(t, users, r)[b]
  {
    hide Acyclic, Root;
    if users != [] {
      RootedDistinct(t, users[..|users| - 1], r);
    }
  }

  lemma RootedPlus(t: Tree, users: seq<string>, i: nat, r: string)
    requires Acyclic(t) && i < |users|
    ensures Rooted(t, users[..i + 1], r) == Rooted(t, users[..i], r) + if Root(t, users[i]) == r then [users[i]] else []
  {
    hide Acyclic, Root;
    assert users[..i + 1][..i] == users[..i];
  }

  /** The users of each root met so far, in the order the roots were met. */
  ghost predicate GroupedByRoot(t: Tree, users: seq<string>, order: seq<string>, grouped: map<string, seq<string>>)
    requires Acyclic(t)
  {
    InOrder(order, grouped) && Grouped(t, users, grouped)
  }

  ghost predicate InOrder(order: seq<string>, grouped: map<string, seq<string>>) {
    (forall r :: r in order <==> r in grouped) && (forall i, j :: 0 <= i < j < |order| ==> order[i] != order[j])
  }

  ghost predicate Grouped(t: Tree, users: seq<string>, grouped: map<string, seq<string>>)
    requires Acyclic(t)
  {
    (forall r :: (if r in grouped then grouped[r] else []) == Rooted(t, users, r)) && (forall r <- grouped :: grouped[r] != [])
  }

  lemma OrderPlus(order: seq<string>, grouped: map<string, seq<string>>, root: string, group: seq<string>)
    requires InOrder(order, grouped)
    ensures InOrder(if root in grouped then order else order + [root], grouped[root := group])
  {
  }

  lemma GroupPlus(t: Tree, users: seq<string>, i: nat, grouped: map<string, seq<string>>)
    requires Acyclic(t) && i < |users| && Grouped(t, users[..i], grouped)
    ensures var r := Root(t, users[i]); Grouped(t, users[..i + 1], grouped[r := (if r in grouped then grouped[r] else []) + [users[i]]])
  {
    hide Acyclic, Root, Rooted;
    var root := Root(t, users[i]);
    var grouped' := grouped[root := (if root in grouped then grouped[root] else []) + [users[i]]];
    forall r ensures (if r in grouped' then grouped'[r] else []) == Rooted(t, users[..i + 1], r) {
      RootedPlus(t, users, i, r);
      assert (if r in grouped then grouped[r] else []) == Rooted(t, users[..i], r);
    }
  }

  lemma GroupedMore(t: Tree, users: seq<string>, i: nat, order: seq<string>, grouped: map<string, seq<string>>)
    requires Acyclic(t) && i < |users| && GroupedByRoot(t, users[..i], order, grouped)
    ensures var r := Root(t, users[i]);
            GroupedByRoot(t, users[..i + 1], if r in grouped then order else order + [r],
                          grouped[r := (if r in grouped then grouped[r] else []) + [users[i]]])
  {
    hide Acyclic, Root, InOrder, Grouped;
    var root := Root(t, users[i]);
    OrderPlus(order, grouped, root, (if root in grouped then grouped[root] else []) + [users[i]]);
    GroupPlus(t, users, i, grouped);
  }

  method GroupByRoot(forest: Forest, users: seq<string>, ghost t: Tree) returns (groups: seq<seq<string>>)
    requires forest.Valid() && t == forest.View()
    requires forall i, j :: 0 <= i < j < |users| ==> users[i] != users[j]
    modifies forest
    ensures forest.Valid()
    ensures Groups(users, groups)
    ensures forall i, j, u, v :: 0 <= i < |groups| && 0 <= j < |groups| && u in groups[i] && v in groups[j] ==>
              (i == j <==> Root(t, u) == Root(t, v))
  {
    hide Acyclic, Root, GroupedByRoot;
    var order: seq<string>, grouped: map<string, seq<string>> := [], map[];
    NothingGrouped(t, users[..0], order, grouped);
    for i := 0 to |users|
      invariant forest.Valid() && forall u :: Root(forest.View(), u) == Root(t, u)
      invariant GroupedByRoot(t, users[..i], order, grouped)
    {
      var root := forest.Find(users[i]);
      GroupedMore(t, users, i, order, grouped);
      if root !in grouped {
        order := order + [root];
      }
      grouped := grouped[root := (if root in grouped then grouped[root] else []) + [users[i]]];
    }
    assert users[..|users|] == users;
    groups := Collected(t, users, order, grouped);
  }

  lemma NothingGrouped(t: Tree, users: seq<string>, order: seq<string>, grouped: map<string, seq<string>>)
    requires Acyclic(t) && users == [] && order == [] && grouped == map[]
    ensures GroupedByRoot(t, users, order, grouped)
  {
  }

  method Collected(ghost t: Tree, ghost users: seq<string>, order: seq<string>, grouped: map<string, seq<string>>)
    returns (groups: seq<seq<string>>)
    requires Acyclic(t) && GroupedByRoot(t, users, order, grouped)
    requires forall i, j :: 0 <= i < j < |users| ==> users[i] != users[j]
    ensures Groups(users, groups)
    ensures forall i, j, u, v :: 0 <= i < |groups| && 0 <= j < |groups| && u in groups[i] && v in groups[j] ==>
              (i == j <==> Root(t, u) == Root(t, v))
  {
    hide Acyclic, Root, Rooted;
    groups := seq(|order|, i requires 0 <= i < |order| => assert order[i] in order; grouped[order[i]]);
    forall i | 0 <= i < |order|
      ensures groups[i] == Rooted(t, users, order[i]) != []
      ensures forall a, b :: 0 <= a < b < |groups[i]| ==> groups[i][a] != groups[i][b]
    {
      assert order[i] in grouped;
      RootedDistinct(t, users, order[i]);
    }
    forall u <- users ensures exists g <- groups :: u in g {
      assert u in Rooted(t, users, Root(t, u));
      var i :| 0 <= i < |order| && order[i] == Root(t, u);
      assert groups[i] in groups;
    }
  }

  /** Duplicate-free, non-empty groups that hold exactly these users. */
  ghost predicate Groups(users: seq<string>, groups: seq<seq<string>>) {
    && (forall g <- groups :: g != [] && forall a, b :: 0 <= a < b < |g| ==> g[a] != g[b])
    && (forall g <- groups, u <- g :: u in users)
    && (forall u <- users :: exists g <- groups :: u in g)
  }

  lemma SameUsers(a: seq<string>, b: seq<string>, groups: seq<seq<string>>)
    requires Groups(a, groups) && forall u :: u in a <==> u in b
    ensures Groups(b, groups)
  {
  }

  /** `buildAssociatedAccountGroups`: the groups are the classes of association over the last seven days. */
  method BuildAssociatedAccountGroups(events: seq<Event>, now: int) returns (groups: seq<seq<string>>)
    ensures Groups(Users(events), groups)
    ensures forall i, j, u, v :: 0 <= i < |groups| && 0 <= j < |groups| && u in groups[i] && v in groups[j] ==>
              (i == j <==> Associated(Within(events, now, ASSOCIATION_MS), u, v))
  {
    hide Acyclic, Root, Associated, Roots, Groups, Within, Users;
    var users := Distinct(Users(events));
    var forest := new Forest(map u | u in users :: u);
    EmptyRoots(forest.View());
    UniteCohorts(forest, Within(events, now, ASSOCIATION_MS));
    ghost var t := forest.View();
    groups := GroupByRoot(forest, users, t);
    SameUsers(users, Users(events), groups);
    forall i, j, u, v | 0 <= i < |groups| && 0 <= j < |groups| && u in groups[i] && v in groups[j]
      ensures i == j <==> Associated(Within(events, now, ASSOCIATION_MS), u, v)
    {
      assert i == j <==> Root(t, u) == Root(t, v);
    }
  }
}
