/**
 The public form of a result: every sample and every group of alternatives is stored once, and the
 branches share integer references to them.
 */
module Compaction {
  import opened Options
  import opened Frontier
  import opened Evidence

  /** A sample object of the engine: it belongs to one member of one document of one family. */
  datatype Ref = Ref(family: nat, document: nat, member: nat)

  datatype Branch = Branch(operatorId: string, target: Target, evidence: seq<real>, samples: seq<Ref>)

  datatype Result = Result(branches: seq<Branch>, weight: Ref -> real, stages: seq<StageRow>, totals: seq<nat>)

  datatype GroupOption = GroupOption(operatorId: string, target: Target, skillId: string)

  datatype Group = Group(key: string, options: seq<GroupOption>)

  datatype PublicSample = PublicSample(family: string, homeworkId: int, stage: Option<nat>, weight: real, elite: int,
                                       masterySkill: int, group: int)

  datatype PublicBranch = PublicBranch(operatorId: string, target: Target, evidence: seq<real>, samples: seq<nat>)

  datatype Public = Public(branches: seq<PublicBranch>, samples: seq<PublicSample>, groups: seq<Group>,
                           stages: seq<StageRow>, totals: seq<nat>)

  predicate InRange<R>(g: Prepared<R>, ref: Ref) {
    && ref.family < |g.families| && ref.document < |g.families[ref.family].documents|
    && ref.member < |g.families[ref.family].documents[ref.document].members|
  }

  predicate AllInRange<R>(g: Prepared<R>, branches: seq<Branch>) {
    forall b <- branches, ref <- b.samples :: InRange(g, ref)
  }

  function MemberOf<R>(g: Prepared<R>, ref: Ref): Member<R>
    requires InRange(g, ref)
  {
    g.families[ref.family].documents[ref.document].members[ref.member]
  }

  /** The place of a stage in the list; a later row of the same id wins. */
  function StageIndex(stages: seq<StageRow>, id: string): Option<nat> {
    if stages == [] then None
    else if stages[|stages| - 1].id == id then Some(|stages| - 1)
    else StageIndex(stages[..|stages| - 1], id)
  }

  function GroupOptions(rows: seq<Requirement>): seq<GroupOption>
    requires forall row <- rows :: row.operator.Some?
  {
    if rows == [] then []
    else
      var o, t := rows[0].operator.value, rows[0].target;
      [GroupOption(o.id, t, if 0 <= t.skill - 1 < |o.info.skills| then o.info.skills[t.skill - 1] else "")] + GroupOptions(rows[1..])
  }

  /** The group of alternatives a member belongs to. */
  function GroupOf(m: Member<Requirement>): Option<Group> {
    if m.group.None? then None else Some(Group(m.group.value, GroupOptions(UsableRows(m.options))))
  }

  /** What is public about a sample, its group being number `group`. */
  function Publish(g: Graph, r: Result, ref: Ref, group: int): PublicSample
    requires InRange(g, ref)
  {
    var f := g.families[ref.family];
    var h, t := f.documents[ref.document].header, MemberOf(g, ref).requirement.target;
    PublicSample(f.key, h.homeworkId, StageIndex(r.stages, h.stageId), r.weight(ref), t.elite,
                 if t.skillLevel > 7 then t.skill else 0, group)
  }

  function Find<T(==)>(table: seq<T>, v: T): (i: nat)
    requires v in table
    ensures i < |table| && table[i] == v
  {
    if table[0] == v then 0 else 1 + Find(table[1..], v)
  }

  function Intern<T(==)>(table: seq<T>, v: T): (r: (seq<T>, nat))
    ensures table <= r.0 && r.1 < |r.0| && r.0[r.1] == v
  {
    if v in table then (table, Find(table, v)) else (table + [v], |table|)
  }

  datatype Tables = Tables(refs: seq<Ref>, samples: seq<PublicSample>, groups: seq<Group>)

  function AddSample(g: Graph, r: Result, t: Tables, ref: Ref): (Tables, nat)
    requires InRange(g, ref)
  {
    if ref in t.refs then (t, Find(t.refs, ref))
    else
      var group := GroupOf(MemberOf(g, ref));
      if group.None? then (Tables(t.refs + [ref], t.samples + [Publish(g, r, ref, -1)], t.groups), |t.samples|)
      else
        var (groups, id) := Intern(t.groups, group.value);
        (Tables(t.refs + [ref], t.samples + [Publish(g, r, ref, id)], groups), |t.samples|)
  }

  function AddSamples(g: Graph, r: Result, t: Tables, refs: seq<Ref>): (Tables, seq<nat>)
    requires forall ref <- refs :: InRange(g, ref)
    decreases refs
  {
    if refs == [] then (t, [])
    else
      var (t1, id) := AddSample(g, r, t, refs[0]);
      var (t2, ids) := AddSamples(g, r, t1, refs[1..]);
      (t2, [id] + ids)
  }

  function AddBranches(g: Graph, r: Result, t: Tables, branches: seq<Branch>): (Tables, seq<PublicBranch>)
    requires AllInRange(g, branches)
    decreases branches
  {
    if branches == [] then (t, [])
    else
      var b := branches[0];
      var (t1, ids) := AddSamples(g, r, t, b.samples);
      var (t2, rest) := AddBranches(g, r, t1, branches[1..]);
      (t2, [PublicBranch(b.operatorId, b.target, b.evidence, ids)] + rest)
  }

  const EMPTY := Tables([], [], [])

  function Compact(g: Graph, r: Result): Public
    requires AllInRange(g, r.branches)
  {
    var (t, branches) := AddBranches(g, r, EMPTY, r.branches);
    Public(branches, t.samples, t.groups, r.stages, r.totals)
  }

  // The tables never hold anything twice, and every reference expands to its sample again.

  ghost predicate Distinct<T>(s: seq<T>) { forall i, j :: 0 <= i < j < |s| ==> s[i] != s[j] }

  /** Row `id` of the tables is the projection of this sample, its group number naming its group. */
  ghost predicate Stands(g: Graph, r: Result, t: Tables, id: nat, ref: Ref)
    requires InRange(g, ref)
  {
    id < |t.samples| && id < |t.refs| && t.refs[id] == ref &&
    match GroupOf(MemberOf(g, ref))
    case None => t.samples[id] == Publish(g, r, ref, -1)
    case Some(group) =>
      var n := t.samples[id].group;
      0 <= n < |t.groups| && t.groups[n] == group && t.samples[id] == Publish(g, r, ref, n)
  }

  ghost predicate Good(g: Graph, r: Result, t: Tables) {
    && Distinct(t.refs) && Distinct(t.groups) && |t.refs| == |t.samples|
    && forall i :: 0 <= i < |t.refs| ==> InRange(g, t.refs[i]) && Stands(g, r, t, i, t.refs[i])
  }

  ghost predicate Grows(t: Tables, t': Tables) {
    t.refs <= t'.refs && t.samples <= t'.samples && t.groups <= t'.groups
  }

  lemma StandsStill(g: Graph, r: Result, t: Tables, t': Tables, id: nat, ref: Ref)
    requires InRange(g, ref) && Grows(t, t') && Stands(g, r, t, id, ref)
    ensures Stands(g, r, t', id, ref)
  {
    hide GroupOf, Publish;
  }

  lemma AddSampleKeeps(g: Graph, r: Result, t: Tables, ref: Ref)
    requires Good(g, r, t) && InRange(g, ref)
    ensures var (t', id) := AddSample(g, r, t, ref);
            Good(g, r, t') && Grows(t, t') && Stands(g, r, t', id, ref)
  {
    hide GroupOf, Publish, StageIndex, Find;
    var (t', id) := AddSample(g, r, t, ref);
    if ref !in t.refs {
      forall i | 0 <= i < |t.refs| ensures Stands(g, r, t', i, t.refs[i]) {
        StandsStill(g, r, t, t', i, t.refs[i]);
      }
      PublishGroup(g, r, ref, t'.samples[id].group);
    }
  }

  lemma PublishGroup(g: Graph, r: Result, ref: Ref, group: int)
    requires InRange(g, ref)
    ensures forall n: int :: Publish(g, r, ref, n).group == n
  {
  }

  lemma {:induction false} AddSamplesKeeps(g: Graph, r: Result, t: Tables, refs: seq<Ref>)
    requires Good(g, r, t) && forall ref <- refs :: InRange(g, ref)
    ensures var (t', ids) := AddSamples(g, r, t, refs);
            Good(g, r, t') && Grows(t, t') && |ids| == |refs| && forall i :: 0 <= i < |ids| ==> Stands(g, r, t', ids[i], refs[i])
    decreases refs
  {
    hide GroupOf, Publish, AddSample, Good;
    if refs != [] {
      AddSampleKeeps(g, r, t, refs[0]);
      var (t1, id) := AddSample(g, r, t, refs[0]);
      AddSamplesKeeps(g, r, t1, refs[1..]);
      var (t2, _) := AddSamples(g, r, t1, refs[1..]);
      StandsStill(g, r, t1, t2, id, refs[0]);
    }
  }

  /** A public branch carries over its branch, and its ids stand for the branch's samples in order. */
  ghost predicate BranchStands(g: Graph, r: Result, t: Tables, p: PublicBranch, b: Branch)
    requires forall ref <- b.samples :: InRange(g, ref)
  {
    && p.operatorId == b.operatorId && p.target == b.target && p.evidence == b.evidence
    && |p.samples| == |b.samples| && forall i :: 0 <= i < |p.samples| ==> Stands(g, r, t, p.samples[i], b.samples[i])
  }

  lemma BranchStandsStill(g: Graph, r: Result, t: Tables, t': Tables, b: Branch, ids: seq<nat>)
    requires (forall ref <- b.samples :: InRange(g, ref)) && Grows(t, t')
    requires |ids| == |b.samples| && forall i :: 0 <= i < |ids| ==> Stands(g, r, t, ids[i], b.samples[i])
    ensures BranchStands(g, r, t', PublicBranch(b.operatorId, b.target, b.evidence, ids), b)
  {
    hide InRange, Stands, Grows;
    forall i | 0 <= i < |ids| ensures Stands(g, r, t', ids[i], b.samples[i]) {
      StandsStill(g, r, t, t', ids[i], b.samples[i]);
    }
  }

  lemma {:induction false} AddBranchesKeeps(g: Graph, r: Result, t: Tables, branches: seq<Branch>)
    requires Good(g, r, t) && AllInRange(g, branches)
    ensures var (t', ps) := AddBranches(g, r, t, branches);
            Good(g, r, t') && Grows(t, t') && |ps| == |branches| &&
            forall i :: 0 <= i < |ps| ==> branches[i] in branches && BranchStands(g, r, t', ps[i], branches[i])
    decreases branches
  {
    hide AddSamples, Good, Stands, BranchStands, InRange;
    if branches != [] {
      var b := branches[0];
      AddSamplesKeeps(g, r, t, b.samples);
      var (t1, ids) := AddSamples(g, r, t, b.samples);
      AddBranchesKeeps(g, r, t1, branches[1..]);
      var (t2, _) := AddBranches(g, r, t1, branches[1..]);
      BranchStandsStill(g, r, t1, t2, b, ids);
    }
  }

  /**
   The compact form keeps each sample and each group once, and the ids of every branch lead back to
   the projections of its samples, in order.
   */
  lemma CompactExpands(g: Graph, r: Result) returns (t: Tables)
    requires AllInRange(g, r.branches)
    ensures var c := Compact(g, r);
            && c.samples == t.samples && c.groups == t.groups && Good(g, r, t) && |c.branches| == |r.branches|
            && forall i :: 0 <= i < |c.branches| ==> r.branches[i] in r.branches && BranchStands(g, r, t, c.branches[i], r.branches[i])
  {
    hide AddBranches, BranchStands;
    AddBranchesKeeps(g, r, EMPTY, r.branches);
    t := AddBranches(g, r, EMPTY, r.branches).0;
  }

  /** Where a stage is listed: its last row, if any. */
  ghost predicate LastOf(stages: seq<StageRow>, id: string, place: Option<nat>) {
    match place
    case None => forall j :: 0 <= j < |stages| ==> stages[j].id != id
    case Some(i) => i < |stages| && stages[i].id == id && forall j :: i < j < |stages| ==> stages[j].id != id
  }

  lemma {:induction false} StageIndexIsLast(stages: seq<StageRow>, id: string)
    ensures LastOf(stages, id, StageIndex(stages, id))
  {
    if stages != [] && stages[|stages| - 1].id != id {
      StageIndexIsLast(stages[..|stages| - 1], id);
    }
  }

  /** The skill of a target by number, counted from one; the empty id where there is no such skill. */
  ghost predicate IsSkill(o: Operator, number: int, id: string) {
    if 1 <= number <= |o.info.skills| then id == o.info.skills[number - 1] else id == ""
  }

  ghost predicate IsOption(o: GroupOption, row: Requirement) {
    row.operator.Some? && o.operatorId == row.operator.value.id && o.target == row.target && IsSkill(row.operator.value, row.target.skill, o.skillId)
  }

  lemma {:induction false} OptionsInOrder(rows: seq<Requirement>)
    requires forall row <- rows :: row.operator.Some?
    ensures |GroupOptions(rows)| == |rows| && forall i :: 0 <= i < |rows| ==> IsOption(GroupOptions(rows)[i], rows[i])
  {
    if rows != [] {
      OptionsInOrder(rows[1..]);
    }
  }

  /** A public sample tells of this member: its family, homework and stage, and the group of alternatives it belongs to. */
  ghost predicate Tells(c: Public, p: PublicSample, g: Graph, r: Result, ref: Ref)
    requires InRange(g, ref)
  {
    var family, m := g.families[ref.family], MemberOf(g, ref);
    var header := family.documents[ref.document].header;
    && p.family == family.key && p.homeworkId == header.homeworkId && LastOf(c.stages, header.stageId, p.stage)
    && p.weight == r.weight(ref) && p.elite == m.requirement.target.elite
    && (p.masterySkill == if m.requirement.target.skillLevel >= 8 then m.requirement.target.skill else 0)
    && (m.group.None? <==> p.group == -1)
    && (m.group.Some? ==> 0 <= p.group < |c.groups| && OffersAlternatives(c.groups[p.group], m))
  }

  ghost predicate OffersAlternatives(group: Group, m: Member<Requirement>) {
    var usable := UsableRows(m.options);
    && m.group == Some(group.key) && |group.options| == |usable|
    && forall i :: 0 <= i < |usable| ==> IsOption(group.options[i], usable[i])
  }

  lemma GroupOffers(m: Member<Requirement>)
    ensures m.group.None? <==> GroupOf(m).None?
    ensures m.group.Some? ==> OffersAlternatives(GroupOf(m).value, m)
  {
    OptionsInOrder(UsableRows(m.options));
  }

  lemma StandingTells(c: Public, g: Graph, r: Result, t: Tables, id: nat, ref: Ref)
    requires InRange(g, ref) && Stands(g, r, t, id, ref) && c.groups == t.groups && c.stages == r.stages
    ensures id < |t.samples| && Tells(c, t.samples[id], g, r, ref)
  {
    hide GroupOf, OffersAlternatives, StageIndex, LastOf;
    GroupOffers(MemberOf(g, ref));
    StageIndexIsLast(r.stages, g.families[ref.family].documents[ref.document].header.stageId);
  }

  /** Read as a whole: number j of public branch i leads to a sample that tells of sample j of branch i. */
  lemma SamplesTell(g: Graph, r: Result, i: nat, j: nat)
    requires AllInRange(g, r.branches) && i < |r.branches| && j < |r.branches[i].samples|
    ensures var c := Compact(g, r);
            && |c.branches| == |r.branches| && |c.branches[i].samples| == |r.branches[i].samples|
            && c.branches[i].samples[j] < |c.samples|
            && r.branches[i] in r.branches && r.branches[i].samples[j] in r.branches[i].samples
            && Tells(c, c.samples[c.branches[i].samples[j]], g, r, r.branches[i].samples[j])
  {
    hide AddBranches, Stands, Tells, Good, InRange;
    var c := Compact(g, r);
    var t := CompactExpands(g, r);
    assert BranchStands(g, r, t, c.branches[i], r.branches[i]);
    StandingTells(c, g, r, t, c.branches[i].samples[j], r.branches[i].samples[j]);
  }

  // The engine reads nothing of a member but its operator, target, specified flags, share and group.

  datatype CoreRow = CoreRow(operator: Option<Operator>, target: Target, specified: Specified)

  function CoreMember(m: Member<Requirement>): Member<CoreRow> {
    Member(CoreRow(m.requirement.operator, m.requirement.target, m.requirement.specified), m.share, m.group, [])
  }

  function CoreDocument(d: Document<Requirement>): Document<CoreRow> {
    Document(d.header, seq(|d.members|, i requires 0 <= i < |d.members| => CoreMember(d.members[i])))
  }

  function CoreFamily(f: Family<Requirement>): Family<CoreRow> {
    Family(f.key, f.published, f.count,
           seq(|f.documents|, i requires 0 <= i < |f.documents| => CoreDocument(f.documents[i])))
  }

  /** The part of the graph the calculation reads. */
  function Core(g: Graph): Prepared<CoreRow> {
    Prepared(seq(|g.families|, i requires 0 <= i < |g.families| => CoreFamily(g.families[i])), g.invalid, g.stages, g.professions)
  }

  type Calculation = Prepared<CoreRow> -> Result

  /** The calculation samples only members that are there. */
  ghost predicate SamplesMembers(calculate: Calculation) {
    forall c: Prepared<CoreRow> :: AllInRange(c, calculate(c).branches)
  }

  lemma CoreOfKeptDocument(d: Document<Requirement>)
    ensures CoreDocument(KeepDocument(d)) == CoreDocument(d)
  {
    assert forall m: Member<Requirement> :: CoreMember(KeepMember(m)) == CoreMember(m);
  }

  lemma CoreOfKeptFamily(f: Family<Requirement>)
    ensures CoreFamily(KeepFamily(f)) == CoreFamily(f)
  {
    hide CoreDocument, KeepDocument;
    forall d: Document<Requirement> { CoreOfKeptDocument(d); }
  }

  lemma CoreOfKept(g: Graph)
    ensures Core(Keep(g)) == Core(g)
  {
    hide CoreFamily, KeepFamily;
    forall f: Family<Requirement> { CoreOfKeptFamily(f); }
  }

  lemma InRangeOfCore(g: Graph, ref: Ref)
    ensures InRange(Core(g), ref) <==> InRange(g, ref)
    ensures InRange(Keep(g), ref) <==> InRange(g, ref)
    ensures InRange(g, ref) ==> MemberOf(Keep(g), ref) == KeepMember(MemberOf(g, ref))
  {
  }

  lemma KeptLooksTheSame(g: Graph, r: Result, ref: Ref)
    requires InRange(g, ref)
    ensures InRange(Keep(g), ref)
    ensures forall n: int :: Publish(Keep(g), r, ref, n) == Publish(g, r, ref, n)
    ensures GroupOf(MemberOf(Keep(g), ref)) == GroupOf(MemberOf(g, ref))
  {
    hide StageIndex;
    InRangeOfCore(g, ref);
    var m := MemberOf(g, ref);
    assert UsableRows(UsableRows(m.options)) == UsableRows(m.options);
  }

  lemma {:induction false} AddSamplesOfKept(g: Graph, r: Result, t: Tables, refs: seq<Ref>)
    requires forall ref <- refs :: InRange(g, ref)
    ensures (forall ref <- refs :: InRange(Keep(g), ref)) && AddSamples(Keep(g), r, t, refs) == AddSamples(g, r, t, refs)
    decreases refs
  {
    hide Publish, GroupOf, Keep, InRange, MemberOf, Find;
    forall ref <- refs ensures InRange(Keep(g), ref) { KeptLooksTheSame(g, r, ref); }
    if refs != [] {
      KeptLooksTheSame(g, r, refs[0]);
      AddSamplesOfKept(g, r, AddSample(g, r, t, refs[0]).0, refs[1..]);
    }
  }

  lemma {:induction false} AddBranchesOfKept(g: Graph, r: Result, t: Tables, branches: seq<Branch>)
    requires AllInRange(g, branches)
    ensures AllInRange(Keep(g), branches) && AddBranches(Keep(g), r, t, branches) == AddBranches(g, r, t, branches)
    decreases branches
  {
    hide AddSamples, Keep, InRange;
    forall b <- branches, ref <- b.samples ensures InRange(Keep(g), ref) { KeptLooksTheSame(g, r, ref); }
    if branches != [] {
      AddSamplesOfKept(g, r, t, branches[0].samples);
      AddBranchesOfKept(g, r, AddSamples(g, r, t, branches[0].samples).0, branches[1..]);
    }
  }

  /**
   Packing preserves meaning: whatever the engine calculates from the stored graph, its public form is
   the one calculated from the original.
   */
  lemma PackingPreservesMeaning(catalog: Catalog, packed: Packed, g: Graph, calculate: Calculation)
    requires Represents(packed, g, catalog.Keys) && GraphFromCatalog(catalog, g) && SamplesMembers(calculate)
    ensures Readable(packed, catalog)
    ensures var u := Unpack(packed, catalog);
            && AllInRange(u, calculate(Core(u)).branches)
            && AllInRange(g, calculate(Core(g)).branches)
            && Compact(u, calculate(Core(u))) == Compact(g, calculate(Core(g)))
  {
    hide Core, Keep, InRange, AddBranches, GraphFromCatalog, Represents, Readable, Unpack;
    GraphRoundTrip(catalog, packed, g);
    CoreOfKept(g);
    var r := calculate(Core(g));
    assert AllInRange(Core(g), r.branches);
    forall b <- r.branches, ref <- b.samples ensures InRange(g, ref) { InRangeOfCore(g, ref); }
    AddBranchesOfKept(g, r, EMPTY, r.branches);
  }

  /** The place of each element. */
  function Places<T(==)>(table: seq<T>): map<T, nat> { map x | x in table :: Find(table, x) }

  lemma PlacesFind<T(!new)>(table: seq<T>, v: T)
    ensures v in Places(table) <==> v in table
    ensures v in table ==> Places(table)[v] == Find(table, v)
  {
  }

  /** Appending a new element leaves the places of the others as they were. */
  lemma {:induction false} PlacesAppend<T(!new)>(table: seq<T>, v: T)
    requires v !in table
    ensures Places(table + [v]) == Places(table)[v := |table|]
  {
    FindAppends(table, v);
  }

  /** The intern tables as the code keeps them: growing lists with a map beside each. */
  class Compactor {
    const g: Graph
    const r: Result
    var samples: seq<PublicSample>
    var groups: seq<Group>
    var ids: map<Ref, nat>
    var groupIds: map<Group, nat>
    ghost var refs: seq<Ref> // the samples in the order of their rows

    constructor (g: Graph, r: Result)
      ensures Valid() && View() == EMPTY && this.g == g && this.r == r
    {
      this.g, this.r := g, r;
      samples, groups, ids, groupIds, refs := [], [], map[], map[], [];
    }

    ghost function View(): Tables
      reads this
    {
      Tables(refs, samples, groups)
    }

    ghost predicate Valid()
      reads this
    {
      && Good(g, r, View())
      && ids == Places(refs)
      && groupIds == Places(groups)
    }

    /** The number of a group, which is appended if it is new. */
    method AddGroup(group: Group) returns (id: nat)
      requires groupIds == Places(groups) && Distinct(groups)
      modifies this`groups, this`groupIds
      ensures (groups, id) == Intern(old(groups), group)
      ensures groupIds == Places(groups)
    {
      hide Places, Find;
      PlacesFind(groups, group);
      if group !in groupIds {
        PlacesAppend(groups, group);
        groupIds := groupIds[group := |groups|];
        groups := groups + [group];
        id := |groups| - 1;
      } else {
        id := groupIds[group];
      }
    }

    /** The number of a sample, whose row is appended if it is new. */
    method Add(ref: Ref) returns (id: nat)
      requires Valid() && InRange(g, ref)
      modifies this
      ensures Valid() && (View(), id) == AddSample(g, r, old(View()), ref)
    {
      hide Good, Find, GroupOf, Publish, Places, Intern;
      AddSampleKeeps(g, r, View(), ref);
      GoodParts(g, r, View());
      PlacesFind(refs, ref);
      if ref in ids {
        return ids[ref];
      }
      var number: int := -1;
      var group := GroupOf(MemberOf(g, ref));
      if group.Some? {
        number := AddGroup(group.value);
      }
      id := |samples|;
      samples := samples + [Publish(g, r, ref, number)];
      PlacesAppend(refs, ref);
      ids := ids[ref := id];
      refs := refs + [ref];
    }

    /** The samples of one branch. */
    method AddAll(refs: seq<Ref>) returns (numbers: seq<nat>)
      requires Valid() && forall ref <- refs :: InRange(g, ref)
      modifies this
      ensures Valid() && (View(), numbers) == AddSamples(g, r, old(View()), refs)
    {
      hide AddSample, InRange, Good, Places;
      numbers := [];
      ghost var all := AddSamples(g, r, View(), refs);
      assert refs[0..] == refs;
      for j := 0 to |refs|
        invariant Valid() && all.0 == AddSamples(g, r, View(), refs[j..]).0
        invariant all.1 == numbers + AddSamples(g, r, View(), refs[j..]).1
      {
        assert refs[j..][0] == refs[j] && refs[j..][1..] == refs[j + 1..];
        var id := Add(refs[j]);
        numbers := numbers + [id];
      }
      assert refs[|refs|..] == [] && all.0 == View() && all.1 == numbers;
    }
  }

  lemma GoodParts(g: Graph, r: Result, t: Tables)
    requires Good(g, r, t)
    ensures Distinct(t.refs) && Distinct(t.groups) && |t.refs| == |t.samples|
  {
  }

  lemma {:induction false} FindAppends<T(!new)>(table: seq<T>, v: T)
    requires v !in table
    ensures Find(table + [v], v) == |table|
    ensures forall x :: x in table ==> Find(table + [v], x) == Find(table, x)
  {
    if table != [] {
      assert (table + [v])[1..] == table[1..] + [v];
      FindAppends(table[1..], v);
    }
  }

  /** The loop over the branches. */
  method CompactRecommendations(g: Graph, r: Result) returns (c: Public)
    requires AllInRange(g, r.branches)
    ensures c == Compact(g, r)
  {
    hide AddSamples, InRange, Good, Places;
    var tables := new Compactor(g, r);
    var branches: seq<PublicBranch> := [];
    ghost var all := AddBranches(g, r, EMPTY, r.branches);
    assert r.branches[0..] == r.branches;
    for i := 0 to |r.branches|
      invariant tables.Valid() && tables.g == g && tables.r == r && fresh(tables)
      invariant all.0 == AddBranches(g, r, tables.View(), r.branches[i..]).0
      invariant all.1 == branches + AddBranches(g, r, tables.View(), r.branches[i..]).1
    {
      var b := r.branches[i];
      assert r.branches[i..][0] == b && r.branches[i..][1..] == r.branches[i + 1..];
      var ids := tables.AddAll(b.samples);
      branches := branches + [PublicBranch(b.operatorId, b.target, b.evidence, ids)];
    }
    c := Public(branches, tables.samples, tables.groups, r.stages, r.totals);
  }
}
