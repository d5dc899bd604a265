/** The prepared evidence graph and its packed form, in which every requirement is stored once. */
module Evidence {
  import opened Options
  import opened Frontier

  datatype OperatorInfo = OperatorInfo(name: string, rarity: int, profession: string, skills: seq<string>)

  datatype Operator = Operator(id: string, info: OperatorInfo)

  datatype Specified = Specified(training: bool, skill: bool, modules: bool)

  datatype Requirement = Requirement(name: string, operator: Option<Operator>, target: Target, warnings: seq<string>,
                                     moduleUnresolved: bool, specified: Specified)

  datatype Member<+R> = Member(requirement: R, share: real, group: Option<string>, options: seq<R>)

  /** What packing copies of a document: its homework's id and stage, and the rest as it is. */
  datatype Header = Header(homeworkId: int, stageId: string, mode: int, likes: nat, dislikes: nat, views: nat,
                           skeleton: string, variant: string, published: int)

  datatype Document<+R> = Document(header: Header, members: seq<Member<R>>)

  datatype Family<+R> = Family(key: string, published: int, count: nat, documents: seq<Document<R>>)

  datatype StageRow = StageRow(id: string, name: string, activity: string, category: string)

  datatype Prepared<+R> = Prepared(families: seq<Family<R>>, invalid: nat, stages: seq<StageRow>, professions: seq<string>)

  datatype PackedRow = PackedRow(operatorId: string, target: Target, flags: bv8, moduleUnresolved: bool)

  datatype Packed = Packed(graph: Prepared<nat>, rows: seq<PackedRow>)

  type Graph = Prepared<Requirement>

  type Catalog = map<string, OperatorInfo>

  function Bit(b: bool): bv8 { if b then 1 else 0 }

  function Flags(s: Specified): bv8 { Bit(s.training) | (Bit(s.skill) << 1) | (Bit(s.modules) << 2) }

  function FromFlags(flags: bv8): Specified { Specified(flags & 1 != 0, flags & 2 != 0, flags & 4 != 0) }

  lemma FlagsRoundTrip(s: Specified)
    ensures FromFlags(Flags(s)) == s
  {
  }

  function Usable(row: Requirement): bool { row.operator.Some? && row.warnings == [] }

  function UsableRows(rows: seq<Requirement>): (r: seq<Requirement>)
    ensures forall row <- r :: Usable(row) && row in rows
    ensures (forall row <- rows :: Usable(row)) ==> r == rows
  {
    if rows == [] then [] else (if Usable(rows[0]) then [rows[0]] else []) + UsableRows(rows[1..])
  }

  function PackRow(row: Requirement): PackedRow
    requires row.operator.Some?
  {
    PackedRow(row.operator.value.id, row.target, Flags(row.specified), row.moduleUnresolved)
  }

  // What a packed graph has to say about the original.

  ghost predicate RowAt(table: seq<PackedRow>, id: nat, row: Requirement) {
    id < |table| && row.operator.Some? && table[id] == PackRow(row)
  }

  ghost predicate RowsAt(table: seq<PackedRow>, ids: seq<nat>, rows: seq<Requirement>) {
    |ids| == |rows| && forall i :: 0 <= i < |ids| ==> RowAt(table, ids[i], rows[i])
  }

  ghost predicate MemberAt(table: seq<PackedRow>, p: Member<nat>, m: Member<Requirement>) {
    && RowAt(table, p.requirement, m.requirement) && p.share == m.share && p.group == m.group
    && RowsAt(table, p.options, UsableRows(m.options))
  }

  ghost predicate MembersAt(table: seq<PackedRow>, ps: seq<Member<nat>>, ms: seq<Member<Requirement>>) {
    |ps| == |ms| && forall i :: 0 <= i < |ps| ==> MemberAt(table, ps[i], ms[i])
  }

  ghost predicate DocumentsAt(table: seq<PackedRow>, ps: seq<Document<nat>>, ds: seq<Document<Requirement>>) {
    |ps| == |ds| && forall i :: 0 <= i < |ps| ==> ps[i].header == ds[i].header && MembersAt(table, ps[i].members, ds[i].members)
  }

  ghost predicate FamilyAt(table: seq<PackedRow>, p: Family<nat>, f: Family<Requirement>) {
    p.key == f.key && p.published == f.published && p.count == f.count && DocumentsAt(table, p.documents, f.documents)
  }

  ghost predicate FamiliesAt(table: seq<PackedRow>, ps: seq<Family<nat>>, fs: seq<Family<Requirement>>) {
    |ps| == |fs| && forall i :: 0 <= i < |ps| ==> FamilyAt(table, ps[i], fs[i])
  }

  ghost predicate Named(row: Requirement, names: set<string>) { row.operator.Some? && row.operator.value.id in names }

  /** Every member names one of these operators, as `parse` makes sure, and so do its usable options. */
  ghost predicate MemberNamed(m: Member<Requirement>, names: set<string>) {
    Named(m.requirement, names) && forall row <- UsableRows(m.options) :: Named(row, names)
  }

  ghost predicate DocumentNamed(d: Document<Requirement>, names: set<string>) {
    forall m <- d.members :: MemberNamed(m, names)
  }

  ghost predicate FamilyNamed(f: Family<Requirement>, names: set<string>) {
    forall d <- f.documents :: DocumentNamed(d, names)
  }

  class Packer {
    var rows: seq<PackedRow>
    var ids: map<PackedRow, nat>
    ghost const names: set<string> // the operators of the catalog

    constructor (ghost names: set<string>)
      ensures Valid() && rows == [] && this.names == names
    {
      rows, ids, this.names := [], map[], names;
    }

    /** The table has no duplicates, and the index finds each row. */
    ghost predicate Valid()
      reads this
    {
      && (forall i :: 0 <= i < |rows| ==> rows[i] in ids && ids[rows[i]] == i)
      && (forall k <- ids :: ids[k] < |rows| && rows[ids[k]] == k)
      && (forall row <- rows :: row.operatorId in names)
    }

    /** Interns a row: an old row keeps its place, a new one is appended. */
    method Index(row: Requirement) returns (id: nat)
      requires Valid() && Named(row, names)
      modifies this
      ensures Valid() && RowAt(rows, id, row)
      ensures rows == if PackRow(row) in old(rows) then old(rows) else old(rows) + [PackRow(row)]
    {
      var value := PackRow(row);
      if value in ids {
        id := ids[value];
      } else {
        id := |rows|;
        rows, ids := rows + [value], ids[value := id];
      }
    }

    method PackOptions(options: seq<Requirement>) returns (packed: seq<nat>)
      requires Valid() && forall row <- UsableRows(options) :: Named(row, names)
      modifies this
      ensures Valid() && old(rows) <= rows && RowsAt(rows, packed, UsableRows(options))
    {
      hide RowAt, RowsAt, UsableRows, Valid;
      packed := [];
      NoRows(rows);
      UsablePlus(options, 0);
      for i := 0 to |options|
        invariant Valid() && old(rows) <= rows && RowsAt(rows, packed, UsableRows(options[..i]))
      {
        UsablePlus(options, i);
        if Usable(options[i]) {
          UsableIn(options, i);
          ghost var before := rows;
          var id := Index(options[i]);
          RowsPlus(before, rows, packed, UsableRows(options[..i]), id, options[i]);
          packed := packed + [id];
        }
      }
      assert options[..|options|] == options;
    }

    method PackMember(m: Member<Requirement>) returns (packed: Member<nat>)
      requires Valid() && MemberNamed(m, names)
      modifies this
      ensures Valid() && old(rows) <= rows && MemberAt(rows, packed, m)
    {
      hide PackRow, UsableRows;
      var id := Index(m.requirement);
      var options := PackOptions(m.options);
      packed := Member(id, m.share, m.group, options);
    }

    method PackMembers(members: seq<Member<Requirement>>) returns (packed: seq<Member<nat>>)
      requires Valid() && forall m <- members :: MemberNamed(m, names)
      modifies this
      ensures Valid() && old(rows) <= rows && MembersAt(rows, packed, members)
    {
      hide RowAt, UsableRows, MemberAt;
      packed := [];
      for i := 0 to |members|
        invariant Valid() && old(rows) <= rows && |packed| == i && MembersAt(rows, packed, members[..i])
      {
        ghost var before := rows;
        var member := PackMember(members[i]);
        MembersGrow(before, rows, packed, members[..i]);
        packed := packed + [member];
      }
    }

    method PackDocuments(documents: seq<Document<Requirement>>) returns (packed: seq<Document<nat>>)
      requires Valid() && forall d <- documents :: DocumentNamed(d, names)
      modifies this
      ensures Valid() && old(rows) <= rows && DocumentsAt(rows, packed, documents)
    {
      hide RowAt, UsableRows;
      packed := [];
      for i := 0 to |documents|
        invariant Valid() && old(rows) <= rows && |packed| == i && DocumentsAt(rows, packed, documents[..i])
      {
        ghost var before := rows;
        assert DocumentNamed(documents[i], names);
        var members := PackMembers(documents[i].members);
        DocumentsGrow(before, rows, packed, documents[..i]);
        packed := packed + [Document(documents[i].header, members)];
      }
    }

    /** All families, over one growing table. */
    method Pack(prepared: Graph) returns (packed: Packed)
      requires Valid() && rows == [] && (forall f <- prepared.families :: FamilyNamed(f, names))
      modifies this
      ensures Represents(packed, prepared, names)
    {
      hide DocumentsAt;
      var families: seq<Family<nat>> := [];
      for i := 0 to |prepared.families|
        invariant Valid() && |families| == i && FamiliesAt(rows, families, prepared.families[..i])
      {
        var f := prepared.families[i];
        assert FamilyNamed(f, names);
        ghost var before := rows;
        var documents := PackDocuments(f.documents);
        FamiliesGrow(before, rows, families, prepared.families[..i]);
        families := families + [Family(f.key, f.published, f.count, documents)];
      }
      packed := Packed(Prepared(families, prepared.invalid, prepared.stages, prepared.professions), rows);
    }
  }

  /** The packed graph stands for the original, over a table without duplicates. */
  ghost predicate Represents(packed: Packed, prepared: Graph, names: set<string>) {
    && packed.graph.invalid == prepared.invalid && packed.graph.stages == prepared.stages
    && packed.graph.professions == prepared.professions
    && FamiliesAt(packed.rows, packed.graph.families, prepared.families)
    && (forall i, j :: 0 <= i < j < |packed.rows| ==> packed.rows[i] != packed.rows[j])
    && (forall row <- packed.rows :: row.operatorId in names)
  }

  lemma UsablePlus(options: seq<Requirement>, i: nat)
    ensures UsableRows(options[..0]) == []
    ensures i < |options| ==>
            UsableRows(options[..i + 1]) == if Usable(options[i]) then UsableRows(options[..i]) + [options[i]] else UsableRows(options[..i])
  {
    if i < |options| {
      UsableJoin(options[..i], [options[i]]);
      assert options[..i + 1] == options[..i] + [options[i]];
    }
  }

  lemma {:induction false} UsableIn(options: seq<Requirement>, i: nat)
    requires i < |options| && Usable(options[i])
    ensures options[i] in UsableRows(options)
  {
    if i > 0 {
      UsableIn(options[1..], i - 1);
    }
  }

  lemma {:induction false} UsableJoin(a: seq<Requirement>, b: seq<Requirement>)
    ensures UsableRows(a + b) == UsableRows(a) + UsableRows(b)
  {
    if a == [] {
      assert a + b == b;
    } else {
      assert (a + b)[1..] == a[1..] + b;
      UsableJoin(a[1..], b);
    }
  }

  lemma NoRows(table: seq<PackedRow>)
    ensures RowsAt(table, [], [])
  {
  }

  lemma RowsPlus(table: seq<PackedRow>, more: seq<PackedRow>, ids: seq<nat>, rows: seq<Requirement>, id: nat, row: Requirement)
    requires table <= more && RowsAt(table, ids, rows) && RowAt(more, id, row)
    ensures RowsAt(more, ids + [id], rows + [row])
  {
    hide PackRow;
  }

  lemma MembersGrow(table: seq<PackedRow>, more: seq<PackedRow>, ps: seq<Member<nat>>, ms: seq<Member<Requirement>>)
    requires table <= more && MembersAt(table, ps, ms)
    ensures MembersAt(more, ps, ms)
  {
    hide PackRow, UsableRows;
  }

  lemma DocumentsGrow(table: seq<PackedRow>, more: seq<PackedRow>, ps: seq<Document<nat>>, ds: seq<Document<Requirement>>)
    requires table <= more && DocumentsAt(table, ps, ds)
    ensures DocumentsAt(more, ps, ds)
  {
    hide MembersAt;
    forall i | 0 <= i < |ps| ensures MembersAt(more, ps[i].members, ds[i].members) {
      MembersGrow(table, more, ps[i].members, ds[i].members);
    }
  }

  lemma FamiliesGrow(table: seq<PackedRow>, more: seq<PackedRow>, ps: seq<Family<nat>>, fs: seq<Family<Requirement>>)
    requires table <= more && FamiliesAt(table, ps, fs)
    ensures FamiliesAt(more, ps, fs)
  {
    hide DocumentsAt;
    forall i | 0 <= i < |ps| ensures FamilyAt(more, ps[i], fs[i]) {
      DocumentsGrow(table, more, ps[i].documents, fs[i].documents);
    }
  }

  // Unpacking.

  function UnpackRow(row: PackedRow, catalog: Catalog): Requirement
    requires row.operatorId in catalog
  {
    Requirement(catalog[row.operatorId].name, Some(Operator(row.operatorId, catalog[row.operatorId])), row.target, [],
                row.moduleUnresolved, FromFlags(row.flags))
  }

  /** A row that came from this catalog and has no warnings. */
  ghost predicate FromCatalog(catalog: Catalog, row: Requirement) {
    && row.operator.Some? && row.warnings == []
    && row.operator.value.id in catalog && catalog[row.operator.value.id] == row.operator.value.info
    && row.name == row.operator.value.info.name
  }

  lemma RowRoundTrip(catalog: Catalog, table: seq<PackedRow>, id: nat, row: Requirement)
    requires RowAt(table, id, row) && FromCatalog(catalog, row)
    ensures table[id].operatorId in catalog && UnpackRow(table[id], catalog) == row
  {
    FlagsRoundTrip(row.specified);
  }

  /** The packed ids all lie in the table, and every row of the table names an operator of the catalog. */
  predicate TableReadable(table: seq<PackedRow>, catalog: Catalog) { forall row <- table :: row.operatorId in catalog }

  predicate MemberReadable(table: seq<PackedRow>, m: Member<nat>) {
    m.requirement < |table| && forall id <- m.options :: id < |table|
  }

  predicate DocumentReadable(table: seq<PackedRow>, d: Document<nat>) { forall m <- d.members :: MemberReadable(table, m) }

  predicate FamilyReadable(table: seq<PackedRow>, f: Family<nat>) { forall d <- f.documents :: DocumentReadable(table, d) }

  predicate Readable(packed: Packed, catalog: Catalog) {
    TableReadable(packed.rows, catalog) && forall f <- packed.graph.families :: FamilyReadable(packed.rows, f)
  }

  function Lookup(table: seq<PackedRow>, catalog: Catalog, id: nat): Requirement
    requires id < |table| && TableReadable(table, catalog)
  {
    UnpackRow(table[id], catalog)
  }

  function UnpackMember(table: seq<PackedRow>, catalog: Catalog, m: Member<nat>): Member<Requirement>
    requires TableReadable(table, catalog) && MemberReadable(table, m)
  {
    Member(Lookup(table, catalog, m.requirement), m.share, m.group,
           seq(|m.options|, i requires 0 <= i < |m.options| => assert m.options[i] in m.options; Lookup(table, catalog, m.options[i])))
  }

  function UnpackDocument(table: seq<PackedRow>, catalog: Catalog, d: Document<nat>): Document<Requirement>
    requires TableReadable(table, catalog) && DocumentReadable(table, d)
  {
    Document(d.header, seq(|d.members|, i requires 0 <= i < |d.members| => UnpackMember(table, catalog, d.members[i])))
  }

  function UnpackFamily(table: seq<PackedRow>, catalog: Catalog, f: Family<nat>): Family<Requirement>
    requires TableReadable(table, catalog) && FamilyReadable(table, f)
  {
    Family(f.key, f.published, f.count,
           seq(|f.documents|, i requires 0 <= i < |f.documents| => UnpackDocument(table, catalog, f.documents[i])))
  }

  function Unpack(packed: Packed, catalog: Catalog): Graph
    requires Readable(packed, catalog)
  {
    var fs := packed.graph.families;
    Prepared(seq(|fs|, i requires 0 <= i < |fs| => UnpackFamily(packed.rows, catalog, fs[i])),
             packed.graph.invalid, packed.graph.stages, packed.graph.professions)
  }

  // What a graph keeps when it is packed: everything but the options nobody can use.

  function KeepMember(m: Member<Requirement>): Member<Requirement> { m.(options := UsableRows(m.options)) }

  function KeepDocument(d: Document<Requirement>): Document<Requirement> {
    Document(d.header, seq(|d.members|, i requires 0 <= i < |d.members| => KeepMember(d.members[i])))
  }

  function KeepFamily(f: Family<Requirement>): Family<Requirement> {
    f.(documents := seq(|f.documents|, i requires 0 <= i < |f.documents| => KeepDocument(f.documents[i])))
  }

  function Keep(g: Graph): Graph {
    g.(families := seq(|g.families|, i requires 0 <= i < |g.families| => KeepFamily(g.families[i])))
  }

  /** Every member, and every usable option, came from the catalog. */
  ghost predicate MemberFromCatalog(catalog: Catalog, m: Member<Requirement>) {
    FromCatalog(catalog, m.requirement) && forall row <- UsableRows(m.options) :: FromCatalog(catalog, row)
  }

  ghost predicate DocumentFromCatalog(catalog: Catalog, d: Document<Requirement>) {
    forall m <- d.members :: MemberFromCatalog(catalog, m)
  }

  ghost predicate FamilyFromCatalog(catalog: Catalog, f: Family<Requirement>) {
    forall d <- f.documents :: DocumentFromCatalog(catalog, d)
  }

  ghost predicate GraphFromCatalog(catalog: Catalog, g: Graph) {
    forall f <- g.families :: FamilyFromCatalog(catalog, f)
  }

  lemma MemberRoundTrip(catalog: Catalog, table: seq<PackedRow>, p: Member<nat>, m: Member<Requirement>)
    requires MemberAt(table, p, m) && MemberFromCatalog(catalog, m) && TableReadable(table, catalog)
    ensures MemberReadable(table, p) && UnpackMember(table, catalog, p) == KeepMember(m)
  {
    hide PackRow, UnpackRow;
    RowRoundTrip(catalog, table, p.requirement, m.requirement);
    var rows := UsableRows(m.options);
    forall i | 0 <= i < |rows| ensures p.options[i] < |table| && UnpackRow(table[p.options[i]], catalog) == rows[i] {
      RowRoundTrip(catalog, table, p.options[i], rows[i]);
    }
  }

  lemma DocumentRoundTrip(catalog: Catalog, table: seq<PackedRow>, p: Document<nat>, d: Document<Requirement>)
    requires p.header == d.header && MembersAt(table, p.members, d.members)
    requires DocumentFromCatalog(catalog, d) && TableReadable(table, catalog)
    ensures DocumentReadable(table, p) && UnpackDocument(table, catalog, p) == KeepDocument(d)
  {
    hide MemberAt, MemberFromCatalog, TableReadable, KeepMember, UnpackMember;
    forall i | 0 <= i < |p.members|
      ensures MemberReadable(table, p.members[i]) && UnpackMember(table, catalog, p.members[i]) == KeepMember(d.members[i])
    {
      assert d.members[i] in d.members;
      MemberRoundTrip(catalog, table, p.members[i], d.members[i]);
    }
  }

  lemma FamilyRoundTrip(catalog: Catalog, table: seq<PackedRow>, p: Family<nat>, f: Family<Requirement>)
    requires FamilyAt(table, p, f) && FamilyFromCatalog(catalog, f) && TableReadable(table, catalog)
    ensures FamilyReadable(table, p) && UnpackFamily(table, catalog, p) == KeepFamily(f)
  {
    hide MembersAt, DocumentFromCatalog, TableReadable, KeepDocument, UnpackDocument, DocumentReadable;
    forall i | 0 <= i < |p.documents|
      ensures DocumentReadable(table, p.documents[i])
      ensures UnpackDocument(table, catalog, p.documents[i]) == KeepDocument(f.documents[i])
    {
      assert f.documents[i] in f.documents;
      DocumentRoundTrip(catalog, table, p.documents[i], f.documents[i]);
    }
  }

  /** Unpacking gives the graph back, without the options nobody can use. */
  lemma GraphRoundTrip(catalog: Catalog, packed: Packed, g: Graph)
    requires Represents(packed, g, catalog.Keys) && GraphFromCatalog(catalog, g)
    ensures Readable(packed, catalog) && Unpack(packed, catalog) == Keep(g)
  {
    hide FamilyAt, FamilyFromCatalog, KeepFamily, UnpackFamily, FamilyReadable;
    var ps := packed.graph.families;
    forall i | 0 <= i < |ps|
      ensures FamilyReadable(packed.rows, ps[i]) && UnpackFamily(packed.rows, catalog, ps[i]) == KeepFamily(g.families[i])
    {
      assert g.families[i] in g.families;
      FamilyRoundTrip(catalog, packed.rows, ps[i], g.families[i]);
    }
  }
}
