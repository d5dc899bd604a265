/** The evidence database the cache reads: how it is built from the source or from stored evidence, and how it stays small. */
module EvidenceStore {
  import opened Options
  import opened HotCache

  const MAX_ROWS := 64
  const MAX_DISK_BYTES := 67108864

  /** A published snapshot: the revision of the source file it was made from. */
  datatype Snapshot = Snapshot(revision: Revision, source: Path)

  datatype Stored = Stored(query: Query, row: Row)

  // The bound on the stored queries: rows in the order of their last use, the latest first.

  function Total(rows: seq<Stored>, n: nat): (t: nat)
    requires n <= |rows|
  {
    if n == 0 then 0 else Total(rows, n - 1) + |rows[n - 1].row.result|
  }

  /** A row stays unless it lies beyond the row limit or, not being the first, beyond the byte limit. */
  predicate Stays(rows: seq<Stored>, i: nat)
    requires i < |rows|
  {
    !(i + 1 > MAX_ROWS || (i + 1 > 1 && Total(rows, i + 1) > MAX_DISK_BYTES))
  }

  function Kept(rows: seq<Stored>, n: nat): (r: seq<Stored>)
    requires n <= |rows|
  {
    if n == 0 then [] else Kept(rows, n - 1) + if Stays(rows, n - 1) then [rows[n - 1]] else []
  }

  lemma {:induction false} TotalGrows(rows: seq<Stored>, m: nat, n: nat)
    requires m <= n <= |rows|
    ensures Total(rows, m) <= Total(rows, n)
  {
    if m < n {
      TotalGrows(rows, m, n - 1);
    }
  }

  /** What stays is the longest run of latest rows within the limits: at most 64 rows, and a single row or at most 64 megabytes. */
  lemma {:induction false} KeptIsPrefix(rows: seq<Stored>, n: nat) returns (k: nat)
    requires n <= |rows|
    ensures k <= n && Kept(rows, n) == rows[..k] && k <= MAX_ROWS && (k <= 1 || Total(rows, k) <= MAX_DISK_BYTES)
    ensures n > 0 ==> k > 0
    ensures k < n ==> k == MAX_ROWS || Total(rows, k + 1) > MAX_DISK_BYTES
  {
    if n == 0 {
      return 0;
    }
    k := KeptIsPrefix(rows, n - 1);
    if k == n - 1 {
      if Stays(rows, n - 1) {
        assert rows[..n - 1] + [rows[n - 1]] == rows[..n];
        k := n;
      }
    } else {
      TotalGrows(rows, k + 1, n);
    }
  }

  lemma {:induction false} TotalOfPrefix(rows: seq<Stored>, k: nat, n: nat)
    requires n <= k <= |rows|
    ensures Total(rows[..k], n) == Total(rows, n)
  {
    if n > 0 {
      TotalOfPrefix(rows, k, n - 1);
    }
  }

  // Reading the rows as a table.

  ghost predicate DistinctQueries(rows: seq<Stored>) { forall i, j :: 0 <= i < j < |rows| ==> rows[i].query != rows[j].query }

  function Table(rows: seq<Stored>): map<Query, Row> {
    if rows == [] then map[] else Table(rows[1..])[rows[0].query := rows[0].row]
  }

  lemma {:induction false} TableHas(rows: seq<Stored>, q: Query)
    requires DistinctQueries(rows)
    ensures q in Table(rows) <==> exists s <- rows :: s.query == q
    ensures forall s <- rows :: s.query in Table(rows) && Table(rows)[s.query] == s.row
  {
    if rows != [] {
      TableHas(rows[1..], q);
      assert forall s <- rows :: s == rows[0] || s in rows[1..];
      assert forall s <- rows[1..] :: s in rows && s.query != rows[0].query;
    }
  }

  function OtherQueries(rows: seq<Stored>, query: Query): (r: seq<Stored>)
    ensures forall s :: s in r <==> s in rows && s.query != query
  {
    if rows == [] then []
    else
      var rest := OtherQueries(rows[..|rows| - 1], query);
      if rows[|rows| - 1].query == query then rest else rest + [rows[|rows| - 1]]
  }

  lemma {:induction false} OthersDistinct(rows: seq<Stored>, query: Query)
    requires DistinctQueries(rows)
    ensures DistinctQueries(OtherQueries(rows, query))
  {
    if rows != [] {
      var front, last := rows[..|rows| - 1], rows[|rows| - 1];
      OthersDistinct(front, query);
      var rest := OtherQueries(front, query);
      forall i | 0 <= i < |rest| ensures rest[i].query != last.query {
        assert rest[i] in rest;
      }
    }
  }

  /** Every stored result is the one of its path, revision, day and query. */
  ghost predicate RowsOk(rows: seq<Stored>, path: Path, revision: Revision, resultOf: Key -> Value) {
    DistinctQueries(rows) && forall s <- rows :: s.row.result == resultOf(Key(path, revision, s.row.day, s.query))
  }

  class Database {
    const path: Path
    const resultOf: Key -> Value
    var snapshot: Option<Snapshot>
    var rows: seq<Stored>

    constructor (path: Path, resultOf: Key -> Value)
      ensures Valid() && snapshot == None && rows == []
    {
      this.path, this.resultOf := path, resultOf;
      snapshot, rows := None, [];
    }

    ghost predicate Valid()
      reads this
    {
      if snapshot.None? then rows == [] else RowsOk(rows, path, snapshot.value.revision, resultOf)
    }

    /** What a read transaction sees. */
    function View(): Db
      reads this
    {
      Db(if snapshot.Some? then Some(snapshot.value.revision) else None, Table(rows))
    }

    method DayOf(query: Query) returns (day: Option<int>)
      ensures day.None? ==> forall s <- rows :: s.query != query
      ensures day.Some? ==> exists s <- rows :: s.query == query && s.row.day == day.value
    {
      for i := 0 to |rows|
        invariant forall j :: 0 <= j < i ==> rows[j].query != query
      {
        if rows[i].query == query {
          return Some(rows[i].row.day);
        }
      }
      return None;
    }

    /**
     `buildPublicEvidence` up to its commit. A refresh of an unchanged source with today's result does nothing. Otherwise
     stored evidence of the wanted revision is used if it can be decoded, and everything is rebuilt from the source if not.
     Afterwards today's result of the query is stored, and the table is within its limits.
     */
    method Build(query: Query, day: int, source: Path, sourceRevision: Revision, refresh: bool, decodes: bool) returns (built: bool)
      requires Valid()
      modifies this
      ensures Valid() && snapshot.Some? && exists s <- rows :: s.query == query && s.row.day == day
      ensures !built <==> refresh && old(snapshot) == Some(Snapshot(sourceRevision, source))
                          && exists s <- old(rows) :: s.query == query && s.row.day == day
      ensures !built ==> snapshot == old(snapshot) && rows == old(rows)
      ensures refresh ==> snapshot == Some(Snapshot(sourceRevision, source))
      ensures !refresh ==> snapshot == if decodes && old(snapshot).Some? && old(snapshot).value.source == source then old(snapshot) else Some(Snapshot(sourceRevision, source))
      ensures built ==>
                var stored := Stored(query, Row(day, resultOf(Key(path, snapshot.value.revision, day, query))));
                var all := [stored] + if decodes && snapshot == old(snapshot) then OtherQueries(old(rows), query) else [];
                rows == Kept(all, |all|)
      ensures forall s <- rows :: s.query != query ==> s in old(rows) && snapshot == old(snapshot)
    {
      var saved := if snapshot.Some? && snapshot.value.source == source then Some(snapshot.value.revision) else None;
      var revision := if saved.Some? && !refresh then saved.value else sourceRevision;
      if refresh && saved == Some(revision) {
        var current := DayOf(query);
        if current == Some(day) {
          return false;
        }
        OnlyDay(rows, query, day, current);
      }
      if saved == Some(revision) && !decodes {
        saved := None;
      }
      var others := OtherQueries(rows, query);
      if saved != Some(revision) {
        revision := sourceRevision;
        others := [];
      }
      snapshot := Some(Snapshot(revision, source));
      var stored := Stored(query, Row(day, resultOf(Key(path, revision, day, query))));
      NewestFirst(stored, rows, others, path, revision, resultOf);
      KeptOnly([stored] + others, |[stored] + others|);
      rows := Bound([stored] + others);
      return true;
    }
  }

  lemma {:induction false} KeptOnly(rows: seq<Stored>, n: nat)
    requires n <= |rows|
    ensures forall s <- Kept(rows, n) :: s in rows
  {
    if n > 0 {
      KeptOnly(rows, n - 1);
    }
  }

  /** The last deletion of a build. */
  method Bound(rows: seq<Stored>) returns (kept: seq<Stored>)
    ensures kept == Kept(rows, |rows|)
  {
    kept := [];
    var total := 0;
    for i := 0 to |rows|
      invariant kept == Kept(rows, i) && total == Total(rows, i)
    {
      total := total + |rows[i].row.result|;
      if !(i + 1 > MAX_ROWS || (i + 1 > 1 && total > MAX_DISK_BYTES)) {
        kept := kept + [rows[i]];
      }
    }
  }

  lemma OnlyDay(rows: seq<Stored>, query: Query, day: int, current: Option<int>)
    requires DistinctQueries(rows) && current != Some(day)
    requires current.None? ==> forall s <- rows :: s.query != query
    requires current.Some? ==> exists s <- rows :: s.query == query && s.row.day == current.value
    ensures !exists s <- rows :: s.query == query && s.row.day == day
  {
  }

  /** The new row before the other queries is a sound table, and so is what the limits leave of it; the new row stays. */
  lemma NewestFirst(stored: Stored, rows: seq<Stored>, others: seq<Stored>, path: Path, revision: Revision, resultOf: Key -> Value)
    requires others == [] || (others == OtherQueries(rows, stored.query) && RowsOk(rows, path, revision, resultOf))
    requires stored.row.result == resultOf(Key(path, revision, stored.row.day, stored.query))
    ensures var all := [stored] + others;
            RowsOk(Kept(all, |all|), path, revision, resultOf) && stored in Kept(all, |all|)
  {
    var all := [stored] + others;
    if others != [] {
      OthersDistinct(rows, stored.query);
    }
    forall i | 0 <= i < |others| ensures others[i].query != stored.query {
      assert others[i] in others;
    }
    var k := KeptIsPrefix(all, |all|);
    assert all[..k][0] == stored;
  }

  /** A reader of a valid database gets what the cache relies on. */
  lemma ReadersRely(rows: seq<Stored>, path: Path, revision: Revision, resultOf: Key -> Value)
    requires RowsOk(rows, path, revision, resultOf)
    ensures DbOk(Db(Some(revision), Table(rows)), path, resultOf)
  {
    forall q <- Table(rows) ensures Table(rows)[q].result == resultOf(Key(path, revision, Table(rows)[q].day, q)) {
      TableHas(rows, q);
      var s :| s in rows && s.query == q;
    }
  }

  /** A cache over a database that is built between reads: each read returns what is stored for the query. */
  method ReadAfterBuild(cache: Cache, database: Database, query: Query, day: int, source: Path, sourceRevision: Revision, refresh: bool, decodes: bool)
    returns (result: Option<Value>)
    requires cache.Valid() && database.Valid() && cache.resultOf == database.resultOf
    modifies cache, database
    ensures cache.Valid() && database.Valid()
    ensures database.snapshot.Some? && result == Some(database.resultOf(Key(database.path, database.snapshot.value.revision, day, query)))
    ensures refresh ==> result == Some(database.resultOf(Key(database.path, sourceRevision, day, query)))
    ensures !refresh && decodes && old(database.snapshot).Some? && old(database.snapshot).value.source == source ==>
              result == Some(database.resultOf(Key(database.path, old(database.snapshot).value.revision, day, query)))
  {
    var _ := database.Build(query, day, source, sourceRevision, refresh, decodes);
    ReadersRely(database.rows, database.path, database.snapshot.value.revision, database.resultOf);
    TableHas(database.rows, query);
    var s :| s in database.rows && s.query == query && s.row.day == day;
    result := cache.Read(database.View(), database.path, query, true);
  }
}
