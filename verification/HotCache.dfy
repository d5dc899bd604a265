/** The in-memory cache of stored recommendations: at most two results and four megabytes, never different from the database. */
module HotCache {
  import opened Options

  type Path = string
  type Revision = string
  type Query = string
  type Value = seq<char>

  const MAX_HOT_BYTES := 4 * 1024 * 1024

  datatype Key = Key(path: Path, revision: Revision, day: int, query: Query)

  datatype Row = Row(day: int, result: Value)

  /** One evidence database: the published revision, and the stored queries. */
  datatype Db = Db(revision: Option<Revision>, queries: map<Query, Row>)

  /** Every stored result is the one of its path, revision, day and query. */
  ghost predicate DbOk(db: Db, path: Path, resultOf: Key -> Value) {
    db.revision.Some? ==>
      forall q <- db.queries :: db.queries[q].result == resultOf(Key(path, db.revision.value, db.queries[q].day, q))
  }

  datatype Entry = Entry(key: Key, value: Value)

  function Bytes(s: seq<Entry>): (n: nat) {
    if s == [] then 0 else Bytes(s[..|s| - 1]) + |s[|s| - 1].value|
  }

  lemma {:induction false} BytesSplit(a: seq<Entry>, b: seq<Entry>)
    ensures Bytes(a + b) == Bytes(a) + Bytes(b)
  {
    if b == [] {
      assert a + b == a;
    } else {
      assert (a + b)[..|a + b| - 1] == a + b[..|b| - 1];
      BytesSplit(a, b[..|b| - 1]);
    }
  }

  predicate Fits(s: seq<Entry>) { |s| <= 2 && Bytes(s) <= MAX_HOT_BYTES }

  /** Drops the oldest entries until the rest fits. */
  function Trimmed(s: seq<Entry>): (r: seq<Entry>)
    ensures Fits(r) && |r| <= |s|
  {
    if Fits(s) then s else Trimmed(s[1..])
  }

  /** Trimming keeps the longest suffix that fits, and the newest entry whenever that one fits by itself. */
  lemma {:induction false} TrimmedIsLongest(s: seq<Entry>, k: nat)
    requires k <= |s| && Fits(s[k..])
    ensures |Trimmed(s)| >= |s| - k && Trimmed(s) == s[|s| - |Trimmed(s)|..]
  {
    if !Fits(s) {
      assert k > 0 by { assert s[0..] == s; }
      assert s[1..][k - 1..] == s[k..];
      TrimmedIsLongest(s[1..], k - 1);
      var n := |Trimmed(s)|;
      assert s[1..][|s| - 1 - n..] == s[|s| - n..];
    }
  }

  lemma NewestStays(s: seq<Entry>)
    requires s != [] && |s[|s| - 1].value| <= MAX_HOT_BYTES
    ensures Trimmed(s) != [] && Trimmed(s)[|Trimmed(s)| - 1] == s[|s| - 1]
  {
    var last := s[|s| - 1..];
    assert last == [s[|s| - 1]] && last[..0] == [];
    assert Bytes(last) == |s[|s| - 1].value|;
    TrimmedIsLongest(s, |s| - 1);
  }

  function Without(s: seq<Entry>, key: Key): (r: seq<Entry>)
    ensures forall e :: e in r <==> e in s && e.key != key
    ensures forall i, j :: 0 <= i < j < |r| ==> r[i] in s && r[j] in s
    ensures Bytes(r) <= Bytes(s)
  {
    if s == [] then []
    else
      var rest := Without(s[..|s| - 1], key);
      if s[|s| - 1].key == key then rest
      else
        assert (rest + [s[|s| - 1]])[..|rest|] == rest;
        rest + [s[|s| - 1]]
  }

  ghost predicate DistinctKeys(s: seq<Entry>) { forall i, j :: 0 <= i < j < |s| ==> s[i].key != s[j].key }

  lemma {:induction false} WithoutDistinct(s: seq<Entry>, key: Key)
    requires DistinctKeys(s)
    ensures DistinctKeys(Without(s, key))
  {
    if s != [] {
      var front, last := s[..|s| - 1], s[|s| - 1];
      WithoutDistinct(front, key);
      var rest := Without(front, key);
      forall i | 0 <= i < |rest| ensures rest[i].key != last.key {
        assert rest[i] in rest;
        var j :| 0 <= j < |front| && front[j] == rest[i];
        assert s[j].key != s[|s| - 1].key;
      }
    }
  }

  /** The cache after a successful read: the value moves to the newest place if it fits at all. */
  function Used(s: seq<Entry>, e: Entry): seq<Entry> {
    if |e.value| > MAX_HOT_BYTES then Trimmed(s) else Trimmed(Without(s, e.key) + [e])
  }

  class Cache {
    const resultOf: Key -> Value
    var hot: seq<Entry>
    var hotBytes: int
    var catalogCache: Option<(Path, Revision)>

    constructor (resultOf: Key -> Value)
      ensures Valid() && this.resultOf == resultOf && hot == [] && catalogCache == None
    {
      this.resultOf := resultOf;
      hot, hotBytes, catalogCache := [], 0, None;
    }

    /** The byte count is the sum, the bounds hold, and each entry is what its key stands for, of the revision whose catalog is cached. */
    ghost predicate Valid()
      reads this
    {
      && hotBytes == Bytes(hot) && Fits(hot) && DistinctKeys(hot)
      && (catalogCache.None? ==> hot == [])
      && forall e <- hot :: e.value == resultOf(e.key) && |e.value| <= MAX_HOT_BYTES
                            && catalogCache == Some((e.key.path, e.key.revision))
    }

    method Clear()
      modifies this
      ensures Valid() && hot == [] && catalogCache == None
    {
      hot, hotBytes, catalogCache := [], 0, None;
    }

    /** `readCatalog`: a new revision or path empties the cache. */
    method ReadCatalog(path: Path, revision: Revision)
      requires Valid()
      modifies this
      ensures Valid() && catalogCache == Some((path, revision))
      ensures hot == if old(catalogCache) == Some((path, revision)) then old(hot) else []
    {
      if catalogCache != Some((path, revision)) {
        hot, hotBytes := [], 0;
        catalogCache := Some((path, revision));
      }
    }

    method Lookup(key: Key) returns (value: Option<Value>)
      requires Valid()
      ensures value.Some? <==> exists e <- hot :: e.key == key
      ensures value.Some? ==> Entry(key, value.value) in hot
    {
      for i := 0 to |hot|
        invariant forall k :: 0 <= k < i ==> hot[k].key != key
      {
        if hot[i].key == key {
          return Some(hot[i].value);
        }
      }
      return None;
    }

    /** The eviction loop. */
    method Evict()
      requires hotBytes == Bytes(hot)
      modifies this`hot, this`hotBytes
      ensures hot == Trimmed(old(hot)) && hotBytes == Bytes(hot)
    {
      while |hot| > 2 || hotBytes > MAX_HOT_BYTES
        invariant hotBytes == Bytes(hot) && Trimmed(hot) == Trimmed(old(hot))
        decreases |hot|
      {
        assert hot == [hot[0]] + hot[1..];
        BytesSplit([hot[0]], hot[1..]);
        assert [hot[0]][..0] == [];
        hotBytes := hotBytes - |hot[0].value|;
        hot := hot[1..];
      }
    }

    /**
     `readStoredRecommendations`, inside one read transaction on db. The answer is the row of the database, hit or miss;
     any failure empties the cache.
     */
    method Read(db: Db, path: Path, query: Query, decodes: bool) returns (result: Option<Value>)
      requires Valid() && DbOk(db, path, resultOf)
      modifies this
      ensures Valid()
      ensures result == if db.revision.Some? && query in db.queries && decodes then Some(db.queries[query].result) else None
      ensures result.None? ==> hot == []
      ensures result.Some? ==>
                var key := Key(path, db.revision.value, db.queries[query].day, query);
                hot == Used(if old(catalogCache) == Some((path, db.revision.value)) then old(hot) else [], Entry(key, result.value))
    {
      if db.revision.None? {
        Clear();
        return None;
      }
      ReadCatalog(path, db.revision.value);
      if query !in db.queries {
        Clear();
        return None;
      }
      var key := Key(path, db.revision.value, db.queries[query].day, query);
      var value := Use(key, db.queries[query].result);
      if !decodes {
        Clear();
        return None;
      }
      return Some(value);
    }

    /** The cached value, or else the stored one; what was used becomes the newest entry. */
    method Use(key: Key, stored: Value) returns (value: Value)
      requires Valid() && stored == resultOf(key) && catalogCache == Some((key.path, key.revision))
      modifies this
      ensures Valid() && value == stored && catalogCache == old(catalogCache)
      ensures hot == Used(old(hot), Entry(key, stored))
    {
      hide Bytes, Without, Trimmed, DistinctKeys;
      var cached := Lookup(key);
      ghost var before := hot;
      if cached.None? {
        value := stored;
        if |value| <= MAX_HOT_BYTES {
          MissedWithout(hot, key);
          Appended(hot, Entry(key, value));
          hot := hot + [Entry(key, value)];
          hotBytes := hotBytes + |value|;
        }
      } else {
        value := cached.value;
        Moved(hot, Entry(key, value));
        hot := Without(hot, key) + [Entry(key, value)];
      }
      ghost var all := hot;
      Evict();
      TrimmedPart(all);
    }
  }

  lemma MissedWithout(s: seq<Entry>, key: Key)
    requires forall e <- s :: e.key != key
    ensures Without(s, key) == s
  {
    if s != [] {
      assert s[|s| - 1] in s;
      MissedWithout(s[..|s| - 1], key);
    }
  }

  lemma Appended(s: seq<Entry>, e: Entry)
    requires DistinctKeys(s) && forall x <- s :: x.key != e.key
    ensures DistinctKeys(s + [e]) && Bytes(s + [e]) == Bytes(s) + |e.value|
  {
    assert (s + [e])[..|s|] == s;
  }

  /** Moving an entry to the newest place changes neither the keys nor the bytes. */
  lemma Moved(s: seq<Entry>, e: Entry)
    requires DistinctKeys(s) && e in s
    ensures DistinctKeys(Without(s, e.key) + [e]) && Bytes(Without(s, e.key) + [e]) == Bytes(s)
  {
    WithoutDistinct(s, e.key);
    Appended(Without(s, e.key), e);
    var i :| 0 <= i < |s| && s[i] == e;
    WithoutBytes(s, e.key, i);
  }

  lemma {:induction false} WithoutBytes(s: seq<Entry>, key: Key, i: nat)
    requires DistinctKeys(s) && i < |s| && s[i].key == key
    ensures Bytes(Without(s, key)) + |s[i].value| == Bytes(s)
  {
    var front, last := s[..|s| - 1], s[|s| - 1];
    if i == |s| - 1 {
      assert forall x <- front :: x.key != key;
      MissedWithout(front, key);
    } else {
      WithoutBytes(front, key, i);
      var rest := Without(front, key);
      assert (rest + [last])[..|rest|] == rest;
    }
  }

  lemma {:induction false} TrimmedPart(s: seq<Entry>)
    requires DistinctKeys(s)
    ensures DistinctKeys(Trimmed(s)) && forall e <- Trimmed(s) :: e in s
  {
    if !Fits(s) {
      TrimmedPart(s[1..]);
    }
  }

  /** The value just read survives the eviction if it fits, and so does the one read before whenever both do. */
  lemma RecentlyUsedStays(s: seq<Entry>, e: Entry)
    requires |e.value| <= MAX_HOT_BYTES
    ensures Used(s, e) != [] && Used(s, e)[|Used(s, e)| - 1] == e
    ensures var others := Without(s, e.key);
            others != [] && |others[|others| - 1].value| + |e.value| <= MAX_HOT_BYTES ==> Used(s, e) == [others[|others| - 1], e]
  {
    hide Without, Trimmed, Bytes;
    var others := Without(s, e.key);
    var all := others + [e];
    NewestStays(all);
    if others != [] && |others[|others| - 1].value| + |e.value| <= MAX_HOT_BYTES {
      var last := others[|others| - 1];
      BytesOfTwo(last, e);
      assert all[|all| - 2..] == [last, e];
      TrimmedIsLongest(all, |all| - 2);
    }
  }

  lemma BytesOfOne(s: seq<Entry>)
    requires |s| == 1
    ensures Bytes(s) == |s[0].value|
  {
    assert s[..0] == [];
  }

  lemma BytesOfTwo(a: Entry, b: Entry)
    ensures Bytes([a, b]) == |a.value| + |b.value|
  {
    BytesSplit([a], [b]);
    assert [a] + [b] == [a, b];
    BytesOfOne([a]);
    BytesOfOne([b]);
  }
}
