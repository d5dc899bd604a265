/** Clustering of parsed documents into families, and the document each variant of a family keeps. */
module Clustering {
  import opened Options

  /** The bucket of a document: its stage, mode and action skeleton. */
  datatype Key = Key(stageId: string, mode: int, skeleton: string)

  datatype Document = Document(id: int, published: int, key: Key, operators: set<string>, variant: string, votes: nat)

  datatype Family = Family(key: int, published: int, count: nat, documents: seq<Document>)

  // The order of publication.

  predicate Before(a: Document, b: Document) { a.published < b.published || (a.published == b.published && a.id < b.id) }

  ghost predicate Ordered(docs: seq<Document>) { forall i, j :: 0 <= i < j < |docs| ==> Before(docs[i], docs[j]) }

  ghost predicate UniqueIds(docs: seq<Document>) { forall i, j :: 0 <= i < j < |docs| ==> docs[i].id != docs[j].id }

  function Insert(d: Document, docs: seq<Document>): (r: seq<Document>)
    ensures multiset(r) == multiset(docs) + multiset{d} && |r| == |docs| + 1
    ensures forall x :: x in r <==> x == d || x in docs
  {
    var n := |docs| - 1;
    if docs == [] || !Before(d, docs[n]) then docs + [d]
    else
      assert docs == docs[..n] + [docs[n]];
      Insert(d, docs[..n]) + [docs[n]]
  }

  /** The documents sorted by publication time, then by id. */
  function Sorted(docs: seq<Document>): (r: seq<Document>)
    ensures multiset(r) == multiset(docs) && |r| == |docs|
    ensures forall x :: x in r <==> x in docs
  {
    if docs == [] then []
    else
      var n := |docs| - 1;
      assert docs == docs[..n] + [docs[n]];
      Insert(docs[n], Sorted(docs[..n]))
  }

  lemma AppendOrders(docs: seq<Document>, d: Document)
    requires Ordered(docs) && forall x <- docs :: Before(x, d)
    ensures Ordered(docs + [d])
  {
  }

  lemma FrontOrdered(docs: seq<Document>)
    requires Ordered(docs) && docs != []
    ensures var n := |docs| - 1; Ordered(docs[..n]) && (forall x <- docs[..n] :: Before(x, docs[n]) && x in docs) && forall x <- docs :: x in docs[..n] || x == docs[n]
  {
  }

  lemma {:induction false} InsertOrders(d: Document, docs: seq<Document>)
    requires Ordered(docs) && forall x <- docs :: x.id != d.id
    ensures Ordered(Insert(d, docs))
  {
    hide Ordered;
    var n := |docs| - 1;
    if docs == [] {
      AppendOrders(docs, d);
    } else {
      FrontOrdered(docs);
      assert docs[n] in docs;
      if Before(d, docs[n]) {
        InsertOrders(d, docs[..n]);
        BeforeIsTransitive(docs[..n], d, docs[n]);
        AppendOrders(Insert(d, docs[..n]), docs[n]);
      } else {
        AppendOrders(docs, d);
      }
    }
  }

  lemma BeforeIsTransitive(front: seq<Document>, d: Document, last: Document)
    requires Before(d, last) && forall x <- front :: Before(x, last)
    ensures forall x <- Insert(d, front) :: Before(x, last)
  {
  }

  lemma {:induction false} SortedIsOrdered(docs: seq<Document>)
    requires UniqueIds(docs)
    ensures Ordered(Sorted(docs))
  {
    if docs != [] {
      var n := |docs| - 1;
      SortedIsOrdered(docs[..n]);
      forall x <- docs[..n] ensures x.id != docs[n].id {
      }
      InsertOrders(docs[n], Sorted(docs[..n]));
    }
  }

  lemma LastIsGreatest(a: seq<Document>)
    requires Ordered(a) && a != []
    ensures var n := |a| - 1; forall x <- a :: x == a[n] || (Before(x, a[n]) && x in a[..n])
    ensures var n := |a| - 1; a[n] !in a[..n] && Ordered(a[..n]) && forall x <- a[..n] :: x in a
  {
  }

  lemma {:induction false} OrderedIsUnique(a: seq<Document>, b: seq<Document>)
    requires Ordered(a) && Ordered(b) && |a| == |b| && forall x :: x in a <==> x in b
    ensures a == b
    decreases |a|
  {
    hide Ordered;
    if a != [] {
      var n, m := |a| - 1, |b| - 1;
      LastIsGreatest(a);
      LastIsGreatest(b);
      assert a[n] in b && b[m] in a;
      assert a[n] == b[m];
      OrderedIsUnique(a[..n], b[..m]);
      assert a == a[..n] + [a[n]] && b == b[..m] + [b[m]];
    }
  }

  /** Any arrangement of the same documents sorts to the same list. */
  lemma PermutedSortsAlike(a: seq<Document>, b: seq<Document>)
    requires UniqueIds(a) && UniqueIds(b) && multiset(a) == multiset(b)
    ensures Sorted(a) == Sorted(b)
  {
    SortedIsOrdered(a);
    SortedIsOrdered(b);
    assert |a| == |multiset(a)| == |multiset(b)| == |b|;
    forall x ensures x in a <==> x in b {
      assert x in a <==> x in multiset(a);
      assert x in b <==> x in multiset(b);
    }
    OrderedIsUnique(Sorted(a), Sorted(b));
  }

  // The families of one bucket.

  /** The Dice coefficient of the operators is at least 0.85. */
  predicate Similar(anchor: Document, d: Document) {
    2.0 * |anchor.operators * d.operators| as real >= 0.85 * (|anchor.operators| + |d.operators|) as real
  }

  /** The family's anchor, its first document, is similar. */
  predicate Fits(family: seq<Document>, d: Document) { family != [] && Similar(family[0], d) }

  /** The first family that fits. */
  function Home(families: seq<seq<Document>>, d: Document): (i: nat)
    ensures i <= |families|
    ensures i < |families| ==> Fits(families[i], d)
    ensures forall j :: 0 <= j < i ==> !Fits(families[j], d)
  {
    if families == [] || Fits(families[0], d) then 0 else 1 + Home(families[1..], d)
  }

  function Placed(families: seq<seq<Document>>, d: Document): seq<seq<Document>> {
    var i := Home(families, d);
    if i < |families| then families[i := families[i] + [d]] else families + [[d]]
  }

  /** The families of documents of one bucket, placed one after another. */
  function Grouped(docs: seq<Document>): seq<seq<Document>> {
    if docs == [] then [] else Placed(Grouped(docs[..|docs| - 1]), docs[|docs| - 1])
  }

  /** All documents in the families. */
  function All(families: seq<seq<Document>>): multiset<Document> {
    if families == [] then multiset{} else All(families[..|families| - 1]) + multiset(families[|families| - 1])
  }

  lemma {:induction false} AllPlus(families: seq<seq<Document>>, i: nat, d: Document)
    requires i < |families|
    ensures All(families[i := families[i] + [d]]) == All(families) + multiset{d}
  {
    var n := |families| - 1;
    var after := families[i := families[i] + [d]];
    if i == n {
      assert after[..n] == families[..n];
    } else {
      assert after[..n] == families[..n][i := families[i] + [d]];
      AllPlus(families[..n], i, d);
    }
  }

  lemma PlacedAddsOne(families: seq<seq<Document>>, d: Document)
    ensures All(Placed(families, d)) == All(families) + multiset{d}
  {
    var i := Home(families, d);
    if i < |families| {
      AllPlus(families, i, d);
    } else {
      assert (families + [[d]])[..|families|] == families;
      assert multiset([d]) == multiset{d};
    }
  }

  /** In each family all are similar to the anchor, and none to the anchor of an earlier family: a document's family is the first it fits. */
  ghost predicate WellGrouped(families: seq<seq<Document>>) {
    && (forall j :: 0 <= j < |families| ==> families[j] != [])
    && (forall j, m :: 0 <= j < |families| && 1 <= m < |families[j]| ==> Fits(families[j], families[j][m]))
    && (forall i, j, m :: 0 <= i < j < |families| && 0 <= m < |families[j]| ==> !Fits(families[i], families[j][m]))
  }

  lemma PlacedWellGrouped(families: seq<seq<Document>>, d: Document)
    requires WellGrouped(families)
    ensures WellGrouped(Placed(families, d))
  {
    hide Similar;
  }

  lemma {:induction false} GroupedKeepsAll(docs: seq<Document>)
    ensures WellGrouped(Grouped(docs)) && All(Grouped(docs)) == multiset(docs)
  {
    if docs == [] {
      assert Grouped(docs) == [];
    } else {
      var n := |docs| - 1;
      GroupedKeepsAll(docs[..n]);
      PlacedWellGrouped(Grouped(docs[..n]), docs[n]);
      PlacedAddsOne(Grouped(docs[..n]), docs[n]);
      assert docs == docs[..n] + [docs[n]];
      hide *;
      GroupedPlus(docs[..n], docs[n]);
    }
  }

  lemma GroupedPlus(docs: seq<Document>, d: Document)
    ensures Grouped(docs + [d]) == Placed(Grouped(docs), d)
  {
    assert (docs + [d])[..|docs|] == docs;
  }

  // All buckets.

  function OfKey(docs: seq<Document>, k: Key): (r: seq<Document>)
    ensures forall d :: d in r <==> d in docs && d.key == k
  {
    if docs == [] then []
    else
      var front, last := OfKey(docs[..|docs| - 1], k), docs[|docs| - 1];
      if last.key == k then front + [last] else front
  }

  /** The keys in the order they first appear. */
  function Keys(docs: seq<Document>): (r: seq<Key>)
    ensures forall k :: k in r <==> exists d <- docs :: d.key == k
    ensures forall i, j :: 0 <= i < j < |r| ==> r[i] != r[j]
  {
    if docs == [] then []
    else
      var front, last := Keys(docs[..|docs| - 1]), docs[|docs| - 1].key;
      if last in front then front else front + [last]
  }

  /** The families bucket by bucket: within a bucket only its own documents matter. */
  function Families(docs: seq<Document>, keys: seq<Key>): seq<seq<Document>> {
    if keys == [] then [] else Families(docs, keys[..|keys| - 1]) + Grouped(OfKey(docs, keys[|keys| - 1]))
  }

  lemma OfKeyPlus(docs: seq<Document>, i: nat, k: Key)
    requires i < |docs|
    ensures OfKey(docs[..i + 1], k) == if docs[i].key == k then OfKey(docs[..i], k) + [docs[i]] else OfKey(docs[..i], k)
  {
    assert docs[..i + 1][..i] == docs[..i];
  }

  lemma KeysPlus(docs: seq<Document>, i: nat)
    requires i < |docs|
    ensures Keys(docs[..i + 1]) == if docs[i].key in Keys(docs[..i]) then Keys(docs[..i]) else Keys(docs[..i]) + [docs[i].key]
  {
    assert docs[..i + 1][..i] == docs[..i];
  }

  /** The documents of some keys. */
  function Gathered(docs: seq<Document>, keys: seq<Key>): multiset<Document> {
    if keys == [] then multiset{} else Gathered(docs, keys[..|keys| - 1]) + multiset(OfKey(docs, keys[|keys| - 1]))
  }

  lemma {:induction false} GatheredPlus(docs: seq<Document>, d: Document, keys: seq<Key>)
    requires forall i, j :: 0 <= i < j < |keys| ==> keys[i] != keys[j]
    ensures Gathered(docs + [d], keys) == Gathered(docs, keys) + One(d.key in keys, d)
  {
    if keys != [] {
      var n := |keys| - 1;
      GatheredPlus(docs, d, keys[..n]);
      OneMoreOfKey(docs, d, keys[n]);
      OneMoreKey(keys, d);
      GatheredIs(docs, keys);
      GatheredIs(docs + [d], keys);
      hide *;
      Shuffle(Gathered(docs, keys[..n]), multiset(OfKey(docs, keys[n])), One(d.key in keys[..n], d), One(d.key == keys[n], d));
    }
  }

  lemma GatheredIs(docs: seq<Document>, keys: seq<Key>)
    requires keys != []
    ensures Gathered(docs, keys) == Gathered(docs, keys[..|keys| - 1]) + multiset(OfKey(docs, keys[|keys| - 1]))
  {
  }

  function One(there: bool, d: Document): multiset<Document> { if there then multiset{d} else multiset{} }

  lemma Shuffle(a: multiset<Document>, b: multiset<Document>, x: multiset<Document>, y: multiset<Document>)
    ensures (a + x) + (b + y) == (a + b) + (x + y)
  {
  }

  lemma OneMoreKey(keys: seq<Key>, d: Document)
    requires keys != [] && forall i, j :: 0 <= i < j < |keys| ==> keys[i] != keys[j]
    ensures var n := |keys| - 1; One(d.key in keys, d) == One(d.key in keys[..n], d) + One(d.key == keys[n], d)
  {
    var n := |keys| - 1;
    assert keys == keys[..n] + [keys[n]];
    assert keys[n] !in keys[..n];
  }

  lemma OneMoreOfKey(docs: seq<Document>, d: Document, k: Key)
    ensures multiset(OfKey(docs + [d], k)) == multiset(OfKey(docs, k)) + One(d.key == k, d)
  {
    assert (docs + [d])[..|docs|] == docs;
  }

  lemma {:induction false} GatheredAll(docs: seq<Document>, keys: seq<Key>)
    requires forall i, j :: 0 <= i < j < |keys| ==> keys[i] != keys[j]
    requires forall d <- docs :: d.key in keys
    ensures Gathered(docs, keys) == multiset(docs)
  {
    if docs == [] {
      NothingGathered(keys);
    } else {
      var n := |docs| - 1;
      assert docs == docs[..n] + [docs[n]];
      GatheredAll(docs[..n], keys);
      GatheredPlus(docs[..n], docs[n], keys);
    }
  }

  lemma {:induction false} NothingGathered(keys: seq<Key>)
    ensures Gathered([], keys) == multiset{}
  {
    if keys != [] {
      NothingGathered(keys[..|keys| - 1]);
    }
  }

  lemma {:induction false} AllJoined(a: seq<seq<Document>>, b: seq<seq<Document>>)
    ensures All(a + b) == All(a) + All(b)
  {
    if b == [] {
      assert a + b == a;
    } else {
      assert (a + b)[..|a + b| - 1] == a + b[..|b| - 1];
      AllJoined(a, b[..|b| - 1]);
    }
  }

  lemma {:induction false} FamiliesGather(docs: seq<Document>, keys: seq<Key>)
    ensures All(Families(docs, keys)) == Gathered(docs, keys)
  {
    if keys != [] {
      var n := |keys| - 1;
      FamiliesGather(docs, keys[..n]);
      GroupedKeepsAll(OfKey(docs, keys[n]));
      AllJoined(Families(docs, keys[..n]), Grouped(OfKey(docs, keys[n])));
    }
  }

  /** Every document is in exactly one family, counted as often as it occurs. */
  lemma EveryDocumentOnce(docs: seq<Document>)
    ensures All(Families(docs, Keys(docs))) == multiset(docs)
  {
    FamiliesGather(docs, Keys(docs));
    GatheredAll(docs, Keys(docs));
  }

  /** Each family is one of its bucket's. */
  lemma {:induction false} FromOneBucket(docs: seq<Document>, keys: seq<Key>, j: nat) returns (k: Key, i: nat)
    requires j < |Families(docs, keys)|
    ensures i < |Grouped(OfKey(docs, k))| && Families(docs, keys)[j] == Grouped(OfKey(docs, k))[i]
  {
    hide Grouped, OfKey;
    var n := |keys| - 1;
    var front := Families(docs, keys[..n]);
    if j < |front| {
      k, i := FromOneBucket(docs, keys[..n], j);
    } else {
      k, i := keys[n], j - |front|;
    }
  }

  lemma {:induction false} InAll(families: seq<seq<Document>>, i: nat, d: Document)
    requires i < |families| && d in families[i]
    ensures d in All(families)
  {
    if i < |families| - 1 {
      InAll(families[..|families| - 1], i, d);
    }
  }

  /** All documents of a family share stage, mode and skeleton, and are similar to its first one. */
  lemma OneBucketOneAnchor(docs: seq<Document>, j: nat)
    requires j < |Families(docs, Keys(docs))|
    ensures var f := Families(docs, Keys(docs))[j];
            f != [] && forall m :: 0 <= m < |f| ==> f[m] in docs && f[m].key == f[0].key && (m > 0 ==> Similar(f[0], f[m]))
  {
    hide Similar, OfKey, Grouped, Families, Keys, All;
    var k, i := FromOneBucket(docs, Keys(docs), j);
    var bucket := Grouped(OfKey(docs, k));
    GroupedKeepsAll(OfKey(docs, k));
    var f := bucket[i];
    forall m | 0 <= m < |f| ensures f[m] in docs && f[m].key == k && (m > 0 ==> Similar(f[0], f[m])) {
      InAll(bucket, i, f[m]);
      assert f[m] in OfKey(docs, k);
      assert m > 0 ==> Fits(bucket[i], bucket[i][m]);
    }
  }

  function Counts(families: seq<seq<Document>>): nat {
    if families == [] then 0 else Counts(families[..|families| - 1]) + |families[|families| - 1]|
  }

  lemma {:induction false} CountsAll(families: seq<seq<Document>>)
    ensures Counts(families) == |All(families)|
  {
    if families != [] {
      CountsAll(families[..|families| - 1]);
    }
  }

  /** The counts of the families add up to the number of documents. */
  lemma CountsAddUp(docs: seq<Document>)
    ensures Counts(Families(docs, Keys(docs))) == |docs|
  {
    EveryDocumentOnce(docs);
    CountsAll(Families(docs, Keys(docs)));
    assert |multiset(docs)| == |docs|;
  }

  // The loops.

  /** The clustering loop of `prepareRecommendations`. */
  method Cluster(docs: seq<Document>) returns (families: seq<seq<Document>>)
    ensures families == Families(docs, Keys(docs))
  {
    hide Grouped, OfKey, Keys, Placed, Families;
    var buckets: map<Key, seq<seq<Document>>> := map[];
    var order: seq<Key> := [];
    NoBuckets(docs[..0], order, buckets);
    for i := 0 to |docs|
      invariant Bucketed(docs[..i], order, buckets)
    {
      var d := docs[i];
      var bucket := Bucket(buckets, d.key);
      BucketedPlus(docs, i, order, buckets);
      if d.key !in buckets {
        order := order + [d.key];
      }
      var home := FindHome(bucket, d);
      PlacedIs(bucket, d);
      if home < |bucket| {
        bucket := bucket[home := bucket[home] + [d]];
      } else {
        bucket := bucket + [[d]];
      }
      buckets := buckets[d.key := bucket];
    }
    assert docs[..|docs|] == docs;
    families := Flat(docs, order, buckets);
  }

  /** The buckets in the order they were first met, each with its families. */
  ghost predicate Bucketed(docs: seq<Document>, order: seq<Key>, buckets: map<Key, seq<seq<Document>>>) {
    && order == Keys(docs) && (forall k :: k in buckets <==> k in order)
    && forall k :: Bucket(buckets, k) == Grouped(OfKey(docs, k))
  }

  function Bucket(buckets: map<Key, seq<seq<Document>>>, k: Key): seq<seq<Document>> { if k in buckets then buckets[k] else [] }

  lemma NoBuckets(docs: seq<Document>, order: seq<Key>, buckets: map<Key, seq<seq<Document>>>)
    requires docs == [] && order == [] && buckets == map[]
    ensures Bucketed(docs, order, buckets)
  {
  }

  lemma BucketedPlus(docs: seq<Document>, i: nat, order: seq<Key>, buckets: map<Key, seq<seq<Document>>>)
    requires i < |docs| && Bucketed(docs[..i], order, buckets)
    ensures var k := docs[i].key;
            Bucketed(docs[..i + 1], if k in buckets then order else order + [k],
                     buckets[k := Placed(Bucket(buckets, k), docs[i])])
  {
    var key := docs[i].key;
    var order' := if key in buckets then order else order + [key];
    var buckets' := buckets[key := Placed(Bucket(buckets, key), docs[i])];
    KeysPlus(docs, i);
    hide Placed, OfKey, Keys, Grouped;
    forall k ensures Bucket(buckets', k) == Grouped(OfKey(docs[..i + 1], k)) {
      OfKeyPlus(docs, i, k);
      GroupedPlus(OfKey(docs[..i], k), docs[i]);
      assert Bucket(buckets, k) == Grouped(OfKey(docs[..i], k));
    }
    assert forall k :: k in buckets' <==> k in order';
  }

  lemma PlacedIs(families: seq<seq<Document>>, d: Document)
    ensures var i := Home(families, d);
            Placed(families, d) == if i < |families| then families[i := families[i] + [d]] else families + [[d]]
  {
  }

  method FindHome(bucket: seq<seq<Document>>, d: Document) returns (i: nat)
    ensures i == Home(bucket, d)
  {
    i := 0;
    while i < |bucket|
      invariant i <= |bucket| && forall j :: 0 <= j < i ==> !Fits(bucket[j], d)
    {
      if Fits(bucket[i], d) {
        break;
      }
      i := i + 1;
    }
    FirstIsHome(bucket, d, i);
  }

  lemma FirstIsHome(bucket: seq<seq<Document>>, d: Document, i: nat)
    requires i <= |bucket| && (forall j :: 0 <= j < i ==> !Fits(bucket[j], d)) && (i < |bucket| ==> Fits(bucket[i], d))
    ensures i == Home(bucket, d)
  {
  }

  method Flat(ghost docs: seq<Document>, order: seq<Key>, buckets: map<Key, seq<seq<Document>>>) returns (families: seq<seq<Document>>)
    requires Bucketed(docs, order, buckets)
    ensures families == Families(docs, order)
  {
    hide *;
    families := [];
    NoFamilies(docs, order[..0]);
    for i := 0 to |order|
      invariant families == Families(docs, order[..i])
    {
      BucketAt(docs, order, buckets, i);
      FamiliesPlus(docs, order, i);
      families := families + buckets[order[i]];
    }
    assert order[..|order|] == order;
  }

  lemma NoFamilies(docs: seq<Document>, keys: seq<Key>)
    requires keys == []
    ensures Families(docs, keys) == []
  {
  }

  lemma BucketAt(docs: seq<Document>, order: seq<Key>, buckets: map<Key, seq<seq<Document>>>, i: nat)
    requires Bucketed(docs, order, buckets) && i < |order|
    ensures order[i] in buckets && buckets[order[i]] == Grouped(OfKey(docs, order[i]))
  {
    hide Grouped, OfKey, Keys;
    assert order[i] in order && Bucket(buckets, order[i]) == Grouped(OfKey(docs, order[i]));
  }

  lemma FamiliesPlus(docs: seq<Document>, keys: seq<Key>, i: nat)
    requires i < |keys|
    ensures Families(docs, keys[..i + 1]) == Families(docs, keys[..i]) + Grouped(OfKey(docs, keys[i]))
  {
    hide Grouped, OfKey;
    assert keys[..i + 1][..i] == keys[..i];
  }

  // The document a variant keeps.

  predicate Beats(a: Document, b: Document) { a.votes > b.votes || (a.votes == b.votes && a.id < b.id) }

  /** The document of a variant that no other of that variant beats. */
  ghost predicate Best(docs: seq<Document>, variant: string, best: Document) {
    best in docs && best.variant == variant && forall d <- docs :: d.variant == variant ==> d == best || Beats(best, d)
  }

  /** The variants in the order they first appear. */
  function Variants(docs: seq<Document>): (r: seq<string>)
    ensures forall v :: v in r <==> exists d <- docs :: d.variant == v
    ensures forall i, j :: 0 <= i < j < |r| ==> r[i] != r[j]
  {
    if docs == [] then []
    else
      var front, last := Variants(docs[..|docs| - 1]), docs[|docs| - 1].variant;
      if last in front then front else front + [last]
  }

  /** One document for each variant: the one with the most votes, of those the one with the smallest id. */
  ghost predicate Kept(docs: seq<Document>, kept: seq<Document>) {
    |kept| == |Variants(docs)| && forall i :: 0 <= i < |kept| ==> Best(docs, Variants(docs)[i], kept[i])
  }

  ghost predicate KeptSoFar(docs: seq<Document>, order: seq<string>, variants: map<string, Document>) {
    && order == Variants(docs) && (forall v :: v in variants <==> v in order)
    && forall v <- variants :: Best(docs, v, variants[v])
  }

  lemma KeptPlus(docs: seq<Document>, i: nat, order: seq<string>, variants: map<string, Document>)
    requires i < |docs| && KeptSoFar(docs[..i], order, variants) && forall x <- docs[..i] :: x.id != docs[i].id
    ensures var d := docs[i];
            KeptSoFar(docs[..i + 1], if d.variant in variants then order else order + [d.variant],
                      if d.variant !in variants || Beats(d, variants[d.variant]) then variants[d.variant := d] else variants)
  {
    hide Best, Beats;
    var d := docs[i];
    assert docs[..i + 1][..i] == docs[..i];
    assert docs[..i + 1] == docs[..i] + [d];
    forall v <- variants { BestPlus(docs[..i], d, v, variants[v]); }
    if d.variant !in variants {
      assert forall x <- docs[..i] :: x.variant != d.variant;
      FirstIsBest(docs[..i], d);
    }
  }

  lemma BestPlus(docs: seq<Document>, d: Document, v: string, best: Document)
    requires Best(docs, v, best) && forall x <- docs :: x.id != d.id
    ensures Best(docs + [d], v, if d.variant == v && Beats(d, best) then d else best)
  {
    assert best in docs + [d] && d in docs + [d];
    assert best.id != d.id;
  }

  lemma FirstIsBest(docs: seq<Document>, d: Document)
    requires forall x <- docs :: x.variant != d.variant
    ensures Best(docs + [d], d.variant, d)
  {
    assert d in docs + [d];
  }

  method KeepVariants(docs: seq<Document>) returns (kept: seq<Document>)
    requires UniqueIds(docs)
    ensures Kept(docs, kept)
  {
    hide Best, Variants, Beats;
    var order: seq<string>, variants: map<string, Document> := [], map[];
    assert KeptSoFar(docs[..0], order, variants) by { NothingKept(docs[..0], order, variants); }
    for i := 0 to |docs|
      invariant KeptSoFar(docs[..i], order, variants)
    {
      var d := docs[i];
      KeptPlus(docs, i, order, variants);
      if d.variant !in variants {
        order := order + [d.variant];
        variants := variants[d.variant := d];
      } else if Beats(d, variants[d.variant]) {
        variants := variants[d.variant := d];
      }
    }
    assert docs[..|docs|] == docs;
    kept := seq(|order|, i requires 0 <= i < |order| => assert order[i] in order; variants[order[i]]);
  }

  lemma NothingKept(docs: seq<Document>, order: seq<string>, variants: map<string, Document>)
    requires docs == [] && order == [] && variants == map[]
    ensures KeptSoFar(docs, order, variants)
  {
  }

  /** What is kept is determined by the documents. */
  lemma KeptIsUnique(docs: seq<Document>, a: seq<Document>, b: seq<Document>)
    requires Kept(docs, a) && Kept(docs, b)
    ensures a == b
  {
    forall i | 0 <= i < |a| ensures a[i] == b[i] {
      assert Best(docs, Variants(docs)[i], a[i]) && Best(docs, Variants(docs)[i], b[i]);
    }
  }

  /** The families of a list of documents: clustered in publication order, counted, then reduced to one document a variant. */
  ghost predicate Prepared(docs: seq<Document>, families: seq<Family>) {
    var clusters := Families(Sorted(docs), Keys(Sorted(docs)));
    |families| == |clusters| && forall i :: 0 <= i < |families| ==> FamilyOf(clusters[i], families[i])
  }

  ghost predicate FamilyOf(cluster: seq<Document>, f: Family) {
    cluster != [] && f.key == cluster[0].id && f.published == cluster[0].published && f.count == |cluster| && Kept(cluster, f.documents)
  }

  /** `prepareRecommendations`, from the parsed documents. */
  method Prepare(docs: seq<Document>) returns (families: seq<Family>)
    requires UniqueIds(docs)
    ensures Prepared(docs, families)
  {
    hide Sorted, Families, Keys, Kept;
    var sorted := Sorted(docs);
    var clusters := Cluster(sorted);
    families := [];
    for i := 0 to |clusters|
      invariant |families| == i && forall j :: 0 <= j < i ==> FamilyOf(clusters[j], families[j])
    {
      OneBucketOneAnchor(sorted, i);
      ClusterIds(docs, i);
      var kept := KeepVariants(clusters[i]);
      families := families + [Family(clusters[i][0].id, clusters[i][0].published, |clusters[i]|, kept)];
    }
  }

  lemma ClusterIds(docs: seq<Document>, j: nat)
    requires UniqueIds(docs) && j < |Families(Sorted(docs), Keys(Sorted(docs)))|
    ensures UniqueIds(Families(Sorted(docs), Keys(Sorted(docs)))[j])
  {
    hide *;
    var sorted := Sorted(docs);
    SortedUnique(docs);
    var k, i := FromOneBucket(sorted, Keys(sorted), j);
    OfKeyUnique(sorted, k);
    GroupedUnique(OfKey(sorted, k), i);
  }

  lemma OneMoreUnique(docs: seq<Document>, d: Document)
    requires UniqueIds(docs) && forall x <- docs :: x.id != d.id
    ensures UniqueIds(docs + [d])
  {
  }

  lemma FrontUnique(docs: seq<Document>)
    requires UniqueIds(docs) && docs != []
    ensures var n := |docs| - 1; UniqueIds(docs[..n]) && forall x <- docs[..n] :: x.id != docs[n].id
  {
  }

  lemma {:induction false} InsertUnique(d: Document, docs: seq<Document>)
    requires UniqueIds(docs) && forall x <- docs :: x.id != d.id
    ensures UniqueIds(Insert(d, docs))
  {
    hide UniqueIds, Before;
    var n := |docs| - 1;
    if docs != [] && Before(d, docs[n]) {
      FrontUnique(docs);
      assert docs[n] in docs && forall x <- docs[..n] :: x in docs;
      InsertUnique(d, docs[..n]);
      OneMoreUnique(Insert(d, docs[..n]), docs[n]);
    } else {
      OneMoreUnique(docs, d);
    }
  }

  lemma {:induction false} SortedUnique(docs: seq<Document>)
    requires UniqueIds(docs)
    ensures UniqueIds(Sorted(docs))
  {
    if docs != [] {
      FrontUnique(docs);
      SortedUnique(docs[..|docs| - 1]);
      InsertUnique(docs[|docs| - 1], Sorted(docs[..|docs| - 1]));
    }
  }

  lemma {:induction false} OfKeyUnique(docs: seq<Document>, k: Key)
    requires UniqueIds(docs)
    ensures UniqueIds(OfKey(docs, k))
  {
    hide UniqueIds;
    if docs == [] {
      assert OfKey(docs, k) == docs;
    } else {
      FrontUnique(docs);
      OfKeyUnique(docs[..|docs| - 1], k);
      if docs[|docs| - 1].key == k {
        OneMoreUnique(OfKey(docs[..|docs| - 1], k), docs[|docs| - 1]);
      }
    }
  }

  lemma {:induction false} GroupedUnique(docs: seq<Document>, i: nat)
    requires UniqueIds(docs) && i < |Grouped(docs)|
    ensures UniqueIds(Grouped(docs)[i]) && forall d <- Grouped(docs)[i] :: d in docs
  {
    hide UniqueIds, Home;
    var n := |docs| - 1;
    var front := Grouped(docs[..n]);
    FrontUnique(docs);
    if i < |front| {
      GroupedUnique(docs[..n], i);
      OneMoreUnique(front[i], docs[n]);
    } else {
      assert Grouped(docs)[i] == [] + [docs[n]];
      NoneUnique([]);
      OneMoreUnique([], docs[n]);
    }
  }

  lemma NoneUnique(docs: seq<Document>)
    requires docs == []
    ensures UniqueIds(docs)
  {
  }

  /** The families do not depend on the order of the input. */
  lemma OrderDoesNotMatter(a: seq<Document>, b: seq<Document>, fa: seq<Family>, fb: seq<Family>)
    requires UniqueIds(a) && UniqueIds(b) && multiset(a) == multiset(b) && Prepared(a, fa) && Prepared(b, fb)
    ensures fa == fb
  {
    PermutedSortsAlike(a, b);
    forall i | 0 <= i < |fa| ensures fa[i] == fb[i] {
      KeptIsUnique(Families(Sorted(a), Keys(Sorted(a)))[i], fa[i].documents, fb[i].documents);
    }
  }
}
