/**
 How the engine spreads weight over documents: equal parts over the stage classes, their categories,
 activities, stages, families and documents, then damped by votes, age and exposure.
 */
module Weights {
  import opened Options
  import opened FiniteSums

  datatype Stage = Stage(permanent: bool, category: string, activity: string)

  /** A stage in one mode; the engine joins both into a string. */
  datatype StageKey = StageKey(id: string, mode: int)

  type Category = (bool, string)

  /**
   One document. `root` is the square root in its vote interval, `decay` its age factor, `ratio` its
   views relative to those of its peers (None without peers that were viewed), and `shares` the part
   of each operator in it.
   */
  datatype Document = Document(likes: nat, dislikes: nat, root: real, decay: real, ratio: Option<real>, shares: map<string, real>)

  /** Documents of one stage; `age` is in days. */
  datatype Family = Family(stage: StageKey, age: real, documents: seq<Document>)

  type Catalog = string -> Stage

  function CategoryOf(info: Catalog, k: StageKey): Category { (info(k.id).permanent, info(k.id).category) }

  function ActivityOf(info: Catalog, k: StageKey): (Category, string) { (CategoryOf(info, k), info(k.id).activity) }

  type Tree = map<Category, map<string, set<StageKey>>>

  ghost function Keys(selected: seq<Family>): set<StageKey> { set f <- selected :: f.stage }

  ghost function Count(selected: seq<Family>, k: StageKey): nat {
    if selected == [] then 0
    else Count(selected[..|selected| - 1], k) + if selected[|selected| - 1].stage == k then 1 else 0
  }

  ghost function Categories(info: Catalog, keys: set<StageKey>): set<Category> { set k <- keys :: CategoryOf(info, k) }

  ghost function Activities(info: Catalog, keys: set<StageKey>, c: Category): set<string> {
    set k <- keys | CategoryOf(info, k) == c :: info(k.id).activity
  }

  ghost function Stages(info: Catalog, keys: set<StageKey>, c: Category, a: string): set<StageKey> {
    set k <- keys | CategoryOf(info, k) == c && info(k.id).activity == a
  }

  /** The tree of the stages: categories, their activities, and the stages of each activity. */
  ghost predicate TreeOf(info: Catalog, keys: set<StageKey>, tree: Tree) {
    && tree.Keys == Categories(info, keys)
    && (forall c <- tree :: tree[c].Keys == Activities(info, keys, c))
    && (forall c <- tree, a <- tree[c] :: tree[c][a] == Stages(info, keys, c, a))
  }

  ghost predicate CountsOf(selected: seq<Family>, counts: map<StageKey, nat>) {
    counts.Keys == Keys(selected) && forall k <- counts :: counts[k] == Count(selected, k)
  }

  lemma GrowSets(info: Catalog, keys: set<StageKey>, key: StageKey, d: Category, b: string)
    ensures Categories(info, keys + {key}) == Categories(info, keys) + {CategoryOf(info, key)}
    ensures Activities(info, keys + {key}, d)
            == Activities(info, keys, d) + if d == CategoryOf(info, key) then {info(key.id).activity} else {}
    ensures Stages(info, keys + {key}, d, b)
            == Stages(info, keys, d, b) + if d == CategoryOf(info, key) && b == info(key.id).activity then {key} else {}
    ensures d !in Categories(info, keys) ==> Activities(info, keys, d) == {}
    ensures b !in Activities(info, keys, d) ==> Stages(info, keys, d, b) == {}
  {
  }

  lemma Grow(info: Catalog, keys: set<StageKey>, tree: Tree, key: StageKey, activities: map<string, set<StageKey>>, stages: set<StageKey>)
    requires TreeOf(info, keys, tree)
    requires activities == if CategoryOf(info, key) in tree then tree[CategoryOf(info, key)] else map[]
    requires stages == if info(key.id).activity in activities then activities[info(key.id).activity] else {}
    ensures TreeOf(info, keys + {key}, tree[CategoryOf(info, key) := activities[info(key.id).activity := stages + {key}]])
  {
    hide Stages, Activities, Categories, CategoryOf;
    var c, a := CategoryOf(info, key), info(key.id).activity;
    var grown, more := tree[c := activities[a := stages + {key}]], keys + {key};
    GrowSets(info, keys, key, c, a);
    assert activities.Keys == Activities(info, keys, c) && stages == Stages(info, keys, c, a);
    forall d <- grown ensures grown[d].Keys == Activities(info, more, d) {
      GrowSets(info, keys, key, d, a);
    }
    forall d <- grown, b <- grown[d] ensures grown[d][b] == Stages(info, more, d, b) {
      GrowSets(info, keys, key, d, b);
    }
  }

  /** Counts the families of each stage and sorts the stages into the tree. */
  method Tally(info: Catalog, selected: seq<Family>) returns (counts: map<StageKey, nat>, tree: Tree)
    ensures CountsOf(selected, counts) && TreeOf(info, Keys(selected), tree)
  {
    hide TreeOf;
    counts, tree := map[], map[];
    EmptyTree(info);
    assert selected[..0] == [];
    for i := 0 to |selected|
      invariant CountsOf(selected[..i], counts) && TreeOf(info, Keys(selected[..i]), tree)
    {
      var key := selected[i].stage;
      var stage := info(key.id);
      assert selected[..i + 1][..i] == selected[..i];
      assert Keys(selected[..i + 1]) == Keys(selected[..i]) + {key};
      NoFamily(selected[..i], key);
      counts := counts[key := (if key in counts then counts[key] else 0) + 1];
      var category := (stage.permanent, stage.category);
      var activities := if category in tree then tree[category] else map[];
      var stages := if stage.activity in activities then activities[stage.activity] else {};
      Grow(info, Keys(selected[..i]), tree, key, activities, stages);
      tree := tree[category := activities[stage.activity := stages + {key}]];
    }
    assert selected[..|selected|] == selected;
  }

  lemma EmptyTree(info: Catalog)
    ensures TreeOf(info, Keys([]), map[])
  {
  }

  lemma {:induction false} NoFamily(selected: seq<Family>, k: StageKey)
    ensures k in Keys(selected) <==> Count(selected, k) > 0
  {
    if selected != [] {
      var front := selected[..|selected| - 1];
      NoFamily(front, k);
      assert Keys(selected) == Keys(front) + {selected[|selected| - 1].stage};
    }
  }

  // The nested average.

  /** How many categories are permanent, or not permanent. */
  ghost function ClassSize(tree: Tree, permanent: bool): nat { |Fiber(tree.Keys, (c: Category) => c.0, permanent)| }

  ghost function ClassBudget(tree: Tree, permanent: bool): real {
    if ClassSize(tree, permanent) == 0 then 0.0 else if permanent then 0.3 else 0.7
  }

  ghost function Budget(tree: Tree): real { ClassBudget(tree, true) + ClassBudget(tree, false) }

  lemma BudgetIsPositive(tree: Tree)
    requires tree != map[]
    ensures Budget(tree) > 0.0
  {
    var c :| c in tree;
    assert c in Fiber(tree.Keys, (c: Category) => c.0, c.0);
  }

  ghost function CategoryShare(tree: Tree, c: Category): real {
    if Budget(tree) == 0.0 then 0.0
    else Part(if c.0 then 0.3 else 0.7, ClassSize(tree, c.0)) / Budget(tree)
  }

  ghost function ActivityShare(tree: Tree, ca: (Category, string)): real {
    if ca.0 in tree then Part(CategoryShare(tree, ca.0), |tree[ca.0]|) else 0.0
  }

  /** The balance of a stage: its part of its activity's part of its category's part. */
  ghost function Balance(info: Catalog, tree: Tree, k: StageKey): real {
    var (c, a) := ActivityOf(info, k);
    if c in tree && a in tree[c] then Part(ActivityShare(tree, (c, a)), |tree[c][a]|) else 0.0
  }

  /** What one document of the family gets before votes, age and exposure. */
  ghost function Factor(info: Catalog, counts: map<StageKey, nat>, tree: Tree, f: Family): real
    requires f.stage in counts
  {
    Part(Part(Balance(info, tree, f.stage), |f.documents|), counts[f.stage])
  }

  ghost predicate Selection(info: Catalog, selected: seq<Family>, counts: map<StageKey, nat>, tree: Tree) {
    && selected != [] && (forall f <- selected :: f.documents != [])
    && CountsOf(selected, counts) && TreeOf(info, Keys(selected), tree)
  }

  ghost function StageAt(selected: seq<Family>, i: int): StageKey
    requires selected != []
  {
    if 0 <= i < |selected| then selected[i].stage else selected[0].stage
  }

  lemma {:induction false} CountIsFiber(selected: seq<Family>, n: nat, k: StageKey)
    requires selected != [] && n <= |selected|
    ensures Count(selected[..n], k) == |Fiber(Below(n), i => StageAt(selected, i), k)|
  {
    hide Below, Keys;
    var key := (i: int) => StageAt(selected, i);
    if n == 0 {
      assert Fiber(Below(0), key, k) == {};
    } else {
      CountIsFiber(selected, n - 1, k);
      assert selected[..n][..n - 1] == selected[..n - 1];
      var before := Fiber(Below(n - 1), key, k);
      assert n - 1 !in before;
      assert Fiber(Below(n), key, k) == before + if StageAt(selected, n - 1) == k then {n - 1} else {};
    }
  }

  /** Summing over families gives the sum of the balances of their stages. */
  lemma SumOverFamilies(selected: seq<Family>, counts: map<StageKey, nat>, g: StageKey -> real, f: int -> real)
    requires selected != [] && CountsOf(selected, counts)
    requires forall i :: 0 <= i < |selected| ==> selected[i].stage in counts
    requires forall i :: 0 <= i < |selected| ==> f(i) == Part(g(selected[i].stage), counts[selected[i].stage])
    ensures SumTo(|selected|, f) == Sum(Keys(selected), g)
  {
    hide Part, Sum, SumTo, Below, Count, Image;
    var key := (i: int) => StageAt(selected, i);
    var n := |selected|;
    forall i <- Below(n) ensures f(i) == Part(g(key(i)), |Fiber(Below(n), key, key(i))|) {
      CountIsFiber(selected, n, key(i));
      assert selected[..n] == selected;
    }
    SumToIsSum(n, f);
    SumOfParts(Below(n), key, f, g);
    StagesPresent(selected);
  }

  lemma StagesPresent(selected: seq<Family>)
    requires selected != []
    ensures Image(Below(|selected|), i => StageAt(selected, i)) == Keys(selected)
  {
    var key := (i: int) => StageAt(selected, i);
    forall k <- Keys(selected) ensures k in Image(Below(|selected|), key) {
      var i :| 0 <= i < |selected| && selected[i].stage == k;
      assert i in Below(|selected|) && key(i) == k;
    }
  }

  /** Of the stages of whole activities: summing over stages gives the sum over their activities. */
  lemma SumOverStages(info: Catalog, keys: set<StageKey>, tree: Tree, part: set<StageKey>)
    requires TreeOf(info, keys, tree) && part <= keys
    requires forall k <- part, j <- keys :: ActivityOf(info, j) == ActivityOf(info, k) ==> j in part
    ensures Sum(part, k => Balance(info, tree, k)) == Sum(Image(part, k => ActivityOf(info, k)), ca => ActivityShare(tree, ca))
  {
    hide Sum, ActivityShare, Budget;
    var key := (k: StageKey) => ActivityOf(info, k);
    var f := (k: StageKey) => Balance(info, tree, k);
    var g := (ca: (Category, string)) => ActivityShare(tree, ca);
    forall k <- part ensures f(k) == Part(g(key(k)), |Fiber(part, key, key(k))|) {
      var (c, a) := ActivityOf(info, k);
      assert k in Stages(info, keys, c, a) && a in Activities(info, keys, c);
      assert Stages(info, keys, c, a) == Fiber(part, key, (c, a));
    }
    SumOfParts(part, key, f, g);
  }

  lemma {:induction false} PairCount(c: Category, names: set<string>)
    ensures |set a <- names :: (c, a)| == |names|
    decreases names
  {
    if names != {} {
      var a :| a in names;
      PairCount(c, names - {a});
      assert (set b <- names :: (c, b)) == (set b <- names - {a} :: (c, b)) + {(c, a)};
    }
  }

  /** Of the stages of whole categories: summing over their activities gives the sum over the categories. */
  lemma SumOverActivities(info: Catalog, keys: set<StageKey>, tree: Tree, part: set<StageKey>)
    requires TreeOf(info, keys, tree) && part <= keys
    requires forall k <- part, j <- keys :: CategoryOf(info, j) == CategoryOf(info, k) ==> j in part
    ensures Sum(Image(part, k => ActivityOf(info, k)), ca => ActivityShare(tree, ca)) == Sum(Image(part, k => CategoryOf(info, k)), c => CategoryShare(tree, c))
  {
    hide Sum, CategoryShare, Budget;
    var all := Image(part, k => ActivityOf(info, k));
    var key := (ca: (Category, string)) => ca.0;
    var f := (ca: (Category, string)) => ActivityShare(tree, ca);
    var g := (c: Category) => CategoryShare(tree, c);
    forall ca <- all ensures f(ca) == Part(g(key(ca)), |Fiber(all, key, key(ca))|) {
      var c := ca.0;
      PairCount(c, tree[c].Keys);
      assert Fiber(all, key, c) == set a <- tree[c].Keys :: (c, a) by {
        forall x <- Fiber(all, key, c) ensures x.1 in tree[c] {
        }
        forall a <- tree[c].Keys ensures (c, a) in Fiber(all, key, c) {
          var k :| k in keys && CategoryOf(info, k) == c && info(k.id).activity == a;
          assert ActivityOf(info, k) == (c, a);
        }
      }
    }
    SumOfParts(all, key, f, g);
    assert Image(all, key) == Image(part, k => CategoryOf(info, k)) by {
      forall k <- part ensures CategoryOf(info, k) in Image(all, key) {
        assert ActivityOf(info, k) in all;
      }
    }
  }

  lemma ClassesPresent(tree: Tree, b: bool)
    ensures b in Image(tree.Keys, (c: Category) => c.0) <==> ClassSize(tree, b) > 0
  {
    var key := (c: Category) => c.0;
    if b in Image(tree.Keys, key) {
      var c :| c in tree.Keys && key(c) == b;
      assert c in Fiber(tree.Keys, key, b);
    }
    if ClassSize(tree, b) > 0 {
      var c :| c in Fiber(tree.Keys, key, b);
      assert key(c) in Image(tree.Keys, key);
    }
  }

  /** Summing over categories gives the two class budgets, and these make up the whole. */
  lemma SumOverCategories(tree: Tree)
    requires tree != map[]
    ensures Sum(tree.Keys, c => CategoryShare(tree, c)) == 1.0
  {
    hide Sum, Part, Budget, Image;
    var key := (c: Category) => c.0;
    var f := (c: Category) => CategoryShare(tree, c);
    BudgetIsPositive(tree);
    var g := (permanent: bool) => if Budget(tree) > 0.0 then ClassBudget(tree, permanent) / Budget(tree) else 0.0;
    forall c <- tree.Keys ensures f(c) == Part(g(key(c)), |Fiber(tree.Keys, key, key(c))|) {
      assert c in Fiber(tree.Keys, key, c.0);
      PartThenDivide(if c.0 then 0.3 else 0.7, ClassSize(tree, c.0), Budget(tree));
    }
    SumOfParts(tree.Keys, key, f, g);
    ClassesPresent(tree, true);
    ClassesPresent(tree, false);
    NothingOver(Budget(tree));
    TwoClasses(Image(tree.Keys, key), g);
    BudgetParts(tree);
  }

  lemma NothingOver(b: real)
    requires b > 0.0
    ensures 0.0 / b == 0.0
  {
  }

  lemma BudgetParts(tree: Tree)
    requires Budget(tree) > 0.0
    ensures ClassBudget(tree, true) / Budget(tree) + ClassBudget(tree, false) / Budget(tree) == 1.0
  {
    hide ClassBudget;
  }

  lemma PartThenDivide(a: real, n: nat, b: real)
    requires b > 0.0
    ensures Part(a, n) / b == Part(a / b, n)
  {
  }

  lemma TwoClasses(classes: set<bool>, g: bool -> real)
    requires forall b: bool :: b !in classes ==> g(b) == 0.0
    ensures Sum(classes, g) == g(true) + g(false)
  {
    var rest := classes - {true};
    if true in classes {
      SumRemove(classes, g, true);
    } else {
      assert rest == classes;
    }
    assert forall b: bool :: b in rest ==> b == false;
    if false in classes {
      SumRemove(rest, g, false);
      assert rest - {false} == {};
    } else {
      assert rest == {};
    }
  }

  /** Over all documents of all selected families the factors add up to exactly 1. */
  lemma FactorsSumToOne(info: Catalog, selected: seq<Family>, counts: map<StageKey, nat>, tree: Tree, f: int -> real)
    requires Selection(info, selected, counts, tree)
    requires forall i :: 0 <= i < |selected| ==> selected[i].stage in counts
    requires forall i :: 0 <= i < |selected| ==> f(i) == |selected[i].documents| as real * Factor(info, counts, tree, selected[i])
    ensures SumTo(|selected|, f) == 1.0
  {
    hide Sum, SumTo, Balance, Budget, TreeOf;
    var keys := Keys(selected);
    var g := (k: StageKey) => Balance(info, tree, k);
    forall i | 0 <= i < |selected| ensures f(i) == Part(g(selected[i].stage), counts[selected[i].stage]) {
      PartOfPart(g(selected[i].stage), |selected[i].documents|, counts[selected[i].stage]);
    }
    SumOverFamilies(selected, counts, g, f);
    SumOverStages(info, keys, tree, keys);
    SumOverActivities(info, keys, tree, keys);
    AllCategories(info, keys, tree);
    NotEmpty(info, selected, tree);
    SumOverCategories(tree);
  }

  lemma AllCategories(info: Catalog, keys: set<StageKey>, tree: Tree)
    requires TreeOf(info, keys, tree)
    ensures Image(keys, k => CategoryOf(info, k)) == tree.Keys
  {
  }

  lemma PartOfPart(a: real, n: nat, m: nat)
    requires n > 0
    ensures n as real * Part(Part(a, n), m) == Part(a, m)
  {
  }

  lemma NotEmpty(info: Catalog, selected: seq<Family>, tree: Tree)
    requires selected != [] && TreeOf(info, Keys(selected), tree)
    ensures tree != map[]
  {
    assert selected[0].stage in Keys(selected);
    assert CategoryOf(info, selected[0].stage) in tree.Keys;
  }

  // The vote interval.

  const Z2 := 3.8416 // 1.96 squared

  datatype Interval = Interval(lower: real, upper: real)

  /** What the square root in the interval has to be: non-negative, with the right square. */
  ghost predicate IsRootAt(n: real, p: real, root: real)
    requires n > 0.0
  {
    root >= 0.0 && root * root == (p * (1.0 - p) + Z2 / (4.0 * n)) / n
  }

  function WilsonAt(n: real, p: real, root: real): Interval
    requires n > 0.0
  {
    var center, margin := p + Z2 / (2.0 * n), 1.96 * root;
    Interval((center - margin) / (1.0 + Z2 / n), (center + margin) / (1.0 + Z2 / n))
  }

  ghost predicate IsRoot(likes: nat, dislikes: nat, root: real) {
    likes + dislikes > 0 ==> IsRootAt((likes + dislikes) as real, likes as real / (likes + dislikes) as real, root)
  }

  function Wilson(likes: nat, dislikes: nat, root: real): Interval {
    if likes + dislikes == 0 then Interval(0.0, 1.0)
    else WilsonAt((likes + dislikes) as real, likes as real / (likes + dislikes) as real, root)
  }

  lemma Product(x: real, y: real)
    requires x >= 0.0 && y >= 0.0
    ensures x * y >= 0.0
  {
  }

  lemma SquaresGrow(x: real, y: real)
    requires 0.0 <= y < x
    ensures y * y < x * x
  {
    var d := x - y;
    Product(y, d);
    assert d * d > 0.0;
    assert x * x == y * y + 2.0 * (y * d) + d * d;
  }

  lemma SquaresCompare(x: real, y: real)
    requires y >= 0.0 && x * x <= y * y
    ensures x <= y && (x * x < y * y ==> x < y)
  {
    if x > y {
      SquaresGrow(x, y);
    }
  }

  /** The interval in terms of p, half of the correction a, and the margin m. */
  lemma IntervalBounds(p: real, a: real, m: real)
    requires 0.0 <= p <= 1.0 && a > 0.0 && m >= 0.0
    requires m * m == 2.0 * a * (p * (1.0 - p)) + a * a
    ensures 0.0 <= p + a - m <= p * (1.0 + 2.0 * a) <= p + a + m <= 1.0 + 2.0 * a
    ensures p + a - m > 0.0 <==> p > 0.0
  {
    if p == 0.0 {
      SquaresCompare(a, m);
    }
    var q := 1.0 - p;
    LowEnd(p, a, m);
    LowEnd(q, a, m);
    assert p * (1.0 + 2.0 * a) + q * (1.0 + 2.0 * a) == 1.0 + 2.0 * a;
  }

  lemma LowEnd(p: real, a: real, m: real)
    requires 0.0 <= p <= 1.0 && a > 0.0 && m >= 0.0
    requires m * m == 2.0 * a * (p * (1.0 - p)) + a * a
    ensures 0.0 <= p + a - m <= p * (1.0 + 2.0 * a)
    ensures p > 0.0 ==> p + a - m > 0.0
  {
    LowEndAbove(p, a, m);
    LowEndBelow(p, a, m);
  }

  lemma LowEndAbove(p: real, a: real, m: real)
    requires 0.0 <= p && a > 0.0 && m >= 0.0 && m * m == 2.0 * a * (p * (1.0 - p)) + a * a
    ensures m <= p + a && (p > 0.0 ==> m < p + a)
  {
    var pp := p * p;
    Product(p, p);
    Product(a, pp);
    if p > 0.0 {
      SquaresGrow(p, 0.0);
    }
    Complement(p);
    AboveMargin(p, a, m, pp, p - pp);
    SquaresCompare(m, p + a);
  }

  lemma LowEndBelow(p: real, a: real, m: real)
    requires 0.0 <= p <= 1.0 && a > 0.0 && m >= 0.0 && m * m == 2.0 * a * (p * (1.0 - p)) + a * a
    ensures p + a - m <= p * (1.0 + 2.0 * a)
  {
    var pq := p * (1.0 - p);
    Product(p, 1.0 - p);
    Product(a, pq);
    Product(a, a * pq);
    BelowMargin(p, a, m, pq);
    SquaresCompare(a * (1.0 - 2.0 * p), m);
    Expand(p, a);
  }

  lemma Complement(p: real)
    ensures p * (1.0 - p) == p - p * p
  {
  }

  lemma Expand(p: real, a: real)
    ensures p + a - a * (1.0 - 2.0 * p) == p * (1.0 + 2.0 * a)
  {
  }

  lemma AboveMargin(p: real, a: real, m: real, pp: real, pq: real)
    requires pp == p * p && pq == p - pp && m * m == 2.0 * a * pq + a * a && a * pp >= 0.0 && pp >= 0.0
    ensures m * m <= (p + a) * (p + a) && (pp > 0.0 ==> m * m < (p + a) * (p + a))
  {
    assert a * pq == a * p - a * pp;
    assert (p + a) * (p + a) == pp + 2.0 * (a * p) + a * a;
  }

  lemma BelowMargin(p: real, a: real, m: real, pq: real)
    requires pq == p * (1.0 - p) && m * m == 2.0 * a * pq + a * a && a * pq >= 0.0 && a * (a * pq) >= 0.0
    ensures (a * (1.0 - 2.0 * p)) * (a * (1.0 - 2.0 * p)) <= m * m
  {
    var t := 1.0 - 2.0 * p;
    assert t * t == 1.0 - 4.0 * pq;
    SquareOfProduct(a, t);
    assert a * (a * (1.0 - 4.0 * pq)) == a * a - 4.0 * (a * (a * pq));
  }

  lemma SquareOfProduct(a: real, t: real)
    ensures (a * t) * (a * t) == a * (a * (t * t))
  {
  }

  lemma WilsonAtBounds(n: real, p: real, root: real)
    requires n > 0.0 && 0.0 <= p <= 1.0 && IsRootAt(n, p, root)
    ensures var w := WilsonAt(n, p, root);
            && 0.0 <= w.lower <= p <= w.upper <= 1.0
            && (w.lower > 0.0 <==> p > 0.0)
  {
    var a, m := Z2 / (2.0 * n), 1.96 * root;
    Correction(n, a);
    Margin(n, p, a, root);
    IntervalBounds(p, a, m);
    Ends(p + a - m, p, p + a + m, 1.0 + 2.0 * a);
  }

  lemma Ends(low: real, p: real, high: real, w: real)
    requires w > 0.0 && 0.0 <= low <= p * w <= high <= w
    ensures 0.0 <= low / w <= p <= high / w <= 1.0 && (low > 0.0 <==> low / w > 0.0)
  {
    DivideBy(0.0, low, w);
    DivideBy(low, p * w, w);
    DivideBy(p * w, high, w);
    DivideBy(high, w, w);
    DivideBack(p, w);
  }

  /** The vote interval lies in [0, 1] and holds the share of likes; its lower end is positive iff there are likes. */
  lemma WilsonBounds(likes: nat, dislikes: nat, root: real)
    requires IsRoot(likes, dislikes, root)
    ensures var w := Wilson(likes, dislikes, root);
            && 0.0 <= w.lower <= w.upper <= 1.0
            && (likes + dislikes > 0 ==> w.lower <= likes as real / (likes + dislikes) as real <= w.upper)
            && (w.lower > 0.0 <==> likes > 0)
  {
    hide IsRootAt, WilsonAt;
    if likes + dislikes > 0 {
      var n := (likes + dislikes) as real;
      DivideBy(0.0, likes as real, n);
      DivideBy(likes as real, n, n);
      WilsonAtBounds(n, likes as real / n, root);
    }
  }

  lemma Correction(n: real, a: real)
    requires n > 0.0 && a == Z2 / (2.0 * n)
    ensures a > 0.0 && Z2 / n == 2.0 * a && Z2 / (4.0 * n) == a / 2.0 && a * n == Z2 / 2.0
  {
  }

  lemma Margin(n: real, p: real, a: real, root: real)
    requires n > 0.0 && a > 0.0 && a * n == Z2 / 2.0 && Z2 / (4.0 * n) == a / 2.0
    requires root * root == (p * (1.0 - p) + Z2 / (4.0 * n)) / n
    ensures (1.96 * root) * (1.96 * root) == 2.0 * a * (p * (1.0 - p)) + a * a
  {
    var r, pq := root * root, p * (1.0 - p);
    assert r * n == pq + a / 2.0;
    assert Z2 * r == 2.0 * (a * n) * r == 2.0 * (a * (r * n));
    assert a * (pq + a / 2.0) == a * pq + a * a / 2.0;
  }

  lemma DivideBack(x: real, w: real)
    requires w > 0.0
    ensures (x * w) / w == x
  {
  }

  lemma DivideBy(x: real, y: real, w: real)
    requires w > 0.0 && x <= y
    ensures x / w <= y / w && (x < y ==> x / w < y / w) && 0.0 / w == 0.0 && w / w == 1.0
  {
  }
}
