/**
 What each class of stages, each category, activity, stage and family is given. Together these laws leave the
 factors no freedom: the classes get their budgets, and everything below shares alike.
 */
module Shares {
  import opened Options
  import opened FiniteSums
  import opened Weights

  /** What the documents at some stages get together, before votes, age and exposure. */
  ghost function Given(info: Catalog, selected: seq<Family>, counts: map<StageKey, nat>, tree: Tree, part: set<StageKey>): real {
    SumTo(|selected|, (i: int) =>
      if 0 <= i < |selected| && selected[i].stage in part && selected[i].stage in counts
      then |selected[i].documents| as real * Factor(info, counts, tree, selected[i]) else 0.0)
  }

  ghost function OfClass(info: Catalog, selected: seq<Family>, permanent: bool): set<StageKey> {
    set k <- Keys(selected) | info(k.id).permanent == permanent
  }

  ghost function OfCategory(info: Catalog, selected: seq<Family>, c: Category): set<StageKey> {
    set k <- Keys(selected) | CategoryOf(info, k) == c
  }

  ghost function OfActivity(info: Catalog, selected: seq<Family>, ca: (Category, string)): set<StageKey> {
    set k <- Keys(selected) | ActivityOf(info, k) == ca
  }

  lemma {:induction false} SumRestricted<T>(s: set<T>, part: set<T>, f: T -> real, g: T -> real)
    requires part <= s && forall x <- s :: g(x) == if x in part then f(x) else 0.0
    ensures Sum(s, g) == Sum(part, f)
    decreases s
  {
    if s == {} {
      assert part == {};
    } else {
      hide Sum;
      var x :| x in s;
      SumRemove(s, g, x);
      if x in part {
        SumRemove(part, f, x);
        SumRestricted(s - {x}, part - {x}, f, g);
      } else {
        SumRestricted(s - {x}, part, f, g);
      }
    }
  }

  /** It is the sum of the stages' balances. */
  lemma GivenIsBalances(info: Catalog, selected: seq<Family>, counts: map<StageKey, nat>, tree: Tree, part: set<StageKey>)
    requires Selection(info, selected, counts, tree) && part <= Keys(selected)
    ensures Given(info, selected, counts, tree, part) == Sum(part, k => Balance(info, tree, k))
  {
    hide Sum, SumTo, Balance, Budget, TreeOf;
    var balance := (k: StageKey) => Balance(info, tree, k);
    var g := (k: StageKey) => if k in part then Balance(info, tree, k) else 0.0;
    var f := (i: int) =>
      if 0 <= i < |selected| && selected[i].stage in part && selected[i].stage in counts
      then |selected[i].documents| as real * Factor(info, counts, tree, selected[i]) else 0.0;
    forall i | 0 <= i < |selected| ensures f(i) == Part(g(selected[i].stage), counts[selected[i].stage]) {
      PartOfPart(g(selected[i].stage), |selected[i].documents|, counts[selected[i].stage]);
    }
    SumOverFamilies(selected, counts, g, f);
    SumRestricted(Keys(selected), part, balance, g);
  }

  lemma {:induction false} SumOfOne<T>(x: T, f: T -> real)
    ensures Sum({x}, f) == f(x)
  {
    SumRemove({x}, f, x);
    assert {x} - {x} == {};
  }

  /** Two families of one stage get alike, and each document of a family the same part of that. */
  lemma FamiliesShareAlike(info: Catalog, selected: seq<Family>, counts: map<StageKey, nat>, tree: Tree, i: nat, j: nat)
    requires Selection(info, selected, counts, tree) && i < |selected| && j < |selected| && selected[i].stage == selected[j].stage
    ensures selected[i].stage in counts
    ensures |selected[i].documents| as real * Factor(info, counts, tree, selected[i])
            == |selected[j].documents| as real * Factor(info, counts, tree, selected[j])
  {
    hide Balance, TreeOf;
    var k := selected[i].stage;
    PartOfPart(Balance(info, tree, k), |selected[i].documents|, counts[k]);
    PartOfPart(Balance(info, tree, k), |selected[j].documents|, counts[k]);
  }

  /** Two stages of one activity are given alike. */
  lemma StagesShareAlike(info: Catalog, selected: seq<Family>, counts: map<StageKey, nat>, tree: Tree, k: StageKey, j: StageKey)
    requires Selection(info, selected, counts, tree) && k in Keys(selected) && j in Keys(selected) && ActivityOf(info, k) == ActivityOf(info, j)
    ensures Given(info, selected, counts, tree, {k}) == Given(info, selected, counts, tree, {j})
  {
    hide Given, Sum;
    GivenIsBalances(info, selected, counts, tree, {k});
    GivenIsBalances(info, selected, counts, tree, {j});
    SumOfOne(k, k => Balance(info, tree, k));
    SumOfOne(j, k => Balance(info, tree, k));
  }

  /** What an activity is given is its share. */
  lemma ActivityIsGiven(info: Catalog, selected: seq<Family>, counts: map<StageKey, nat>, tree: Tree, ca: (Category, string))
    requires Selection(info, selected, counts, tree) && OfActivity(info, selected, ca) != {}
    ensures Given(info, selected, counts, tree, OfActivity(info, selected, ca)) == ActivityShare(tree, ca)
  {
    hide Given, Sum, ActivityShare, Balance, TreeOf;
    var part := OfActivity(info, selected, ca);
    GivenIsBalances(info, selected, counts, tree, part);
    SumOverStages(info, Keys(selected), tree, part);
    assert Image(part, k => ActivityOf(info, k)) == {ca};
    SumOfOne(ca, ca => ActivityShare(tree, ca));
  }

  /** What a category is given is its share. */
  lemma CategoryIsGiven(info: Catalog, selected: seq<Family>, counts: map<StageKey, nat>, tree: Tree, c: Category)
    requires Selection(info, selected, counts, tree) && OfCategory(info, selected, c) != {}
    ensures Given(info, selected, counts, tree, OfCategory(info, selected, c)) == CategoryShare(tree, c)
  {
    hide Given, Sum, ActivityShare, CategoryShare, Balance, TreeOf;
    var part := OfCategory(info, selected, c);
    GivenIsBalances(info, selected, counts, tree, part);
    SumOverStages(info, Keys(selected), tree, part);
    SumOverActivities(info, Keys(selected), tree, part);
    assert Image(part, k => CategoryOf(info, k)) == {c};
    SumOfOne(c, c => CategoryShare(tree, c));
  }

  /** Two activities of one category are given alike. */
  lemma ActivitiesShareAlike(info: Catalog, selected: seq<Family>, counts: map<StageKey, nat>, tree: Tree, c: Category, a: string, b: string)
    requires Selection(info, selected, counts, tree)
    requires OfActivity(info, selected, (c, a)) != {} && OfActivity(info, selected, (c, b)) != {}
    ensures Given(info, selected, counts, tree, OfActivity(info, selected, (c, a)))
            == Given(info, selected, counts, tree, OfActivity(info, selected, (c, b)))
  {
    hide Given, Sum, CategoryShare, Balance, TreeOf;
    ActivityIsGiven(info, selected, counts, tree, (c, a));
    ActivityIsGiven(info, selected, counts, tree, (c, b));
  }

  /** Two categories of one class are given alike. */
  lemma CategoriesShareAlike(info: Catalog, selected: seq<Family>, counts: map<StageKey, nat>, tree: Tree, c: Category, d: Category)
    requires Selection(info, selected, counts, tree) && c.0 == d.0
    requires OfCategory(info, selected, c) != {} && OfCategory(info, selected, d) != {}
    ensures Given(info, selected, counts, tree, OfCategory(info, selected, c)) == Given(info, selected, counts, tree, OfCategory(info, selected, d))
  {
    hide Given, Sum, Balance, TreeOf;
    CategoryIsGiven(info, selected, counts, tree, c);
    CategoryIsGiven(info, selected, counts, tree, d);
  }

  /** The permanent stages get three tenths and the others seven, or everything when they are alone. */
  lemma ClassesGetTheirBudgets(info: Catalog, selected: seq<Family>, counts: map<StageKey, nat>, tree: Tree, permanent: bool)
    requires Selection(info, selected, counts, tree)
    ensures Given(info, selected, counts, tree, OfClass(info, selected, permanent)) ==
            if OfClass(info, selected, permanent) == {} then 0.0
            else if OfClass(info, selected, !permanent) == {} then 1.0
            else if permanent then 0.3 else 0.7
  {
    hide Given, Sum, ActivityShare, Balance, TreeOf, Part;
    var part := OfClass(info, selected, permanent);
    GivenIsBalances(info, selected, counts, tree, part);
    SumOverStages(info, Keys(selected), tree, part);
    SumOverActivities(info, Keys(selected), tree, part);
    NotEmpty(info, selected, tree);
    BudgetIsPositive(tree);
    ClassCategories(info, selected, tree, permanent);
    ClassCategories(info, selected, tree, !permanent);
    hide *;
    ClassIsShared(tree, Image(part, k => CategoryOf(info, k)), permanent);
  }

  /** A class hands its budget out to its categories. */
  lemma ClassIsShared(tree: Tree, categories: set<Category>, permanent: bool)
    requires Budget(tree) > 0.0 && |categories| == ClassSize(tree, permanent) && forall c <- categories :: c.0 == permanent
    ensures Sum(categories, c => CategoryShare(tree, c)) ==
            if categories == {} then 0.0 else if ClassSize(tree, !permanent) == 0 then 1.0 else if permanent then 0.3 else 0.7
  {
    hide Sum, Part, ClassSize, Budget;
    if categories == {} {
      NothingSums((c: Category) => CategoryShare(tree, c));
    } else {
      var whole := (if permanent then 0.3 else 0.7) / Budget(tree);
      forall c <- categories ensures CategoryShare(tree, c) == Part(whole, |categories|) {
        PartThenDivide(if permanent then 0.3 else 0.7, |categories|, Budget(tree));
      }
      PartsMakeWhole(categories, (c: Category) => CategoryShare(tree, c), whole);
      BudgetValues(tree);
    }
  }

  lemma NothingSums<T>(f: T -> real)
    ensures Sum({}, f) == 0.0
  {
  }

  lemma BudgetValues(tree: Tree)
    ensures Budget(tree) == (if ClassSize(tree, true) > 0 then 0.3 else 0.0) + if ClassSize(tree, false) > 0 then 0.7 else 0.0
  {
  }

  /** The categories of a class are the tree's. */
  lemma ClassCategories(info: Catalog, selected: seq<Family>, tree: Tree, permanent: bool)
    requires TreeOf(info, Keys(selected), tree)
    ensures var categories := Image(OfClass(info, selected, permanent), k => CategoryOf(info, k));
            && |categories| == ClassSize(tree, permanent) && (categories == {} <==> OfClass(info, selected, permanent) == {})
            && forall c <- categories :: c.0 == permanent
  {
    var part := OfClass(info, selected, permanent);
    var categories := Image(part, k => CategoryOf(info, k));
    assert categories == Fiber(tree.Keys, (c: Category) => c.0, permanent) by {
      forall c <- Fiber(tree.Keys, (c: Category) => c.0, permanent) ensures c in categories {
        var k :| k in Keys(selected) && CategoryOf(info, k) == c;
        assert k in part;
      }
    }
    if k :| k in part {
      assert CategoryOf(info, k) in categories;
    }
  }
}
