/** The weight of each document and of each operator, and their bound. */
module Scores {
  import opened Options
  import opened FiniteSums
  import opened Weights

  function Min(a: real, b: real): real { if a <= b then a else b }

  function Max(a: real, b: real): real { if a >= b then a else b }

  ghost predicate ValidDocument(d: Document) {
    && IsRoot(d.likes, d.dislikes, d.root)
    && 0.0 < d.decay <= 1.0
    && forall o <- d.shares :: 0.0 < d.shares[o] <= 1.0
  }

  function Exposure(d: Document): real {
    if d.ratio.None? then 1.0 else Max(0.9, Min(1.1, d.ratio.value))
  }

  function Freshness(age: real): real { 0.25 + 0.75 * Min(Max(0.0, age) / 3.0, 1.0) }

  /** How far a document counts; 0 for one that the vote tests leave out. */
  function Quality(d: Document, includeUncertain: bool): real {
    var votes, w := d.likes + d.dislikes, Wilson(d.likes, d.dislikes, d.root);
    if w.upper < 0.6 || (!includeUncertain && votes == 0) then 0.0
    else if votes == 0 then 0.05
    else Max(0.0, w.lower)
  }

  function DocumentWeight(d: Document, age: real, includeUncertain: bool, factor: real): real {
    Damped(Quality(d, includeUncertain), Freshness(age), d.decay, Exposure(d), factor)
  }

  function Damped(quality: real, freshness: real, decay: real, exposure: real, factor: real): real {
    100.0 * quality * freshness * decay * exposure * factor
  }

  /** The part of a document that counts for an operator; all of it when none is named. */
  function ShareOf(d: Document, operator: Option<string>): real {
    if operator.None? then 1.0
    else if operator.value in d.shares then d.shares[operator.value] else 0.0
  }

  ghost function FamilyWeight(documents: seq<Document>, age: real, includeUncertain: bool, factor: real, operator: Option<string>): real {
    if documents == [] then 0.0
    else DocumentWeight(documents[0], age, includeUncertain, factor) * ShareOf(documents[0], operator)
         + FamilyWeight(documents[1..], age, includeUncertain, factor, operator)
  }

  /** The weights of an operator's samples, or of all documents, in the first n families. */
  ghost function TotalWeight(info: Catalog, selected: seq<Family>, counts: map<StageKey, nat>, tree: Tree,
                                includeUncertain: bool, operator: Option<string>, n: nat): real
    requires n <= |selected| && forall f <- selected :: f.stage in counts
  {
    if n == 0 then 0.0
    else
      var f := selected[n - 1];
      TotalWeight(info, selected, counts, tree, includeUncertain, operator, n - 1)
      + FamilyWeight(f.documents, f.age, includeUncertain, Factor(info, counts, tree, f), operator)
  }

  /** The votes a document needs: likes, or no votes at all where that is allowed, and an upper end of at least 0.6. */
  ghost predicate Passes(d: Document, includeUncertain: bool) {
    && Wilson(d.likes, d.dislikes, d.root).upper >= 0.6
    && if d.likes + d.dislikes == 0 then includeUncertain else d.likes > 0
  }

  /** How votes, age and views damp: a document that passes counts by the lower end of its votes, one without votes by 0.05. */
  lemma QualityOfVotes(d: Document, includeUncertain: bool)
    requires IsRoot(d.likes, d.dislikes, d.root)
    ensures Quality(d, includeUncertain) > 0.0 <==> Passes(d, includeUncertain)
    ensures Passes(d, includeUncertain) ==>
              Quality(d, includeUncertain) == if d.likes + d.dislikes == 0 then 0.05 else Wilson(d.likes, d.dislikes, d.root).lower
    ensures !Passes(d, includeUncertain) ==> Quality(d, includeUncertain) == 0.0
  {
    hide Wilson, IsRoot;
    WilsonBounds(d.likes, d.dislikes, d.root);
  }

  /** Freshness rises from a quarter to one, evenly over the first three days. */
  lemma FreshnessOfAge(age: real)
    ensures age <= 0.0 ==> Freshness(age) == 0.25
    ensures age >= 3.0 ==> Freshness(age) == 1.0
    ensures 0.0 <= age <= 3.0 ==> 4.0 * Freshness(age) == 1.0 + age
  {
  }

  /** A document has weight exactly when its votes pass and its factor is positive. */
  lemma CountsExactlyWhen(d: Document, age: real, includeUncertain: bool, factor: real)
    requires ValidDocument(d) && factor >= 0.0
    ensures DocumentWeight(d, age, includeUncertain, factor) > 0.0 <==> Passes(d, includeUncertain) && factor > 0.0
  {
    hide Quality, Passes, IsRoot;
    QualityOfVotes(d, includeUncertain);
    var q, f, e := Quality(d, includeUncertain), Freshness(age), Exposure(d);
    assert f >= 0.25 && e >= 0.9;
    PositiveProduct(q, f, d.decay, e, factor);
  }

  lemma PositiveProduct(quality: real, freshness: real, decay: real, exposure: real, factor: real)
    requires quality >= 0.0 && freshness > 0.0 && decay > 0.0 && exposure > 0.0 && factor >= 0.0
    ensures Damped(quality, freshness, decay, exposure, factor) > 0.0 <==> quality > 0.0 && factor > 0.0
  {
    Positive(100.0 * quality, freshness);
    Positive(100.0 * quality * freshness, decay);
    Positive(100.0 * quality * freshness * decay, exposure);
    Positive(100.0 * quality * freshness * decay * exposure, factor);
  }

  lemma Positive(a: real, b: real)
    requires a >= 0.0 && b >= 0.0
    ensures a * b >= 0.0 && (a * b > 0.0 <==> a > 0.0 && b > 0.0)
  {
  }

  lemma Scale(a: real, x: real, bound: real, high: real)
    requires 0.0 <= a <= bound && 0.0 <= x <= high
    ensures 0.0 <= a * x <= bound * high
  {
    assert a * x <= a * high;
    assert a * high <= bound * high;
  }

  /** A document weighs at most 110 times its factor. */
  lemma DocumentWeightBound(d: Document, age: real, includeUncertain: bool, factor: real)
    requires ValidDocument(d) && factor >= 0.0
    ensures 0.0 <= DocumentWeight(d, age, includeUncertain, factor) <= 110.0 * factor
  {
    hide Quality, Freshness, Exposure, Damped;
    SingleFactors(d, age, includeUncertain);
    FiveFactors(Quality(d, includeUncertain), Freshness(age), d.decay, Exposure(d), factor);
  }

  lemma SingleFactors(d: Document, age: real, includeUncertain: bool)
    requires ValidDocument(d)
    ensures 0.0 <= Quality(d, includeUncertain) <= 1.0 && 0.0 <= Freshness(age) <= 1.0 && 0.0 <= Exposure(d) <= 1.1
  {
    hide Wilson, IsRoot;
    WilsonBounds(d.likes, d.dislikes, d.root);
  }

  lemma FiveFactors(quality: real, freshness: real, decay: real, exposure: real, factor: real)
    requires 0.0 <= quality <= 1.0 && 0.0 <= freshness <= 1.0 && 0.0 <= decay <= 1.0 && 0.0 <= exposure <= 1.1 && factor >= 0.0
    ensures 0.0 <= Damped(quality, freshness, decay, exposure, factor) <= 110.0 * factor
  {
    Scale(100.0 * quality, freshness, 100.0, 1.0);
    Scale(100.0 * quality * freshness, decay, 100.0, 1.0);
    Scale(100.0 * quality * freshness * decay, exposure, 100.0, 1.1);
    Scale(100.0 * quality * freshness * decay * exposure, factor, 110.0, factor);
  }

  lemma {:induction false} FamilyWeightBound(documents: seq<Document>, age: real, includeUncertain: bool, factor: real, operator: Option<string>)
    requires (forall d <- documents :: ValidDocument(d)) && factor >= 0.0
    ensures 0.0 <= FamilyWeight(documents, age, includeUncertain, factor, operator) <= 110.0 * (|documents| as real * factor)
  {
    hide DocumentWeight;
    if documents != [] {
      var d := documents[0];
      FamilyWeightBound(documents[1..], age, includeUncertain, factor, operator);
      DocumentWeightBound(d, age, includeUncertain, factor);
      var w := DocumentWeight(d, age, includeUncertain, factor);
      Scale(w, ShareOf(d, operator), 110.0 * factor, 1.0);
      OneMore(|documents| as real, |documents[1..]| as real, factor);
    }
  }

  lemma OneMore(n: real, m: real, factor: real)
    requires n == m + 1.0
    ensures n * factor == m * factor + factor
  {
  }

  lemma FactorIsNotNegative(info: Catalog, counts: map<StageKey, nat>, tree: Tree, f: Family)
    requires f.stage in counts
    ensures Factor(info, counts, tree, f) >= 0.0
  {
    var (c, a) := ActivityOf(info, f.stage);
    var share := Part(if c.0 then 0.3 else 0.7, ClassSize(tree, c.0));
    PartIsNotNegative(if c.0 then 0.3 else 0.7, ClassSize(tree, c.0));
    if c in tree && a in tree[c] {
      QuotientIsNotNegative(share, Budget(tree));
      PartIsNotNegative(CategoryShare(tree, c), |tree[c]|);
      PartIsNotNegative(ActivityShare(tree, (c, a)), |tree[c][a]|);
    }
    PartIsNotNegative(Balance(info, tree, f.stage), |f.documents|);
    PartIsNotNegative(Part(Balance(info, tree, f.stage), |f.documents|), counts[f.stage]);
  }

  lemma PartIsNotNegative(a: real, n: nat)
    requires a >= 0.0
    ensures Part(a, n) >= 0.0
  {
  }

  lemma QuotientIsNotNegative(a: real, b: real)
    requires a >= 0.0 && b >= 0.0
    ensures b != 0.0 ==> a / b >= 0.0
  {
  }

  lemma {:induction false} TotalWeightUpTo(info: Catalog, selected: seq<Family>, counts: map<StageKey, nat>, tree: Tree,
                                              includeUncertain: bool, operator: Option<string>, n: nat, f: int -> real)
    requires n <= |selected| && forall x <- selected :: x.stage in counts
    requires forall x <- selected, d <- x.documents :: ValidDocument(d)
    requires forall i :: 0 <= i < |selected| ==> f(i) == |selected[i].documents| as real * Factor(info, counts, tree, selected[i])
    ensures 0.0 <= TotalWeight(info, selected, counts, tree, includeUncertain, operator, n) <= 110.0 * SumTo(n, f)
  {
    hide Factor, FamilyWeight, ValidDocument;
    if n > 0 {
      var x := selected[n - 1];
      TotalWeightUpTo(info, selected, counts, tree, includeUncertain, operator, n - 1, f);
      FactorIsNotNegative(info, counts, tree, x);
      FamilyWeightBound(x.documents, x.age, includeUncertain, Factor(info, counts, tree, x), operator);
    }
  }

  /** All documents together, and so each operator, weigh at most 110, whatever was selected. */
  lemma TotalWeightBound(info: Catalog, selected: seq<Family>, counts: map<StageKey, nat>, tree: Tree,
                            includeUncertain: bool, operator: Option<string>)
    requires Selection(info, selected, counts, tree)
    requires forall x <- selected, d <- x.documents :: ValidDocument(d)
    ensures (forall x <- selected :: x.stage in counts) &&
            0.0 <= TotalWeight(info, selected, counts, tree, includeUncertain, operator, |selected|) <= 110.0
  {
    hide Factor, ValidDocument, TotalWeight, SumTo, TreeOf;
    assert forall x <- selected :: x.stage in counts;
    var f := (i: int) =>
      if 0 <= i < |selected| && selected[i].stage in counts
      then |selected[i].documents| as real * Factor(info, counts, tree, selected[i]) else 0.0;
    TotalWeightUpTo(info, selected, counts, tree, includeUncertain, operator, |selected|, f);
    FactorsSumToOne(info, selected, counts, tree, f);
  }
}
