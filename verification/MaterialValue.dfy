/** The price payload: a worklist that bounds it, the recursive search it makes complete, and the lowest price of each item. */
module MaterialValue {
  import opened Options

  const MAX_PRICE_PAYLOAD_NODES := 100000
  const MAX_DEPTH := 8

  datatype Value = Null | Bool(b: bool) | Number(n: real) | Text(s: string) | Array(items: seq<Value>) | Object(fields: seq<Field>)
  datatype Field = Field(key: string, value: Value)

  /** `stringValue` and `numberValue`: the text of an id and the finite number in a value. */
  datatype Convert = Convert(text: Value -> string, number: Value -> Option<real>)

  function Children(v: Value): (r: seq<Value>)
    ensures forall c <- r :: c < v
  {
    match v
    case Array(items) => items
    case Object(fields) => seq(|fields|, i requires 0 <= i < |fields| => fields[i].value)
    case _ => []
  }

  // The budget.

  function Nodes(v: Value): (n: nat)
    ensures n >= 1
    decreases v, |Children(v)| + 1
  {
    1 + NodesBelow(v, |Children(v)|)
  }

  /** The nodes in the first k children. */
  function NodesBelow(v: Value, k: nat): nat
    requires k <= |Children(v)|
    decreases v, k
  {
    if k == 0 then 0
    else
      assert Children(v)[k - 1] in Children(v);
      NodesBelow(v, k - 1) + Nodes(Children(v)[k - 1])
  }

  /** No node lies deeper than d below v. */
  predicate DepthAtMost(v: Value, d: int) {
    d >= 0 && forall c <- Children(v) :: DepthAtMost(c, d - 1)
  }

  datatype Item = Item(value: Value, depth: nat)

  function StackNodes(stack: seq<Item>): nat {
    if stack == [] then 0 else StackNodes(stack[..|stack| - 1]) + Nodes(stack[|stack| - 1].value)
  }

  ghost predicate StackShallow(stack: seq<Item>) {
    forall x <- stack :: DepthAtMost(x.value, MAX_DEPTH - x.depth)
  }

  function Pushed(v: Value, depth: nat, k: nat): (r: seq<Item>)
    requires k <= |Children(v)|
    ensures |r| == k && forall i :: 0 <= i < k ==> r[i] == Item(Children(v)[i], depth)
  {
    seq(k, i requires 0 <= i < k => Item(Children(v)[i], depth))
  }

  lemma {:induction false} PushedNodes(stack: seq<Item>, v: Value, depth: nat, k: nat)
    requires k <= |Children(v)|
    ensures StackNodes(stack + Pushed(v, depth, k)) == StackNodes(stack) + NodesBelow(v, k)
  {
    hide Nodes;
    var all := stack + Pushed(v, depth, k);
    if k == 0 {
      assert all == stack;
    } else {
      assert all[..|all| - 1] == stack + Pushed(v, depth, k - 1);
      PushedNodes(stack, v, depth, k - 1);
    }
  }

  /** Popping a node and pushing its children leaves the question of depth the same. */
  lemma PushedShallow(stack: seq<Item>, x: Item)
    requires x.depth <= MAX_DEPTH
    ensures StackShallow(stack + [x]) <==> StackShallow(stack + Pushed(x.value, x.depth + 1, |Children(x.value)|))
  {
    hide DepthAtMost;
    var children := Children(x.value);
    var pushed := Pushed(x.value, x.depth + 1, |children|);
    assert DepthAtMost(x.value, MAX_DEPTH - x.depth) <==> forall c <- children :: DepthAtMost(c, MAX_DEPTH - x.depth - 1) by {
      DepthIs(x.value, MAX_DEPTH - x.depth);
    }
    forall c <- children ensures exists p <- pushed :: p == Item(c, x.depth + 1) {
      var i :| 0 <= i < |children| && children[i] == c;
      assert pushed[i] in pushed;
    }
    forall p <- pushed ensures p.value in children && p.depth == x.depth + 1 {
    }
    if StackShallow(stack + [x]) {
      assert x in stack + [x];
      forall p <- stack + pushed ensures DepthAtMost(p.value, MAX_DEPTH - p.depth) {
        assert p in stack ==> p in stack + [x];
      }
    }
    if StackShallow(stack + pushed) {
      forall p <- stack + [x] ensures DepthAtMost(p.value, MAX_DEPTH - p.depth) {
        assert p in stack ==> p in stack + pushed;
        forall c <- children ensures DepthAtMost(c, MAX_DEPTH - x.depth - 1) {
          assert Item(c, x.depth + 1) in stack + pushed;
        }
      }
    }
  }

  lemma DepthIs(v: Value, d: int)
    requires d >= 0
    ensures DepthAtMost(v, d) <==> forall c <- Children(v) :: DepthAtMost(c, d - 1)
  {
  }

  datatype Verdict = Accepted | TooManyNodes | TooDeep

  /** `assertPricingPayloadBudget`: accepts a payload iff it has at most 100000 nodes and none deeper than 8. */
  method AssertBudget(v: Value) returns (r: Verdict)
    ensures r == Accepted <==> Nodes(v) <= MAX_PRICE_PAYLOAD_NODES && DepthAtMost(v, MAX_DEPTH)
    ensures r == TooManyNodes ==> Nodes(v) > MAX_PRICE_PAYLOAD_NODES
    ensures r == TooDeep ==> !DepthAtMost(v, MAX_DEPTH)
  {
    hide DepthAtMost, Nodes;
    var stack: seq<Item> := [Item(v, 0)];
    assert stack[..0] == [] && StackNodes(stack) == Nodes(v);
    var visited: nat := 0;
    while stack != []
      invariant visited <= MAX_PRICE_PAYLOAD_NODES && visited + StackNodes(stack) == Nodes(v)
      invariant StackShallow(stack) <==> DepthAtMost(v, MAX_DEPTH)
      decreases StackNodes(stack)
    {
      var current := stack[|stack| - 1];
      ghost var all := stack;
      stack := stack[..|stack| - 1];
      visited := visited + 1;
      assert all == stack + [current];
      if visited > MAX_PRICE_PAYLOAD_NODES {
        return TooManyNodes;
      }
      if current.depth > MAX_DEPTH {
        assert current in all && !DepthAtMost(current.value, MAX_DEPTH - current.depth) by { NoNegativeDepth(current); }
        return TooDeep;
      }
      PushedNodes(stack, current.value, current.depth + 1, |Children(current.value)|);
      PushedShallow(stack, current);
      assert Nodes(current.value) == 1 + NodesBelow(current.value, |Children(current.value)|) by { NodesIs(current.value); }
      stack := stack + Pushed(current.value, current.depth + 1, |Children(current.value)|);
    }
    return Accepted;
  }

  lemma NoNegativeDepth(x: Item)
    requires x.depth > MAX_DEPTH
    ensures !DepthAtMost(x.value, MAX_DEPTH - x.depth)
  {
  }

  lemma NodesIs(v: Value)
    ensures Nodes(v) == 1 + NodesBelow(v, |Children(v)|)
  {
  }

  // The recursive search.

  /** The field's value; Null when there is none. */
  function Get(v: Value, key: string): Value {
    if v.Object? then Lookup(v.fields, key) else Null
  }

  function Lookup(fields: seq<Field>, key: string): Value {
    if fields == [] then Null else if fields[0].key == key then fields[0].value else Lookup(fields[1..], key)
  }

  /** Every array stored under the key, anywhere in v, outermost first. */
  function Found(v: Value, key: string): seq<seq<Value>>
    decreases v, |Children(v)| + 1
  {
    (if Get(v, key).Array? then [Get(v, key).items] else []) + FoundBelow(v, key, |Children(v)|)
  }

  function FoundBelow(v: Value, key: string, k: nat): seq<seq<Value>>
    requires k <= |Children(v)|
    decreases v, k
  {
    if k == 0 then []
    else
      assert Children(v)[k - 1] in Children(v);
      FoundBelow(v, key, k - 1) + Found(Children(v)[k - 1], key)
  }

  /** v itself or a node below it. */
  ghost predicate Within(x: Value, v: Value) {
    x == v || exists c <- Children(v) :: Within(x, c)
  }

  /** `collectArraysByKey`: within the depth limit its cut-off hides nothing. */
  method CollectArraysByKey(v: Value, key: string, arrays: seq<seq<Value>>, depth: nat) returns (r: seq<seq<Value>>)
    ensures DepthAtMost(v, MAX_DEPTH - depth) ==> r == arrays + Found(v, key)
    decreases v, 1
  {
    hide *;
    if depth > MAX_DEPTH || !(v.Array? || v.Object?) {
      LeafFound(v, key, MAX_DEPTH - depth);
      return arrays;
    }
    FoundIs(v, key);
    var own := if v.Object? && Get(v, key).Array? then [Get(v, key).items] else [];
    r := CollectBelow(v, key, arrays + own, depth);
    Regroup(arrays, own, FoundBelow(v, key, |Children(v)|));
  }

  /** The loop over the children. */
  method CollectBelow(v: Value, key: string, arrays: seq<seq<Value>>, depth: nat) returns (r: seq<seq<Value>>)
    ensures DepthAtMost(v, MAX_DEPTH - depth) ==> r == arrays + FoundBelow(v, key, |Children(v)|)
    decreases v, 0
  {
    hide *;
    r := arrays;
    var children := Children(v);
    NothingBelow(v, key);
    for i := 0 to |children|
      invariant DepthAtMost(v, MAX_DEPTH - depth) ==> r == arrays + FoundBelow(v, key, i)
    {
      assert children[i] in children;
      OneMoreBelow(v, key, i, MAX_DEPTH - depth);
      Regroup(arrays, FoundBelow(v, key, i), Found(children[i], key));
      r := CollectArraysByKey(children[i], key, r, depth + 1);
    }
  }

  lemma Regroup<T>(a: seq<T>, b: seq<T>, c: seq<T>)
    ensures (a + b) + c == a + (b + c)
  {
  }

  lemma LeafFound(v: Value, key: string, d: int)
    requires d < 0 || !(v.Array? || v.Object?)
    ensures DepthAtMost(v, d) ==> Found(v, key) == []
  {
  }

  lemma NothingBelow(v: Value, key: string)
    ensures FoundBelow(v, key, 0) == []
  {
  }

  lemma OneMoreBelow(v: Value, key: string, i: nat, d: int)
    requires i < |Children(v)|
    ensures FoundBelow(v, key, i + 1) == FoundBelow(v, key, i) + Found(Children(v)[i], key)
    ensures DepthAtMost(v, d) ==> DepthAtMost(Children(v)[i], d - 1)
  {
    assert Children(v)[i] in Children(v);
  }

  lemma FoundIs(v: Value, key: string)
    ensures Found(v, key) == (if v.Object? && Get(v, key).Array? then [Get(v, key).items] else []) + FoundBelow(v, key, |Children(v)|)
  {
  }

  /** What is found: exactly the arrays that a node within v holds under the key. */
  lemma {:induction false} FoundIsComplete(v: Value, key: string, a: seq<Value>)
    ensures a in Found(v, key) <==> exists x :: Within(x, v) && Get(x, key) == Array(a)
    decreases v, |Children(v)| + 1
  {
    FoundBelowIsComplete(v, key, |Children(v)|, a);
    if a in Found(v, key) {
      if Get(v, key) == Array(a) {
        assert Within(v, v);
      } else {
        var i, x :| 0 <= i < |Children(v)| && Within(x, Children(v)[i]) && Get(x, key) == Array(a);
        assert Children(v)[i] in Children(v);
        assert Within(x, v);
      }
    }
    if x :| Within(x, v) && Get(x, key) == Array(a) {
      if x != v {
        var c :| c in Children(v) && Within(x, c);
        var i :| 0 <= i < |Children(v)| && Children(v)[i] == c;
      }
    }
  }

  lemma {:induction false} FoundBelowIsComplete(v: Value, key: string, k: nat, a: seq<Value>)
    requires k <= |Children(v)|
    ensures a in FoundBelow(v, key, k) <==> exists i, x :: 0 <= i < k && Within(x, Children(v)[i]) && Get(x, key) == Array(a)
    decreases v, k
  {
    if k > 0 {
      FoundBelowIsComplete(v, key, k - 1, a);
      assert Children(v)[k - 1] in Children(v);
      FoundIsComplete(Children(v)[k - 1], key, a);
    }
  }

  // The prices.

  const RECOMMENDED := "recommendedStageList"
  const STAGES := "stageResultList"

  function FirstList(v: Value): Option<seq<Value>> {
    if Get(v, "items").Array? then Some(Get(v, "items").items)
    else if Get(v, "itemList").Array? then Some(Get(v, "itemList").items)
    else if Get(v, "list").Array? then Some(Get(v, "list").items)
    else if Get(v, "records").Array? then Some(Get(v, "records").items)
    else None
  }

  /** `readYituliuItemValueRows`. */
  function Rows(v: Value): seq<Value> {
    if v.Array? then v.items
    else if Get(v, "data").Array? then Get(v, "data").items
    else if FirstList(Get(v, "data")).Some? then FirstList(Get(v, "data")).value
    else if FirstList(v).Some? then FirstList(v).value
    else []
  }

  function Coalesce(a: Value, b: Value): Value { if a == Null then b else a }

  /** The price one value offers, if it is a positive number. */
  function Positive(c: Convert, v: Value): Option<real> {
    if c.number(v).Some? && c.number(v).value > 0.0 then c.number(v) else None
  }

  function RowId(c: Convert, v: Value): string { c.text(Coalesce(Get(v, "itemId"), Get(v, "id"))) }

  function RowPrice(c: Convert, v: Value): Option<real> { Positive(c, Coalesce(Get(v, "itemValueAp"), Get(v, "itemValue"))) }

  function StageId(c: Convert, v: Value): string {
    c.text(Coalesce(Coalesce(Coalesce(Get(v, "itemId"), Get(v, "materialId")), Get(v, "id")), Get(Get(v, "item"), "id")))
  }

  function StagePrice(c: Convert, v: Value): Option<real> { if v.Object? then Positive(c, Get(v, "apExpect")) else None }

  function StagesOf(v: Value): seq<Value> { if Get(v, STAGES).Array? then Get(v, STAGES).items else [] }

  // Which field counts where a payload has several.

  /** Value k is the first that is not null. */
  ghost predicate FirstPresent(values: seq<Value>, k: nat) {
    k < |values| && values[k] != Null && forall j :: 0 <= j < k ==> values[j] == Null
  }

  /** List k is the first that there is. */
  ghost predicate FirstArray(values: seq<Value>, k: nat) {
    k < |values| && values[k].Array? && forall j :: 0 <= j < k ==> !values[j].Array?
  }

  ghost function Lists(v: Value): (r: seq<Value>)
    ensures |r| == 4
  {
    [Get(v, "items"), Get(v, "itemList"), Get(v, "list"), Get(v, "records")]
  }

  /** A field that is there hides the ones after it, even if it holds no price. */
  lemma FirstFieldCounts(c: Convert, v: Value, k: nat)
    ensures var ids := [Get(v, "itemId"), Get(v, "id")]; FirstPresent(ids, k) ==> RowId(c, v) == c.text(ids[k])
    ensures var prices := [Get(v, "itemValueAp"), Get(v, "itemValue")];
            FirstPresent(prices, k) ==>
              forall p :: RowPrice(c, v) == Some(p) <==> c.number(prices[k]) == Some(p) && p > 0.0
    ensures var ids := [Get(v, "itemId"), Get(v, "materialId"), Get(v, "id"), Get(Get(v, "item"), "id")];
            FirstPresent(ids, k) ==> StageId(c, v) == c.text(ids[k])
  {
    NullsBefore([Get(v, "itemId"), Get(v, "id")], k);
    NullsBefore([Get(v, "itemValueAp"), Get(v, "itemValue")], k);
    NullsBefore([Get(v, "itemId"), Get(v, "materialId"), Get(v, "id"), Get(Get(v, "item"), "id")], k);
  }

  lemma NullsBefore(values: seq<Value>, k: nat)
    requires 2 <= |values| <= 4
    ensures FirstPresent(values, k) ==>
              && k < |values| && (k > 0 ==> values[0] == Null) && (k > 1 ==> values[1] == Null)
              && (k > 2 ==> values[2] == Null) && values[k] != Null
  {
  }

  /** The value rows: the payload itself, else its data, else the first list in its data, else the first list in it. */
  lemma FirstListCounts(v: Value, k: nat)
    ensures var lists := [v, Get(v, "data")] + Lists(Get(v, "data")) + Lists(v);
            && (FirstArray(lists, k) ==> Rows(v) == lists[k].items)
            && ((forall x <- lists :: !x.Array?) ==> Rows(v) == [])
  {
    hide Get, FirstList, Lists;
    var data := Get(v, "data");
    var own, nested := [v, data], Lists(data);
    assert own[0] in own && own[1] in own;
    FirstInFront(own, nested + Lists(v), k);
    FirstInBack(own, nested + Lists(v), k);
    FirstInBack(nested, Lists(v), k - 2);
    FirstInFront(nested, Lists(v), k - 2);
    FirstOfFour(data, k - 2);
    FirstOfFour(v, k - 6);
    var lists := own + (nested + Lists(v));
    assert own + nested + Lists(v) == lists;
    assert FirstArray(lists, k) ==> lists[k] == if k < 2 then own[k] else if k < 6 then nested[k - 2] else Lists(v)[k - 6];
  }

  lemma FirstInBack(front: seq<Value>, back: seq<Value>, k: int)
    ensures k >= |front| && FirstArray(front + back, k) ==> FirstArray(back, k - |front|) && forall x <- front :: !x.Array?
  {
    if k >= |front| && FirstArray(front + back, k) {
      forall j | 0 <= j < k - |front| ensures !back[j].Array? {
        assert (front + back)[j + |front|] == back[j];
      }
      forall j | 0 <= j < |front| ensures !front[j].Array? {
        assert (front + back)[j] == front[j];
      }
    }
  }

  lemma FirstInFront(front: seq<Value>, back: seq<Value>, k: int)
    ensures 0 <= k < |front| && FirstArray(front + back, k) ==> FirstArray(front, k)
  {
    assert front == (front + back)[..|front|];
  }

  lemma FirstOfFour(v: Value, k: int)
    ensures 0 <= k && FirstArray(Lists(v), k) ==> FirstList(v) == Some(Lists(v)[k].items)
    ensures (forall x <- Lists(v) :: !x.Array?) ==> FirstList(v) == None
  {
    var lists := Lists(v);
    assert lists[0] in lists && lists[1] in lists && lists[2] in lists && lists[3] in lists;
  }

  /** The prices a payload offers for an item, from its value rows, its recommended stages and its stage results. */
  ghost predicate Offered(c: Convert, data: Value, id: string, p: real) {
    id != "" && (RowOffers(c, Rows(data), id, p) || RecommendedOffers(c, Found(data, RECOMMENDED), id, p) || StageOffers(c, Found(data, STAGES), id, p))
  }

  ghost predicate RowOffers(c: Convert, rows: seq<Value>, id: string, p: real) {
    exists row <- rows :: row.Object? && RowId(c, row) == id && RowPrice(c, row) == Some(p)
  }

  ghost predicate RecommendedOffers(c: Convert, lists: seq<seq<Value>>, id: string, p: real) {
    exists list <- lists, item <- list :: ItemOffers(c, item, id, p)
  }

  ghost predicate ItemOffers(c: Convert, item: Value, id: string, p: real) {
    item.Object? && StageId(c, item) == id && exists stage <- StagesOf(item) :: StagePrice(c, stage) == Some(p)
  }

  ghost predicate StageOffers(c: Convert, lists: seq<seq<Value>>, id: string, p: real) {
    exists list <- lists, stage <- list :: stage.Object? && StageId(c, stage) == id && StagePrice(c, stage) == Some(p)
  }

  type Offers = iset<(string, real)>

  ghost function RowSet(c: Convert, rows: seq<Value>): Offers { iset id, p | id != "" && RowOffers(c, rows, id, p) :: (id, p) }

  ghost function ItemSet(c: Convert, items: seq<Value>): Offers { iset id, p | id != "" && ItemsOffer(c, items, id, p) :: (id, p) }

  ghost predicate ItemsOffer(c: Convert, items: seq<Value>, id: string, p: real) { exists item <- items :: ItemOffers(c, item, id, p) }

  ghost function RecommendedSet(c: Convert, lists: seq<seq<Value>>): Offers {
    iset id, p | id != "" && RecommendedOffers(c, lists, id, p) :: (id, p)
  }

  ghost function StageSet(c: Convert, stages: seq<Value>): Offers {
    iset id, p | id != "" && StagesOffer(c, stages, id, p) :: (id, p)
  }

  ghost predicate StagesOffer(c: Convert, stages: seq<Value>, id: string, p: real) {
    exists stage <- stages :: stage.Object? && StageId(c, stage) == id && StagePrice(c, stage) == Some(p)
  }

  ghost function StageListSet(c: Convert, lists: seq<seq<Value>>): Offers {
    iset id, p | id != "" && StageOffers(c, lists, id, p) :: (id, p)
  }

  /** Each item has the lowest price offered for it; items without an offer have none. */
  ghost predicate Lowest(prices: map<string, real>, offers: Offers) {
    && (forall id <- prices :: (id, prices[id]) in offers)
    && (forall o <- offers :: o.0 in prices && prices[o.0] <= o.1)
  }

  /** The lowest prices do not depend on the order in which the offers come. */
  lemma LowestIsUnique(a: map<string, real>, b: map<string, real>, offers: Offers)
    requires Lowest(a, offers) && Lowest(b, offers)
    ensures a == b
  {
    forall id | id in a ensures id in b && a[id] == b[id] {
      assert (id, a[id]) in offers;
      assert (id, b[id]) in offers;
    }
    forall id | id in b ensures id in a {
      assert (id, b[id]) in offers;
    }
  }

  /** `setLowerPrice`, for one of several offers for the same item that is the lowest of them. */
  method SetLowerPrice(prices: map<string, real>, id: string, p: real, ghost offers: Offers, ghost more: Offers) returns (r: map<string, real>)
    requires Lowest(prices, offers) && (id, p) in more && forall o <- more :: o.0 == id && p <= o.1
    ensures Lowest(r, offers + more)
  {
    r := prices;
    if id !in prices || p < prices[id] {
      r := prices[id := p];
    }
    assert forall o <- offers + more :: o in offers || o in more;
    assert (id, p) in offers + more;
  }

  /** `minPositive` over the stages of one item. */
  method MinPositive(c: Convert, stages: seq<Value>) returns (r: Option<real>)
    ensures r.None? ==> forall stage <- stages :: StagePrice(c, stage).None?
    ensures r.Some? ==> (exists stage <- stages :: StagePrice(c, stage) == r)
                        && forall stage <- stages :: StagePrice(c, stage).Some? ==> r.value <= StagePrice(c, stage).value
  {
    r := None;
    for i := 0 to |stages|
      invariant r.None? ==> forall stage <- stages[..i] :: StagePrice(c, stage).None?
      invariant r.Some? ==> (exists stage <- stages[..i] :: StagePrice(c, stage) == r)
                            && forall stage <- stages[..i] :: StagePrice(c, stage).Some? ==> r.value <= StagePrice(c, stage).value
    {
      var price := StagePrice(c, stages[i]);
      assert stages[..i + 1] == stages[..i] + [stages[i]];
      assert stages[i] in stages[..i + 1];
      if price.Some? && (r.None? || price.value < r.value) {
        r := price;
      }
    }
    assert stages[..|stages|] == stages;
  }

  method AddRows(c: Convert, rows: seq<Value>, prices: map<string, real>, ghost offers: Offers) returns (r: map<string, real>)
    requires Lowest(prices, offers)
    ensures Lowest(r, offers + RowSet(c, rows))
  {
    hide Lowest, RowSet;
    r := prices;
    assert offers + RowSet(c, rows[..0]) == offers by { NoRows(c, rows[..0]); }
    for i := 0 to |rows|
      invariant Lowest(r, offers + RowSet(c, rows[..i]))
    {
      var row := rows[i];
      ghost var so_far := offers + RowSet(c, rows[..i]);
      RowsPlus(c, rows, i);
      if row.Object? {
        var id, price := RowId(c, row), RowPrice(c, row);
        if id != "" && price.Some? {
          r := SetLowerPrice(r, id, price.value, so_far, iset{(id, price.value)});
          assert so_far + iset{(id, price.value)} == offers + RowSet(c, rows[..i + 1]);
        }
      }
    }
    assert rows[..|rows|] == rows;
  }

  lemma NoRows(c: Convert, rows: seq<Value>)
    requires rows == []
    ensures RowSet(c, rows) == iset{}
  {
  }

  lemma RowsPlus(c: Convert, rows: seq<Value>, i: nat)
    requires i < |rows|
    ensures var id, price := RowId(c, rows[i]), RowPrice(c, rows[i]);
            RowSet(c, rows[..i + 1]) == if rows[i].Object? && id != "" && price.Some? then RowSet(c, rows[..i]) + iset{(id, price.value)} else RowSet(c, rows[..i])
  {
    hide RowId, RowPrice;
    var before, after, row := rows[..i], rows[..i + 1], rows[i];
    assert forall x :: x in after <==> x in before || x == row;
    forall id, p ensures RowOffers(c, after, id, p) <==> RowOffers(c, before, id, p) || (row.Object? && RowId(c, row) == id && RowPrice(c, row) == Some(p)) {
    }
    assert row.Object? && RowPrice(c, row).Some? ==> RowOffers(c, after, RowId(c, row), RowPrice(c, row).value);
  }

  method AddItems(c: Convert, items: seq<Value>, prices: map<string, real>, ghost offers: Offers) returns (r: map<string, real>)
    requires Lowest(prices, offers)
    ensures Lowest(r, offers + ItemSet(c, items))
  {
    hide Lowest, ItemSet;
    r := prices;
    assert offers + ItemSet(c, items[..0]) == offers by { NoItems(c, items[..0]); }
    for i := 0 to |items|
      invariant Lowest(r, offers + ItemSet(c, items[..i]))
    {
      var item := items[i];
      ghost var so_far := offers + ItemSet(c, items[..i]);
      ItemsPlus(c, items, i);
      ghost var more := OneItemSet(c, item);
      assert so_far + more == offers + ItemSet(c, items[..i + 1]);
      if item.Object? {
        var id := StageId(c, item);
        var price := MinPositive(c, StagesOf(item));
        if id != "" && price.Some? {
          r := SetLowerPrice(r, id, price.value, so_far, more);
        } else {
          assert more == iset{} && so_far + more == so_far;
        }
      } else {
        assert more == iset{} && so_far + more == so_far;
      }
    }
    assert items[..|items|] == items;
  }

  ghost function OneItemSet(c: Convert, item: Value): Offers { iset id, p | id != "" && ItemOffers(c, item, id, p) :: (id, p) }

  lemma NoItems(c: Convert, items: seq<Value>)
    requires items == []
    ensures ItemSet(c, items) == iset{}
  {
  }

  lemma ItemsPlus(c: Convert, items: seq<Value>, i: nat)
    requires i < |items|
    ensures ItemSet(c, items[..i + 1]) == ItemSet(c, items[..i]) + OneItemSet(c, items[i])
  {
    hide ItemOffers;
    assert forall item :: item in items[..i + 1] <==> item in items[..i] || item == items[i];
  }

  method AddRecommended(c: Convert, lists: seq<seq<Value>>, prices: map<string, real>, ghost offers: Offers) returns (r: map<string, real>)
    requires Lowest(prices, offers)
    ensures Lowest(r, offers + RecommendedSet(c, lists))
  {
    hide Lowest, ItemSet, RecommendedSet;
    r := prices;
    assert offers + RecommendedSet(c, lists[..0]) == offers by { NoLists(c, lists[..0]); }
    for i := 0 to |lists|
      invariant Lowest(r, offers + RecommendedSet(c, lists[..i]))
    {
      ghost var so_far := offers + RecommendedSet(c, lists[..i]);
      ListsPlus(c, lists, i);
      r := AddItems(c, lists[i], r, so_far);
      assert so_far + ItemSet(c, lists[i]) == offers + RecommendedSet(c, lists[..i + 1]);
    }
    assert lists[..|lists|] == lists;
  }

  lemma NoLists(c: Convert, lists: seq<seq<Value>>)
    requires lists == []
    ensures RecommendedSet(c, lists) == StageListSet(c, lists) == iset{}
  {
  }

  lemma ListsPlus(c: Convert, lists: seq<seq<Value>>, i: nat)
    requires i < |lists|
    ensures RecommendedSet(c, lists[..i + 1]) == RecommendedSet(c, lists[..i]) + ItemSet(c, lists[i])
    ensures StageListSet(c, lists[..i + 1]) == StageListSet(c, lists[..i]) + StageSet(c, lists[i])
  {
    hide ItemOffers, StageId, StagePrice;
    assert forall list :: list in lists[..i + 1] <==> list in lists[..i] || list == lists[i];
  }

  method AddStages(c: Convert, stages: seq<Value>, prices: map<string, real>, ghost offers: Offers) returns (r: map<string, real>)
    requires Lowest(prices, offers)
    ensures Lowest(r, offers + StageSet(c, stages))
  {
    hide Lowest, StageSet;
    r := prices;
    assert offers + StageSet(c, stages[..0]) == offers by { NoStages(c, stages[..0]); }
    for i := 0 to |stages|
      invariant Lowest(r, offers + StageSet(c, stages[..i]))
    {
      var stage := stages[i];
      ghost var so_far := offers + StageSet(c, stages[..i]);
      StagesPlus(c, stages, i);
      if stage.Object? {
        var id, price := StageId(c, stage), StagePrice(c, stage);
        if id != "" && price.Some? {
          r := SetLowerPrice(r, id, price.value, so_far, iset{(id, price.value)});
          assert so_far + iset{(id, price.value)} == offers + StageSet(c, stages[..i + 1]);
        }
      }
    }
    assert stages[..|stages|] == stages;
  }

  lemma NoStages(c: Convert, stages: seq<Value>)
    requires stages == []
    ensures StageSet(c, stages) == iset{}
  {
  }

  lemma StagesPlus(c: Convert, stages: seq<Value>, i: nat)
    requires i < |stages|
    ensures var id, price := StageId(c, stages[i]), StagePrice(c, stages[i]);
            StageSet(c, stages[..i + 1]) == if stages[i].Object? && id != "" && price.Some? then StageSet(c, stages[..i]) + iset{(id, price.value)} else StageSet(c, stages[..i])
  {
    hide StageId, StagePrice;
    var before, after, stage := stages[..i], stages[..i + 1], stages[i];
    assert forall x :: x in after <==> x in before || x == stage;
    forall id, p ensures StagesOffer(c, after, id, p) <==> StagesOffer(c, before, id, p) || (stage.Object? && StageId(c, stage) == id && StagePrice(c, stage) == Some(p)) {
    }
    assert stage.Object? && StagePrice(c, stage).Some? ==> StagesOffer(c, after, StageId(c, stage), StagePrice(c, stage).value);
  }

  method AddStageLists(c: Convert, lists: seq<seq<Value>>, prices: map<string, real>, ghost offers: Offers) returns (r: map<string, real>)
    requires Lowest(prices, offers)
    ensures Lowest(r, offers + StageListSet(c, lists))
  {
    hide Lowest, StageSet, StageListSet;
    r := prices;
    assert offers + StageListSet(c, lists[..0]) == offers by { NoLists(c, lists[..0]); }
    for i := 0 to |lists|
      invariant Lowest(r, offers + StageListSet(c, lists[..i]))
    {
      ghost var so_far := offers + StageListSet(c, lists[..i]);
      ListsPlus(c, lists, i);
      r := AddStages(c, lists[i], r, so_far);
      assert so_far + StageSet(c, lists[i]) == offers + StageListSet(c, lists[..i + 1]);
    }
    assert lists[..|lists|] == lists;
  }

  /** `buildYituliuPriceMap`: within the budget each item gets the lowest price the payload offers for it, anywhere. */
  method BuildPriceMap(c: Convert, data: Value) returns (r: Option<map<string, real>>)
    ensures r.Some? <==> Nodes(data) <= MAX_PRICE_PAYLOAD_NODES && DepthAtMost(data, MAX_DEPTH)
    ensures r.Some? ==> forall id :: id in r.value <==> exists p :: Offered(c, data, id, p)
    ensures r.Some? ==> forall id <- r.value :: Offered(c, data, id, r.value[id])
    ensures r.Some? ==> forall id, p :: Offered(c, data, id, p) ==> r.value[id] <= p
  {
    hide Nodes, DepthAtMost, RowSet, RecommendedSet, StageListSet, Lowest, Found, Rows;
    var verdict := AssertBudget(data);
    if verdict != Accepted {
      return None;
    }
    var none: map<string, real> := map[];
    assert Lowest(none, iset{}) by { NothingOffered(none); }
    var rows := Rows(data);
    var prices := AddRows(c, rows, none, iset{});
    var recommended := CollectArraysByKey(data, RECOMMENDED, [], 0);
    assert recommended == Found(data, RECOMMENDED);
    prices := AddRecommended(c, recommended, prices, iset{} + RowSet(c, rows));
    var stages := CollectArraysByKey(data, STAGES, [], 0);
    assert stages == Found(data, STAGES);
    prices := AddStageLists(c, stages, prices, iset{} + RowSet(c, rows) + RecommendedSet(c, recommended));
    AllOffers(c, data, prices);
    return Some(prices);
  }

  lemma NothingOffered(prices: map<string, real>)
    requires prices == map[]
    ensures Lowest(prices, iset{})
  {
  }

  lemma AllOffers(c: Convert, data: Value, prices: map<string, real>)
    requires Lowest(prices, iset{} + RowSet(c, Rows(data)) + RecommendedSet(c, Found(data, RECOMMENDED)) + StageListSet(c, Found(data, STAGES)))
    ensures forall id :: id in prices <==> exists p :: Offered(c, data, id, p)
    ensures forall id <- prices :: Offered(c, data, id, prices[id])
    ensures forall id, p :: Offered(c, data, id, p) ==> id in prices && prices[id] <= p
  {
    hide RowOffers, RecommendedOffers, StageOffers, Found, Rows;
    var all := iset{} + RowSet(c, Rows(data)) + RecommendedSet(c, Found(data, RECOMMENDED)) + StageListSet(c, Found(data, STAGES));
    forall id, p ensures Offered(c, data, id, p) <==> (id, p) in all {
    }
  }
}
