/**
 Splitting undoes printing: on every well-formed snapshot object the splitter yields exactly its
 members, and the homework array in batches of at most 256, and accepts.
 */
module SplitPrint {
  import opened Options
  import opened SnapshotSplit
  import opened JsonText
  import opened JsonScan

  /** JSON.parse returns the meaning of every well-formed text. */
  ghost predicate Faithful(parse: string -> Option<Json>, unescape: string -> string) {
    forall d: Doc :: WellFormed(d) ==> parse(Print(d)) == Some(Meaning(d, unescape))
  }

  /** The elements in groups of BATCH, `held` being the start of the first group. */
  function Batched<T>(held: seq<T>, items: seq<T>): seq<seq<T>>
    decreases items
  {
    if items == [] then if held == [] then [] else [held]
    else
      var full := held + [items[0]];
      if |full| == BATCH then [full] + Batched([], items[1..]) else Batched(full, items[1..])
  }

  function Concat<T>(groups: seq<seq<T>>): seq<T> {
    if groups == [] then [] else groups[0] + Concat(groups[1..])
  }

  /** No element is lost, doubled or moved; every batch but the last is full, and none is empty. */
  lemma {:induction false} BatchedPartitions<T>(held: seq<T>, items: seq<T>)
    requires |held| < BATCH
    ensures Concat(Batched(held, items)) == held + items
    ensures forall k :: 0 <= k < |Batched(held, items)| ==> 0 < |Batched(held, items)[k]| <= BATCH
    ensures forall k :: 0 <= k < |Batched(held, items)| - 1 ==> |Batched(held, items)[k]| == BATCH
    decreases items
  {
    if items != [] {
      var full := held + [items[0]];
      assert held + items == full + items[1..];
      BatchedPartitions(if |full| == BATCH then [] else full, items[1..]);
    } else if held != [] {
      assert Concat([held]) == held + Concat([]);
    }
  }

  ghost function Slices(items: seq<Item>): (r: seq<string>)
    ensures |r| == |items|
  {
    seq(|items|, i requires 0 <= i < |items| => Print(items[i].doc))
  }

  ghost function BatchEntries(batches: seq<seq<Item>>, unescape: string -> string): seq<Entry> {
    if batches == [] then []
    else [(HOMEWORKS, List(Meanings(batches[0], unescape)))] + BatchEntries(batches[1..], unescape)
  }

  ghost function MemberEntries(m: Member, homeworks: bool, unescape: string -> string): seq<Entry> {
    var key := unescape(m.key);
    if key != HOMEWORKS then [(key, Meaning(m.value.doc, unescape))]
    else if !homeworks then [(key, List([]))]
    else if m.value.doc.Array? then BatchEntries(Batched([], m.value.doc.items), unescape)
    else []
  }

  ghost function ObjectEntries(members: seq<Member>, homeworks: bool, unescape: string -> string): seq<Entry> {
    if members == [] then []
    else MemberEntries(members[0], homeworks, unescape) + ObjectEntries(members[1..], homeworks, unescape)
  }

  ghost function Bare(items: seq<Item>): (r: seq<Item>)
    ensures |r| == |items|
  {
    seq(|items|, i requires 0 <= i < |items| => Item("", items[i].doc, ""))
  }

  lemma {:induction false} JoinIsPrint(items: seq<Item>)
    requires items != []
    ensures Join(Slices(items)) == PrintItems(Bare(items))
  {
    assert PrintItem(Bare(items)[0]) == Slices(items)[0];
    if |items| > 1 {
      JoinIsPrint(items[1..]);
      assert Slices(items)[1..] == Slices(items[1..]);
      assert Bare(items)[1..] == Bare(items[1..]);
    }
  }

  lemma {:induction false} BareMeansTheSame(items: seq<Item>, unescape: string -> string)
    ensures Meanings(Bare(items), unescape) == Meanings(items, unescape)
  {
    if items != [] {
      assert Bare(items)[1..] == Bare(items[1..]);
      BareMeansTheSame(items[1..], unescape);
    }
  }

  /** A batch, wrapped in brackets again, parses to the list of its elements. */
  lemma YieldMeans(sp: Splitter, unescape: string -> string, batch: seq<Item>)
    requires Faithful(sp.parse, unescape) && forall item <- batch :: WellFormedItem(item)
    ensures sp.Yield(Slices(batch)) ==
            Some(if batch == [] then [] else [(HOMEWORKS, List(Meanings(batch, unescape)))])
  {
    if batch != [] {
      JoinIsPrint(batch);
      BareMeansTheSame(batch, unescape);
      var d := Array("", Bare(batch));
      assert Wrap(Slices(batch)) == Print(d);
      assert forall k :: 0 <= k < |batch| ==> WellFormedItem(batch[k]);
      assert WellFormed(d);
      assert Slices(batch) != [];
    }
  }

  lemma ItemParts(t: string, i: nat, x: string, after: string, c: string)
    requires Holds(t, i, (x + after) + c)
    ensures i + |x| + |after| + |c| <= |t|
    ensures Holds(t, i, x) && Holds(t, i + |x|, after + c) && Holds(t, i + |x|, after) && Holds(t, i + |x| + |after|, c)
  {
    hide Holds;
    assert (x + after) + c == x + (after + c);
    Cut(t, i, x, after + c);
    Cut(t, i + |x|, after, c);
  }

  /** An element is read from a to b, and behind its own space at j comes c. */
  lemma AfterItem(t: string, i: nat, item: Item, c: char) returns (a: nat, b: nat, j: nat)
    requires WellFormedItem(item) && Holds(t, i, PrintItem(item) + [c]) && c in {',', ']', '}'}
    ensures i <= a <= b <= j < |t| && j == i + |PrintItem(item)| && t[j] == c
    ensures TakeValue(t, i) == Some((a, b)) && t[a..b] == Print(item.doc)
    ensures SkipSpace(t, i) == a && SkipSpace(t, b) == j
  {
    hide TakeValue, SkipSpace, WellFormed, Print, Holds;
    var x := item.before + Print(item.doc);
    a, b, j := i + |item.before|, i + |x|, i + |PrintItem(item)|;
    ItemParts(t, i, x, item.after, [c]);
    Char(t, b, item.after + [c], 0);
    Char(t, j, [c], 0);
    TakeDoc(t, i, item.before, item.doc);
    SkipBlank(t, b, item.after);
    SkipNone(t, j);
  }

  /** One turn of the homework loop, given what it reads. */
  lemma BatchesTurn(sp: Splitter, t: string, i: nat, held: seq<string>, a: nat, b: nat, j: nat, full: seq<string>, yielded: seq<Entry>)
    requires i <= a <= b <= j < |t| && TakeValue(t, i) == Some((a, b)) && SkipSpace(t, b) == j
    requires full == held + [t[a..b]]
    requires if |full| == BATCH then sp.Yield(full) == Some(yielded) else yielded == []
    ensures var kept := if |full| == BATCH then [] else full;
            && (t[j] == ']' ==> sp.Batches(t, i, held) == Then(yielded, sp.Finish(t, j, kept)))
            && (t[j] == ',' ==> sp.Batches(t, i, held) == Then(yielded, sp.Batches(t, j + 1, kept)))
  {
    hide TakeValue, Splitter.Yield;
    SkipNone(t, j);
  }

  lemma FirstItem(t: string, i: nat, items: seq<Item>, tail: string)
    requires items != [] && Holds(t, i, PrintItems(items) + tail)
    ensures i + |PrintItems(items)| + |tail| <= |t|
    ensures |PrintItems(items)| == |PrintItem(items[0])| + if |items| == 1 then 0 else 1 + |PrintItems(items[1..])|
    ensures |items| == 1 ==> Holds(t, i, PrintItem(items[0]) + tail)
    ensures |items| > 1 ==> Holds(t, i, PrintItem(items[0]) + ",")
    ensures |items| > 1 ==> Holds(t, i + |PrintItem(items[0])| + 1, PrintItems(items[1..]) + tail)
  {
    hide Holds, PrintItem;
    Cut(t, i, PrintItems(items), tail);
    var x := PrintItem(items[0]);
    if |items| > 1 {
      var more := PrintItems(items[1..]);
      assert PrintItems(items) + tail == (x + ",") + (more + tail);
      Cut(t, i, x + ",", more + tail);
    } else {
      assert PrintItems(items) + tail == x + tail;
    }
  }

  lemma FirstBatch(held: seq<Item>, items: seq<Item>, unescape: string -> string)
    requires items != []
    ensures var full := held + [items[0]];
            BatchEntries(Batched(held, items), unescape) ==
            if |full| == BATCH then [(HOMEWORKS, List(Meanings(full, unescape)))] + BatchEntries(Batched([], items[1..]), unescape)
            else BatchEntries(Batched(full, items[1..]), unescape)
  {
    var full := held + [items[0]];
    if |full| == BATCH {
      assert Batched(held, items)[1..] == Batched([], items[1..]);
    }
  }

  lemma LastBatch(held: seq<Item>, unescape: string -> string)
    ensures BatchEntries(Batched(held, []), unescape) ==
            if held == [] then [] else [(HOMEWORKS, List(Meanings(held, unescape)))]
  {
  }

  lemma SlicesPlus(held: seq<Item>, item: Item)
    ensures Slices(held + [item]) == Slices(held) + [Print(item.doc)] && Slices([]) == []
  {
  }

  /** The homework loop yields the batches of the elements still to come. */
  lemma {:induction false} BatchesSplit(sp: Splitter, unescape: string -> string, t: string, i: nat, items: seq<Item>, held: seq<Item>)
    requires Faithful(sp.parse, unescape) && items != [] && |held| < BATCH
    requires (forall item <- items :: WellFormedItem(item)) && (forall item <- held :: WellFormedItem(item))
    requires Holds(t, i, PrintItems(items) + "]")
    ensures sp.Batches(t, i, Slices(held)) ==
            Section(BatchEntries(Batched(held, items), unescape), Some(i + |PrintItems(items)| + 1))
    decreases items
  {
    hide Scan, Faithful, TakeValue, Splitter.Yield, Splitter.Batches, SkipSpace, Print, PrintItems, WellFormed, Holds, Batched, BatchEntries, Slices;
    var item, rest := items[0], items[1..];
    var full := held + [item];
    var kept := if |full| == BATCH then [] else full;
    SlicesPlus(held, item);
    YieldMeans(sp, unescape, full);
    var c := if rest == [] then ']' else ',';
    FirstItem(t, i, items, "]");
    FirstBatch(held, items, unescape);
    var a, b, j := AfterItem(t, i, item, c);
    var yielded := if |full| == BATCH then [(HOMEWORKS, List(Meanings(full, unescape)))] else [];
    BatchesTurn(sp, t, i, Slices(held), a, b, j, Slices(full), yielded);
    if rest == [] {
      YieldMeans(sp, unescape, kept);
      LastBatch(kept, unescape);
      TakeNext(t, j, ']');
    } else {
      BatchesSplit(sp, unescape, t, j + 1, rest, kept);
    }
  }

  /** The parser rejects a list with an empty last element. */
  ghost predicate RejectsTrailingComma(parse: string -> Option<Json>) {
    forall batch: seq<Item> :: batch != [] && (forall item <- batch :: WellFormedItem(item)) ==>
      parse(Wrap(Slices(batch) + [""])) == None
  }

  /** The empty element behind a trailing comma gets through exactly when it starts a new batch. */
  lemma EmptyElement(sp: Splitter, unescape: string -> string, t: string, i: nat, blank: string, held: seq<Item>)
    requires Faithful(sp.parse, unescape) && RejectsTrailingComma(sp.parse) && IsSpace(blank)
    requires |held| < BATCH && forall item <- held :: WellFormedItem(item)
    requires Holds(t, i, blank + "]")
    ensures sp.Batches(t, i, Slices(held)) ==
            if held == [] then Section([(HOMEWORKS, List([]))], Some(i + |blank| + 1)) else Section([], None)
  {
    hide Faithful, RejectsTrailingComma, Splitter.Batches, Splitter.Yield, Holds, Slices, Wrap;
    var j := i + |blank|;
    Cut(t, i, blank, "]");
    Char(t, j, "]", 0);
    SkipBlank(t, i, blank);
    SkipNone(t, j);
    ScanStop(t, j);
    assert TakeValue(t, i) == Some((j, j));
    var full := Slices(held) + [""];
    assert t[j..j] == "";
    EmptyYield(sp, unescape, held);
    TakeNext(t, j, ']');
    if |full| == BATCH {
      FailedTurn(sp, t, i, Slices(held), j);
    } else {
      BatchesTurn(sp, t, i, Slices(held), j, j, j, full, []);
    }
  }

  lemma EmptyYield(sp: Splitter, unescape: string -> string, held: seq<Item>)
    requires Faithful(sp.parse, unescape) && RejectsTrailingComma(sp.parse) && forall item <- held :: WellFormedItem(item)
    ensures sp.Yield(Slices(held) + [""]) == if held == [] then Some([(HOMEWORKS, List([]))]) else None
  {
    assert Slices([]) == [];
    assert [] + [""] == [""] && Wrap([""]) == "[]" == Print(Array("", []));
    assert WellFormed(Array("", []));
  }

  lemma FailedTurn(sp: Splitter, t: string, i: nat, held: seq<string>, j: nat)
    requires i <= j <= |t| && TakeValue(t, i) == Some((j, j))
    requires |held| + 1 == BATCH && sp.Yield(held + [""]) == None
    ensures sp.Batches(t, i, held) == Section([], None)
  {
    hide TakeValue, Splitter.Yield;
    assert t[j..j] == "";
  }

  /**
   A comma behind the last homework is not JSON, yet the splitter accepts it exactly when the number
   of homeworks is a multiple of BATCH: the empty element then stands alone in its batch.
   */
  lemma {:induction false} TrailingComma(sp: Splitter, unescape: string -> string, t: string, i: nat, items: seq<Item>,
                                         held: seq<Item>, blank: string)
    requires Faithful(sp.parse, unescape) && RejectsTrailingComma(sp.parse) && IsSpace(blank)
    requires items != [] && |held| < BATCH
    requires (forall item <- items :: WellFormedItem(item)) && (forall item <- held :: WellFormedItem(item))
    requires Holds(t, i, PrintItems(items) + ("," + (blank + "]")))
    ensures sp.Batches(t, i, Slices(held)).end.Some? <==> (|held| + |items|) % BATCH == 0
    decreases items
  {
    hide Scan, Faithful, RejectsTrailingComma, TakeValue, Splitter.Yield, Splitter.Batches, SkipSpace, Print, PrintItems;
    hide WellFormed, Holds, Slices;
    var item, rest := items[0], items[1..];
    var full := held + [item];
    var kept := if |full| == BATCH then [] else full;
    SlicesPlus(held, item);
    YieldMeans(sp, unescape, full);
    FirstItem(t, i, items, "," + (blank + "]"));
    if rest == [] {
      assert PrintItem(item) + ("," + (blank + "]")) == (PrintItem(item) + ",") + (blank + "]");
      Cut(t, i, PrintItem(item) + ",", blank + "]");
    }
    var a, b, j := AfterItem(t, i, item, ',');
    var yielded := if |full| == BATCH then [(HOMEWORKS, List(Meanings(full, unescape)))] else [];
    BatchesTurn(sp, t, i, Slices(held), a, b, j, Slices(full), yielded);
    if rest == [] {
      EmptyElement(sp, unescape, t, j + 1, blank, kept);
    } else {
      TrailingComma(sp, unescape, t, j + 1, rest, kept, blank);
    }
  }

  /** The list elements of all entries of the homework key. */
  function Gather(entries: seq<Entry>): seq<Json> {
    if entries == [] then []
    else (if entries[0].0 == HOMEWORKS && entries[0].1.List? then entries[0].1.items else []) + Gather(entries[1..])
  }

  /** The entries of every other key. */
  function Others(entries: seq<Entry>): seq<Entry> {
    if entries == [] then []
    else (if entries[0].0 == HOMEWORKS then [] else [entries[0]]) + Others(entries[1..])
  }

  lemma {:induction false} MeaningsJoin(a: seq<Item>, b: seq<Item>, unescape: string -> string)
    ensures Meanings(a + b, unescape) == Meanings(a, unescape) + Meanings(b, unescape)
  {
  }

  /** The batches of the homework array hold exactly its elements, in order. */
  lemma {:induction false} BatchesGather(batches: seq<seq<Item>>, unescape: string -> string)
    ensures Gather(BatchEntries(batches, unescape)) == Meanings(Concat(batches), unescape)
    ensures Others(BatchEntries(batches, unescape)) == []
  {
    if batches != [] {
      BatchesGather(batches[1..], unescape);
      MeaningsJoin(batches[0], Concat(batches[1..]), unescape);
      assert BatchEntries(batches, unescape)[1..] == BatchEntries(batches[1..], unescape);
    }
  }

  lemma {:induction false} OthersJoin(a: seq<Entry>, b: seq<Entry>)
    ensures Others(a + b) == Others(a) + Others(b)
  {
    if a == [] {
      assert a + b == b;
    } else {
      assert (a + b)[1..] == a[1..] + b;
      OthersJoin(a[1..], b);
    }
  }

  /** Skipping homeworks changes nothing about the other keys. */
  lemma {:induction false} SkipKeepsOthers(members: seq<Member>, unescape: string -> string)
    ensures Others(ObjectEntries(members, true, unescape)) == Others(ObjectEntries(members, false, unescape))
  {
    if members != [] {
      var m := members[0];
      OthersJoin(MemberEntries(m, true, unescape), ObjectEntries(members[1..], true, unescape));
      OthersJoin(MemberEntries(m, false, unescape), ObjectEntries(members[1..], false, unescape));
      if m.value.doc.Array? {
        BatchesGather(Batched([], m.value.doc.items), unescape);
      }
      SkipKeepsOthers(members[1..], unescape);
    }
  }

  lemma BatchesSkip(sp: Splitter, t: string, i: nat, batch: seq<string>)
    requires i <= |t|
    ensures sp.Batches(t, SkipSpace(t, i), batch) == sp.Batches(t, i, batch)
  {
    SkipTwice(t, i);
  }

  lemma OpenArray(t: string, a: nat, b: nat, inner: string)
    requires a <= b <= |t| && t[a..b] == "[" + inner + "]"
    ensures a + 2 + |inner| == b && t[a] == '[' && Holds(t, a + 1, inner + "]")
  {
    assert "[" + inner + "]" == "[" + (inner + "]");
    Cut(t, a, "[", inner + "]");
    Char(t, a, "[", 0);
  }

  /** The homework array that starts at a and ends at b. */
  lemma ArraySplit(sp: Splitter, unescape: string -> string, t: string, i: nat, a: nat, b: nat, d: Doc)
    requires Faithful(sp.parse, unescape) && WellFormed(d) && d.Array? && sp.homeworks
    requires i <= a <= b <= |t| && SkipSpace(t, i) == a && t[a..b] == Print(d)
    ensures sp.Value(HOMEWORKS, t, i) == Section(BatchEntries(Batched([], d.items), unescape), Some(b))
  {
    hide Faithful, Splitter.Batches, SkipSpace, TakeValue, WellFormedItem, Holds, PrintItems;
    var inner := if d.items == [] then d.blank else PrintItems(d.items);
    OpenArray(t, a, b, inner);
    assert TakeChar(t, i, '[') == Some(a + 1);
    if d.items == [] {
      Cut(t, a + 1, inner, "]");
      Char(t, b - 1, "]", 0);
      SkipBlank(t, a + 1, d.blank);
      SkipNone(t, b - 1);
      TakeNext(t, b - 1, ']');
    } else {
      assert Slices([]) == [];
      BatchesSplit(sp, unescape, t, a + 1, d.items, []);
      BatchesSkip(sp, t, a + 1, []);
      FirstIsNoBracket(t, a + 1, d.items);
    }
  }

  lemma FirstIsNoBracket(t: string, i: nat, items: seq<Item>)
    requires items != [] && WellFormedItem(items[0]) && Holds(t, i, PrintItems(items) + "]")
    ensures !Sees(t, SkipSpace(t, i), ']')
  {
    hide Holds, Print, WellFormed, SkipSpace;
    var item, c := items[0], if |items| > 1 then "," else "]";
    FirstItem(t, i, items, "]");
    assert PrintItem(item) + c == (item.before + Print(item.doc)) + (item.after + c);
    Cut(t, i, item.before + Print(item.doc), item.after + c);
    Cut(t, i, item.before, Print(item.doc));
    SkipBlank(t, i, item.before);
    FirstChar(item.doc);
    Char(t, i + |item.before|, Print(item.doc), 0);
    SkipNone(t, i + |item.before|);
  }

  lemma ParseKey(sp: Splitter, unescape: string -> string, d: Doc)
    requires Faithful(sp.parse, unescape) && d.Quote? && IsBody(d.body)
    ensures WellFormed(d) && sp.parse(Print(d)) == Some(Text(unescape(d.body)))
  {
    assert WellFormed(d);
  }

  /** The key, its space and the colon; a key seen before is refused. */
  lemma KeySplit(sp: Splitter, unescape: string -> string, t: string, i: nat, keys: set<string>, m: Member)
    requires Faithful(sp.parse, unescape) && IsSpace(m.before) && IsBody(m.key) && IsSpace(m.after)
    requires Holds(t, i, m.before + ("\"" + m.key + "\"") + m.after + ":")
    ensures unescape(m.key) !in keys ==> sp.Key(t, i, keys) == Some((unescape(m.key), i + |m.before| + |m.key| + 2 + |m.after| + 1))
    ensures unescape(m.key) in keys ==> sp.Key(t, i, keys) == None
  {
    hide Holds, SkipSpace, TakeValue, IsBody, Faithful;
    var d := Quote(m.key);
    ParseKey(sp, unescape, d);
    var x := m.before + Print(d);
    assert m.before + ("\"" + m.key + "\"") + m.after + ":" == x + (m.after + ":");
    Cut(t, i, x, m.after + ":");
    Cut(t, i + |x|, m.after, ":");
    TakeDoc(t, i, m.before, d);
    SkipBlank(t, i + |x|, m.after);
    Char(t, i + |x + m.after|, ":", 0);
    SkipNone(t, i + |x + m.after|);
  }

  /** The value of a member read from a to b. */
  lemma ValueSplit(sp: Splitter, unescape: string -> string, t: string, i: nat, a: nat, b: nat, m: Member)
    requires Faithful(sp.parse, unescape) && WellFormed(m.value.doc)
    requires unescape(m.key) == HOMEWORKS ==> m.value.doc.Array?
    requires i <= a <= b <= |t| && SkipSpace(t, i) == a && t[a..b] == Print(m.value.doc) && TakeValue(t, i) == Some((a, b))
    ensures sp.Value(unescape(m.key), t, i) == Section(MemberEntries(m, sp.homeworks, unescape), Some(b))
  {
    hide SkipSpace, TakeValue, WellFormed, Batched, BatchEntries, Splitter.Batches;
    var key := unescape(m.key);
    if key == HOMEWORKS {
      if sp.homeworks {
        ArraySplit(sp, unescape, t, i, a, b, m.value.doc);
      } else {
        FirstChar(m.value.doc);
        assert t[a] == t[a..b][0];
      }
    }
  }

  /** Under `homeworks` only an array is read. */
  lemma ValueRefused(sp: Splitter, t: string, i: nat, a: nat, b: nat, d: Doc)
    requires WellFormed(d) && !d.Array? && i <= a <= b <= |t| && SkipSpace(t, i) == a && t[a..b] == Print(d)
    ensures sp.Value(HOMEWORKS, t, i).end.None?
  {
    hide SkipSpace, TakeValue, WellFormed, Splitter.Batches;
    FirstChar(d);
    assert t[a] == t[a..b][0];
  }

  /** One turn of the envelope loop, given what it reads. */
  lemma MembersTurn(sp: Splitter, t: string, i: nat, keys: set<string>, key: string, k: nat, e: seq<Entry>, b: nat, j: nat)
    requires i < k <= b <= j < |t| && sp.Key(t, i, keys) == Some((key, k))
    requires sp.Value(key, t, k) == Section(e, Some(b)) && SkipSpace(t, b) == j
    ensures t[j] == '}' ==> sp.Members(t, i, keys) == After(e, sp.Close(t, j, keys + {key}))
    ensures t[j] == ',' ==> sp.Members(t, i, keys) == After(e, sp.Members(t, j + 1, keys + {key}))
  {
    hide Splitter.Key, Splitter.Value;
    SkipNone(t, j);
  }

  lemma FirstMember(t: string, i: nat, members: seq<Member>, trail: string)
    requires members != [] && Holds(t, i, PrintMembers(members) + ("}" + trail))
    ensures var m := members[0];
            var start := m.before + ("\"" + m.key + "\"") + m.after + ":";
            var c := if |members| == 1 then "}" else ",";
            && Holds(t, i, start)
            && Holds(t, i + |start|, PrintItem(m.value) + c)
            && i + |start| + |PrintItem(m.value)| == i + |PrintMember(m)|
            && (|members| == 1 ==> Holds(t, i + |PrintMember(m)|, "}" + trail))
            && (|members| > 1 ==> Holds(t, i + |PrintMember(m)| + 1, PrintMembers(members[1..]) + ("}" + trail)))
  {
    hide Holds, PrintItem;
    var m := members[0];
    var start, v := m.before + ("\"" + m.key + "\"") + m.after + ":", PrintItem(m.value);
    var c := if |members| == 1 then "}" else ",";
    var more := if |members| == 1 then trail else PrintMembers(members[1..]) + ("}" + trail);
    assert PrintMembers(members) + ("}" + trail) == ((start + v) + c) + more;
    CutFour(t, i, start, v, c, more);
  }

  lemma CutFour(t: string, i: nat, a: string, b: string, c: string, d: string)
    requires Holds(t, i, ((a + b) + c) + d)
    ensures Holds(t, i, a) && Holds(t, i + |a|, b + c) && Holds(t, i + |a| + |b|, c + d) && Holds(t, i + |a| + |b| + |c|, d)
  {
    hide Holds;
    assert ((a + b) + c) + d == a + ((b + c) + d) == (a + b) + (c + d);
    Cut(t, i, a, (b + c) + d);
    Cut(t, i + |a|, b + c, d);
    Cut(t, i, a + b, c + d);
  }

  /** The end of the envelope and the space behind it. */
  lemma CloseSplit(sp: Splitter, t: string, i: nat, trail: string, keys: set<string>)
    requires Holds(t, i, "}" + trail) && i + 1 + |trail| == |t| && IsSpace(trail) && HOMEWORKS in keys
    ensures i < |t| && t[i] == '}' && sp.Close(t, i, keys) == Outcome([], true)
  {
    Cut(t, i, "}", trail);
    Char(t, i, "}", 0);
    TakeNext(t, i, '}');
    SkipBlank(t, i + 1, trail);
  }

  ghost predicate Splittable(members: seq<Member>, unescape: string -> string) {
    && (forall m <- members :: WellFormedMember(m))
    && (forall m <- members :: unescape(m.key) == HOMEWORKS ==> m.value.doc.Array?)
    && (forall j, k :: 0 <= j < k < |members| ==> unescape(members[j].key) != unescape(members[k].key))
  }

  /** What the envelope loop relies on when it reaches these members with those keys seen. */
  ghost predicate Ready(members: seq<Member>, keys: set<string>, unescape: string -> string) {
    && Splittable(members, unescape)
    && (forall m <- members :: unescape(m.key) !in keys)
    && (HOMEWORKS in keys || exists m <- members :: unescape(m.key) == HOMEWORKS)
  }

  lemma ReadyNext(members: seq<Member>, keys: set<string>, unescape: string -> string)
    requires members != [] && Ready(members, keys, unescape)
    ensures var m := members[0];
            && WellFormedMember(m)
            && unescape(m.key) !in keys
            && (unescape(m.key) == HOMEWORKS ==> m.value.doc.Array?)
            && Ready(members[1..], keys + {unescape(m.key)}, unescape)
  {
    assert members[0] in members && forall r <- members[1..] :: r in members;
  }

  lemma {:induction false} MembersSplit(sp: Splitter, unescape: string -> string, t: string, i: nat, members: seq<Member>,
                                        trail: string, keys: set<string>)
    requires Faithful(sp.parse, unescape) && members != [] && Ready(members, keys, unescape) && IsSpace(trail)
    requires Holds(t, i, PrintMembers(members) + ("}" + trail)) && i + |PrintMembers(members)| + 1 + |trail| == |t|
    ensures sp.Members(t, i, keys) == Outcome(ObjectEntries(members, sp.homeworks, unescape), true)
    decreases members
  {
    hide Faithful, Splitter.Members, Splitter.Close, Holds, SkipSpace, TakeValue, PrintMember, PrintItem, MemberEntries, Splittable;
    var m, rest := members[0], members[1..];
    var key := unescape(m.key);
    ReadyNext(members, keys, unescape);
    FirstMember(t, i, members, trail);
    KeySplit(sp, unescape, t, i, keys, m);
    var k := i + |m.before| + |m.key| + 2 + |m.after| + 1;
    var a, b, j := AfterItem(t, k, m.value, if rest == [] then '}' else ',');
    ValueSplit(sp, unescape, t, k, a, b, m);
    MembersTurn(sp, t, i, keys, key, k, MemberEntries(m, sp.homeworks, unescape), b, j);
    if rest == [] {
      assert HOMEWORKS in keys + {key};
      CloseSplit(sp, t, j, trail, keys + {key});
    } else {
      MembersSplit(sp, unescape, t, j + 1, rest, trail, keys + {key});
    }
  }

  /**
   Every well-formed snapshot is split into its members: each key but `homeworks` with its value,
   and the homework array in batches, or as the empty list when homeworks are skipped.
   */
  lemma SplitUndoesPrint(sp: Splitter, unescape: string -> string, lead: string, d: Doc, trail: string)
    requires Faithful(sp.parse, unescape)
    requires IsSpace(lead) && IsSpace(trail) && d.Object? && Splittable(d.members, unescape)
    requires exists m <- d.members :: unescape(m.key) == HOMEWORKS
    ensures sp.Read(lead + Print(d) + trail) == Outcome(ObjectEntries(d.members, sp.homeworks, unescape), true)
  {
    hide Faithful, Splitter.Members, Splitter.Close, SkipSpace, Holds, PrintMembers, Splittable, ObjectEntries, TakeChar;
    assert Ready(d.members, {}, unescape);
    ReadyNext(d.members, {}, unescape);
    var t := lead + Print(d) + trail;
    var i := OpenObject(t, lead, PrintMembers(d.members), trail);
    MembersSplit(sp, unescape, t, i, d.members, trail, {});
    MembersSkip(sp, t, i, {});
    FirstKey(t, i, d.members, trail);
  }

  lemma ReadyAgain(members: seq<Member>, keys: set<string>, unescape: string -> string)
    requires members != [] && Ready(members[1..], keys + {unescape(members[0].key)}, unescape)
    requires var m := members[0];
             WellFormedMember(m) && unescape(m.key) !in keys && (unescape(m.key) == HOMEWORKS ==> m.value.doc.Array?)
    ensures Ready(members, keys, unescape)
  {
    hide WellFormedMember;
    var m, rest := members[0], members[1..];
    assert forall k :: 0 <= k < |members| ==> members[k] == if k == 0 then m else rest[k - 1];
    assert forall k :: 0 < k < |members| ==> members[k] in rest;
    assert forall x <- members :: x == m || x in rest;
  }

  /** From any member on, the rest of a printed object is accepted only if it is ready to be split. */
  lemma {:induction false} AcceptedIsReady(sp: Splitter, unescape: string -> string, t: string, i: nat, members: seq<Member>,
                                           trail: string, keys: set<string>)
    requires Faithful(sp.parse, unescape) && members != [] && (forall m <- members :: WellFormedMember(m)) && IsSpace(trail)
    requires Holds(t, i, PrintMembers(members) + ("}" + trail)) && i + |PrintMembers(members)| + 1 + |trail| == |t|
    requires sp.Members(t, i, keys).accepted
    ensures Ready(members, keys, unescape)
    decreases members
  {
    hide Faithful, Splitter.Members, Holds, SkipSpace, TakeValue, PrintMember, PrintItem, MemberEntries, Ready;
    var m, rest := members[0], members[1..];
    var key := unescape(m.key);
    assert m in members;
    FirstMember(t, i, members, trail);
    KeySplit(sp, unescape, t, i, keys, m);
    KeyNeeded(sp, t, i, keys);
    var k := i + |m.before| + |m.key| + 2 + |m.after| + 1;
    var a, b, j := AfterItem(t, k, m.value, if rest == [] then '}' else ',');
    ValueNeeded(sp, t, i, keys, key, k);
    if key == HOMEWORKS && !m.value.doc.Array? {
      ValueRefused(sp, t, k, a, b, m.value.doc);
    }
    ValueSplit(sp, unescape, t, k, a, b, m);
    MembersTurn(sp, t, i, keys, key, k, MemberEntries(m, sp.homeworks, unescape), b, j);
    if rest == [] {
      assert HOMEWORKS in keys + {key};
      NothingIsReady(keys + {key}, unescape);
    } else {
      AcceptedIsReady(sp, unescape, t, j + 1, rest, trail, keys + {key});
    }
    ReadyAgain(members, keys, unescape);
  }

  lemma NothingIsReady(keys: set<string>, unescape: string -> string)
    ensures Ready([], keys, unescape) <==> HOMEWORKS in keys
  {
  }

  lemma KeyNeeded(sp: Splitter, t: string, i: nat, keys: set<string>)
    requires i <= |t| && sp.Members(t, i, keys).accepted
    ensures sp.Key(t, i, keys).Some?
  {
    hide Splitter.Key, Splitter.Value;
  }

  lemma ValueNeeded(sp: Splitter, t: string, i: nat, keys: set<string>, key: string, k: nat)
    requires i < k <= |t| && sp.Members(t, i, keys).accepted && sp.Key(t, i, keys) == Some((key, k))
    ensures sp.Value(key, t, k).end.Some?
  {
    hide Splitter.Key, Splitter.Value;
  }

  lemma BeforeIsSpace(m: Member)
    requires WellFormedMember(m)
    ensures IsSpace(m.before)
  {
  }

  lemma EmptyCloses(t: string, i: nat, blank: string, trail: string)
    requires IsSpace(blank) && Holds(t, i, blank + ("}" + trail))
    ensures Sees(t, SkipSpace(t, i), '}')
  {
    hide Holds, SkipSpace;
    Cut(t, i, blank, "}" + trail);
    Char(t, i + |blank|, "}" + trail, 0);
    SkipBlank(t, i, blank);
    SkipNone(t, i + |blank|);
  }

  /** A well-formed object is accepted iff its keys are distinct and `homeworks` is among them, with an array. */
  lemma AcceptedWhen(sp: Splitter, unescape: string -> string, lead: string, d: Doc, trail: string)
    requires Faithful(sp.parse, unescape) && IsSpace(lead) && IsSpace(trail) && d.Object? && WellFormed(d)
    ensures sp.Read(lead + Print(d) + trail).accepted <==>
            && (forall j, k :: 0 <= j < k < |d.members| ==> unescape(d.members[j].key) != unescape(d.members[k].key))
            && (exists m <- d.members :: unescape(m.key) == HOMEWORKS)
            && (forall m <- d.members :: unescape(m.key) == HOMEWORKS ==> m.value.doc.Array?)
  {
    hide Faithful, Splitter.Members, SkipSpace, Holds, PrintMembers, WellFormedMember, ObjectEntries, TakeChar;
    var t := lead + Print(d) + trail;
    var inner := if d.members == [] then d.blank else PrintMembers(d.members);
    if Splittable(d.members, unescape) && exists m <- d.members :: unescape(m.key) == HOMEWORKS {
      SplitUndoesPrint(sp, unescape, lead, d, trail);
    } else if sp.Read(t).accepted {
      var i := OpenObject(t, lead, inner, trail);
      if d.members == [] {
        EmptyCloses(t, i, d.blank, trail);
      } else {
        MembersSkip(sp, t, i, {});
        assert WellFormedMember(d.members[0]);
        BeforeIsSpace(d.members[0]);
        FirstKey(t, i, d.members, trail);
        AcceptedIsReady(sp, unescape, t, i, d.members, trail, {});
      }
    }
  }

  lemma OpenObject(t: string, lead: string, inner: string, trail: string) returns (i: nat)
    requires IsSpace(lead) && t == lead + ("{" + inner + "}") + trail
    ensures TakeChar(t, 0, '{') == Some(i) && i + |inner| + 1 + |trail| == |t|
    ensures Holds(t, i, inner + ("}" + trail))
  {
    hide SkipSpace;
    i := |lead| + 1;
    assert t == lead + ("{" + (inner + ("}" + trail)));
    assert Holds(t, 0, t);
    Cut(t, 0, lead, "{" + (inner + ("}" + trail)));
    Cut(t, |lead|, "{", inner + ("}" + trail));
    Char(t, |lead|, "{", 0);
    SkipBlank(t, 0, lead);
    SkipNone(t, |lead|);
  }

  lemma MembersSkip(sp: Splitter, t: string, i: nat, keys: set<string>)
    requires i <= |t|
    ensures sp.Members(t, SkipSpace(t, i), keys) == sp.Members(t, i, keys)
  {
    SkipTwice(t, i);
  }

  lemma FirstKey(t: string, i: nat, members: seq<Member>, trail: string)
    requires members != [] && IsSpace(members[0].before) && Holds(t, i, PrintMembers(members) + ("}" + trail))
    ensures !Sees(t, SkipSpace(t, i), '}')
  {
    hide Holds, PrintItem, PrintMembers, SkipSpace;
    var m := members[0];
    var start, more := m.before + ("\"" + m.key + "\"") + m.after + ":", "\"" + m.key + "\"" + m.after + ":";
    FirstMember(t, i, members, trail);
    assert start == m.before + more;
    Cut(t, i, m.before, more);
    Char(t, i + |m.before|, more, 0);
    SkipBlank(t, i, m.before);
    SkipNone(t, i + |m.before|);
  }
}
