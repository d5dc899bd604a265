/**
 The grammar is unambiguous: a text has one meaning. So there is a parser that is faithful to it, which is
 what the results about the splitter ask of JSON.parse.
 */
module JsonUnique {
  import opened Options
  import opened SnapshotSplit
  import opened JsonText
  import opened JsonScan
  import opened SplitPrint

  /** d stands at i, and what follows ends it. */
  ghost predicate StandsAt(t: string, i: nat, d: Doc) {
    WellFormed(d) && Holds(t, i, Print(d)) && (d.Plain? ==> i + |Print(d)| == |t| || t[i + |Print(d)|] in DELIMITERS)
  }

  ghost predicate ItemAt(t: string, i: nat, x: Item) {
    WellFormedItem(x) && Holds(t, i, PrintItem(x)) && i + |PrintItem(x)| < |t| && t[i + |PrintItem(x)|] in {',', ']', '}'}
  }

  ghost predicate ItemsAt(t: string, i: nat, items: seq<Item>) {
    items != [] && (forall x <- items :: WellFormedItem(x)) && Holds(t, i, PrintItems(items))
    && i + |PrintItems(items)| < |t| && t[i + |PrintItems(items)|] == ']'
  }

  ghost predicate MemberAt(t: string, i: nat, m: Member) {
    WellFormedMember(m) && Holds(t, i, PrintMember(m)) && i + |PrintMember(m)| < |t| && t[i + |PrintMember(m)|] in {',', ']', '}'}
  }

  ghost predicate MembersAt(t: string, i: nat, members: seq<Member>) {
    members != [] && (forall m <- members :: WellFormedMember(m)) && Holds(t, i, PrintMembers(members))
    && i + |PrintMembers(members)| < |t| && t[i + |PrintMembers(members)|] == '}'
  }

  /** The parts of an item: its value, and the space up to what ends it. */
  lemma ItemAtParts(t: string, i: nat, x: Item) returns (a: nat, b: nat, end: nat)
    requires ItemAt(t, i, x)
    ensures a == i + |x.before| && b == a + |Print(x.doc)| && end == i + |PrintItem(x)| && b <= end < |t|
    ensures SkipSpace(t, i) == a && StandsAt(t, a, x.doc) && SkipSpace(t, b) == end
  {
    hide SkipSpace, Print, WellFormed;
    a, b, end := i + |x.before|, i + |x.before| + |Print(x.doc)|, i + |PrintItem(x)|;
    Cut(t, i, x.before + Print(x.doc), x.after);
    Cut(t, i, x.before, Print(x.doc));
    if x.after != "" {
      Char(t, b, x.after, 0);
    }
    TakeDoc(t, i, x.before, x.doc);
    SkipBlank(t, b, x.after);
    SkipNone(t, end);
  }

  lemma {:induction false} SameDoc(t: string, i: nat, d: Doc, e: Doc, unescape: string -> string)
    requires StandsAt(t, i, d) && StandsAt(t, i, e)
    ensures |Print(d)| == |Print(e)| && Meaning(d, unescape) == Meaning(e, unescape)
    decreases d, 1
  {
    hide Scan, IsBody, IsLexeme, Holds;
    ScanValue(t, i, d);
    ScanValue(t, i, e);
    FirstChar(d);
    FirstChar(e);
    assert Print(d) == Print(e) by { SameText(t, i, Print(d), Print(e)); }
    match d
    case Plain(lexeme) =>
    case Quote(body) => SameInner("\"", body, "\"", e.body);
    case Array(blank, items) => SameArray(t, i, d, e, unescape);
    case Object(blank, members) => SameObject(t, i, d, e, unescape);
  }

  lemma SameText(t: string, i: nat, x: string, y: string)
    requires Holds(t, i, x) && Holds(t, i, y) && |x| == |y|
    ensures x == y
  {
  }

  lemma SameInner(open: string, x: string, close: string, y: string)
    requires open + x + close == open + y + close
    ensures x == y
  {
    var whole := open + x + close;
    assert |x| == |y|;
    assert whole[|open|..|open| + |x|] == x;
    assert (open + y + close)[|open|..|open| + |x|] == y;
  }

  /** What stands between an array's brackets: blank, or the items up to the bracket. */
  lemma ArrayInner(t: string, i: nat, d: Doc) returns (x: string)
    requires StandsAt(t, i, d) && d.Array?
    ensures Print(d) == "[" + x + "]" && (IsSpace(x) <==> d.items == []) && (d.items != [] ==> ItemsAt(t, i + 1, d.items))
  {
    hide Holds, IsBody, IsLexeme, WellFormedItem, PrintItem;
    x := if d.items == [] then d.blank else PrintItems(d.items);
    InnerAt(t, i, "[", x, "]");
    if d.items != [] { ItemsHaveNoBlank(d.items); }
  }

  lemma {:induction false} SameArray(t: string, i: nat, d: Doc, e: Doc, unescape: string -> string)
    requires StandsAt(t, i, d) && StandsAt(t, i, e) && d.Array? && e.Array? && Print(d) == Print(e)
    ensures Meaning(d, unescape) == Meaning(e, unescape)
    decreases d, 0
  {
    hide StandsAt, ItemsAt, Print, IsSpace;
    var x := ArrayInner(t, i, d);
    var y := ArrayInner(t, i, e);
    SameInner("[", x, "]", y);
    if d.items != [] {
      SameItems(t, i + 1, d.items, e.items, unescape);
    }
  }

  lemma InnerAt(t: string, i: nat, open: string, inner: string, close: string)
    requires Holds(t, i, open + inner + close) && |open| == |close| == 1
    ensures Holds(t, i + 1, inner) && i + 1 + |inner| < |t| && t[i + 1 + |inner|] == close[0]
  {
    Cut(t, i, open + inner, close);
    Cut(t, i, open, inner);
    Char(t, i, open + inner + close, 1 + |inner|);
  }

  lemma ItemsHaveNoBlank(items: seq<Item>)
    requires items != [] && WellFormedItem(items[0])
    ensures !IsSpace(PrintItems(items))
  {
    FirstChar(items[0].doc);
    var k, x := |items[0].before|, items[0].before + Print(items[0].doc);
    assert x[k] == Print(items[0].doc)[0];
    assert PrintItem(items[0])[k] == x[k];
    assert PrintItems(items)[k] == PrintItem(items[0])[k];
  }

  lemma {:induction false} SameItem(t: string, i: nat, x: Item, y: Item, unescape: string -> string)
    requires ItemAt(t, i, x) && ItemAt(t, i, y)
    ensures |PrintItem(x)| == |PrintItem(y)| && Meaning(x.doc, unescape) == Meaning(y.doc, unescape)
    decreases x, 2
  {
    hide ItemAt, StandsAt, SkipSpace, Print, Meaning;
    var a, b, end := ItemAtParts(t, i, x);
    var a', b', end' := ItemAtParts(t, i, y);
    SameDoc(t, a, x.doc, y.doc, unescape);
  }

  /** The first of several items, what ends it, and the rest behind a comma. */
  lemma FirstItem(t: string, i: nat, items: seq<Item>) returns (end: nat)
    requires ItemsAt(t, i, items)
    ensures ItemAt(t, i, items[0]) && end == i + |PrintItem(items[0])| && end < |t|
    ensures |items| == 1 ==> t[end] == ']'
    ensures |items| > 1 ==> t[end] == ',' && ItemsAt(t, end + 1, items[1..])
  {
    hide PrintItem, WellFormedItem;
    var x := PrintItem(items[0]);
    end := i + |x|;
    if |items| == 1 {
      assert x + "" == x;
    } else {
      var rest := PrintItems(items[1..]);
      Cut(t, i, x, "," + rest);
      Cut(t, end, ",", rest);
      Char(t, end, ",", 0);
    }
  }

  lemma {:induction false} SameItems(t: string, i: nat, a: seq<Item>, b: seq<Item>, unescape: string -> string)
    requires ItemsAt(t, i, a) && ItemsAt(t, i, b)
    ensures Meanings(a, unescape) == Meanings(b, unescape)
    decreases a, 0
  {
    hide ItemAt, ItemsAt, PrintItem, Meaning;
    assert a != [] && b != [] by { ItemsThere(t, i, a); ItemsThere(t, i, b); }
    var end := FirstItem(t, i, a);
    var end' := FirstItem(t, i, b);
    SameItem(t, i, a[0], b[0], unescape);
    if |a| > 1 {
      SameItems(t, end + 1, a[1..], b[1..], unescape);
    }
  }

  lemma ItemsThere(t: string, i: nat, a: seq<Item>)
    requires ItemsAt(t, i, a)
    ensures a != []
  {
  }

  // Objects.

  lemma ObjectInner(t: string, i: nat, d: Doc) returns (x: string)
    requires StandsAt(t, i, d) && d.Object?
    ensures Print(d) == "{" + x + "}" && (IsSpace(x) <==> d.members == []) && (d.members != [] ==> MembersAt(t, i + 1, d.members))
  {
    hide Holds, IsBody, IsLexeme, WellFormedMember, PrintMember;
    x := if d.members == [] then d.blank else PrintMembers(d.members);
    InnerAt(t, i, "{", x, "}");
    if d.members != [] { MembersHaveNoBlank(d.members); }
  }

  lemma {:induction false} SameObject(t: string, i: nat, d: Doc, e: Doc, unescape: string -> string)
    requires StandsAt(t, i, d) && StandsAt(t, i, e) && d.Object? && e.Object? && Print(d) == Print(e)
    ensures Meaning(d, unescape) == Meaning(e, unescape)
    decreases d, 0
  {
    hide StandsAt, MembersAt, Print, IsSpace;
    var x := ObjectInner(t, i, d);
    var y := ObjectInner(t, i, e);
    SameInner("{", x, "}", y);
    if d.members != [] {
      SameMembers(t, i + 1, d.members, e.members, unescape);
    }
  }

  lemma MembersHaveNoBlank(members: seq<Member>)
    requires members != []
    ensures !IsSpace(PrintMembers(members))
  {
    var m := members[0];
    var k, x := |m.before|, m.before + ("\"" + m.key + "\"");
    assert x[k] == '"';
    assert PrintMember(m) == x + (m.after + ":" + PrintItem(m.value));
    assert PrintMember(m)[k] == x[k];
    assert PrintMembers(members)[k] == PrintMember(m)[k];
  }

  lemma MemberCuts(t: string, i: nat, m: Member)
    requires Holds(t, i, PrintMember(m))
    ensures var b := i + |m.before| + |m.key| + 2;
            && Holds(t, i, m.before) && Holds(t, i + |m.before|, "\"" + m.key + "\"") && Holds(t, b, m.after)
            && Holds(t, b + |m.after|, ":") && Holds(t, b + |m.after| + 1, PrintItem(m.value))
            && i + |PrintMember(m)| == b + |m.after| + 1 + |PrintItem(m.value)|
  {
    hide PrintItem, Holds;
    var quoted, v := "\"" + m.key + "\"", PrintItem(m.value);
    Cut(t, i, m.before + quoted + m.after + ":", v);
    Cut(t, i, m.before + quoted + m.after, ":");
    Cut(t, i, m.before + quoted, m.after);
    Cut(t, i, m.before, quoted);
  }

  /** The parts of a member: its key, the place behind the colon, and its value there. */
  lemma MemberAtParts(t: string, i: nat, m: Member) returns (a: nat, b: nat, v: nat)
    requires MemberAt(t, i, m)
    ensures a == SkipSpace(t, i) && StandsAt(t, a, Quote(m.key)) && b == a + |m.key| + 2 <= |t| && v == SkipSpace(t, b) + 1
    ensures ItemAt(t, v, m.value) && i + |PrintMember(m)| == v + |PrintItem(m.value)|
  {
    hide SkipSpace, PrintItem, WellFormed, IsBody, Holds, PrintMember;
    MemberCuts(t, i, m);
    a := i + |m.before|;
    b := a + |m.key| + 2;
    v := b + |m.after| + 1;
    Char(t, v - 1, ":", 0);
    Char(t, a, "\"" + m.key + "\"", 0);
    SkipBlank(t, i, m.before);
    SkipNone(t, a);
    SkipBlank(t, b, m.after);
    SkipNone(t, v - 1);
    QuoteStands(t, a, m.key);
  }

  lemma QuoteStands(t: string, i: nat, body: string)
    requires IsBody(body) && Holds(t, i, "\"" + body + "\"")
    ensures StandsAt(t, i, Quote(body))
  {
    hide Holds, IsBody;
  }

  lemma {:induction false} SameMember(t: string, i: nat, m: Member, n: Member, unescape: string -> string)
    requires MemberAt(t, i, m) && MemberAt(t, i, n)
    ensures |PrintMember(m)| == |PrintMember(n)| && m.key == n.key && Meaning(m.value.doc, unescape) == Meaning(n.value.doc, unescape)
    decreases m, 3
  {
    hide MemberAt, ItemAt, StandsAt, SkipSpace, Meaning, PrintMember, PrintItem;
    var a, b, v := MemberAtParts(t, i, m);
    var a', b', v' := MemberAtParts(t, i, n);
    SameQuote(t, a, m.key, n.key);
    SameItem(t, v, m.value, n.value, unescape);
  }

  lemma SameQuote(t: string, i: nat, x: string, y: string)
    requires StandsAt(t, i, Quote(x)) && StandsAt(t, i, Quote(y))
    ensures x == y
  {
    hide Scan, IsBody, Holds;
    ScanValue(t, i, Quote(x));
    ScanValue(t, i, Quote(y));
    SameText(t, i, "\"" + x + "\"", "\"" + y + "\"");
    SameInner("\"", x, "\"", y);
  }

  lemma FirstMemberAt(t: string, i: nat, members: seq<Member>) returns (end: nat)
    requires MembersAt(t, i, members)
    ensures members != [] && MemberAt(t, i, members[0]) && end == i + |PrintMember(members[0])| && end < |t|
    ensures |members| == 1 ==> t[end] == '}'
    ensures |members| > 1 ==> t[end] == ',' && MembersAt(t, end + 1, members[1..])
  {
    hide PrintMember, WellFormedMember;
    var x := PrintMember(members[0]);
    end := i + |x|;
    if |members| == 1 {
      assert x + "" == x;
    } else {
      var rest := PrintMembers(members[1..]);
      Cut(t, i, x, "," + rest);
      Cut(t, end, ",", rest);
      Char(t, end, ",", 0);
    }
  }

  lemma {:induction false} SameMembers(t: string, i: nat, a: seq<Member>, b: seq<Member>, unescape: string -> string)
    requires MembersAt(t, i, a) && MembersAt(t, i, b)
    ensures Fields(a, unescape) == Fields(b, unescape)
    decreases a, 0
  {
    hide MemberAt, MembersAt, PrintMember, Meaning;
    var end := FirstMemberAt(t, i, a);
    var end' := FirstMemberAt(t, i, b);
    SameMember(t, i, a[0], b[0], unescape);
    if |a| > 1 {
      SameMembers(t, end + 1, a[1..], b[1..], unescape);
    }
  }

  // What follows for parsers.

  /** Two well-formed documents with the same text mean the same. */
  lemma Unambiguous(d: Doc, e: Doc, unescape: string -> string)
    requires WellFormed(d) && WellFormed(e) && Print(d) == Print(e)
    ensures Meaning(d, unescape) == Meaning(e, unescape)
  {
    SameDoc(Print(d), 0, d, e, unescape);
  }

  /** The parser the grammar defines. */
  ghost function Parse(x: string, unescape: string -> string): Option<Json> {
    if d: Doc :| WellFormed(d) && Print(d) == x then Some(Meaning(d, unescape)) else None
  }

  /** A comma behind the items is not followed by the array's end if the text is also that of an array. */
  lemma {:induction false} NoEndAfterComma(t: string, i: nat, a: seq<Item>, b: seq<Item>)
    requires a != [] && (forall x <- a :: WellFormedItem(x)) && Holds(t, i, PrintItems(a) + ",") && ItemsAt(t, i, b)
    requires i + |PrintItems(a)| + 1 < |t|
    ensures t[i + |PrintItems(a)| + 1] != ']'
    decreases a
  {
    ItemsThere(t, i, b);
    hide ItemAt, ItemsAt, PrintItem, WellFormedItem;
    var end := CommaItem(t, i, a);
    var end' := FirstItem(t, i, b);
    SameItem(t, i, a[0], b[0], s => s);
    if |a| > 1 {
      NoEndAfterComma(t, end + 1, a[1..], b[1..]);
    } else {
      var next := FirstItem(t, end + 1, b[1..]);
      StartsNoBracket(t, end + 1, b[1]);
    }
  }

  lemma CommaItem(t: string, i: nat, a: seq<Item>) returns (end: nat)
    requires a != [] && WellFormedItem(a[0]) && Holds(t, i, PrintItems(a) + ",")
    ensures ItemAt(t, i, a[0]) && end == i + |PrintItem(a[0])| && end < |t| && t[end] == ','
    ensures |a| == 1 ==> end == i + |PrintItems(a)|
    ensures |a| > 1 ==> Holds(t, end + 1, PrintItems(a[1..]) + ",") && end + 1 + |PrintItems(a[1..])| == i + |PrintItems(a)|
  {
    hide PrintItem, WellFormedItem;
    var x := PrintItem(a[0]);
    end := i + |x|;
    if |a| == 1 {
      assert x + "" == x;
      Cut(t, i, x, ",");
      Char(t, end, ",", 0);
    } else {
      var rest := PrintItems(a[1..]);
      assert PrintItems(a) + "," == x + ("," + (rest + ","));
      Cut(t, i, x, "," + (rest + ","));
      Cut(t, end, ",", rest + ",");
      Char(t, end, ",", 0);
    }
  }

  lemma StartsNoBracket(t: string, i: nat, x: Item)
    requires ItemAt(t, i, x)
    ensures t[i] != ']'
  {
    hide SkipSpace, IsBody, IsLexeme;
    FirstChar(x.doc);
    Char(t, i, PrintItem(x), 0);
    assert PrintItem(x)[0] == if x.before == "" then Print(x.doc)[0] else x.before[0];
  }

  lemma {:induction false} JoinTrailing(parts: seq<string>)
    requires parts != []
    ensures Join(parts + [""]) == Join(parts) + ","
  {
    if |parts| > 1 {
      assert (parts + [""])[1..] == parts[1..] + [""];
      JoinTrailing(parts[1..]);
    } else {
      assert (parts + [""])[1..] == [""];
    }
  }

  lemma BareIsWellFormed(items: seq<Item>)
    requires forall x <- items :: WellFormedItem(x)
    ensures forall x <- Bare(items) :: WellFormedItem(x)
  {
    forall k | 0 <= k < |items| ensures WellFormedItem(Bare(items)[k]) {
      assert WellFormedItem(items[k]);
    }
  }

  /** An array whose text ends in items and a comma: its own items stand there. */
  lemma ItemsOfTrailing(e: Doc, items: seq<Item>)
    requires items != [] && WellFormedItem(items[0]) && WellFormed(e) && Print(e) == "[" + (PrintItems(items) + ",") + "]"
    ensures e.Array? && ItemsAt(Print(e), 1, e.items) && Holds(Print(e), 1, PrintItems(items) + ",")
    ensures 1 + |PrintItems(items)| + 1 < |Print(e)| && Print(e)[1 + |PrintItems(items)| + 1] == ']'
  {
    hide IsBody, IsLexeme, Holds, PrintItem;
    var inner := PrintItems(items) + ",";
    assert Print(e)[0] == '[';
    FirstChar(e);
    SameInner("[", if e.items == [] then e.blank else PrintItems(e.items), "]", inner);
    ItemsHaveNoBlank(items);
    assert !IsSpace(inner) by {
      var k :| 0 <= k < |PrintItems(items)| && PrintItems(items)[k] !in SPACES;
      assert inner[k] == PrintItems(items)[k];
    }
    InnerAt(Print(e), 0, "[", inner, "]");
  }

  /** No well-formed text is a batch with an empty last element. */
  lemma TrailingCommaIsNoText(batch: seq<Item>, e: Doc)
    requires batch != [] && (forall x <- batch :: WellFormedItem(x)) && WellFormed(e)
    ensures Print(e) != Wrap(Slices(batch) + [""])
  {
    hide WellFormed, WellFormedItem, Holds, ItemsAt, PrintItems, Print;
    var bare := Bare(batch);
    JoinIsPrint(batch);
    JoinTrailing(Slices(batch));
    BareIsWellFormed(batch);
    assert bare[0] in bare;
    if Print(e) == Wrap(Slices(batch) + [""]) {
      ItemsOfTrailing(e, bare);
      NoEndAfterComma(Print(e), 1, bare, e.items);
    }
  }

  /** What the splitter's results ask of a parser can be had: the grammar's own parser is faithful, and refuses a trailing comma. */
  lemma FaithfulExists(unescape: string -> string) returns (parse: string -> Option<Json>)
    ensures Faithful(parse, unescape) && RejectsTrailingComma(parse)
  {
    hide WellFormed, Print, Meaning, Slices, Wrap;
    parse := x => Parse(x, unescape);
    forall d: Doc | WellFormed(d) ensures parse(Print(d)) == Some(Meaning(d, unescape)) {
      var e: Doc :| WellFormed(e) && Print(e) == Print(d) && Parse(Print(d), unescape) == Some(Meaning(e, unescape));
      Unambiguous(d, e, unescape);
    }
    forall batch: seq<Item> | batch != [] && (forall item <- batch :: WellFormedItem(item))
      ensures parse(Wrap(Slices(batch) + [""])) == None
    {
      forall e: Doc | WellFormed(e) ensures Print(e) != Wrap(Slices(batch) + [""]) {
        TrailingCommaIsNoText(batch, e);
      }
    }
  }
}
