/** The scanner of the splitter finds the end of every well-formed value, whatever follows it. */
module JsonScan {
  import opened Options
  import opened SnapshotSplit
  import opened JsonText

  /** x stands in t at place i. */
  ghost predicate Holds(t: string, i: nat, x: string) {
    i + |x| <= |t| && t[i..i + |x|] == x
  }

  lemma Cut(t: string, i: nat, a: string, b: string)
    requires Holds(t, i, a + b)
    ensures i + |a| + |b| <= |t| && Holds(t, i, a) && Holds(t, i + |a|, b)
  {
    var x := t[i..i + |a + b|];
    assert x[..|a|] == a && x[|a|..] == b;
  }

  lemma Char(t: string, i: nat, x: string, k: nat)
    requires Holds(t, i, x) && k < |x|
    ensures i + |x| <= |t| && t[i + k] == x[k]
  {
    assert t[i..i + |x|][k] == t[i + k];
  }

  lemma LexemeHasNoToken(s: string)
    requires IsLexeme(s)
    ensures s != "" && forall k :: 0 <= k < |s| ==> s[k] !in STRUCTURES + DELIMITERS
  {
  }

  lemma ScanFree(shape: Shape, s: Scanner, t: string, i: nat, x: string)
    requires Holds(t, i, x) && !s.escaped
    requires forall k :: 0 <= k < |x| ==> x[k] !in Tokens(shape, s.inString)
    ensures Scan(shape, s, t, i) == Scan(shape, s, t, i + |x|)
  {
    forall k | i <= k < i + |x| ensures t[k] !in Tokens(shape, s.inString) {
      Char(t, i, x, k - i);
    }
    ScanPast(shape, s, t, i, i + |x|);
  }

  ghost function Outside(depth: int): Scanner { Scanner(depth, false, false) }

  ghost function Inside(depth: int): Scanner { Scanner(depth, true, false) }

  lemma Step(shape: Shape, s: Scanner, next: Scanner, t: string, i: nat)
    requires i < |t| && Advance(shape, s, t[i]) == On(next)
    ensures Scan(shape, s, t, i) == Scan(shape, next, t, i + 1)
  {
  }

  /** A backslash and the n - 1 characters after it. */
  lemma ScanEscape(shape: Shape, depth: int, t: string, i: nat, e: string)
    requires Holds(t, i, e) && |e| >= 2 && e[0] == '\\'
    requires forall k :: 2 <= k < |e| ==> e[k] !in STRINGS
    ensures Scan(shape, Inside(depth), t, i) == Scan(shape, Inside(depth), t, i + |e|)
  {
    hide Scan;
    Char(t, i, e, 0);
    Step(shape, Inside(depth), Scanner(depth, true, true), t, i);
    Step(shape, Scanner(depth, true, true), Inside(depth), t, i + 1);
    assert e == e[..2] + e[2..];
    Cut(t, i, e[..2], e[2..]);
    ScanFree(shape, Inside(depth), t, i + 2, e[2..]);
  }

  /** The inside of a string is passed without leaving it. */
  lemma {:induction false} ScanBody(shape: Shape, depth: int, t: string, i: nat, b: string)
    requires IsBody(b) && Holds(t, i, b)
    ensures Scan(shape, Inside(depth), t, i) == Scan(shape, Inside(depth), t, i + |b|)
    decreases |b|
  {
    hide Scan;
    if b != "" {
      var n := if b[0] != '\\' then 1 else if b[1] == 'u' then 6 else 2;
      assert b == b[..n] + b[n..];
      Cut(t, i, b[..n], b[n..]);
      if n == 1 {
        ScanFree(shape, Inside(depth), t, i, b[..1]);
      } else {
        ScanEscape(shape, depth, t, i, b[..n]);
      }
      ScanBody(shape, depth, t, i + n, b[n..]);
    }
  }

  lemma ScanQuote(depth: int, t: string, i: nat, b: string)
    requires IsBody(b) && Holds(t, i, "\"" + b + "\"")
    ensures Scan(Compound, Outside(depth), t, i) == Scan(Compound, Outside(depth), t, i + |b| + 2)
    ensures Scan(Quoted, START, t, i) == Some(i + |b| + 2)
  {
    var x := "\"" + b + "\"";
    Char(t, i, x, 0);
    Char(t, i, x, |b| + 1);
    Cut(t, i, "\"" + b, "\"");
    Cut(t, i, "\"", b);
    ScanBody(Compound, depth, t, i + 1, b);
    ScanBody(Quoted, 0, t, i + 1, b);
    assert Scan(Compound, Outside(depth), t, i) == Scan(Compound, Inside(depth), t, i + 1);
    assert Scan(Quoted, START, t, i) == Scan(Quoted, Inside(0), t, i + 1);
  }

  /** White space, commas and colons between the values of a compound. */
  lemma ScanBetween(depth: int, t: string, i: nat, x: string)
    requires Holds(t, i, x) && forall k :: 0 <= k < |x| ==> x[k] in SPACES + {',', ':'}
    ensures Scan(Compound, Outside(depth), t, i) == Scan(Compound, Outside(depth), t, i + |x|)
  {
    ScanFree(Compound, Outside(depth), t, i, x);
  }

  /** A bracket, what it encloses, and its partner. */
  lemma ScanBrackets(depth: int, t: string, i: nat, open: char, inner: string, close: char)
    requires open in {'[', '{'} && close in {']', '}'}
    requires Holds(t, i, [open] + inner + [close])
    requires Scan(Compound, Outside(depth + 1), t, i + 1) == Scan(Compound, Outside(depth + 1), t, i + 1 + |inner|)
    ensures depth > 0 ==> Scan(Compound, Outside(depth), t, i) == Scan(Compound, Outside(depth), t, i + |inner| + 2)
    ensures depth == 0 ==> Scan(Compound, Outside(depth), t, i) == Some(i + |inner| + 2)
  {
    var x := [open] + inner + [close];
    Char(t, i, x, 0);
    Char(t, i, x, |inner| + 1);
    Step(Compound, Outside(depth), Outside(depth + 1), t, i);
  }

  lemma Inner(t: string, i: nat, open: string, inner: string, close: string)
    requires Holds(t, i, open + inner + close)
    ensures Holds(t, i + |open|, inner)
  {
    Cut(t, i, open + inner, close);
    Cut(t, i, open, inner);
  }

  /** A value inside a compound: the scanner leaves it as it entered, at the same depth. */
  lemma {:induction false} ScanDoc(depth: int, t: string, i: nat, d: Doc)
    requires depth > 0 && WellFormed(d) && Holds(t, i, Print(d))
    ensures Scan(Compound, Outside(depth), t, i) == Scan(Compound, Outside(depth), t, i + |Print(d)|)
    decreases d, 1
  {
    hide Scan;
    match d
    case Plain(lexeme) =>
      LexemeHasNoToken(lexeme);
      ScanFree(Compound, Outside(depth), t, i, lexeme);
    case Quote(body) =>
      ScanQuote(depth, t, i, body);
    case Array(blank, items) =>
      ScanArray(depth + 1, t, i, d);
      ScanBrackets(depth, t, i, '[', if items == [] then blank else PrintItems(items), ']');
    case Object(blank, members) =>
      ScanObject(depth + 1, t, i, d);
      ScanBrackets(depth, t, i, '{', if members == [] then blank else PrintMembers(members), '}');
  }

  /** What stands between the brackets of an array. */
  lemma {:induction false} ScanArray(depth: int, t: string, i: nat, d: Doc)
    requires depth > 0 && d.Array? && WellFormed(d) && Holds(t, i, Print(d))
    ensures Scan(Compound, Outside(depth), t, i + 1) == Scan(Compound, Outside(depth), t, i + |Print(d)| - 1)
    decreases d, 0
  {
    hide Scan;
    Inner(t, i, "[", if d.items == [] then d.blank else PrintItems(d.items), "]");
    if d.items == [] {
      ScanBetween(depth, t, i + 1, d.blank);
    } else {
      ScanItems(depth, t, i + 1, d.items);
    }
  }

  lemma {:induction false} ScanObject(depth: int, t: string, i: nat, d: Doc)
    requires depth > 0 && d.Object? && WellFormed(d) && Holds(t, i, Print(d))
    ensures Scan(Compound, Outside(depth), t, i + 1) == Scan(Compound, Outside(depth), t, i + |Print(d)| - 1)
    decreases d, 0
  {
    hide Scan;
    Inner(t, i, "{", if d.members == [] then d.blank else PrintMembers(d.members), "}");
    if d.members == [] {
      ScanBetween(depth, t, i + 1, d.blank);
    } else {
      ScanMembers(depth, t, i + 1, d.members);
    }
  }

  lemma {:induction false} ScanItem(depth: int, t: string, i: nat, item: Item)
    requires depth > 0 && WellFormedItem(item) && Holds(t, i, PrintItem(item))
    ensures Scan(Compound, Outside(depth), t, i) == Scan(Compound, Outside(depth), t, i + |PrintItem(item)|)
    decreases item, 2
  {
    hide Scan;
    var x := Print(item.doc);
    Cut(t, i, item.before + x, item.after);
    Cut(t, i, item.before, x);
    ScanBetween(depth, t, i, item.before);
    ScanDoc(depth, t, i + |item.before|, item.doc);
    ScanBetween(depth, t, i + |item.before + x|, item.after);
  }

  lemma {:induction false} ScanItems(depth: int, t: string, i: nat, items: seq<Item>)
    requires depth > 0 && items != [] && (forall item <- items :: WellFormedItem(item)) && Holds(t, i, PrintItems(items))
    ensures Scan(Compound, Outside(depth), t, i) == Scan(Compound, Outside(depth), t, i + |PrintItems(items)|)
    decreases items, 0
  {
    hide Scan;
    var x := PrintItem(items[0]);
    if |items| == 1 {
      assert x + "" == x;
      ScanItem(depth, t, i, items[0]);
    } else {
      Cut(t, i, x, "," + PrintItems(items[1..]));
      Cut(t, i + |x|, ",", PrintItems(items[1..]));
      ScanItem(depth, t, i, items[0]);
      ScanBetween(depth, t, i + |x|, ",");
      ScanItems(depth, t, i + |x| + 1, items[1..]);
    }
  }

  lemma {:induction false} ScanMember(depth: int, t: string, i: nat, m: Member)
    requires depth > 0 && WellFormedMember(m) && Holds(t, i, PrintMember(m))
    ensures Scan(Compound, Outside(depth), t, i) == Scan(Compound, Outside(depth), t, i + |PrintMember(m)|)
    decreases m, 3
  {
    hide Scan;
    var quoted, v := "\"" + m.key + "\"", PrintItem(m.value);
    Cut(t, i, m.before + quoted + m.after + ":", v);
    Cut(t, i, m.before + quoted + m.after, ":");
    Cut(t, i, m.before + quoted, m.after);
    Cut(t, i, m.before, quoted);
    ScanBetween(depth, t, i, m.before);
    ScanQuote(depth, t, i + |m.before|, m.key);
    ScanBetween(depth, t, i + |m.before + quoted|, m.after);
    ScanBetween(depth, t, i + |m.before + quoted + m.after|, ":");
    ScanItem(depth, t, i + |m.before + quoted + m.after| + 1, m.value);
  }

  lemma {:induction false} ScanMembers(depth: int, t: string, i: nat, members: seq<Member>)
    requires depth > 0 && members != [] && (forall m <- members :: WellFormedMember(m)) && Holds(t, i, PrintMembers(members))
    ensures Scan(Compound, Outside(depth), t, i) == Scan(Compound, Outside(depth), t, i + |PrintMembers(members)|)
    decreases members, 0
  {
    hide Scan;
    var x := PrintMember(members[0]);
    if |members| == 1 {
      assert x + "" == x;
      ScanMember(depth, t, i, members[0]);
    } else {
      Cut(t, i, x, "," + PrintMembers(members[1..]));
      Cut(t, i + |x|, ",", PrintMembers(members[1..]));
      ScanMember(depth, t, i, members[0]);
      ScanBetween(depth, t, i + |x|, ",");
      ScanMembers(depth, t, i + |x| + 1, members[1..]);
    }
  }

  lemma FirstChar(d: Doc)
    requires WellFormed(d)
    ensures Print(d) != "" && Print(d)[0] !in SPACES + {',', ':', '}', ']'}
    ensures ShapeOf(Print(d)[0]) == if d.Plain? then Scalar else if d.Quote? then Quoted else Compound
    ensures d.Array? <==> Print(d)[0] == '['
  {
    if d.Plain? {
      LexemeHasNoToken(d.lexeme);
    }
  }

  lemma ScanStop(t: string, i: nat)
    requires i <= |t| && (i == |t| || t[i] in DELIMITERS)
    ensures Scan(Scalar, START, t, i) == Some(i)
  {
  }

  /** A whole value: the scan ends right behind it. A bare lexeme needs a delimiter or the end there. */
  lemma ScanValue(t: string, i: nat, d: Doc)
    requires WellFormed(d) && Holds(t, i, Print(d))
    requires d.Plain? ==> i + |Print(d)| == |t| || t[i + |Print(d)|] in DELIMITERS
    ensures t[i] == Print(d)[0] && Scan(ShapeOf(t[i]), START, t, i) == Some(i + |Print(d)|)
  {
    hide Scan, IsBody, IsLexeme;
    FirstChar(d);
    Char(t, i, Print(d), 0);
    match d
    case Plain(lexeme) =>
      LexemeHasNoToken(lexeme);
      ScanFree(Scalar, START, t, i, lexeme);
      ScanStop(t, i + |lexeme|);
    case Quote(body) =>
      ScanQuote(0, t, i, body);
    case Array(blank, items) =>
      ScanArray(1, t, i, d);
      ScanBrackets(0, t, i, '[', if items == [] then blank else PrintItems(items), ']');
    case Object(blank, members) =>
      ScanObject(1, t, i, d);
      ScanBrackets(0, t, i, '{', if members == [] then blank else PrintMembers(members), '}');
  }

  lemma {:induction false} SkipBlank(t: string, i: nat, x: string)
    requires Holds(t, i, x) && IsSpace(x)
    ensures SkipSpace(t, i) == SkipSpace(t, i + |x|)
    decreases |x|
  {
    if x != "" {
      assert x == x[..1] + x[1..];
      Cut(t, i, x[..1], x[1..]);
      Char(t, i, x, 0);
      SkipBlank(t, i + 1, x[1..]);
    }
  }

  lemma SkipNone(t: string, i: nat)
    requires i < |t| && t[i] !in SPACES
    ensures SkipSpace(t, i) == i
  {
  }

  lemma TakeNext(t: string, i: nat, c: char)
    requires i < |t| && t[i] == c && c !in SPACES
    ensures TakeChar(t, i, c) == Some(i + 1)
  {
  }

  /** `value` cuts out exactly the text of the next value. */
  lemma TakeDoc(t: string, i: nat, before: string, d: Doc)
    requires IsSpace(before) && WellFormed(d) && Holds(t, i, before + Print(d))
    requires d.Plain? ==> i + |before + Print(d)| == |t| || t[i + |before + Print(d)|] in DELIMITERS
    ensures SkipSpace(t, i) == i + |before|
    ensures TakeValue(t, i) == Some((i + |before|, i + |before + Print(d)|))
    ensures t[i + |before|..i + |before + Print(d)|] == Print(d)
  {
    Cut(t, i, before, Print(d));
    SkipBlank(t, i, before);
    FirstChar(d);
    ScanValue(t, i + |before|, d);
  }
}
