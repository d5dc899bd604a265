/**
 JSON texts as RFC 8259 defines them (sections 2 to 7), with every choice of white space kept, so
 that `Print` can produce each well-formed text. `Meaning` is the value such a text denotes.
 */
module JsonText {
  import opened SnapshotSplit

  datatype Doc =
    | Plain(lexeme: string)                  // a number, true, false or null
    | Quote(body: string)                    // what stands between the quotes, escapes included
    | Array(blank: string, items: seq<Item>) // `blank` is the space of an empty array
    | Object(blank: string, members: seq<Member>)

  datatype Item = Item(before: string, doc: Doc, after: string)

  datatype Member = Member(before: string, key: string, after: string, value: Item)

  function Print(d: Doc): (r: string)
    ensures d.Quote? || d.Array? || d.Object? ==> |r| >= 2
    decreases d, 1
  {
    match d
    case Plain(lexeme) => lexeme
    case Quote(body) => "\"" + body + "\""
    case Array(blank, items) => "[" + (if items == [] then blank else PrintItems(items)) + "]"
    case Object(blank, members) => "{" + (if members == [] then blank else PrintMembers(members)) + "}"
  }

  function PrintItem(item: Item): string
    decreases item, 2
  {
    item.before + Print(item.doc) + item.after
  }

  function PrintItems(items: seq<Item>): string
    requires items != []
    decreases items, 0
  {
    PrintItem(items[0]) + if |items| == 1 then "" else "," + PrintItems(items[1..])
  }

  function PrintMember(m: Member): string
    decreases m, 3
  {
    m.before + ("\"" + m.key + "\"") + m.after + ":" + PrintItem(m.value)
  }

  function PrintMembers(members: seq<Member>): string
    requires members != []
    decreases members, 0
  {
    PrintMember(members[0]) + if |members| == 1 then "" else "," + PrintMembers(members[1..])
  }

  ghost predicate IsSpace(s: string) { forall i :: 0 <= i < |s| ==> s[i] in SPACES }

  ghost predicate IsDigits(s: string) { s != "" && forall i :: 0 <= i < |s| ==> '0' <= s[i] <= '9' }

  /** RFC 8259 section 6: an integer part, then optionally a fraction and an exponent. */
  ghost predicate IsNumber(s: string) {
    exists sign, whole, fraction, exponent ::
      && s == sign + whole + fraction + exponent
      && (sign == "" || sign == "-")
      && IsDigits(whole) && (whole[0] == '0' ==> whole == "0")
      && (fraction == "" || (fraction[0] == '.' && IsDigits(fraction[1..])))
      && IsExponent(exponent)
  }

  ghost predicate IsExponent(s: string) {
    s == "" || (s[0] in {'e', 'E'} && (IsDigits(s[1..]) || (|s| > 1 && s[1] in {'+', '-'} && IsDigits(s[2..]))))
  }

  ghost predicate IsLexeme(s: string) { s in {"true", "false", "null"} || IsNumber(s) }

  predicate IsHex(c: char) { '0' <= c <= '9' || 'a' <= c <= 'f' || 'A' <= c <= 'F' }

  /** RFC 8259 section 7: the characters between the quotes of a string. */
  ghost predicate IsBody(b: string) {
    b == "" ||
    if b[0] == '\\' then
      |b| >= 2 &&
      if b[1] == 'u' then |b| >= 6 && IsHex(b[2]) && IsHex(b[3]) && IsHex(b[4]) && IsHex(b[5]) && IsBody(b[6..])
      else b[1] in {'"', '\\', '/', 'b', 'f', 'n', 'r', 't'} && IsBody(b[2..])
    else b[0] != '"' && b[0] >= ' ' && IsBody(b[1..])
  }

  ghost predicate WellFormed(d: Doc) {
    match d
    case Plain(lexeme) => IsLexeme(lexeme)
    case Quote(body) => IsBody(body)
    case Array(blank, items) => IsSpace(blank) && forall item <- items :: WellFormedItem(item)
    case Object(blank, members) => IsSpace(blank) && forall m <- members :: WellFormedMember(m)
  }

  ghost predicate WellFormedItem(item: Item) {
    IsSpace(item.before) && WellFormed(item.doc) && IsSpace(item.after)
  }

  ghost predicate WellFormedMember(m: Member) {
    IsSpace(m.before) && IsBody(m.key) && IsSpace(m.after) && WellFormedItem(m.value)
  }

  /** The value of a text; `unescape` decodes the characters of a string. */
  ghost function Meaning(d: Doc, unescape: string -> string): Json
    decreases d, 1
  {
    match d
    case Plain(lexeme) => Token(lexeme)
    case Quote(body) => Text(unescape(body))
    case Array(_, items) => List(Meanings(items, unescape))
    case Object(_, members) => Record(Fields(members, unescape))
  }

  ghost function Meanings(items: seq<Item>, unescape: string -> string): (r: seq<Json>)
    ensures |r| == |items|
    ensures forall i :: 0 <= i < |r| ==> r[i] == Meaning(items[i].doc, unescape)
    decreases items, 0
  {
    if items == [] then [] else [Meaning(items[0].doc, unescape)] + Meanings(items[1..], unescape)
  }

  ghost function Fields(members: seq<Member>, unescape: string -> string): seq<(string, Json)>
    decreases members, 0
  {
    if members == [] then []
    else [(unescape(members[0].key), Meaning(members[0].value.doc, unescape))] + Fields(members[1..], unescape)
  }
}
