/**
 The snapshot splitter as a function of the whole text: which entries a snapshot yields, in which
 order, and whether it is accepted. Nothing here knows about chunks; the class in
 SnapshotReader.dfy, which does, is proved against these functions. Places in the text t are
 indices into it, and |t| is its end.
 */
module SnapshotSplit {
  import opened Options

  /** A parsed value. Literals and numbers keep their spelling, and a record keeps its fields as written, a repeated one too. */
  datatype Json =
    | Token(lexeme: string)
    | Text(chars: string)
    | List(items: seq<Json>)
    | Record(fields: seq<(string, Json)>)

  type Entry = (string, Json)

  const SPACES: set<char> := {' ', '\t', '\r', '\n'}
  const STRINGS: set<char> := {'"', '\\'}
  const STRUCTURES: set<char> := {'"', '{', '}', '[', ']'}
  const DELIMITERS: set<char> := {' ', '\t', '\r', '\n', ',', '}', ']'}
  const HOMEWORKS := "homeworks"
  const BATCH: nat := 256

  predicate Sees(t: string, i: nat, c: char) { i < |t| && t[i] == c }

  function SkipSpace(t: string, i: nat): (r: nat)
    requires i <= |t|
    ensures i <= r <= |t|
    ensures r < |t| ==> t[r] !in SPACES
    decreases |t| - i
  {
    if i < |t| && t[i] in SPACES then SkipSpace(t, i + 1) else i
  }

  /** `expect`: the place after optional space and the character c. */
  function TakeChar(t: string, i: nat, c: char): (r: Option<nat>)
    requires i <= |t|
    ensures r.Some? ==> i < r.value <= |t|
  {
    var j := SkipSpace(t, i);
    if Sees(t, j, c) then Some(j + 1) else None
  }

  /** How the first character of a value says where the value ends. */
  datatype Shape = Scalar | Quoted | Compound

  function ShapeOf(first: char): Shape {
    if first == '{' || first == '[' then Compound else if first == '"' then Quoted else Scalar
  }

  datatype Scanner = Scanner(depth: int, inString: bool, escaped: bool)

  const START := Scanner(0, false, false)

  datatype Move = On(next: Scanner) | StopBefore | StopAfter

  function Advance(shape: Shape, s: Scanner, c: char): Move {
    if s.escaped then On(s.(escaped := false))
    else if s.inString then
      if c == '\\' then On(s.(escaped := true))
      else if c != '"' then On(s)
      else if shape == Quoted then StopAfter
      else On(s.(inString := false))
    else if shape == Scalar then
      if c in DELIMITERS then StopBefore else On(s)
    else if c == '"' then On(s.(inString := true))
    else if c == '{' || c == '[' then On(s.(depth := s.depth + 1))
    else if c == '}' || c == ']' then
      if s.depth - 1 == 0 then StopAfter else On(s.(depth := s.depth - 1))
    else On(s)
  }

  /** Where the value being scanned ends, if it ends at all. */
  function Scan(shape: Shape, s: Scanner, t: string, i: nat): (r: Option<nat>)
    requires i <= |t|
    ensures r.Some? ==> i <= r.value <= |t|
    decreases |t| - i
  {
    if i == |t| then if s.inString || s.depth != 0 then None else Some(i)
    else match Advance(shape, s, t[i])
      case StopBefore => Some(i)
      case StopAfter => Some(i + 1)
      case On(next) => Scan(shape, next, t, i + 1)
  }

  /** The characters at which the state of the scanner can change. */
  function Tokens(shape: Shape, inString: bool): set<char> {
    if inString then STRINGS else if shape == Scalar then DELIMITERS else STRUCTURES
  }

  /** Text without a token moves the scanner forward and changes nothing else. */
  lemma {:induction false} ScanPast(shape: Shape, s: Scanner, t: string, i: nat, j: nat)
    requires i <= j <= |t| && !s.escaped
    requires forall k :: i <= k < j ==> t[k] !in Tokens(shape, s.inString)
    ensures Scan(shape, s, t, i) == Scan(shape, s, t, j)
    decreases j - i
  {
    if i < j {
      ScanPast(shape, s, t, i + 1, j);
    }
  }

  /** `value`: where the next value starts and ends. */
  function TakeValue(t: string, i: nat): (r: Option<(nat, nat)>)
    requires i <= |t|
    ensures r.Some? ==> i <= r.value.0 <= r.value.1 <= |t|
  {
    var start := SkipSpace(t, i);
    if start == |t| then None
    else
      var end := Scan(ShapeOf(t[start]), START, t, start);
      if end.None? then None else Some((start, end.value))
  }

  lemma SkipTwice(t: string, i: nat)
    requires i <= |t|
    ensures TakeValue(t, SkipSpace(t, i)) == TakeValue(t, i)
  {
  }

  function Join(parts: seq<string>): string {
    if |parts| == 0 then ""
    else if |parts| == 1 then parts[0]
    else parts[0] + "," + Join(parts[1..])
  }

  function Wrap(batch: seq<string>): string { "[" + Join(batch) + "]" }

  /** The entries of one top-level key, and where they end; None if reading them throws. */
  datatype Section = Section(entries: seq<Entry>, end: Option<nat>)

  /** All entries yielded, and whether the generator finished instead of throwing. */
  datatype Outcome = Outcome(entries: seq<Entry>, accepted: bool)

  const REJECT := Outcome([], false)

  function After(entries: seq<Entry>, o: Outcome): Outcome { o.(entries := entries + o.entries) }

  function Then(entries: seq<Entry>, s: Section): Section { s.(entries := entries + s.entries) }

  lemma AfterTwice(a: seq<Entry>, b: seq<Entry>, o: Outcome)
    ensures After(a + b, o) == After(a, After(b, o))
  {
  }

  datatype Splitter = Splitter(parse: string -> Option<Json>, homeworks: bool) {

    /** What one batch yields; None if JSON.parse throws on it. */
    function Yield(batch: seq<string>): Option<seq<Entry>> {
      if batch == [] then Some([])
      else
        var v := parse(Wrap(batch));
        if v.None? then None else Some([(HOMEWORKS, v.value)])
    }

    /** The end of the homework array, with `batch` not yielded yet. */
    function Finish(t: string, i: nat, batch: seq<string>): (r: Section)
      requires i <= |t|
      ensures r.end.Some? ==> i <= r.end.value <= |t|
    {
      var last := Yield(batch);
      if last.None? then Section([], None) else Section(last.value, TakeChar(t, i, ']'))
    }

    /** The elements of the homework array from i on, with `batch` already collected. */
    function Batches(t: string, i: nat, batch: seq<string>): (r: Section)
      requires i <= |t|
      ensures r.end.Some? ==> i <= r.end.value <= |t|
      decreases |t| - i
    {
      var item := TakeValue(t, i);
      if item.None? then Section([], None)
      else
        var full := batch + [t[item.value.0..item.value.1]];
        var emitted := if |full| == BATCH then Yield(full) else Some([]);
        if emitted.None? then Section([], None)
        else
          var kept := if |full| == BATCH then [] else full;
          var j := SkipSpace(t, item.value.1);
          var next := TakeChar(t, j, ',');
          Then(emitted.value,
               if Sees(t, j, ']') then Finish(t, j, kept)
               else if next.None? then Section([], None)
               else Batches(t, next.value, kept))
    }

    /** What follows the colon of a top-level key. */
    function Value(key: string, t: string, i: nat): (r: Section)
      requires i <= |t|
      ensures r.end.Some? ==> i <= r.end.value <= |t|
    {
      if key != HOMEWORKS then
        var item := TakeValue(t, i);
        if item.None? then Section([], None)
        else
          var v := parse(t[item.value.0..item.value.1]);
          if v.None? then Section([], None) else Section([(key, v.value)], Some(item.value.1))
      else if !homeworks then
        var item := TakeValue(t, i);
        if !Sees(t, SkipSpace(t, i), '[') || item.None? then Section([], None)
        else Section([(key, List([]))], Some(item.value.1))
      else
        var open := TakeChar(t, i, '[');
        if open.None? then Section([], None)
        else
          var j := SkipSpace(t, open.value);
          if Sees(t, j, ']') then Section([], TakeChar(t, j, ']')) else Batches(t, j, [])
    }

    function Close(t: string, i: nat, keys: set<string>): Outcome
      requires i <= |t|
    {
      var end := TakeChar(t, i, '}');
      Outcome([], end.Some? && SkipSpace(t, end.value) == |t| && HOMEWORKS in keys)
    }

    /** The key at i and the place after its colon. */
    function Key(t: string, i: nat, keys: set<string>): (r: Option<(string, nat)>)
      requires i <= |t|
      ensures r.Some? ==> i < r.value.1 <= |t|
    {
      var item := TakeValue(t, i);
      if item.None? then None
      else
        var key := parse(t[item.value.0..item.value.1]);
        var colon := TakeChar(t, item.value.1, ':');
        if key.None? || !key.value.Text? || key.value.chars in keys || colon.None? then None
        else Some((key.value.chars, colon.value))
    }

    /** The members of the envelope object from i on. */
    function Members(t: string, i: nat, keys: set<string>): Outcome
      requires i <= |t|
      decreases |t| - i
    {
      var key := Key(t, i, keys);
      if key.None? then REJECT
      else
        var seen := keys + {key.value.0};
        var section := Value(key.value.0, t, key.value.1);
        if section.end.None? then Outcome(section.entries, false)
        else
          var j := SkipSpace(t, section.end.value);
          var next := TakeChar(t, j, ',');
          After(section.entries,
                if Sees(t, j, '}') then Close(t, j, seen)
                else if next.None? then REJECT
                else Members(t, next.value, seen))
    }

    /** The whole snapshot. */
    function Read(t: string): Outcome {
      var open := TakeChar(t, 0, '{');
      if open.None? then REJECT
      else
        var i := SkipSpace(t, open.value);
        if Sees(t, i, '}') then Close(t, i, {}) else Members(t, i, {})
    }
  }
}
