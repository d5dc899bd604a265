/**
 The incremental reader: it holds one decoded chunk at a time and refills it from the file. Every
 method is proved against the functions of SnapshotSplit on the whole text, so where the chunks
 end cannot matter.
 */
module SnapshotReader {
  import opened Options
  import opened SnapshotSplit

  function Flatten(pieces: seq<string>): string {
    if pieces == [] then "" else pieces[0] + Flatten(pieces[1..])
  }

  /** The chunks and the tail still to come make up the text `t`. */
  ghost predicate Feeds(t: string, pieces: seq<string>, tail: string) {
    t == Flatten(pieces) + tail
  }

  /** The index of the first character of `tokens` in s at or after `from`; |s| if there is none. */
  function Exec(tokens: set<char>, s: string, from: nat): (r: nat)
    requires from <= |s|
    ensures from <= r <= |s|
    ensures forall i :: from <= i < r ==> s[i] !in tokens
    ensures r < |s| ==> s[r] in tokens
    decreases |s| - from
  {
    if from == |s| || s[from] in tokens then from else Exec(tokens, s, from + 1)
  }

  /** A slice of a buffer that is itself a slice of the text. */
  lemma Slice(t: string, base: nat, buffer: string, origin: nat, from: nat, to: nat)
    requires base + |buffer| <= |t| && buffer == t[base..base + |buffer|]
    requires from <= to <= |buffer| && origin <= base + from
    ensures t[origin..base + from] + buffer[from..to] == t[origin..base + to]
  {
    Inside(t, base, |buffer|, from, to);
    assert buffer[from..to] == t[base..base + |buffer|][from..to];
    Adjoin(t, origin, base + from, base + to);
  }

  lemma Inside(t: string, base: nat, n: nat, from: nat, to: nat)
    requires base + n <= |t| && from <= to <= n
    ensures t[base..base + n][from..to] == t[base + from..base + to]
  {
    var whole := t[base..base + n];
    var inner, outer := whole[from..to], t[base + from..base + to];
    forall k | 0 <= k < |inner| ensures inner[k] == outer[k] {
      assert inner[k] == whole[from + k] == t[base + (from + k)];
      assert outer[k] == t[base + from + k];
    }
  }

  lemma Adjoin(t: string, a: nat, b: nat, c: nat)
    requires a <= b <= c <= |t|
    ensures t[a..b] + t[b..c] == t[a..c]
  {
  }

  lemma ScanEscaped(shape: Shape, s: Scanner, t: string, i: nat)
    requires i < |t| && s.escaped
    ensures Scan(shape, s, t, i) == Scan(shape, s.(escaped := false), t, i + 1)
  {
  }

  lemma ScanDelimiter(s: Scanner, t: string, i: nat)
    requires i < |t| && t[i] in DELIMITERS && !s.escaped && !s.inString
    ensures Scan(Scalar, s, t, i) == Some(i)
  {
  }

  lemma ScanEnd(shape: Shape, s: Scanner, t: string)
    ensures Scan(shape, s, t, |t|) == if s.inString || s.depth != 0 then None else Some(|t|)
  {
  }

  lemma SkipOne(s: string, p: nat)
    requires p < |s| && s[p] in SPACES
    ensures SkipSpace(s, p) == SkipSpace(s, p + 1)
  {
  }

  lemma SkipNone(s: string, p: nat)
    requires p <= |s| && (p < |s| ==> s[p] !in SPACES)
    ensures SkipSpace(s, p) == p
  {
  }

  class Reader {
    const splitter: Splitter
    const tail: string       // what the decoder still yields when the file ends
    var pieces: seq<string>  // the decoded chunks not read yet; any of them may be empty
    var buffer: string
    var position: nat
    var ended: bool
    ghost const total: string // the whole text
    ghost var base: nat       // where the buffer starts in it

    constructor (pieces: seq<string>, tail: string, splitter: Splitter)
      ensures Valid() && Place() == 0 && total == Flatten(pieces) + tail && this.splitter == splitter
    {
      this.splitter, this.tail, this.pieces := splitter, tail, pieces;
      buffer, position, ended := "", 0, false;
      total, base := Flatten(pieces) + tail, 0;
    }

    ghost predicate Valid()
      reads this
    {
      && position <= |buffer|
      && base + |buffer| <= |total|
      && buffer == total[base..base + |buffer|]
      && Feeds(total[base + |buffer|..], pieces, if ended then "" else tail)
      && (ended ==> pieces == [])
    }

    /** Where the reader is in the whole text. */
    ghost function Place(): (r: nat)
      reads this
      ensures Valid() ==> r <= |total|
    {
      base + position
    }

    method MoveTo(target: nat)
      requires Valid() && target <= |buffer|
      modifies this`position
      ensures Valid() && position == target
    {
      hide Feeds;
      position := target;
    }

    method Refill()
      requires Valid() && position == |buffer| && !ended
      modifies this`pieces, this`buffer, this`position, this`ended, this`base
      ensures Valid() && Place() == old(Place()) && position == 0
      ensures if ended then pieces == old(pieces) else |pieces| < |old(pieces)|
    {
      base := base + |buffer|;
      if pieces == [] {
        buffer, position, ended := tail, 0, true;
      } else {
        buffer, position, pieces := pieces[0], 0, pieces[1..];
      }
    }

    method Peek() returns (c: string)
      requires Valid()
      modifies this`pieces, this`buffer, this`position, this`ended, this`base
      ensures Valid() && Place() == old(Place())
      ensures c == if Place() == |total| then "" else [total[Place()]]
      ensures c != "" ==> position < |buffer|
      ensures old(position < |buffer|) ==> buffer == old(buffer) && position == old(position)
    {
      while position == |buffer| && !ended
        invariant Valid() && Place() == old(Place())
        invariant old(position < |buffer|) ==> buffer == old(buffer) && position == old(position)
        decreases |pieces| + if ended then 0 else 1
      {
        Refill();
      }
      c := if position < |buffer| then [buffer[position]] else "";
    }

    method Space()
      requires Valid()
      modifies this`pieces, this`buffer, this`position, this`ended, this`base
      ensures Valid() && Place() == SkipSpace(total, old(Place()))
    {
      hide Feeds, SkipSpace;
      var c := Peek();
      while c != "" && c[0] in SPACES
        invariant Valid() && SkipSpace(total, Place()) == SkipSpace(total, old(Place()))
        invariant c == if Place() == |total| then "" else [total[Place()]]
        invariant c != "" ==> position < |buffer|
        decreases |total| - Place()
      {
        SkipOne(total, Place());
        MoveTo(position + 1);
        c := Peek();
      }
      SkipNone(total, Place());
    }

    method Expect(c: char) returns (ok: bool)
      requires Valid()
      modifies this`pieces, this`buffer, this`position, this`ended, this`base
      ensures Valid()
      ensures TakeChar(total, old(Place()), c) == if ok then Some(Place()) else None
    {
      Space();
      var next := Peek();
      ok := next == [c];
      if ok {
        MoveTo(position + 1);
      }
    }

    /** What the scanner's state can be, given how the value began. */
    ghost predicate Fits(shape: Shape, s: Scanner)
      reads this
    {
      && (s.escaped ==> s.inString)
      && (shape != Compound ==> s.depth == 0)
      && (shape == Scalar ==> !s.inString)
      && (shape == Quoted && !s.inString ==> Sees(total, Place(), '"'))
    }

    /** Consumes the token character under the position. */
    method Token(shape: Shape, s: Scanner) returns (next: Scanner, stop: bool)
      requires Valid() && position < |buffer| && buffer[position] in Tokens(shape, s.inString)
      requires shape != Scalar && !s.escaped && Fits(shape, s)
      modifies this`position
      ensures Valid() && position == old(position) + 1
      ensures if stop then next.depth == 0 && !next.inString else Fits(shape, next)
      ensures Scan(shape, s, total, old(Place())) == if stop then Some(Place()) else Scan(shape, next, total, Place())
    {
      var c := buffer[position];
      MoveTo(position + 1);
      next, stop := s, false;
      if s.inString {
        if c == '\\' {
          next := next.(escaped := true);
        } else {
          next := next.(inString := false);
          stop := shape == Quoted;
        }
      } else if c == '"' {
        next := next.(inString := true);
      } else if c == '{' || c == '[' {
        next := next.(depth := s.depth + 1);
      } else {
        next := next.(depth := s.depth - 1);
        stop := next.depth == 0;
      }
    }

    /** One turn of the scanning loop inside the current chunk. */
    method Turn(shape: Shape, s: Scanner) returns (next: Scanner, stop: bool)
      requires Valid() && position < |buffer| && Fits(shape, s)
      modifies this`position
      ensures Valid() && old(position) <= position && (stop || old(position) < position)
      ensures if stop then next.depth == 0 && !next.inString else Fits(shape, next)
      ensures Scan(shape, s, total, old(Place())) == if stop then Some(Place()) else Scan(shape, next, total, Place())
    {
      hide Scan, Feeds;
      next, stop := s, false;
      if s.escaped {
        ScanEscaped(shape, s, total, Place());
        MoveTo(position + 1);
        next := next.(escaped := false);
        return;
      }
      var at := Exec(Tokens(shape, s.inString), buffer, position);
      assert forall k :: Place() <= k < base + at ==> total[k] == buffer[k - base];
      ScanPast(shape, s, total, Place(), base + at);
      MoveTo(at);
      if at < |buffer| {
        if shape == Scalar {
          stop := true;
          ScanDelimiter(s, total, Place());
        } else {
          next, stop := Token(shape, s);
        }
      }
    }

    /** Adds what was read of the current chunk to the parts kept so far. */
    method Keep(retain: bool, kept: string, start: nat, ghost origin: nat) returns (r: string)
      requires Valid() && start <= position && origin <= base + start
      requires retain ==> kept == total[origin..base + start]
      ensures retain ==> r == total[origin..Place()]
    {
      hide Feeds;
      Slice(total, base, buffer, origin, start, position);
      r := if retain then kept + buffer[start..position] else "";
    }

    /** The scanning loop of `value`: the text read and whether the value is complete. */
    method ScanLoop(shape: Shape, retain: bool) returns (raw: string, closed: bool)
      requires Valid() && Fits(shape, START)
      modifies this`pieces, this`buffer, this`position, this`ended, this`base
      ensures Valid()
      ensures Scan(shape, START, total, old(Place())) == if closed then Some(Place()) else None
      ensures closed && retain ==> raw == total[old(Place())..Place()]
    {
      hide Scan, Feeds;
      ghost var origin := Place();
      var kept, start := "", position;
      var s, stop := START, false;
      while !stop
        invariant Valid() && 0 <= start <= position && origin <= base + start
        invariant retain ==> kept == total[origin..base + start]
        invariant Scan(shape, START, total, origin) == if stop then Some(Place()) else Scan(shape, s, total, Place())
        invariant if stop then s.depth == 0 && !s.inString else Fits(shape, s)
        decreases |total| - Place(), if stop then 0 else 1
      {
        if position == |buffer| {
          kept := Keep(retain, kept, start, origin);
          var c := Peek();
          start := position;
          assert base + start == Place();
          if c == "" {
            ScanEnd(shape, s, total);
            break;
          }
        }
        s, stop := Turn(shape, s);
      }
      closed := !s.inString && s.depth == 0;
      raw := Keep(retain, kept, start, origin);
    }

    /** The raw text of the next value, or nothing of it when `retain` is off; None if it has no end. */
    method Value(retain: bool) returns (r: Option<string>)
      requires Valid()
      modifies this`pieces, this`buffer, this`position, this`ended, this`base
      ensures Valid()
      ensures TakeValue(total, old(Place())) == if r.Some? then Some((SkipSpace(total, old(Place())), Place())) else None
      ensures r.Some? && retain ==> r.value == total[SkipSpace(total, old(Place()))..Place()]
    {
      Space();
      var first := Peek();
      if first == "" {
        return None;
      }
      var raw, closed := ScanLoop(ShapeOf(first[0]), retain);
      r := if closed then Some(raw) else None;
    }

    /** Yields one batch unless it is empty; false if JSON.parse throws on it. */
    method Emit(batch: seq<string>) returns (yielded: seq<Entry>, ok: bool)
      ensures splitter.Yield(batch) == if ok then Some(yielded) else None
      ensures !ok ==> yielded == []
    {
      yielded, ok := [], true;
      if batch != [] {
        var v := splitter.parse(Wrap(batch));
        if v.None? {
          return [], false;
        }
        yielded := [(HOMEWORKS, v.value)];
      }
    }

    /** One turn of the homework loop: reads an element, yields a full batch, and looks at what follows. */
    method Element(batch: seq<string>) returns (kept: seq<string>, yielded: seq<Entry>, ok: bool, last: bool)
      requires Valid()
      modifies this`pieces, this`buffer, this`position, this`ended, this`base
      ensures Valid() && (ok ==> old(Place()) <= Place()) && (ok && !last ==> old(Place()) < Place())
      ensures splitter.Batches(total, old(Place()), batch) ==
              if !ok then Section(yielded, None)
              else Then(yielded, if last then splitter.Finish(total, Place(), kept) else splitter.Batches(total, Place(), kept))
    {
      hide TakeValue, SkipSpace, Wrap, Splitter.Yield;
      kept, yielded, last := batch, [], false;
      var raw := Value(true);
      if raw.None? {
        return [], [], false, false;
      }
      kept := batch + [raw.value];
      ok := true;
      if |kept| == BATCH {
        yielded, ok := Emit(kept);
        if !ok {
          return [], [], false, false;
        }
        kept := [];
      }
      Space();
      var c := Peek();
      last := c == "]";
      if !last {
        ok := Expect(',');
      }
    }

    /** The array of homeworks after its bracket, in batches. */
    method Array() returns (entries: seq<Entry>, ok: bool)
      requires Valid()
      modifies this`pieces, this`buffer, this`position, this`ended, this`base
      ensures Valid()
      ensures splitter.Batches(total, old(Place()), []) == Section(entries, if ok then Some(Place()) else None)
    {
      hide Splitter.Batches, TakeChar;
      var batch: seq<string>, last := [], false;
      var yielded: seq<Entry>;
      entries := [];
      while !last
        invariant Valid()
        invariant splitter.Batches(total, old(Place()), []) ==
                  Then(entries, if last then splitter.Finish(total, Place(), batch) else splitter.Batches(total, Place(), batch))
        decreases |total| - Place(), if last then 0 else 1
      {
        batch, yielded, ok, last := Element(batch);
        entries := entries + yielded;
        if !ok {
          return entries, false;
        }
      }
      yielded, ok := Emit(batch);
      entries := entries + yielded;
      if ok {
        ok := Expect(']');
      }
    }

    /** What follows the colon of a top-level key. */
    method Entries(key: string) returns (entries: seq<Entry>, ok: bool)
      requires Valid()
      modifies this`pieces, this`buffer, this`position, this`ended, this`base
      ensures Valid()
      ensures splitter.Value(key, total, old(Place())) == Section(entries, if ok then Some(Place()) else None)
    {
      hide TakeValue, SkipSpace, Splitter.Batches;
      entries := [];
      if key != HOMEWORKS {
        var raw := Value(true);
        if raw.None? {
          return [], false;
        }
        var v := splitter.parse(raw.value);
        if v.None? {
          return [], false;
        }
        return [(key, v.value)], true;
      } else if !splitter.homeworks {
        Space();
        var c := Peek();
        if c != "[" {
          return [], false;
        }
        SkipTwice(total, old(Place()));
        var raw := Value(false);
        return if raw.None? then [] else [(key, List([]))], raw.Some?;
      }
      ok := Expect('[');
      if !ok {
        return [], false;
      }
      Space();
      var c := Peek();
      if c == "]" {
        ok := Expect(']');
      } else {
        entries, ok := Array();
      }
    }

    /** A top-level key that was not seen before, and its colon. */
    method TakeKey(keys: set<string>) returns (key: Option<string>)
      requires Valid()
      modifies this`pieces, this`buffer, this`position, this`ended, this`base
      ensures Valid()
      ensures splitter.Key(total, old(Place()), keys) == if key.Some? then Some((key.value, Place())) else None
    {
      hide TakeValue, TakeChar;
      var raw := Value(true);
      if raw.None? {
        return None;
      }
      var parsed := splitter.parse(raw.value);
      if parsed.None? || !parsed.value.Text? || parsed.value.chars in keys {
        return None;
      }
      var ok := Expect(':');
      key := if ok then Some(parsed.value.chars) else None;
    }

    /** One turn of the envelope loop. */
    method Member(keys: set<string>) returns (seen: set<string>, entries: seq<Entry>, ok: bool, last: bool)
      requires Valid()
      modifies this`pieces, this`buffer, this`position, this`ended, this`base
      ensures Valid() && (ok ==> old(Place()) < Place())
      ensures splitter.Members(total, old(Place()), keys) ==
              After(entries, if !ok then REJECT
                             else if last then splitter.Close(total, Place(), seen)
                             else splitter.Members(total, Place(), seen))
    {
      hide Splitter.Key, Splitter.Value, SkipSpace, Splitter.Close;
      seen, entries, last := keys, [], false;
      var key := TakeKey(keys);
      if key.None? {
        return keys, [], false, false;
      }
      seen := keys + {key.value};
      entries, ok := Entries(key.value);
      if !ok {
        return seen, entries, false, false;
      }
      Space();
      var c := Peek();
      last := c == "}";
      if !last {
        ok := Expect(',');
      }
    }

    /** The end of the envelope and of the file. */
    method Close(keys: set<string>) returns (accepted: bool)
      requires Valid()
      modifies this`pieces, this`buffer, this`position, this`ended, this`base
      ensures Outcome([], accepted) == splitter.Close(total, old(Place()), keys)
    {
      accepted := Expect('}');
      if accepted {
        Space();
        var c := Peek();
        accepted := c == "" && HOMEWORKS in keys;
      }
    }

    /** The whole generator: what it yields, and whether it ends without throwing. */
    method Read() returns (entries: seq<Entry>, accepted: bool)
      requires Valid() && Place() == 0
      modifies this
      ensures Outcome(entries, accepted) == splitter.Read(total)
    {
      hide Splitter.Members, SkipSpace, Splitter.Close;
      entries := [];
      accepted := Expect('{');
      if !accepted {
        return;
      }
      Space();
      var keys: set<string> := {};
      var c := Peek();
      var last := c == "}";
      while !last
        invariant Valid()
        invariant splitter.Read(total) ==
                  After(entries, if last then splitter.Close(total, Place(), keys) else splitter.Members(total, Place(), keys))
        decreases |total| - Place(), if last then 0 else 1
      {
        var yielded;
        keys, yielded, accepted, last := Member(keys);
        AfterTwice(entries, yielded, if !accepted then REJECT else if last then splitter.Close(total, Place(), keys) else splitter.Members(total, Place(), keys));
        entries := entries + yielded;
        if !accepted {
          return;
        }
      }
      accepted := Close(keys);
    }
  }

  /** Two cuttings of the same text, read by two readers, give the same entries and the same verdict. */
  method ReadTwice(one: seq<string>, oneTail: string, other: seq<string>, otherTail: string, splitter: Splitter)
    returns (left: seq<Entry>, right: seq<Entry>, leftOk: bool, rightOk: bool)
    requires Flatten(one) + oneTail == Flatten(other) + otherTail
    ensures left == right && leftOk == rightOk
    ensures Outcome(left, leftOk) == splitter.Read(Flatten(one) + oneTail)
  {
    var a := new Reader(one, oneTail, splitter);
    left, leftOk := a.Read();
    var b := new Reader(other, otherTail, splitter);
    right, rightOk := b.Read();
  }
}
