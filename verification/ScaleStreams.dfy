/** Draining a buffer after every read yields the lines of the whole stream, wherever the reads were cut. */
module ScaleStreams {
  import opened Wire
  import opened Scales

  /** What a non-empty line gives: a weight, or nothing the dialect understands. */
  datatype Item = Weight(reading: Reading) | Unreadable(line: Text)

  function ItemOf(protocol: Protocol, line: Text): Item {
    match ReadLine(protocol, line) case Some(r) => Weight(r) case None => Unreadable(line)
  }

  function ItemsOf(protocol: Protocol, lines: seq<Text>): seq<Item> {
    seq(|lines|, i requires 0 <= i < |lines| => ItemOf(protocol, lines[i]))
  }

  /** The text as a list of at most one line: an empty line is no line. */
  function Solid(line: Text): seq<Text> {
    if line == [] then [] else [line]
  }

  /**
   * What parsing until no complete line is left yields. Every complete frame consumes at least a byte, which is
   * what makes the caller's loop end; an empty line, left by a terminator that was cut in two, yields nothing.
   */
  function Drained(protocol: Protocol, data: Text): seq<Item>
    decreases |data|
  {
    var p := ParseFrame(protocol, data);
    if p.frame == Incomplete then []
    else ItemsOf(protocol, Solid(data[..LineEnd(data, 0)])) + Drained(protocol, data[p.consumed..])
  }

  /** The bytes draining leaves in the buffer. */
  function LeftOver(protocol: Protocol, data: Text): Text
    decreases |data|
  {
    var p := ParseFrame(protocol, data);
    if p.frame == Incomplete then data else LeftOver(protocol, data[p.consumed..])
  }

  /** What comes out when each read is appended to the buffer and the buffer drained. */
  function Fed(protocol: Protocol, buffer: Text, chunks: seq<Text>): seq<Item>
    decreases |chunks|
  {
    if chunks == [] then []
    else
      var data := buffer + chunks[0];
      Drained(protocol, data) + Fed(protocol, LeftOver(protocol, data), chunks[1..])
  }

  function Buffered(protocol: Protocol, buffer: Text, chunks: seq<Text>): Text
    decreases |chunks|
  {
    if chunks == [] then buffer else Buffered(protocol, LeftOver(protocol, buffer + chunks[0]), chunks[1..])
  }

  // ---------------------------------------------------------------------
  // The lines of a stream, byte by byte
  // ---------------------------------------------------------------------

  /** The non-empty complete lines when `current` has already been read of the first. */
  function Lines(data: Text, current: Text): seq<Text>
    decreases |data|
  {
    if data == [] then []
    else if IsTerminator(data[0]) then Solid(current) + Lines(data[1..], [])
    else Lines(data[1..], current + [data[0]])
  }

  /** The line that is not finished when the data runs out. */
  function Unfinished(data: Text, current: Text): Text
    decreases |data|
  {
    if data == [] then current
    else Unfinished(data[1..], if IsTerminator(data[0]) then [] else current + [data[0]])
  }

  predicate Plain(data: Text) {
    forall j :: 0 <= j < |data| ==> !IsTerminator(data[j])
  }

  predicate AllTerminators(data: Text) {
    forall j :: 0 <= j < |data| ==> IsTerminator(data[j])
  }

  lemma {:induction false} LinesConcat(a: Text, b: Text, current: Text)
    ensures Lines(a + b, current) == Lines(a, current) + Lines(b, Unfinished(a, current))
    ensures Unfinished(a + b, current) == Unfinished(b, Unfinished(a, current))
    decreases |a|
  {
    if a == [] {
      assert a + b == b;
    } else {
      assert (a + b)[1..] == a[1..] + b && (a + b)[0] == a[0];
      LinesConcat(a[1..], b, if IsTerminator(a[0]) then [] else current + [a[0]]);
    }
  }

  lemma {:induction false} PlainIsUnfinished(data: Text, current: Text)
    requires Plain(data)
    ensures Lines(data, current) == [] && Unfinished(data, current) == current + data
    decreases |data|
  {
    if data != [] {
      PlainIsUnfinished(data[1..], current + [data[0]]);
      assert current + [data[0]] + data[1..] == current + data;
    }
  }

  lemma {:induction false} TerminatorsAreNoLines(data: Text)
    requires AllTerminators(data)
    ensures Lines(data, []) == [] && Unfinished(data, []) == []
    decreases |data|
  {
    if data != [] {
      TerminatorsAreNoLines(data[1..]);
    }
  }

  /** A line, the terminators behind it, and the rest. */
  lemma {:induction false} OneFrame(line: Text, gap: Text, rest: Text)
    requires Plain(line) && AllTerminators(gap) && gap != []
    ensures Lines(line + gap + rest, []) == Solid(line) + Lines(rest, [])
    ensures Unfinished(line + gap + rest, []) == Unfinished(rest, [])
  {
    LinesConcat(line + gap, rest, []);
    LinesConcat(line, gap, []);
    PlainIsUnfinished(line, []);
    assert [] + line == line;
    TerminatorsAreNoLines(gap[1..]);
  }

  lemma {:induction false} ItemsConcat(protocol: Protocol, a: seq<Text>, b: seq<Text>)
    ensures ItemsOf(protocol, a + b) == ItemsOf(protocol, a) + ItemsOf(protocol, b)
    ensures ItemsOf(protocol, []) == []
  {
    hide ItemOf;
  }

  /** Draining yields the non-empty lines in order and keeps the unfinished one. */
  lemma {:induction false} DrainIsLines(protocol: Protocol, data: Text)
    ensures Drained(protocol, data) == ItemsOf(protocol, Lines(data, []))
    ensures LeftOver(protocol, data) == Unfinished(data, [])
    decreases |data|
  {
    hide ReadLine, ItemsOf, Lines, Unfinished;
    var p := ParseFrame(protocol, data);
    ItemsConcat(protocol, [], []);
    if p.frame == Incomplete {
      PlainIsUnfinished(data, []);
      assert [] + data == data;
    } else {
      var end := LineEnd(data, 0);
      var line, gap, rest := data[..end], data[end..p.consumed], data[p.consumed..];
      assert data == line + gap + rest;
      OneFrame(line, gap, rest);
      DrainIsLines(protocol, rest);
      ItemsConcat(protocol, Solid(line), Lines(rest, []));
    }
  }

  function Joined(chunks: seq<Text>): Text {
    if chunks == [] then [] else chunks[0] + Joined(chunks[1..])
  }

  lemma {:induction false} UnfinishedIsPlain(data: Text, current: Text)
    requires Plain(current)
    ensures Plain(Unfinished(data, current))
    decreases |data|
  {
    if data != [] {
      UnfinishedIsPlain(data[1..], if IsTerminator(data[0]) then [] else current + [data[0]]);
    }
  }

  lemma {:induction false} FeedIsLines(protocol: Protocol, buffer: Text, chunks: seq<Text>)
    requires Plain(buffer)
    ensures Fed(protocol, buffer, chunks) == ItemsOf(protocol, Lines(buffer + Joined(chunks), []))
    ensures Buffered(protocol, buffer, chunks) == Unfinished(buffer + Joined(chunks), [])
    decreases |chunks|
  {
    hide ItemsOf, Drained, LeftOver, Lines, Unfinished;
    ItemsConcat(protocol, [], []);
    if chunks == [] {
      PlainIsUnfinished(buffer, []);
      assert buffer + [] == buffer && [] + buffer == buffer;
    } else {
      var first, others := buffer + chunks[0], Joined(chunks[1..]);
      var rest := Unfinished(first, []);
      DrainIsLines(protocol, first);
      UnfinishedIsPlain(first, []);
      FeedIsLines(protocol, rest, chunks[1..]);
      assert buffer + Joined(chunks) == first + others;
      LinesConcat(first, others, []);
      LinesConcat(rest, others, []);
      PlainIsUnfinished(rest, []);
      assert [] + rest == rest && [] + Lines(others, rest) == Lines(others, rest);
      ItemsConcat(protocol, Lines(first, []), Lines(others, rest));
    }
  }

  /** However the stream is cut into reads, the readings, the unreadable lines and the bytes left over are the same. */
  lemma {:induction false} ChunkingDoesNotMatter(protocol: Protocol, a: seq<Text>, b: seq<Text>)
    requires Joined(a) == Joined(b)
    ensures Fed(protocol, [], a) == Fed(protocol, [], b) == Drained(protocol, Joined(a))
    ensures Buffered(protocol, [], a) == Buffered(protocol, [], b) == LeftOver(protocol, Joined(a))
  {
    FeedIsLines(protocol, [], a);
    FeedIsLines(protocol, [], b);
    DrainIsLines(protocol, Joined(a));
    assert [] + Joined(a) == Joined(a) && [] + Joined(b) == Joined(b);
  }
}
