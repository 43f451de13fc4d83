/** From the bytes a scale sends to the verdict: a weight written often enough settles, however the reads fell. */
module Weighing {
  import opened Wire
  import opened Scales
  import opened ScaleStreams
  import opened ScaleWeights
  import opened Settling

  const NEWLINE: Text := [CR, LF]

  /** A scale that keeps sending one weight. */
  function Repeated(line: Text, n: nat): Text {
    if n == 0 then [] else line + NEWLINE + Repeated(line, n - 1)
  }

  function Copies<T>(x: T, n: nat): (s: seq<T>)
    ensures |s| == n && forall i :: 0 <= i < n ==> s[i] == x
  {
    if n == 0 then [] else [x] + Copies(x, n - 1)
  }

  lemma {:induction false} RepeatedLines(line: Text, n: nat)
    requires line != [] && Plain(line)
    ensures Lines(Repeated(line, n), []) == Copies(line, n)
  {
    if n > 0 {
      RepeatedLines(line, n - 1);
      OneFrame(line, NEWLINE, Repeated(line, n - 1));
    }
  }

  lemma {:induction false} CopiesOfItems(protocol: Protocol, line: Text, n: nat)
    ensures ItemsOf(protocol, Copies(line, n)) == Copies(ItemOf(protocol, line), n)
  {
    hide ItemOf;
  }

  lemma {:induction false} WrittenIsPlain(protocol: Protocol, w: Shown)
    requires Writable(w)
    ensures Plain(Written(protocol, w))
  {
    WrittenIsPrintable(protocol, w);
    hide Written;
  }

  /** The stream of one weight, in whatever pieces it arrives, is that weight again and again. */
  lemma {:induction false} StreamOfOneWeight(protocol: Protocol, w: Shown, n: nat, chunks: seq<Text>)
    requires Writable(w) && (protocol == Generic ==> w.decimals >= 1)
    requires Joined(chunks) == Repeated(Written(protocol, w), n)
    ensures Fed(protocol, [], chunks) == Copies(Weight(Expected(protocol, w)), n)
  {
    var line := Written(protocol, w);
    WrittenIsPlain(protocol, w);
    WrittenIsRead(protocol, w);
    assert line != [];
    hide Written, ReadLine, Lines, Joined, Fed, Expected, Repeated, ItemsOf, Copies;
    FeedIsLines(protocol, [], chunks);
    assert [] + Joined(chunks) == Joined(chunks);
    RepeatedLines(line, n);
    CopiesOfItems(protocol, line, n);
  }

  /** One offer for each item, at the instants the caller made them. */
  function Hears(items: seq<Item>, elapsed: seq<u32>): (history: seq<Offered>)
    requires |elapsed| == |items|
    ensures |history| == |items|
  {
    seq(|items|, i requires 0 <= i < |items| =>
      match items[i]
      case Weight(r) => Offered(elapsed[i], HeardReading, Some(r))
      case Unreadable(_) => Offered(elapsed[i], Noise, None))
  }

  lemma {:induction false} ReadingsOfOne(r: Reading, elapsed: seq<u32>)
    ensures Readings(Hears(Copies(Weight(r), |elapsed|), elapsed)) == Copies(r, |elapsed|)
  {
    if elapsed != [] {
      var k := |elapsed| - 1;
      var history := Hears(Copies(Weight(r), k + 1), elapsed);
      assert history[..k] == Hears(Copies(Weight(r), k), elapsed[..k]);
      ReadingsOfOne(r, elapsed[..k]);
      hide Copies;
      assert history[k] == Offered(elapsed[k], HeardReading, Some(r));
      assert Copies(r, k) + [r] == Copies(r, k + 1);
    }
  }

  lemma {:induction false} RunOfCopies(r: Reading, n: nat, needed: nat)
    requires needed >= 1
    ensures EndsWithRun(Copies(r, n), needed) <==> r.stability == Stable && n >= needed
  {
    if n >= needed {
      assert Copies(r, n)[n - 1] == r;
    }
    hide Copies;
  }

  /** The longest run in copies of one reading: all of them, when it is stable. */
  lemma {:induction false} LongestRunOfCopies(r: Reading, n: nat)
    ensures RunLength(Copies(r, n)) == if r.stability == Stable then n else 0
  {
    var rs := Copies(r, n);
    RunOfCopies(r, n, n + 1);
    if n > 0 {
      RunOfCopies(r, n, n);
      RunOfCopies(r, n, 1);
      RunLengthIsLongest(rs, n);
      RunLengthIsLongest(rs, 1);
    }
  }

  /** The verdict once one reading has been offered at each of the given instants, for any number of them. */
  lemma {:induction false} VerdictOnCopies(r: Reading, elapsed: seq<u32>, needed: u32, budget: u32)
    requires elapsed != []
    ensures VerdictOf(needed, budget, Hears(Copies(Weight(r), |elapsed|), elapsed)) == Ok(Settled)
       <==> r.stability == Stable && |elapsed| % Settling.WORD >= AtLeastOne(needed)
  {
    var n := |elapsed|;
    var history := Hears(Copies(Weight(r), n), elapsed);
    assert history[n - 1] == Offered(elapsed[n - 1], HeardReading, Some(r));
    hide Copies, Hears, Readings, RunLength;
    ReadingsOfOne(r, elapsed);
    LongestRunOfCopies(r, n);
  }

  /**
   * End to end: a scale showing a weight and sending it line after line settles at the `needed`-th line and not
   * before, on exactly that weight, when it marks the weight settled, and never settles when it does not. The lines
   * are counted modulo 2^32, as the rule counts them.
   */
  lemma {:induction false} WeightSettlesIff(protocol: Protocol, w: Shown, chunks: seq<Text>, elapsed: seq<u32>,
          needed: u32, budget: u32)
    requires Writable(w) && (protocol == Generic ==> w.decimals >= 1)
    requires elapsed != [] && Joined(chunks) == Repeated(Written(protocol, w), |elapsed|)
    ensures var items := Fed(protocol, [], chunks);
            && |items| == |elapsed| && items[|items| - 1] == Weight(Expected(protocol, w))
            && (VerdictOf(needed, budget, Hears(items, elapsed)) == Ok(Settled)
                <==> w.settled && |elapsed| % 4294967296 >= if needed == 0 then 1 else needed)
  {
    hide Fed, Written, VerdictOf, Hears, Repeated, Joined;
    StreamOfOneWeight(protocol, w, |elapsed|, chunks);
    VerdictOnCopies(Expected(protocol, w), elapsed, needed, budget);
  }
}
