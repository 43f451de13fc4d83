/** The settling rule: whether a weight may go on a receipt, decided from everything heard so far. */
module Settling {
  import opened Wire
  import opened Scales
  import Sequences

  datatype Heard = HeardReading | Noise | Silence

  datatype Offered = Offered(elapsed: u32, heard: Heard, reading: Option<Reading>)

  datatype Verdict = Settled | NotYet | Expired | NoAnswer

  datatype Fault = InvalidArgument

  const MAGIC: u32 := 0x524B_5344

  const WORD := 0x1_0000_0000

  // ---------------------------------------------------------------------
  // The verdict as a function of the history
  // ---------------------------------------------------------------------

  /** The readings among the offers, oldest first: noise and silence leave no trace in it. */
  function Readings(history: seq<Offered>): (rs: seq<Reading>)
    ensures |rs| <= |history|
  {
    if history == [] then []
    else
      var before := Readings(history[..|history| - 1]);
      var offer := history[|history| - 1];
      if offer.heard == HeardReading && offer.reading.Some? then before + [offer.reading.value] else before
  }

  predicate SameWeight(a: Reading, b: Reading) {
    a.scaled == b.scaled && a.decimals == b.decimals
  }

  /** The last `n` readings are stable and show one weight. */
  predicate EndsWithRun(rs: seq<Reading>, n: nat) {
    && n <= |rs|
    && (forall i :: |rs| - n <= i < |rs| ==> rs[i].stability == Stable)
    && (forall i, j :: |rs| - n <= i < j < |rs| ==> rs[i].scaled == rs[j].scaled && rs[i].decimals == rs[j].decimals)
  }

  /** The length of the longest such run. */
  function RunLength(rs: seq<Reading>): (n: nat)
    ensures n <= |rs|
  {
    if rs == [] || rs[|rs| - 1].stability != Stable then 0
    else
      var before := rs[..|rs| - 1];
      if RunLength(before) > 0 && SameWeight(before[|before| - 1], rs[|rs| - 1]) then RunLength(before) + 1 else 1
  }

  predicate AllSilent(history: seq<Offered>) {
    forall i :: 0 <= i < |history| ==> history[i].heard == Silence
  }

  predicate Current(history: seq<Offered>)
    requires history != []
  {
    history[|history| - 1].heard == HeardReading
  }

  /** A 32-bit counter holds the run, so a run is seen modulo two to the thirty-second. */
  function VerdictOf(needed: u32, budget: u32, history: seq<Offered>): Result<Verdict, Fault>
    requires history != []
  {
    var offer := history[|history| - 1];
    if offer.heard == HeardReading && offer.reading == None then Err(InvalidArgument)
    else if offer.heard == HeardReading && offer.reading.value.stability == Stable
         && RunLength(Readings(history)) % WORD >= AtLeastOne(needed) then Ok(Settled)
    else if offer.elapsed >= budget then Ok(if AllSilent(history) then NoAnswer else Expired)
    else Ok(NotYet)
  }

  function AtLeastOne(needed: u32): u32 {
    if needed < 1 then 1 else needed
  }

  // ---------------------------------------------------------------------
  // The rule as the caller holds it
  // ---------------------------------------------------------------------

  class Stabilizer {
    var magic: u32
    const needed: u32
    const budget: u32
    var repeats: u32
    var lastScaled: i64
    var lastDecimals: nat
    var heardAnything: bool

    constructor (wanted: u32, budget: u32)
      ensures magic == 0x524B_5344 && this.budget == budget && Reflects([])
      ensures needed == if wanted == 0 then 1 else wanted
    {
      magic := MAGIC;
      needed := if wanted < 1 then 1 else wanted;
      this.budget := budget;
      repeats := 0;
      lastScaled := 0;
      lastDecimals := 0;
      heardAnything := false;
    }

    /** What the fields say about the offers made so far. */
    ghost predicate Reflects(history: seq<Offered>)
      reads this
    {
      var rs := Readings(history);
      && magic == MAGIC && needed >= 1
      && heardAnything == !AllSilent(history)
      && repeats as int == RunLength(rs) % WORD
      && (RunLength(rs) > 0 ==> lastScaled == rs[|rs| - 1].scaled && lastDecimals == rs[|rs| - 1].decimals)
    }

    method Offer(elapsed: u32, heard: Heard, reading: Option<Reading>, ghost history: seq<Offered>)
      returns (verdict: Result<Verdict, Fault>)
      requires Reflects(history)
      modifies this
      ensures Reflects(history + [Offered(elapsed, heard, reading)])
      ensures verdict == VerdictOf(needed, budget, history + [Offered(elapsed, heard, reading)])
    {
      ghost var offer := Offered(elapsed, heard, reading);
      ReadingsGrow(history, offer);
      HeardGrows(history, offer);
      hide Readings, RunLength, AllSilent;
      if magic != MAGIC {
        return Err(InvalidArgument);
      }
      if heard != Silence {
        heardAnything := true;
      }
      if heard == HeardReading {
        if reading == None {
          return Err(InvalidArgument);
        }
        RunGrows(Readings(history), reading.value);
        NextInWord(RunLength(Readings(history)));
        if reading.value.stability == Stable {
          if repeats > 0 && lastScaled == reading.value.scaled && lastDecimals == reading.value.decimals {
            repeats := (repeats as int + 1) % WORD;
          } else {
            repeats := 1;
          }
          lastScaled := reading.value.scaled;
          lastDecimals := reading.value.decimals;
          if repeats >= needed {
            return Ok(Settled);
          }
        } else {
          repeats := 0;
        }
      }
      if elapsed >= budget {
        return Ok(if heardAnything then Expired else NoAnswer);
      }
      return Ok(NotYet);
    }
  }

  lemma {:induction false} HeardGrows(history: seq<Offered>, offer: Offered)
    ensures AllSilent(history + [offer]) <==> AllSilent(history) && offer.heard == Silence
  {
    var now := history + [offer];
    assert now[|history|] == offer;
    assert forall i :: 0 <= i < |history| ==> now[i] == history[i];
  }

  lemma {:induction false} ReadingsGrow(history: seq<Offered>, offer: Offered)
    ensures Readings(history + [offer]) ==
            if offer.heard == HeardReading && offer.reading.Some? then Readings(history) + [offer.reading.value]
            else Readings(history)
  {
    assert (history + [offer])[..|history|] == history;
  }

  /** Which offers are readings, and in what order they are kept. */
  lemma {:induction false} ReadingsAre(before: seq<Offered>, after: seq<Offered>, offer: Offered)
    ensures Readings([]) == [] && Readings(before + after) == Readings(before) + Readings(after)
    ensures Readings([offer]) == match offer case Offered(_, HeardReading, Some(r)) => [r] case _ => []
  {
    ReadingsGrow([], offer);
    assert [] + [offer] == [offer] && Readings([]) == [];
    ReadingsJoin(before, after);
    hide Readings;
  }

  lemma {:induction false} ReadingsJoin(before: seq<Offered>, after: seq<Offered>)
    ensures Readings(before + after) == Readings(before) + Readings(after)
  {
    if after == [] {
      assert before + after == before;
    } else {
      hide Readings;
      var k := |after| - 1;
      ReadingsJoin(before, after[..k]);
      ReadingsGrow(before + after[..k], after[k]);
      ReadingsGrow(after[..k], after[k]);
      assert after == after[..k] + [after[k]];
      Sequences.Assoc(before, after[..k], [after[k]]);
      if after[k].heard == HeardReading && after[k].reading.Some? {
        Sequences.Assoc(Readings(before), Readings(after[..k]), [after[k].reading.value]);
      }
    }
  }

  lemma {:induction false} NextInWord(n: nat)
    ensures (n + 1) % WORD == (n % WORD + 1) % WORD
  {
  }

  lemma {:induction false} RunGrows(rs: seq<Reading>, r: Reading)
    ensures RunLength(rs + [r]) ==
            if r.stability != Stable then 0
            else if RunLength(rs) > 0 && SameWeight(rs[|rs| - 1], r) then RunLength(rs) + 1
            else 1
  {
    assert (rs + [r])[..|rs|] == rs;
  }

  lemma {:induction false} NoneIsOne(needed: u32, budget: u32, history: seq<Offered>)
    requires history != []
    ensures VerdictOf(if needed == 0 then 1 else needed, budget, history) == VerdictOf(needed, budget, history)
  {
    hide Readings, RunLength, AllSilent;
  }

  /** A caller polling with one rule: every answer is the verdict on the offers up to it. */
  method Poll(needed: u32, budget: u32, offers: seq<Offered>) returns (verdicts: seq<Result<Verdict, Fault>>)
    ensures |verdicts| == |offers|
    ensures forall i :: 0 <= i < |offers| ==> verdicts[i] == VerdictOf(needed, budget, offers[..i + 1])
  {
    hide Readings, RunLength, AllSilent, VerdictOf;
    var rule := new Stabilizer(needed, budget);
    verdicts := [];
    for i := 0 to |offers|
      invariant |verdicts| == i && rule.Reflects(offers[..i])
      invariant rule.needed == (if needed == 0 then 1 else needed) && rule.budget == budget
      invariant forall k :: 0 <= k < i ==> verdicts[k] == VerdictOf(needed, budget, offers[..k + 1])
    {
      var o := offers[i];
      assert offers[..i + 1] == offers[..i] + [o];
      var v := rule.Offer(o.elapsed, o.heard, o.reading, offers[..i]);
      NoneIsOne(needed, budget, offers[..i + 1]);
      verdicts := verdicts + [v];
    }
  }

  // ---------------------------------------------------------------------
  // What the verdict means
  // ---------------------------------------------------------------------

  /** The counted run is the longest run the readings end with. */
  lemma {:induction false} RunLengthIsLongest(rs: seq<Reading>, n: nat)
    ensures EndsWithRun(rs, n) <==> n <= RunLength(rs)
    decreases |rs|
  {
    if rs != [] && n > 0 {
      var k := |rs| - 1;
      var before, last := rs[..k], rs[k];
      RunLengthIsLongest(before, n - 1);
      if n >= 2 {
        if EndsWithRun(rs, n) {
          assert SameWeight(rs[k - 1], rs[k]);
          assert EndsWithRun(before, n - 1) by {
            hide SameWeight;
            assert forall i :: 0 <= i < k ==> before[i] == rs[i];
          }
        }
        if n <= RunLength(rs) {
          LongerRun(before, last, n - 1);
          assert before + [last] == rs;
        }
      }
    }
  }

  lemma {:induction false} LongerRun(rs: seq<Reading>, last: Reading, n: nat)
    requires n >= 1 && EndsWithRun(rs, n) && last.stability == Stable && SameWeight(rs[|rs| - 1], last)
    ensures EndsWithRun(rs + [last], n + 1)
  {
    var now := rs + [last];
    forall i, j | |now| - (n + 1) <= i < j < |now| ensures SameWeight(now[i], now[j]) {
      if j == |rs| && i < |rs| - 1 {
        assert SameWeight(rs[i], rs[|rs| - 1]);
      }
    }
  }

  /** A reading that was announced and not handed over is a fault of the caller, and nothing else is. */
  lemma {:induction false} FaultIff(needed: u32, budget: u32, history: seq<Offered>)
    requires history != []
    ensures VerdictOf(needed, budget, history).Err? <==>
              history[|history| - 1].heard == HeardReading && history[|history| - 1].reading == None
  {
    hide Readings, RunLength, AllSilent;
  }

  /** What the settling rule promises: the verdict if runs were counted without bound. */
  function Promised(needed: u32, budget: u32, history: seq<Offered>): Verdict
    requires history != []
  {
    var last := history[|history| - 1];
    if last.heard == HeardReading && EndsWithRun(Readings(history), if needed == 0 then 1 else needed) then Settled
    else if last.elapsed < budget then NotYet
    else if forall i :: 0 <= i < |history| ==> history[i].heard == Silence then NoAnswer
    else Expired
  }

  /** The run is long enough, and the 32-bit counter that holds it has wrapped to a number that is not. */
  predicate CounterHides(needed: u32, history: seq<Offered>)
    requires history != []
  {
    var run := RunLength(Readings(history));
    history[|history| - 1].heard == HeardReading && run >= (if needed == 0 then 1 else needed) > run % 4294967296
  }

  /**
   * The rule keeps its promise on every history whatever its length, except exactly where the counter has wrapped and
   * hides a run that is long enough.
   */
  lemma {:induction false} PromiseKeptIff(needed: u32, budget: u32, history: seq<Offered>)
    requires history != []
    requires Current(history) ==> history[|history| - 1].reading.Some?
    ensures VerdictOf(needed, budget, history) == Ok(Promised(needed, budget, history))
       <==> !CounterHides(needed, history)
  {
    var rs := Readings(history);
    var run := RunLength(rs);
    RunLengthIsLongest(rs, AtLeastOne(needed));
    assert run % WORD <= run;
    if Current(history) {
      assert rs[|rs| - 1] == history[|history| - 1].reading.value;
    }
  }

  lemma {:induction false} ShortRunsAreSeen(needed: u32, history: seq<Offered>)
    requires history != [] && |history| < WORD
    ensures !CounterHides(needed, history)
  {
  }

  /**
   * Settled means: this very offer is a stable reading and it ends a run of as many equal stable readings as asked for.
   * That holds of a history if and only if the counter does not hide its run; below 2^32 offers it never does.
   */
  lemma {:induction false} SettledIff(needed: u32, budget: u32, history: seq<Offered>)
    requires history != []
    requires Current(history) ==> history[|history| - 1].reading.Some?
    ensures (VerdictOf(needed, budget, history) == Ok(Settled)
             <==> Current(history) && EndsWithRun(Readings(history), if needed == 0 then 1 else needed))
       <==> !CounterHides(needed, history)
    ensures |history| < 4294967296 ==> !CounterHides(needed, history)
  {
    PromiseKeptIff(needed, budget, history);
    if |history| < WORD {
      ShortRunsAreSeen(needed, history);
    }
    RunLengthIsLongest(Readings(history), AtLeastOne(needed));
  }

  /**
   * Short of a run that long, on every history, only the clock and whether anything was ever heard decide; the width of
   * the counter plays no part.
   */
  lemma {:induction false} UnsettledVerdict(needed: u32, budget: u32, history: seq<Offered>)
    requires history != []
    requires Current(history) ==> history[|history| - 1].reading.Some?
    requires !(Current(history) && EndsWithRun(Readings(history), if needed == 0 then 1 else needed))
    ensures var late := history[|history| - 1].elapsed >= budget;
            && (VerdictOf(needed, budget, history) == Ok(NoAnswer) <==> late && AllSilent(history))
            && (VerdictOf(needed, budget, history) == Ok(Expired) <==> late && !AllSilent(history))
            && (VerdictOf(needed, budget, history) == Ok(NotYet) <==> !late)
  {
    RunLengthIsLongest(Readings(history), AtLeastOne(needed));
    PromiseKeptIff(needed, budget, history);
  }

  predicate NoReadings(history: seq<Offered>) {
    forall i :: 0 <= i < |history| ==> history[i].heard != HeardReading
  }

  lemma {:induction false} InterludeLeavesReadings(before: seq<Offered>, interlude: seq<Offered>)
    requires NoReadings(interlude)
    ensures Readings(before + interlude) == Readings(before)
  {
    if interlude == [] {
      assert before + interlude == before;
    } else {
      var k := |interlude| - 1;
      var all := before + interlude;
      assert all[..|all| - 1] == before + interlude[..k] && all[|all| - 1] == interlude[k];
      InterludeLeavesReadings(before, interlude[..k]);
    }
  }

  /** Noise and silence between two readings neither help a weight settle nor keep it from settling. */
  lemma {:induction false} InterludesDoNotMatter(needed: u32, budget: u32, before: seq<Offered>,
          interlude: seq<Offered>, last: Offered)
    requires NoReadings(interlude)
    ensures VerdictOf(needed, budget, before + interlude + [last]) == Ok(Settled)
       <==> VerdictOf(needed, budget, before + [last]) == Ok(Settled)
  {
    InterludeLeavesReadings(before, interlude);
    assert (before + interlude + [last])[..|before + interlude|] == before + interlude;
    assert (before + [last])[..|before|] == before;
  }

  /** One weight seen `n` times in a row. */
  function Constantly(r: Reading, n: nat): seq<Offered> {
    seq(n, _ => Offered(0, HeardReading, Some(r)))
  }

  lemma {:induction false} ConstantRun(r: Reading, n: nat)
    requires r.stability == Stable
    ensures RunLength(Readings(Constantly(r, n))) == n
    ensures n > 0 ==>
              var rs := Readings(Constantly(r, n)); rs != [] && rs[|rs| - 1] == r
  {
    if n > 0 {
      var h := Constantly(r, n);
      assert h[..n - 1] == Constantly(r, n - 1);
      ConstantRun(r, n - 1);
      var before := Readings(Constantly(r, n - 1));
      assert Readings(h) == before + [r];
      RunGrows(before, r);
    }
  }

  /** The counter does hide runs: after 2^32 equal readings it is zero, and a perfectly settled weight is refused. */
  lemma {:induction false} CounterWraps(needed: u32, budget: u32, r: Reading)
    requires r.stability == Stable && budget > 0
    ensures EndsWithRun(Readings(Constantly(r, WORD)), WORD) && CounterHides(needed, Constantly(r, WORD))
    ensures VerdictOf(needed, budget, Constantly(r, WORD)) == Ok(NotYet)
  {
    var history := Constantly(r, WORD);
    assert history[|history| - 1] == Offered(0, HeardReading, Some(r));
    hide Constantly, Readings, RunLength, EndsWithRun;
    ConstantRun(r, WORD);
    RunLengthIsLongest(Readings(history), WORD);
  }
}
