/** Two hosts that probe against each other: same names, or the same instance behind different hosts. */
module Contests {
  import opened Wire
  import opened Names
  import opened Records
  import opened Messages
  import opened Services
  import opened Renaming
  import opened TieBreaking
  import opened Responders
  import opened PartialClash
  import opened ResponderEngines
  import opened Decimals
  import Sequences

  // ---------------------------------------------------------------------
  // The same two names
  // ---------------------------------------------------------------------

  /** Milliseconds between probes, and the length of the window behind each. */
  const INTERVAL := 250

  /** Three probes for the configured names from `began` on, the first of them the air's `start`-th. */
  datatype Bid = Bid(service: Service, air: Air, start: nat, began: int)

  /** When the `i`-th probe goes out; a bid that nothing broke holds its names from its third on. */
  function ProbeAt(b: Bid, i: nat): int {
    b.began + INTERVAL * i
  }

  /** The first `i` windows of a bid brought nothing against its names, so that it comes to its `i`-th probe. */
  ghost predicate Undisturbed(b: Bid, i: nat) {
    Peaceful(b.air, b.start, i, b.service)
  }

  /** A probe that goes out while the other host has a window open arrives in that window. */
  ghost predicate HearsProbes(a: Bid, b: Bid) {
    forall n: nat, i: nat ::
      (n < PROBE_COUNT && i < PROBE_COUNT && ProbeAt(a, n) <= ProbeAt(b, i) < ProbeAt(a, n + 1) && Undisturbed(b, i))
      ==> MessageBytes(ProbeMessage(b.service)) in a.air.arrivals(a.start + n)
  }

  predicate Answered(holder: Service, prober: Service, arrivals: seq<Payload>) {
    var reply := Reply(holder, ProbeMessage(prober));
    reply.Some? ==> MessageBytes(reply.value) in arrivals
  }

  /** A host that holds its names answers a probe, and the answer arrives in the window behind it. */
  ghost predicate HearsDefences(a: Bid, b: Bid) {
    forall n: nat ::
      (n < PROBE_COUNT && ProbeAt(b, PROBE_COUNT) <= ProbeAt(a, n) && Undisturbed(b, PROBE_COUNT))
      ==> Answered(b.service, a.service, a.air.arrivals(a.start + n))
  }

  ghost predicate Hears(a: Bid, b: Bid) {
    HearsProbes(a, b) && HearsDefences(a, b)
  }

  /** What a service must be to be probed for and defended. */
  ghost predicate Defensible(s: Service) {
    s.WellFormedService() && OwnNamesApart(s) && s.hostTtl > 0 && s.serviceTtl > 0
  }

  predicate SameNames(s: Service, t: Service) {
    EqIgnoreCase(s.instance, t.instance) && EqIgnoreCase(s.host, t.host)
  }

  /** The loser of the tie-break does not claim beside the winner, whenever the two begin. */
  lemma {:induction false} LoserBeside(loser: Bid, winner: Bid)
    requires Defensible(loser.service) && Defensible(winner.service) && SameNames(loser.service, winner.service)
    requires HoldsOther(loser.service, winner.service) && HoldsOther(winner.service, loser.service)
    requires Verdict(loser.service.Claimed(), winner.service.Claimed()) == Less
    requires Hears(loser, winner) && Hears(winner, loser)
    ensures !(Undisturbed(loser, PROBE_COUNT) && Undisturbed(winner, PROBE_COUNT))
  {
    var s, t := loser.service, winner.service;
    EqSymmetricTransitive(s.instance, t.instance, s.instance);
    EqSymmetricTransitive(s.host, t.host, s.host);
    hide Peaceful, Verdict, EqIgnoreCase, HoldsOther, MessageBytes, Reply, ProbeMessage, Service.WellFormedService;
    if Undisturbed(loser, PROBE_COUNT) && Undisturbed(winner, PROBE_COUNT) {
      if ProbeAt(loser, PROBE_COUNT) <= ProbeAt(winner, 0) {
        AnsweredProbe(t, s, loser, winner, 0);
      } else if ProbeAt(winner, PROBE_COUNT) <= ProbeAt(loser, 1) {
        AnsweredProbe(s, t, winner, loser, 1);
      } else {
        var i, n := Overlap(loser, winner);
        ShorterPeace(winner, i);
        WinnerDeniesTheClaim(t, s, loser.air, loser.start, n);
      }
    }
  }

  lemma {:induction false} AnsweredProbe(s: Service, holder: Service, first: Bid, second: Bid, n: nat)
    requires first.service == holder && second.service == s && Defensible(holder) && SameNames(holder, s)
    requires HoldsOther(holder, s) && HearsDefences(second, first) && Undisturbed(first, PROBE_COUNT)
    requires n < PROBE_COUNT && ProbeAt(first, PROBE_COUNT) <= ProbeAt(second, n)
    ensures !Undisturbed(second, PROBE_COUNT)
  {
    hide Peaceful, EqIgnoreCase, HoldsOther, MessageBytes, Reply, ProbeMessage, ConflictIn, Service.WellFormedService,
         OwnNamesApart;
    HeldNameIsDefended(holder, s);
    DefenceDeniesTheClaim(holder, s, second.air, second.start, n);
  }

  /** Bids that overlap by more than the loser's last probe have a probe of one in a window of the other. */
  lemma {:induction false} Overlap(a: Bid, b: Bid) returns (i: nat, n: nat)
    requires ProbeAt(b, 0) < ProbeAt(a, PROBE_COUNT) && ProbeAt(a, 1) < ProbeAt(b, PROBE_COUNT)
    ensures i < PROBE_COUNT && n < PROBE_COUNT && ProbeAt(a, n) <= ProbeAt(b, i) < ProbeAt(a, n + 1)
  {
    i := if ProbeAt(b, 0) >= a.began then 0 else if ProbeAt(b, 1) >= a.began then 1 else 2;
    n := if ProbeAt(b, i) < ProbeAt(a, 1) then 0 else if ProbeAt(b, i) < ProbeAt(a, 2) then 1 else 2;
  }

  lemma {:induction false} ShorterPeace(b: Bid, i: nat)
    requires Undisturbed(b, PROBE_COUNT) && i <= PROBE_COUNT
    ensures Undisturbed(b, i)
  {
    hide ConflictIn;
  }

  lemma {:induction false} DataBytesInjective(d: RecordData, e: RecordData)
    requires WellFormedData(d) && WellFormedData(e) && RType(d) == RType(e) && DataBytes(d) == DataBytes(e)
    ensures d == e
  {
    var m := DataBytes(d);
    hide DataBytes, ReadData;
    assert At(m, 0, m);
    DataReadsBack(m, d);
    DataReadsBack(m, e);
  }

  lemma {:induction false} DataReadsBack(m: seq<byte>, d: RecordData)
    requires WellFormedData(d) && At(m, 0, DataBytes(d))
    ensures ReadData(m, RType(d), 0, |DataBytes(d)|) == Ok(d)
  {
    ReadBackData(m, 0, d);
    if d.DataTxt? {
      ReadableIffCanonical(d.entries);
    }
  }

  lemma {:induction false} KeysAre(rs: seq<Record>, k: Bytes)
    ensures k in Keys(rs) <==> exists r :: r in rs && SortKey(r) == k
  {
    hide SortKey;
    var keys := Keys(rs);
    if i :| 0 <= i < |keys| && keys[i] == k {
      assert rs[i] in rs;
    }
    if r :| r in rs && SortKey(r) == k {
      var i :| 0 <= i < |rs| && rs[i] == r;
      assert keys[i] == k;
    }
  }

  /** Whose name a claimed record stands under is decided by its type. */
  lemma {:induction false} ClaimedShape(s: Service, r: Record)
    requires s.WellFormedService() && r in s.Claimed()
    ensures r.class_ == CLASS_IN && WellFormedData(r.data)
    ensures r.name == if RType(r.data) == SRV || RType(r.data) == TXT then s.instance else s.host
  {
    AnnouncementWellFormed(s);
    ClaimedIsAnnounced(s);
    hide Service.WellFormedService, WellFormed;
    assert s.Claimed() == [s.Srv(), s.TxtRecord()] + s.AddressRecords();
    var i :| 0 <= i < |s.Claimed()| && s.Claimed()[i] == r;
    assert i >= 2 ==> r == s.AddressRecord(s.addresses[i - 2]);
    assert WellFormedRecord(r);
  }

  lemma {:induction false} KeyParts(r: Record, x: Record)
    requires SortKey(r) == SortKey(x) && r.class_ == x.class_
    ensures RType(r.data) == RType(x.data) && DataBytes(r.data) == DataBytes(x.data)
  {
    var a, b := SortKey(r), SortKey(x);
    hide DataBytes, RType;
    assert a[2] == b[2] && a[3] == b[3];
    assert a[4..] == DataBytes(r.data) && b[4..] == DataBytes(x.data);
  }

  lemma {:induction false} SameKeySameAnswer(s: Service, t: Service, r: Record, x: Record)
    requires s.WellFormedService() && t.WellFormedService() && SameNames(s, t)
    requires r in s.Claimed() && x in t.Claimed() && SortKey(r) == SortKey(x)
    ensures IsOurs(t, r)
  {
    ClaimedShape(s, r);
    ClaimedShape(t, x);
    hide SortKey, Service.Claimed, Service.WellFormedService, WellFormedData, DataBytes;
    KeyParts(r, x);
    DataBytesInjective(r.data, x.data);
    EqSymmetricTransitive(s.instance, t.instance, s.instance);
    EqSymmetricTransitive(s.host, t.host, s.host);
    var i :| 0 <= i < |t.Claimed()| && t.Claimed()[i] == x;
    assert SameAnswer(t.Claimed()[i], r);
  }

  /** Claims to the same names whose keys agree say the same. */
  lemma {:induction false} OtherMeansUnequal(s: Service, t: Service)
    requires s.WellFormedService() && t.WellFormedService() && SameNames(s, t) && HoldsOther(s, t)
    ensures Verdict(s.Claimed(), t.Claimed()) != Equal
  {
    if Verdict(s.Claimed(), t.Claimed()) == Equal {
      VerdictIsTotalOrder(s.Claimed(), t.Claimed(), s.Claimed());
      var r :| r in s.Claimed() && !IsOurs(t, r);
      KeysAre(s.Claimed(), SortKey(r));
      KeysAre(t.Claimed(), SortKey(r));
      assert SortKey(r) in multiset(Keys(s.Claimed()));
      var x :| x in t.Claimed() && SortKey(x) == SortKey(r);
      SameKeySameAnswer(s, t, r, x);
    }
  }

  /**
   * Two hosts that probe for the same names, each with a record the other does not propose, never both claim them,
   * whenever each of them begins, if probes and defences arrive when they are sent.
   */
  lemma {:induction false} NotBothClaim(a: Bid, b: Bid)
    requires Defensible(a.service) && Defensible(b.service) && SameNames(a.service, b.service)
    requires HoldsOther(a.service, b.service) && HoldsOther(b.service, a.service)
    requires Hears(a, b) && Hears(b, a)
    ensures !(Undisturbed(a, 3) && Undisturbed(b, 3))
  {
    var s, t := a.service, b.service;
    OtherMeansUnequal(s, t);
    VerdictIsTotalOrder(s.Claimed(), t.Claimed(), s.Claimed());
    EqSymmetricTransitive(s.instance, t.instance, s.instance);
    EqSymmetricTransitive(s.host, t.host, s.host);
    hide Verdict, Undisturbed, Hears, HoldsOther, Defensible, EqIgnoreCase;
    if Verdict(s.Claimed(), t.Claimed()) == Less {
      LoserBeside(a, b);
    } else {
      LoserBeside(b, a);
    }
  }

  const NOTHING: nat -> seq<Payload> := n => []
  const NEVER: nat -> bool := n => false

  /**
   * That each holds something the other does not propose is what it takes: where all the first one claims is proposed
   * by the second as well, the second, probing once the first has claimed, hears its defence and claims the names too.
   */
  lemma {:induction false} BothMayClaim(first: Service, second: Service) returns (a: Bid, b: Bid)
    requires Defensible(first) && Defensible(second) && SameNames(first, second) && !HoldsOther(first, second)
    ensures a.service == first && b.service == second && Hears(a, b) && Hears(b, a)
    ensures Undisturbed(a, 3) && Undisturbed(b, 3)
  {
    HeldNameIsDefended(first, second);
    hide MessageBytes, Reply, ProbeMessage, ConflictIn, EqIgnoreCase, HoldsOther, Service.WellFormedService;
    var defence := MessageBytes(Reply(first, ProbeMessage(second)).value);
    a := Bid(first, Air(NOTHING, NEVER), 0, 0);
    b := Bid(second, Air(n => [defence], NEVER), 0, INTERVAL * PROBE_COUNT);
    forall i, p | 0 <= i < PROBE_COUNT && p in b.air.arrivals(i) ensures ConflictIn(second, p) == None {
      assert p == defence;
    }
  }

  /** Run by two engines: not both end with their configured names. */
  method BothProbe(a: Bid, b: Bid) returns (aClaims: bool, bClaims: bool)
    requires BuiltFromParts(a.service) && BuiltFromParts(b.service) && a.start == 0 && b.start == 0
    requires Defensible(a.service) && Defensible(b.service) && SameNames(a.service, b.service)
    requires HoldsOther(a.service, b.service) && HoldsOther(b.service, a.service)
    requires Hears(a, b) && Hears(b, a)
    ensures !(aClaims && bClaims)
  {
    hide Peaceful, Defensible, SameNames, HoldsOther, Hears, Trace, SentAll, Uncontested, Conflicted, EverStops,
         Uncontradicted;
    NotBothClaim(a, b);
    var one := new Engine(a.service);
    aClaims := one.ProbeUntilClaimed(a.air);
    aClaims := aClaims && one.records == a.service;
    var other := new Engine(b.service);
    bClaims := other.ProbeUntilClaimed(b.air);
    bClaims := bClaims && other.records == b.service;
  }

  // ---------------------------------------------------------------------
  // The same instance behind different hosts
  // ---------------------------------------------------------------------

  lemma {:induction false} SuffixKeepsEqual(a: Label, b: Label, k: nat)
    ensures LabelsEqual(LabelForAttempt(a, k), LabelForAttempt(b, k)) <==> LabelsEqual(a, b)
  {
    hide Decimal;
    var x, y := LabelForAttempt(a, k), LabelForAttempt(b, k);
    if LabelsEqual(x, y) {
      forall i | 0 <= i < |a| ensures Lower(a[i]) == Lower(b[i]) {
        assert x[i] == a[i] && y[i] == b[i];
      }
    }
  }

  /** Two names given the same suffix are equal if and only if they were. */
  lemma {:induction false} RenamedAlike(a: Name, b: Name, k: nat)
    requires a.labels != [] && b.labels != []
    ensures var x := Name([LabelForAttempt(a.labels[0], k)] + a.labels[1..]);
            var y := Name([LabelForAttempt(b.labels[0], k)] + b.labels[1..]);
            EqIgnoreCase(x, y) <==> EqIgnoreCase(a, b)
  {
    SuffixKeepsEqual(a.labels[0], b.labels[0], k);
    hide LabelForAttempt, LabelsEqual;
    var x := Name([LabelForAttempt(a.labels[0], k)] + a.labels[1..]);
    var y := Name([LabelForAttempt(b.labels[0], k)] + b.labels[1..]);
    assert forall i :: 0 < i < |x.labels| ==> x.labels[i] == a.labels[i];
    assert forall i :: 0 < i < |y.labels| ==> y.labels[i] == b.labels[i];
    assert x.labels[0] == LabelForAttempt(a.labels[0], k) && y.labels[0] == LabelForAttempt(b.labels[0], k);
  }

  /** Renamed as often, two hosts share the instance name only, if that is what they shared. */
  lemma {:induction false} AttemptsShareInstance(s: Service, t: Service, k: nat)
    requires BuiltFromParts(s) && BuiltFromParts(t) && SharesOnlyInstance(s, t) && k >= 1
    ensures SharesOnlyInstance(Attempt(s, k), Attempt(t, k))
  {
    AttemptNames(s, k);
    AttemptNames(t, k);
    RenamedAlike(s.instance, t.instance, k);
    RenamedAlike(s.instance, t.host, k);
    RenamedAlike(s.host, t.host, k);
    RenamedAlike(t.instance, s.host, k);
    hide EqIgnoreCase, LabelForAttempt, Attempt;
  }

  /** The longest suffix a probing run can need fits behind both names. */
  predicate RoomToRename(s: Service)
    requires s.instance.labels != [] && s.host.labels != []
  {
    forall k :: 1 <= k <= MAX_RENAMES + 1 ==> SuffixFits(s.instance, k) && SuffixFits(s.host, k)
  }

  lemma {:induction false} AttemptWellFormed(s: Service, k: nat)
    requires BuiltFromParts(s) && s.WellFormedService() && RoomToRename(s) && 1 <= k <= MAX_RENAMES + 1
    ensures Attempt(s, k).WellFormedService() && Attempt(s, k).addresses == s.addresses
  {
    AttemptNames(s, k);
    RenamedFitsIff(s.instance, k);
    RenamedFitsIff(s.host, k);
    hide SuffixFits, WellFormed, LabelForAttempt, CanonicalTxt;
    assert SuffixFits(s.instance, k) && SuffixFits(s.host, k);
  }

  /** A till with an IPv4 address, room to rename, and names built from parts. */
  ghost predicate Till(s: Service) {
    BuiltFromParts(s) && s.WellFormedService() && HasV4(s) && RoomToRename(s)
  }

  /** In every attempt both tills lose to each other's probe. */
  lemma {:induction false} EveryAttemptLoses(s: Service, t: Service, k: nat)
    requires Till(s) && Till(t) && SharesOnlyInstance(s, t) && 1 <= k <= MAX_RENAMES + 1
    ensures ConflictIn(Attempt(s, k), MessageBytes(ProbeMessage(Attempt(t, k)))) != None
  {
    AttemptWellFormed(s, k);
    AttemptWellFormed(t, k);
    hide ConflictIn, MessageBytes, ProbeMessage, Attempt, RoomToRename, Service.WellFormedService;
    AttemptsShareInstance(s, t, k);
    hide SharesOnlyInstance, BuiltFromParts;
    WhoYields(Attempt(s, k), Attempt(t, k));
  }

  /** In every round the other's probe for the attempt of the same number arrives behind one of the probes. */
  ghost predicate InStep(other: Service, air: Air, rounds: seq<Round>)
    requires BuiltFromParts(other)
  {
    forall i :: 0 <= i < |rounds| ==> HeardFrom(Attempt(other, i + 1), air, |SentAll(rounds[..i])|)
  }

  ghost predicate HeardFrom(other: Service, air: Air, start: nat) {
    exists n: nat :: start <= n < start + PROBE_COUNT && MessageBytes(ProbeMessage(other)) in air.arrivals(n)
  }

  lemma {:induction false} HeardAndLost(s: Service, other: Service, air: Air, start: nat)
    requires ConflictIn(s, MessageBytes(ProbeMessage(other))) != None && HeardFrom(other, air, start)
    ensures !Peaceful(air, start, PROBE_COUNT, s)
  {
    hide ConflictIn, MessageBytes, ProbeMessage;
    var n: nat :| start <= n < start + PROBE_COUNT && MessageBytes(ProbeMessage(other)) in air.arrivals(n);
    HeardIsNoPeace(air, start, s, n - start, MessageBytes(ProbeMessage(other)));
  }

  lemma {:induction false} LastRoundSent(rounds: seq<Round>)
    requires rounds != [] && Uncontested(rounds[|rounds| - 1])
    ensures |SentAll(rounds)| == |SentAll(rounds[..|rounds| - 1])| + PROBE_COUNT
  {
    hide AllQuiet, ProbeDatagram;
  }

  lemma {:induction false} LastRoundInStep(other: Service, air: Air, rounds: seq<Round>)
    requires BuiltFromParts(other) && InStep(other, air, rounds) && rounds != []
    ensures HeardFrom(Attempt(other, |rounds|), air, |SentAll(rounds[..|rounds| - 1])|)
  {
    hide HeardFrom, Attempt, SentAll;
  }

  lemma {:induction false} LastRoundHeard(s: Service, t: Service, air: Air, rounds: seq<Round>)
    requires Till(s) && Till(t) && SharesOnlyInstance(s, t) && 1 <= |rounds| <= MAX_RENAMES + 1
    requires InStep(t, air, rounds) && Uncontested(rounds[|rounds| - 1])
    ensures |SentAll(rounds)| >= PROBE_COUNT
    ensures !Peaceful(air, |SentAll(rounds)| - PROBE_COUNT, PROBE_COUNT, Attempt(s, |rounds|))
  {
    hide Peaceful, MessageBytes, ProbeMessage, Attempt, ConflictIn, SentAll, HeardFrom, SharesOnlyInstance, InStep,
         Uncontested, Service.WellFormedService, RoomToRename;
    var k := |rounds| - 1;
    LastRoundSent(rounds);
    LastRoundInStep(t, air, rounds);
    EveryAttemptLoses(s, t, k + 1);
    HeardAndLost(Attempt(s, k + 1), Attempt(t, k + 1), air, |SentAll(rounds[..k])|);
  }

  /**
   * Two tills named alike on different hosts, each with an IPv4 address, never settle while they rename in step:
   * renaming gives both the same next instance name. Neither claims any name; where no stop flag is seen, each gives up
   * after its twenty-first round.
   */
  method NeitherSettles(s: Service, t: Service, sAir: Air, tAir: Air)
    returns (sClaims: bool, tClaims: bool, sRounds: seq<Round>, tRounds: seq<Round>)
    requires Till(s) && Till(t) && SharesOnlyInstance(s, t)
    ensures Trace(s, sAir, sRounds) && Trace(t, tAir, tRounds)
    ensures InStep(t, sAir, sRounds) ==> !sClaims && (!EverStops(sAir) ==> |sRounds| == 21)
    ensures InStep(s, tAir, tRounds) ==> !tClaims && (!EverStops(tAir) ==> |tRounds| == 21)
  {
    sClaims, sRounds := ProbeInStep(s, t, sAir);
    SharingTurnsRound(s, t);
    tClaims, tRounds := ProbeInStep(t, s, tAir);
  }

  method ProbeInStep(s: Service, t: Service, air: Air) returns (claims: bool, rounds: seq<Round>)
    requires Till(s) && Till(t) && SharesOnlyInstance(s, t)
    ensures Trace(s, air, rounds)
    ensures InStep(t, air, rounds) ==> !claims && (!EverStops(air) ==> |rounds| == 21)
  {
    hide Peaceful, Trace, SentAll, Uncontested, Conflicted, EverStops, Uncontradicted, InStep, SharesOnlyInstance,
         RoomToRename, Attempt;
    var engine := new Engine(s);
    claims := engine.ProbeUntilClaimed(air);
    rounds := engine.rounds;
    assert engine.sent == SentAll(rounds) by { Sequences.Empty(SentAll(rounds)); }
    if claims && InStep(t, air, rounds) {
      LastRoundHeard(s, t, air, rounds);
      assert false;
    }
  }
}
