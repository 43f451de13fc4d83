/** The responder's engine: probing until a name is claimed, renaming on conflict, and handling what arrives after. */
module ResponderEngines {
  import opened Wire
  import opened Names
  import opened Records
  import opened Messages
  import opened Services
  import opened Renaming
  import opened Responders
  import TieBreaking

  const PROBE_COUNT := 3
  const MAX_RENAMES := 20

  /** One probe and what was read in the quarter second after it. */
  type Window = seq<Payload>

  /** The probes sent under one pair of names. */
  datatype Round = Round(service: Service, windows: seq<Window>)

  /**
   * The world outside: the datagrams that arrive after the n-th probe, and what the stop flag says the n-th time
   * it is looked at.
   */
  datatype Air = Air(arrivals: nat -> seq<Payload>, stops: nat -> bool)

  predicate Quiet(s: Service, w: Window) {
    forall i :: 0 <= i < |w| ==> ConflictIn(s, w[i]) == None
  }

  /** Reading stopped at a datagram that is a conflict, the first one. */
  predicate Broken(s: Service, w: Window) {
    w != [] && ConflictIn(s, w[|w| - 1]) != None && Quiet(s, w[..|w| - 1])
  }

  predicate AllQuiet(r: Round) {
    forall i :: 0 <= i < |r.windows| ==> Quiet(r.service, r.windows[i])
  }

  /** Probes ran until a conflict broke the last window. */
  predicate Conflicted(r: Round) {
    && 1 <= |r.windows| <= PROBE_COUNT
    && (forall i :: 0 <= i < |r.windows| - 1 ==> Quiet(r.service, r.windows[i]))
    && Broken(r.service, r.windows[|r.windows| - 1])
  }

  /** Three probes in a row for the same names, nothing heard against them. */
  predicate Uncontested(r: Round) {
    |r.windows| == PROBE_COUNT && AllQuiet(r)
  }

  datatype Destination = Group | Sender

  datatype Datagram = Datagram(payload: Payload, to: Destination)

  function ProbeDatagram(s: Service): Datagram {
    Datagram(MessageBytes(ProbeMessage(s)), Group)
  }

  function AnnouncementDatagram(s: Service): Datagram {
    Datagram(MessageBytes(Response(s.Announcement())), Group)
  }

  /** What is sent in a round: its probe, once per window. */
  function Sent(r: Round): seq<Datagram> {
    seq(|r.windows|, _ => ProbeDatagram(r.service))
  }

  function SentAll(rounds: seq<Round>): seq<Datagram> {
    if rounds == [] then [] else SentAll(rounds[..|rounds| - 1]) + Sent(rounds[|rounds| - 1])
  }

  lemma {:induction false} SentBound(rounds: seq<Round>)
    requires forall i :: 0 <= i < |rounds| ==> |rounds[i].windows| <= PROBE_COUNT
    ensures |SentAll(rounds)| <= PROBE_COUNT * |rounds|
  {
    if rounds != [] {
      SentBound(rounds[..|rounds| - 1]);
    }
  }

  lemma {:induction false} SentGrows(before: seq<Round>, r: Round)
    ensures SentAll(before + [r]) == SentAll(before) + Sent(r)
  {
    hide Sent;
    assert (before + [r])[..|before|] == before;
  }

  ghost predicate FromAir(air: Air, p: Payload) {
    exists n: nat :: p in air.arrivals(n)
  }

  ghost predicate Overheard(air: Air, r: Round) {
    forall i, p :: 0 <= i < |r.windows| && p in r.windows[i] ==> FromAir(air, p)
  }

  /** The quarter seconds behind the `count` probes from the `start`-th on brought nothing against these names. */
  ghost predicate Peaceful(air: Air, start: nat, count: nat, s: Service) {
    forall i, p :: start <= i < start + count && p in air.arrivals(i) ==> ConflictIn(s, p) == None
  }

  /** Round `i` used the names of attempt `first + i`, and every round before the last ended in a conflict. */
  ghost predicate Trace(original: Service, air: Air, rounds: seq<Round>)
    requires BuiltFromParts(original)
  {
    && (forall i :: 0 <= i < |rounds| ==> rounds[i].service == Attempt(original, i + 1))
    && (forall i :: 0 <= i < |rounds| ==> |rounds[i].windows| <= PROBE_COUNT && Overheard(air, rounds[i]))
    && (forall i :: 0 <= i < |rounds| - 1 ==> Conflicted(rounds[i]))
  }

  /** The datagrams a query draws: back to the sender when asked, to the group otherwise and for every probe. */
  function Deliveries(s: Service, m: Message): seq<Datagram> {
    match Reply(s, m)
    case None => []
    case Some(reply) =>
      var unicast := Collect(s, m.questions, m.answers, Draft([], [], false)).unicast;
      (if unicast then [Datagram(MessageBytes(reply), Sender)] else [])
      + (if !unicast || m.authority != [] then [Datagram(MessageBytes(reply), Group)] else [])
  }

  ghost predicate EverStops(air: Air) {
    exists n: nat :: air.stops(n)
  }

  /** Nothing that arrives speaks against the configured names. */
  ghost predicate Uncontradicted(s: Service, air: Air) {
    forall n: nat, p :: p in air.arrivals(n) ==> ConflictIn(s, p) == None
  }

  lemma {:induction false} ConflictWasHeard(air: Air, r: Round)
    requires Conflicted(r) && Overheard(air, r)
    ensures !Uncontradicted(r.service, air)
  {
    hide ConflictIn;
    var last := |r.windows| - 1;
    var w := r.windows[last];
    assert w[|w| - 1] in w && FromAir(air, w[|w| - 1]);
  }

  /** Where nothing speaks against the configured names, no round can end in a conflict. */
  lemma {:induction false} UncontradictedNeverConflicts(original: Service, air: Air, rounds: seq<Round>)
    requires BuiltFromParts(original) && Trace(original, air, rounds) && rounds != []
    requires Uncontradicted(original, air)
    ensures |rounds| == 1 && !Conflicted(rounds[0])
  {
    hide Conflicted, Overheard, Uncontradicted;
    assert rounds[0].service == original;
    if Conflicted(rounds[0]) {
      ConflictWasHeard(air, rounds[0]);
    }
  }

  ghost predicate AllConflicted(rounds: seq<Round>) {
    forall i :: 0 <= i < |rounds| ==> Conflicted(rounds[i])
  }

  lemma {:induction false} TraceGrows(original: Service, air: Air, before: seq<Round>, r: Round)
    requires BuiltFromParts(original) && Trace(original, air, before) && AllConflicted(before)
    requires r.service == Attempt(original, |before| + 1) && |r.windows| <= PROBE_COUNT && Overheard(air, r)
    ensures Trace(original, air, before + [r])
    ensures SentAll(before + [r]) == SentAll(before) + Sent(r)
    ensures |SentAll(before + [r])| <= PROBE_COUNT * (|before| + 1)
    ensures Conflicted(r) ==> AllConflicted(before + [r])
  {
    hide Attempt, Conflicted, Overheard, Sent, SentAll;
    var rounds := before + [r];
    assert forall i :: 0 <= i < |rounds| ==> rounds[i] == if i < |before| then before[i] else r;
    SentGrows(before, r);
    SentBound(rounds);
  }

  lemma {:induction false} EmptyRound(air: Air, start: nat, s: Service)
    ensures var r := Round(s, []); AllQuiet(r) && Overheard(air, r) && Peaceful(air, start, 0, s) && Sent(r) == []
  {
  }

  lemma {:induction false} AllFromAir(air: Air, n: nat, heard: Window)
    requires heard <= air.arrivals(n)
    ensures forall p :: p in heard ==> FromAir(air, p)
  {
    assert forall p :: p in heard ==> p in air.arrivals(n);
  }

  /** One more window, heard from the air: quiet, or broken off by a conflict. */
  lemma {:induction false} RoundGrows(air: Air, s: Service, windows: seq<Window>, heard: Window)
    requires |windows| < PROBE_COUNT && AllQuiet(Round(s, windows)) && Overheard(air, Round(s, windows))
    requires forall p :: p in heard ==> FromAir(air, p)
    ensures var r := Round(s, windows + [heard]);
            && Overheard(air, r) && Sent(r) == Sent(Round(s, windows)) + [ProbeDatagram(s)]
            && (Quiet(s, heard) ==> AllQuiet(r)) && (Broken(s, heard) ==> Conflicted(r))
  {
    hide ConflictIn, Quiet, Broken, FromAir, ProbeDatagram;
  }

  lemma {:induction false} PeaceGrows(air: Air, start: nat, count: nat, s: Service, heard: Window)
    requires Peaceful(air, start, count, s) && heard == air.arrivals(start + count) && Quiet(s, heard)
    ensures Peaceful(air, start, count + 1, s)
  {
    hide ConflictIn;
  }

  /** A claimed round sent three probes, and under the configured names only if it was the first. */
  lemma {:induction false} ClaimFacts(original: Service, air: Air, before: seq<Round>, r: Round, k: nat)
    requires BuiltFromParts(original) && Uncontested(r) && |before| == k && r.service == Attempt(original, k + 1)
    ensures |Sent(r)| == PROBE_COUNT && SentAll(before + [r]) == SentAll(before) + Sent(r)
    ensures k > 0 ==> r.service != original
    ensures SentAll([]) == []
  {
    hide Attempt, ConflictIn, Quiet;
    SentGrows(before, r);
    if k > 0 {
      AttemptsNeverShareNames(original, 1, k + 1);
      FirstAttempt(original);
      EqReflexive(original.instance);
    }
  }

  /** What went out last before a claim: three times the same probe. */
  lemma {:induction false} LastThree(start: seq<Datagram>, before: seq<Round>, r: Round, sent: seq<Datagram>)
    requires Uncontested(r) && sent == start + SentAll(before + [r])
    ensures |sent| >= |start| + 3 && forall i :: |sent| - 3 <= i < |sent| ==> sent[i] == ProbeDatagram(r.service)
  {
    hide ProbeDatagram, AllQuiet, SentAll;
    SentGrows(before, r);
    var three := Sent(r);
    assert sent == (start + SentAll(before)) + three;
  }

  /** Three windows without a word against the names. */
  lemma {:induction false} PeaceMeans(air: Air, start: nat, s: Service)
    requires Peaceful(air, start, PROBE_COUNT, s)
    ensures forall i, p :: start <= i < start + 3 && p in air.arrivals(i) ==> ConflictIn(s, p) == None
  {
    hide ConflictIn;
  }

  /** What arrives in the windows of a claim, if it speaks against the names, keeps them from being claimed. */
  lemma {:induction false} HeardIsNoPeace(air: Air, start: nat, s: Service, n: nat, p: Payload)
    requires n < PROBE_COUNT && p in air.arrivals(start + n) && ConflictIn(s, p) != None
    ensures !Peaceful(air, start, PROBE_COUNT, s)
  {
    hide ConflictIn;
  }

  datatype Outcome = Stopped | Claimed | Contested(conflict: Conflict)

  class Engine {
    /** The records as configured; every attempt is built from these labels. */
    const original: Service
    var records: Service
    var attempt: nat
    /** What went out, in order, and what the probing rounds heard. */
    var sent: seq<Datagram>
    var rounds: seq<Round>

    ghost predicate Valid()
      reads this
    {
      BuiltFromParts(original) && attempt >= 1 && records == Attempt(original, attempt)
    }

    /** The constructor's caller has split the names: the instance is a label in front of the service type. */
    constructor (service: Service)
      requires BuiltFromParts(service)
      ensures Valid() && original == service == records && attempt == 1 && sent == [] && rounds == []
    {
      original := service;
      records := service;
      attempt := 1;
      sent := [];
      rounds := [];
    }

    /** One more attempt: `records` becomes `Attempt(original, attempt)`, and the result is the instance it had. */
    method Rename() returns (leftBehind: Name)
      requires Valid()
      modifies this`records, this`attempt
      ensures Valid() && attempt == old(attempt) + 1
      ensures leftBehind == old(records).instance
    {
      leftBehind := records.instance;
      attempt := attempt + 1;
      RenamingAgain(original, attempt - 1, attempt);
      var instance := LabelForAttempt(original.instance.labels[0], attempt);
      var host := LabelForAttempt(original.host.labels[0], attempt);
      records := records.Renamed(instance, host);
    }

    method SendProbe()
      modifies this`sent
      ensures sent == old(sent) + [ProbeDatagram(records)]
    {
      var probe := ProbeMessage(records);
      var payload := Encode(probe);
      sent := sent + [Datagram(payload, Group)];
    }

    /** Reads what arrives in one window, stopping at the first conflict. */
    method Listen(arrivals: seq<Payload>) returns (heard: Window, conflict: Option<Conflict>)
      ensures heard <= arrivals
      ensures conflict == None ==> heard == arrivals && Quiet(records, heard)
      ensures conflict.Some? ==> Broken(records, heard)
    {
      hide ConflictIn;
      conflict := None;
      var n := 0;
      while n < |arrivals| && conflict == None
        invariant n <= |arrivals|
        invariant conflict == None ==> Quiet(records, arrivals[..n])
        invariant conflict.Some? ==> Broken(records, arrivals[..n])
        decreases |arrivals| - n
      {
        conflict := DetectConflict(records, arrivals[n]);
        n := n + 1;
        assert arrivals[..n][..n - 1] == arrivals[..n - 1];
      }
      heard := arrivals[..n];
    }

    /** Up to three probes under the current names, broken off by a stop or a conflict. */
    method ProbeRound(air: Air, checks: nat) returns (outcome: Outcome, checked: nat)
      modifies this`sent, this`rounds
      ensures |rounds| == |old(rounds)| + 1 && rounds[..|old(rounds)|] == old(rounds)
      ensures var r := rounds[|old(rounds)|];
              && r.service == records && sent == old(sent) + Sent(r)
              && |r.windows| <= 3 && Overheard(air, r)
              && (outcome == Claimed ==> |r.windows| == 3 && Uncontested(r))
              && (outcome.Contested? ==> Conflicted(r))
              && (outcome == Stopped ==> AllQuiet(r) && EverStops(air))
              && (outcome == Claimed ==> Peaceful(air, |old(sent)|, PROBE_COUNT, records))
    {
      checked := checks;
      var windows: seq<Window> := [];
      outcome := Claimed;
      hide ConflictIn, Quiet, Broken, AllQuiet, Conflicted, Overheard, FromAir, Peaceful, ProbeDatagram;
      EmptyRound(air, |sent|, records);
      while |windows| < PROBE_COUNT
        invariant |windows| <= PROBE_COUNT
        invariant rounds == old(rounds)
        invariant |sent| == |old(sent)| + |windows|
        invariant sent == old(sent) + Sent(Round(records, windows))
        invariant AllQuiet(Round(records, windows)) && Overheard(air, Round(records, windows))
        invariant Peaceful(air, |old(sent)|, |windows|, records)
      {
        if air.stops(checked) {
          outcome := Stopped;
          break;
        }
        checked := checked + 1;
        SendProbe();
        var heard, conflict := Listen(air.arrivals(|sent| - 1));
        AllFromAir(air, |sent| - 1, heard);
        RoundGrows(air, records, windows, heard);
        if conflict == None {
          PeaceGrows(air, |old(sent)|, |windows|, records, heard);
        }
        windows := windows + [heard];
        if conflict.Some? {
          outcome := Contested(conflict.value);
          break;
        }
      }
      rounds := rounds + [Round(records, windows)];
    }

    /**
     * Rounds of probes under one attempt's names after another. True means three quiet windows in a row for the names
     * it ends with; false means the stop flag was seen, or twenty renames were not enough. At most 63 probes are
     * sent, and when nothing speaks against the configured names they are the ones claimed.
     */
    method ProbeUntilClaimed(air: Air) returns (claimed: bool)
      requires Valid() && attempt == 1 && rounds == []
      modifies this
      ensures Valid() && Trace(original, air, rounds) && attempt <= 21
      ensures sent == old(sent) + SentAll(rounds) && |sent| <= |old(sent)| + 63
      ensures claimed ==> rounds != [] && attempt == |rounds|
                          && rounds[|rounds| - 1].service == records && Uncontested(rounds[|rounds| - 1])
      ensures !claimed ==> EverStops(air) || (|rounds| == 21 && attempt == 21 && Conflicted(rounds[20]))
      ensures !EverStops(air) && Uncontradicted(original, air) ==> claimed && records == original && |rounds| == 1
      ensures claimed ==> |sent| >= |old(sent)| + 3 && Peaceful(air, |sent| - PROBE_COUNT, PROBE_COUNT, records)
      ensures claimed ==> forall i :: |sent| - 3 <= i < |sent| ==> sent[i] == ProbeDatagram(records)
      ensures claimed ==>
                forall i, p :: |sent| - 3 <= i < |sent| && p in air.arrivals(i) ==> ConflictIn(records, p) == None
      ensures claimed && records == original ==> |rounds| == 1 && Peaceful(air, |old(sent)|, PROBE_COUNT, original)
      ensures forall i, p ::
                |old(sent)| <= i < |old(sent)| + 3 && p in air.arrivals(i) && ConflictIn(original, p) != None ==>
                  !(claimed && records == original)
    {
      hide ConflictIn, Quiet, Broken, Sent, SentAll, Overheard, Attempt, Trace, Conflicted, AllConflicted, Peaceful,
           ProbeDatagram, Uncontested, Uncontradicted, AllQuiet;
      var renames := 0;
      var checks: nat := 0;
      NoRoundsYet(original, air);
      while true
        invariant Valid() && renames <= MAX_RENAMES && attempt == renames + 1 && |rounds| == renames
        invariant Trace(original, air, rounds) && AllConflicted(rounds)
        invariant sent == old(sent) + SentAll(rounds) && |SentAll(rounds)| <= PROBE_COUNT * |rounds|
        decreases MAX_RENAMES - renames
      {
        if air.stops(checks) {
          return false;
        }
        checks := checks + 1;
        var outcome: Outcome;
        ghost var before := rounds;
        outcome, checks := ProbeRound(air, checks);
        assert rounds == before + [rounds[renames]];
        TraceGrows(original, air, before, rounds[renames]);
        if outcome == Stopped {
          return false;
        }
        FirstAttempt(original);
        if Uncontradicted(original, air) {
          UncontradictedNeverConflicts(original, air, rounds);
        }
        if outcome == Claimed {
          ClaimFacts(original, air, before, rounds[renames], renames);
          LastThree(old(sent), before, rounds[renames], sent);
          PeaceMeans(air, |sent| - 3, records);
          if records == original {
            PeaceMeans(air, |old(sent)|, original);
          }
          return true;
        }
        renames := renames + 1;
        if renames > MAX_RENAMES {
          return false;
        }
        var from := Rename();
      }
    }

    /** A datagram after the names are claimed: a conflict renames and re-announces, a query is answered. */
    method Handle(payload: Payload)
      requires Valid()
      modifies this`records, this`attempt, this`sent
      ensures Valid()
      ensures match ReadMessage(payload)
              case Err(_) => records == old(records) && attempt == old(attempt) && sent == old(sent)
              case Ok(m) =>
                if IsResponse(m) && IsAuthoritative(m) && ConflictIn(old(records), payload) != None then
                  attempt == old(attempt) + 1 && sent == old(sent) + [AnnouncementDatagram(records)]
                else
                  && records == old(records) && attempt == old(attempt)
                  && sent == old(sent) + if IsResponse(m) then [] else Deliveries(records, m)
    {
      hide ConflictIn, ReadMessage, Collect, Deliveries, MessageBytes, AnnouncementDatagram, IsResponse,
           IsAuthoritative, Attempt;
      var decoded := Decode(payload);
      if decoded.Err? {
        return;
      }
      var message := decoded.value;
      if IsResponse(message) {
        if IsAuthoritative(message) {
          var conflict := DetectConflict(records, payload);
          if conflict.Some? {
            var from := Rename();
            Announce();
          }
        }
        return;
      }
      if message.questions == [] {
        NothingAsked(records, message);
        return;
      }
      var d := CollectAnswers(records, message.questions, message.answers);
      DeliveriesAre(records, message);
      if d.answers == [] {
        return;
      }
      var isProbe := message.authority != [];
      var response := Response(d.answers).(additional := d.additional);
      if d.unicast {
        response := response.(id := message.id);
      }
      var bytes := Encode(response);
      if d.unicast {
        sent := sent + [Datagram(bytes, Sender)];
      }
      if !d.unicast || isProbe {
        sent := sent + [Datagram(bytes, Group)];
      }
    }

    method Announce()
      modifies this`sent
      ensures sent == old(sent) + [AnnouncementDatagram(records)]
    {
      var payload := Encode(Response(records.Announcement()));
      sent := sent + [Datagram(payload, Group)];
    }
  }

  lemma {:induction false} NoRoundsYet(original: Service, air: Air)
    requires BuiltFromParts(original)
    ensures Trace(original, air, []) && AllConflicted([]) && SentAll([]) == []
  {
  }

  lemma {:induction false} FirstAttempt(original: Service)
    requires BuiltFromParts(original)
    ensures Attempt(original, 1) == original
  {
  }

  lemma {:induction false} DeliveriesAre(s: Service, m: Message)
    ensures var d := Collect(s, m.questions, m.answers, Draft([], [], false));
            var reply := Response(d.answers).(additional := d.additional, id := if d.unicast then m.id else 0);
            Deliveries(s, m) == if d.answers == [] then []
                                else (if d.unicast then [Datagram(MessageBytes(reply), Sender)] else [])
                                     + if !d.unicast || m.authority != [] then [Datagram(MessageBytes(reply), Group)]
                                       else []
  {
    hide Collect, MessageBytes;
  }

  /**
   * Where a reply goes (RFC 6762 sections 5.4 and 8.2): to the sender when a question that is answered asked for that,
   * to the group when none did or when the query is a probe; the sender's identifier comes back only in the first case.
   */
  lemma {:induction false} DeliveredWhere(s: Service, m: Message)
    ensures var ds := Deliveries(s, m);
            var some, asked := HasAnswer(s, m.questions, m.answers, false), HasAnswer(s, m.questions, m.answers, true);
            && (ds != [] <==> some)
            && ((exists d :: d in ds && d.to == Sender) <==> asked)
            && ((exists d :: d in ds && d.to == Group) <==> some && (!asked || m.authority != []))
            && forall d :: d in ds ==>
                 && Reply(s, m).Some? && d.payload == MessageBytes(Reply(s, m).value)
                 && Reply(s, m).value.id == (if asked then m.id else 0) && Reply(s, m).value.flags == 33792
                 && Reply(s, m).value.questions == [] && Reply(s, m).value.authority == []
  {
    CollectedIff(s, m.questions, m.answers, Draft([], [], false));
    UnicastIsAnswered(s, m.questions, m.answers);
    hide Collect, MessageBytes, HasAnswer;
    if HasAnswer(s, m.questions, m.answers, false) {
      var bytes := MessageBytes(Reply(s, m).value);
      var unicast := HasAnswer(s, m.questions, m.answers, true);
      assert Deliveries(s, m) == if !unicast then [Datagram(bytes, Group)]
                                 else if m.authority == [] then [Datagram(bytes, Sender)]
                                 else [Datagram(bytes, Sender), Datagram(bytes, Group)];
      assert Datagram(bytes, if unicast then Sender else Group) in Deliveries(s, m);
      assert unicast && m.authority != [] ==> Datagram(bytes, Group) in Deliveries(s, m);
    }
  }

  lemma {:induction false} UnicastIsAnswered(s: Service, qs: seq<Question>, known: seq<Record>)
    ensures HasAnswer(s, qs, known, true) ==> HasAnswer(s, qs, known, false)
  {
    hide AnswerTo;
  }

  lemma {:induction false} NothingAsked(s: Service, m: Message)
    requires m.questions == []
    ensures Deliveries(s, m) == []
  {
  }

  /** The defence of a name goes to the whole group, not only to the address the probe came from. */
  lemma {:induction false} DefenceReachesTheGroup(s: Service, t: Service)
    requires s.WellFormedService() && OwnNamesApart(s) && s.hostTtl > 0 && s.serviceTtl > 0
    requires EqIgnoreCase(s.instance, t.instance) && EqIgnoreCase(s.host, t.host) && HoldsOther(s, t)
    ensures exists d :: d in Deliveries(s, ProbeMessage(t)) && d.to == Group && ConflictIn(t, d.payload) != None
  {
    HeldNameIsDefended(s, t);
    hide ConflictIn, Reply, MessageBytes, Collect;
    var d := Datagram(MessageBytes(Reply(s, ProbeMessage(t)).value), Group);
    assert d in Deliveries(s, ProbeMessage(t));
  }

  /**
   * A held name is not claimed: while a holder of both names with a record the prober does not propose answers one of
   * its three probes, and the answer arrives in its window, the probing does not end in a claim of those names.
   */
  lemma {:induction false} DefenceDeniesTheClaim(holder: Service, s: Service, air: Air, start: nat, n: nat)
    requires holder.WellFormedService() && OwnNamesApart(holder) && holder.hostTtl > 0 && holder.serviceTtl > 0
    requires EqIgnoreCase(holder.instance, s.instance) && EqIgnoreCase(holder.host, s.host) && HoldsOther(holder, s)
    requires n < PROBE_COUNT && Reply(holder, ProbeMessage(s)).Some?
    requires MessageBytes(Reply(holder, ProbeMessage(s)).value) in air.arrivals(start + n)
    ensures !Peaceful(air, start, PROBE_COUNT, s)
  {
    HeldNameIsDefended(holder, s);
    hide ConflictIn, Reply, MessageBytes, Peaceful;
    HeardIsNoPeace(air, start, s, n, MessageBytes(Reply(holder, ProbeMessage(s)).value));
  }

  /** Nor do two probers both claim: the one that hears the winner's probe in a window of its own does not. */
  lemma {:induction false} WinnerDeniesTheClaim(winner: Service, s: Service, air: Air, start: nat, n: nat)
    requires winner.WellFormedService()
    requires EqIgnoreCase(s.instance, winner.instance) && EqIgnoreCase(s.host, winner.host)
    requires TieBreaking.Verdict(s.Claimed(), winner.Claimed()) == TieBreaking.Less
    requires n < PROBE_COUNT && MessageBytes(ProbeMessage(winner)) in air.arrivals(start + n)
    ensures !Peaceful(air, start, PROBE_COUNT, s)
  {
    ProbeVerdict(s, winner);
    hide ConflictIn, MessageBytes, Peaceful;
    HeardIsNoPeace(air, start, s, n, MessageBytes(ProbeMessage(winner)));
  }
}
