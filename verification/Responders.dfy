/** The responder's protocol steps: probing, conflict detection, answering, renaming. */
module Responders {
  import opened Wire
  import opened Names
  import opened Records
  import opened Messages
  import opened Services
  import opened TieBreaking

  type Payload = seq<byte>

  datatype Conflict = HeldByAnother(name: Name, rtype: u16) | LostTieBreak(instance: Name)

  // ---------------------------------------------------------------------
  // Conflict detection
  // ---------------------------------------------------------------------

  predicate IsOurs(s: Service, r: Record) {
    exists i :: 0 <= i < |s.Claimed()| && SameAnswer(s.Claimed()[i], r)
  }

  /** Not a goodbye, owned by a name of `s`, and no claimed record gives the same answer. */
  predicate Foreign(s: Service, r: Record) {
    r.ttl != 0 && s.Owns(r.name) && !IsOurs(s, r)
  }

  function FirstForeign(s: Service, rs: seq<Record>): Option<Conflict> {
    if rs == [] then None
    else if Foreign(s, rs[0]) then Some(HeldByAnother(rs[0].name, RType(rs[0].data)))
    else FirstForeign(s, rs[1..])
  }

  function UnderOurNames(s: Service, rs: seq<Record>): seq<Record> {
    if rs == [] then []
    else (if s.Owns(rs[0].name) then [rs[0]] else []) + UnderOurNames(s, rs[1..])
  }

  predicate AsksForOurs(s: Service, qs: seq<Question>) {
    exists i :: 0 <= i < |qs| && s.Owns(qs[i].name)
  }

  function ConflictWith(s: Service, m: Message): Option<Conflict> {
    if IsResponse(m) then FirstForeign(s, m.answers + m.additional)
    else if m.authority != [] && AsksForOurs(s, m.questions) then
      var theirs := UnderOurNames(s, m.authority);
      if theirs != [] && Verdict(s.Claimed(), theirs) == Less then Some(LostTieBreak(s.instance)) else None
    else None
  }

  /** `ConflictWith` on a datagram; one that cannot be read is no conflict. */
  function ConflictIn(s: Service, payload: Payload): Option<Conflict> {
    match ReadMessage(payload)
    case Err(_) => None
    case Ok(m) => ConflictWith(s, m)
  }

  method FindForeign(s: Service, records: seq<Record>) returns (c: Option<Conflict>)
    ensures c == FirstForeign(s, records)
  {
    hide Foreign;
    for i := 0 to |records|
      invariant FirstForeign(s, records[i..]) == FirstForeign(s, records)
    {
      assert records[i..][1..] == records[i + 1..];
      var record := records[i];
      if Foreign(s, record) {
        return Some(HeldByAnother(record.name, RType(record.data)));
      }
    }
    assert records[|records|..] == [];
    return None;
  }

  method FilterOurs(s: Service, records: seq<Record>) returns (theirs: seq<Record>)
    ensures theirs == UnderOurNames(s, records)
  {
    theirs := [];
    for i := 0 to |records|
      invariant theirs + UnderOurNames(s, records[i..]) == UnderOurNames(s, records)
    {
      assert records[i..][1..] == records[i + 1..];
      if s.Owns(records[i].name) {
        theirs := theirs + [records[i]];
      }
    }
    assert records[|records|..] == [];
  }

  method DetectConflict(s: Service, payload: Payload) returns (c: Option<Conflict>)
    ensures c == ConflictIn(s, payload)
  {
    var decoded := Decode(payload);
    if decoded.Err? {
      return None;
    }
    var message := decoded.value;
    if IsResponse(message) {
      c := FindForeign(s, message.answers + message.additional);
      return;
    }
    if message.authority != [] && AsksForOurs(s, message.questions) {
      var theirs := FilterOurs(s, message.authority);
      if theirs == [] {
        return None;
      }
      var verdict := TieBreak(s.Claimed(), theirs);
      if verdict == Less {
        return Some(LostTieBreak(s.instance));
      }
    }
    return None;
  }

  lemma {:induction false} FirstForeignFinds(s: Service, rs: seq<Record>)
    ensures FirstForeign(s, rs) == None <==> forall r :: r in rs ==> !Foreign(s, r)
  {
    hide Foreign;
    if rs != [] {
      FirstForeignFinds(s, rs[1..]);
      assert rs == [rs[0]] + rs[1..];
    }
  }

  // ---------------------------------------------------------------------
  // What the responder sends
  // ---------------------------------------------------------------------

  function ProbeQuestion(name: Name): Question {
    Question(name, ANY, CLASS_IN, true)
  }

  /** The owned names asked for, with the claimed records in the authority section. */
  function ProbeMessage(s: Service): Message {
    Query([ProbeQuestion(s.instance), ProbeQuestion(s.host)], []).(authority := s.Claimed())
  }

  /** Adds the records that say something new. */
  function Merge(held: seq<Record>, more: seq<Record>): seq<Record>
    decreases |more|
  {
    if more == [] then held
    else Merge(if Says(held, more[0]) then held else held + [more[0]], more[1..])
  }

  predicate Says(held: seq<Record>, r: Record) {
    exists i :: 0 <= i < |held| && SameAnswer(held[i], r)
  }

  datatype Draft = Draft(answers: seq<Record>, additional: seq<Record>, unicast: bool)

  /** What is collected for the questions of one query. */
  function Collect(s: Service, qs: seq<Question>, known: seq<Record>, d: Draft): Draft
    decreases |qs|
  {
    if qs == [] then d
    else
      var a := AnswerTo(s, qs[0], known);
      Collect(s, qs[1..], known,
              if a.answers == [] then d
              else Draft(Merge(d.answers, a.answers), Merge(d.additional, a.additional),
                         d.unicast || qs[0].unicastResponse))
  }

  /** The reply to a query, or nothing when no question is about us. */
  function Reply(s: Service, m: Message): Option<Message> {
    var d := Collect(s, m.questions, m.answers, Draft([], [], false));
    if d.answers == [] then None
    else Some(Response(d.answers).(additional := d.additional, id := if d.unicast then m.id else 0))
  }

  method MergeInto(held: seq<Record>, more: seq<Record>) returns (all: seq<Record>)
    ensures all == Merge(held, more)
  {
    hide Says;
    all := held;
    for i := 0 to |more|
      invariant Merge(all, more[i..]) == Merge(held, more)
    {
      assert more[i..][1..] == more[i + 1..];
      if !Says(all, more[i]) {
        all := all + [more[i]];
      }
    }
    assert more[|more|..] == [];
  }

  method CollectAnswers(s: Service, questions: seq<Question>, known: seq<Record>) returns (d: Draft)
    ensures d == Collect(s, questions, known, Draft([], [], false))
  {
    hide Merge, AnswerTo;
    d := Draft([], [], false);
    for i := 0 to |questions|
      invariant Collect(s, questions[i..], known, d) == Collect(s, questions, known, Draft([], [], false))
    {
      assert questions[i..][1..] == questions[i + 1..];
      var answer := AnswerQuestion(s, questions[i], known);
      if answer.answers != [] {
        var answers := MergeInto(d.answers, answer.answers);
        var additional := MergeInto(d.additional, answer.additional);
        d := Draft(answers, additional, d.unicast || questions[i].unicastResponse);
      }
    }
    assert questions[|questions|..] == [];
  }

  /** Something is collected exactly when a question is answered, and unicast when one of those asked for it. */
  lemma {:induction false} CollectedIff(s: Service, qs: seq<Question>, known: seq<Record>, d: Draft)
    ensures var c := Collect(s, qs, known, d);
            && (c.answers != [] <==> d.answers != [] || HasAnswer(s, qs, known, false))
            && (c.unicast <==> d.unicast || HasAnswer(s, qs, known, true))
    decreases |qs|
  {
    hide AnswerTo;
    if qs != [] {
      var a, rest := AnswerTo(s, qs[0], known), qs[1..];
      assert qs == [qs[0]] + rest;
      MergeGrows(d.answers, a.answers);
      hide Merge;
      CollectedIff(s, rest, known,
                   if a.answers == [] then d
                   else Draft(Merge(d.answers, a.answers), Merge(d.additional, a.additional),
                              d.unicast || qs[0].unicastResponse));
    }
  }

  /** Some question, or some question that asks for a unicast response, has an answer not yet known. */
  ghost predicate HasAnswer(s: Service, qs: seq<Question>, known: seq<Record>, unicast: bool) {
    exists q :: q in qs && (unicast ==> q.unicastResponse) && AnswerTo(s, q, known).answers != []
  }

  lemma {:induction false} MergeGrows(held: seq<Record>, more: seq<Record>)
    ensures Merge(held, more) != [] <==> held != [] || more != []
    decreases |more|
  {
    hide Says;
    if more != [] {
      assert held == [] ==> !Says(held, more[0]) by { SaysNothing(more[0]); }
      MergeGrows(if Says(held, more[0]) then held else held + [more[0]], more[1..]);
    }
  }

  lemma {:induction false} SaysNothing(r: Record)
    ensures !Says([], r)
  {
  }

  // ---------------------------------------------------------------------
  // No datagram of our own is a conflict
  // ---------------------------------------------------------------------

  /** The owned names head only claimed records. */
  predicate OwnNamesApart(s: Service) {
    !s.Owns(ENUMERATION) && !s.Owns(s.serviceType)
  }

  lemma {:induction false} SelfSame(r: Record)
    ensures SameAnswer(r, r)
  {
  }

  lemma {:induction false} OwnIsNotForeign(s: Service, r: Record)
    requires OwnNamesApart(s) && r in s.Announcement()
    ensures !Foreign(s, r)
  {
    hide SameAnswer;
    SelfSame(r);
    var all, claimed := s.Announcement(), s.Claimed();
    var i :| 0 <= i < |all| && all[i] == r;
    if i >= 2 {
      assert claimed[i - 2] == r;
    }
  }

  lemma {:induction false} AnnouncementWellFormed(s: Service)
    requires s.WellFormedService()
    ensures WellFormedSection(s.Announcement()) && WellFormedSection(s.Claimed()) && WellFormedSection(s.Goodbye())
  {
    hide WellFormed;
    assert WellFormed(ENUMERATION) by { EnumerationFits(); }
    forall i | 0 <= i < |s.Announcement()| ensures WellFormedRecord(s.Announcement()[i]) {
      assert i >= 4 ==> s.Announcement()[i] == s.AddressRecord(s.addresses[i - 4]);
    }
    forall i | 0 <= i < |s.Claimed()| ensures WellFormedRecord(s.Claimed()[i]) {
      assert s.Claimed()[i] == s.Announcement()[i + 2];
    }
    forall i | 0 <= i < |s.Goodbye()| ensures WellFormedRecord(s.Goodbye()[i]) {
      assert s.Goodbye()[i] == AsGoodbye(s.Announcement()[i]);
    }
  }

  lemma {:induction false} EnumerationFits()
    ensures WellFormed(ENUMERATION)
  {
    var l := ENUMERATION.labels;
    assert WireLen(l[4..]) == 0;
    assert l[3..][1..] == l[4..] && l[2..][1..] == l[3..] && l[1..][1..] == l[2..];
    assert WireLen(l[3..]) == 6;
    assert WireLen(l[2..]) == 11;
    assert WireLen(l[1..]) == 19;
  }

  lemma {:induction false} ReadOfSent(sent: seq<Record>, read: seq<Record>, x: Record)
    requires |read| == |sent| && forall i :: 0 <= i < |sent| ==> read[i] == AsRead(sent[i])
    ensures x in read <==> exists r :: r in sent && AsRead(r) == x
  {
    hide AsRead;
    if x in read {
      var i :| 0 <= i < |read| && read[i] == x;
      assert sent[i] in sent;
    }
    if r :| r in sent && AsRead(r) == x {
      var i :| 0 <= i < |sent| && sent[i] == r;
      assert read[i] in read;
    }
  }

  lemma {:induction false} SectionsAsRead(a: seq<Record>, b: seq<Record>)
    ensures AllAsRead(a + b) == AllAsRead(a) + AllAsRead(b)
  {
    hide AsRead;
  }

  /** A response read off the wire is a conflict exactly when one of its answers or additional records is foreign. */
  lemma {:induction false} ResponseForeignIff(s: Service, m: Message)
    requires SendableMessage(m) && IsResponse(m)
    ensures ConflictIn(s, MessageBytes(m)) != None
       <==> exists r :: r in m.answers + m.additional && Foreign(s, AsRead(r))
  {
    var sent := m.answers + m.additional;
    var read := AllAsRead(sent);
    SentIsReadAs(m);
    SectionsAsRead(m.answers, m.additional);
    FirstForeignFinds(s, read);
    hide MessageBytes, ReadMessage, SendableMessage, AsRead, Foreign, FirstForeign;
    forall x ensures x in read <==> exists r :: r in sent && AsRead(r) == x {
      ReadOfSent(sent, read, x);
    }
  }

  /** Under one of our two names, alive, and nothing we claim has that name, class and data. */
  ghost predicate SpeaksAgainst(s: Service, r: Record) {
    && r.ttl > 0 && (EqIgnoreCase(s.instance, r.name) || EqIgnoreCase(s.host, r.name))
    && forall c :: c in s.Claimed() ==> !(EqIgnoreCase(c.name, r.name) && c.class_ == r.class_ && c.data == r.data)
  }

  lemma {:induction false} ForeignSpeaksAgainst(s: Service, r: Record)
    ensures Foreign(s, r) <==> SpeaksAgainst(s, r)
  {
    hide EqIgnoreCase;
    assert forall i :: 0 <= i < |s.Claimed()| ==> s.Claimed()[i] in s.Claimed();
  }

  /**
   * What a response means to a responder that reads it off the wire: it is a conflict exactly when one of its answers
   * or additional records, as they are read, speaks against the names held.
   */
  lemma {:induction false} ResponseConflictIff(s: Service, m: Message)
    requires SendableMessage(m) && IsResponse(m)
    ensures ConflictIn(s, MessageBytes(m)) != None
       <==> exists r :: r in m.answers + m.additional && SpeaksAgainst(s, AsRead(r))
  {
    ResponseForeignIff(s, m);
    forall r ensures Foreign(s, r) <==> SpeaksAgainst(s, r) {
      ForeignSpeaksAgainst(s, r);
    }
    hide ConflictIn, SendableMessage, AsRead, Foreign, SpeaksAgainst;
  }

  /** The conflict told of is the first record that speaks against us, by its name and type. */
  lemma {:induction false} FirstIsReported(s: Service, rs: seq<Record>, i: nat)
    requires i < |rs| && SpeaksAgainst(s, rs[i]) && forall j :: 0 <= j < i ==> !SpeaksAgainst(s, rs[j])
    ensures FirstForeign(s, rs) == Some(HeldByAnother(rs[i].name, RType(rs[i].data)))
  {
    ForeignSpeaksAgainst(s, rs[0]);
    hide Foreign, SpeaksAgainst, RType;
    if i > 0 {
      var rest := rs[1..];
      assert rest[i - 1] == rs[i] && forall j :: 0 <= j < i - 1 ==> rest[j] == rs[j + 1];
      FirstIsReported(s, rest, i - 1);
    }
  }

  /**
   * What a query means to a responder that reads it off the wire: it is a conflict exactly when it asks for one of our
   * names and what it claims under them, in whatever order, beats what we claim.
   */
  lemma {:induction false} QueryConflictIff(s: Service, m: Message, theirs: seq<Record>)
    requires WellFormedMessage(m) && !IsResponse(m)
    requires forall r :: multiset(theirs)[r] == if OwnedBy(s, r.name) then multiset(m.authority)[r] else 0
    ensures ConflictIn(s, MessageBytes(m))
         == if (exists q :: q in m.questions && OwnedBy(s, q.name)) && Verdict(s.Claimed(), theirs) == Less
            then Some(LostTieBreak(s.instance)) else None
  {
    assert ConflictIn(s, MessageBytes(m)) == ConflictWith(s, m) by {
      WellFormedRoundTrips(m);
      hide MessageBytes, ReadMessage, WellFormedMessage, ConflictWith;
    }
    hide *;
    QueryVerdict(s, m);
    SameClaims(s, m.authority, theirs);
    VerdictOnMultisets(s.Claimed(), s.Claimed(), theirs, UnderOurNames(s, m.authority));
  }

  lemma {:induction false} SameClaims(s: Service, rs: seq<Record>, theirs: seq<Record>)
    requires forall r :: multiset(theirs)[r] == if OwnedBy(s, r.name) then multiset(rs)[r] else 0
    ensures multiset(Keys(theirs)) == multiset(Keys(UnderOurNames(s, rs)))
  {
    UnderOurNamesAre(s, rs);
    hide *;
    var claims := UnderOurNames(s, rs);
    assert multiset(theirs) == multiset(claims);
    SameContentsSameKeys(theirs, claims);
  }

  lemma {:induction false} QueryVerdict(s: Service, m: Message)
    requires !IsResponse(m)
    ensures ConflictWith(s, m)
         == if (exists q :: q in m.questions && OwnedBy(s, q.name))
               && Verdict(s.Claimed(), UnderOurNames(s, m.authority)) == Less
            then Some(LostTieBreak(s.instance)) else None
  {
    NothingWins(s.Claimed());
    hide EqIgnoreCase, Verdict;
    assert forall q :: q in m.questions ==> exists i :: 0 <= i < |m.questions| && m.questions[i] == q;
    if m.authority == [] {
      assert UnderOurNames(s, m.authority) == [];
    }
  }

  ghost predicate OwnedBy(s: Service, name: Name) {
    EqIgnoreCase(s.instance, name) || EqIgnoreCase(s.host, name)
  }

  lemma {:induction false} NothingWins(ours: seq<Record>)
    ensures Verdict(ours, []) != Less
  {
    assert Keys([]) == [];
  }

  lemma {:induction false} UnderOurNamesAre(s: Service, rs: seq<Record>)
    ensures forall r :: multiset(UnderOurNames(s, rs))[r] == if OwnedBy(s, r.name) then multiset(rs)[r] else 0
  {
    hide EqIgnoreCase;
    if rs != [] {
      UnderOurNamesAre(s, rs[1..]);
      assert rs == [rs[0]] + rs[1..];
    }
  }

  /** A response made only of records we announce, or of goodbyes, is no conflict once it comes back off the wire. */
  lemma {:induction false} OwnResponseIsQuiet(s: Service, m: Message)
    requires OwnNamesApart(s) && WellFormedMessage(m) && IsResponse(m)
    requires forall r :: r in m.answers + m.additional ==> r.ttl == 0 || r in s.Announcement()
    ensures ConflictIn(s, MessageBytes(m)) == None
  {
    WellFormedRoundTrips(m);
    hide MessageBytes, ReadMessage, WellFormedMessage;
    var all := m.answers + m.additional;
    FirstForeignFinds(s, all);
    forall r | r in all ensures !Foreign(s, r) {
      if r.ttl != 0 {
        OwnIsNotForeign(s, r);
      }
    }
  }

  lemma {:induction false} OursAllUnderOurNames(s: Service, rs: seq<Record>)
    requires forall r :: r in rs ==> s.Owns(r.name)
    ensures UnderOurNames(s, rs) == rs
  {
    if rs != [] {
      assert rs == [rs[0]] + rs[1..];
      OursAllUnderOurNames(s, rs[1..]);
    }
  }

  lemma {:induction false} ClaimedOwned(s: Service, t: Service)
    requires EqIgnoreCase(s.instance, t.instance) && EqIgnoreCase(s.host, t.host)
    ensures forall r :: r in t.Claimed() ==> s.Owns(r.name)
  {
    forall r | r in t.Claimed() ensures s.Owns(r.name) {
      var i :| 0 <= i < |t.Claimed()| && t.Claimed()[i] == r;
      assert i >= 2 ==> r == t.AddressRecord(t.addresses[i - 2]);
    }
  }

  lemma {:induction false} ProbeRoundTrips(t: Service)
    requires t.WellFormedService()
    ensures ReadMessage(MessageBytes(ProbeMessage(t))) == Ok(ProbeMessage(t))
  {
    AnnouncementWellFormed(t);
    hide WellFormed, WellFormedSection, MessageBytes, ReadMessage;
    assert WellFormedSection([]) by { EmptyWellFormed(); }
    WellFormedRoundTrips(ProbeMessage(t));
  }

  lemma {:induction false} EmptyWellFormed()
    ensures WellFormedSection([])
  {
  }

  /** A probe for the same two names is judged by comparing the two claims. */
  lemma {:induction false} ProbeVerdict(s: Service, t: Service)
    requires t.WellFormedService() && EqIgnoreCase(s.instance, t.instance) && EqIgnoreCase(s.host, t.host)
    ensures ConflictIn(s, MessageBytes(ProbeMessage(t)))
         == if Verdict(s.Claimed(), t.Claimed()) == Less then Some(LostTieBreak(s.instance)) else None
  {
    ProbeRoundTrips(t);
    hide MessageBytes, ReadMessage, Verdict;
    ClaimedOwned(s, t);
    OursAllUnderOurNames(s, t.Claimed());
    assert s.Owns(ProbeMessage(t).questions[0].name);
  }

  /**
   * When two hosts want both an instance name and a host name: if their claims differ exactly one of them backs
   * off, and when they are the same neither does.
   */
  lemma {:induction false} ExactlyOneBacksOff(s: Service, t: Service)
    requires s.WellFormedService() && t.WellFormedService()
    requires EqIgnoreCase(s.instance, t.instance) && EqIgnoreCase(s.host, t.host)
    ensures var sLoses := ConflictIn(s, MessageBytes(ProbeMessage(t))) != None;
            var tLoses := ConflictIn(t, MessageBytes(ProbeMessage(s))) != None;
            if multiset(Keys(s.Claimed())) == multiset(Keys(t.Claimed())) then !sLoses && !tLoses
            else sLoses != tLoses
  {
    EqSymmetricTransitive(s.instance, t.instance, s.instance);
    EqSymmetricTransitive(s.host, t.host, s.host);
    ProbeVerdict(s, t);
    ProbeVerdict(t, s);
    VerdictIsTotalOrder(s.Claimed(), t.Claimed(), s.Claimed());
  }

  // ---------------------------------------------------------------------
  // Replies hold only our own records
  // ---------------------------------------------------------------------

  ghost predicate NoRepeats(rs: seq<Record>) {
    forall i, j :: 0 <= i < j < |rs| ==> rs[i] != rs[j]
  }

  lemma {:induction false} MergeWithin(held: seq<Record>, more: seq<Record>, own: seq<Record>)
    requires NoRepeats(held) && (forall r :: r in held ==> r in own) && (forall r :: r in more ==> r in own)
    ensures NoRepeats(Merge(held, more)) && forall r :: r in Merge(held, more) ==> r in own
    ensures held != [] || more != [] ==> Merge(held, more) != []
    decreases |more|
  {
    hide SameAnswer;
    if more != [] {
      SelfSame(more[0]);
      assert more == [more[0]] + more[1..];
      MergeWithin(if Says(held, more[0]) then held else held + [more[0]], more[1..], own);
    }
  }

  lemma {:induction false} CollectWithin(s: Service, qs: seq<Question>, known: seq<Record>, d: Draft)
    requires NoRepeats(d.answers) && NoRepeats(d.additional)
    requires forall r :: r in d.answers ==> r in s.Announcement()
    requires forall r :: r in d.additional ==> r in s.Announcement()
    ensures var c := Collect(s, qs, known, d);
            && NoRepeats(c.answers) && NoRepeats(c.additional)
            && (forall r :: r in c.answers ==> r in s.Announcement())
            && (forall r :: r in c.additional ==> r in s.Announcement())
    decreases |qs|
  {
    hide AnswerTo, NoRepeats;
    if qs != [] {
      var a := AnswerTo(s, qs[0], known);
      AnswerWithinOwnRecords(s, qs[0], known);
      ClaimedIsAnnounced(s);
      MergeWithin(d.answers, a.answers, s.Announcement());
      MergeWithin(d.additional, a.additional, s.Announcement());
      CollectWithin(s, qs[1..], known,
                    if a.answers == [] then d
                    else Draft(Merge(d.answers, a.answers), Merge(d.additional, a.additional),
                               d.unicast || qs[0].unicastResponse));
    }
  }

  lemma {:induction false} ClaimedIsAnnounced(s: Service)
    ensures forall r :: r in s.Claimed() ==> r in s.Announcement()
  {
    assert s.Announcement() == [s.EnumerationPtr(), s.Ptr()] + s.Claimed();
  }

  lemma {:induction false} DistinctFitIn(rs: seq<Record>, own: set<Record>)
    requires NoRepeats(rs) && forall r :: r in rs ==> r in own
    ensures |rs| <= |own|
  {
    if rs != [] {
      var rest := rs[1..];
      assert forall i :: 0 <= i < |rest| ==> rest[i] == rs[i + 1];
      DistinctFitIn(rest, own - {rs[0]});
    }
  }

  lemma {:induction false} ElementsBound(rs: seq<Record>)
    ensures |set r | r in rs| <= |rs|
  {
    if rs == [] {
      assert (set r | r in rs) == {};
    } else {
      ElementsBound(rs[1..]);
      assert (set r | r in rs) == {rs[0]} + (set r | r in rs[1..]);
    }
  }

  lemma {:induction false} OwnSectionWellFormed(s: Service, rs: seq<Record>)
    requires s.WellFormedService() && NoRepeats(rs) && forall r :: r in rs ==> r in s.Announcement()
    ensures WellFormedSection(rs)
  {
    AnnouncementWellFormed(s);
    hide WellFormedRecord;
    var own := set r | r in s.Announcement();
    DistinctFitIn(rs, own);
    ElementsBound(s.Announcement());
    forall i | 0 <= i < |rs| ensures WellFormedRecord(rs[i]) {
      assert rs[i] in rs;
    }
  }

  lemma {:induction false} OwnProbeIsQuiet(s: Service)
    requires s.WellFormedService()
    ensures ConflictIn(s, MessageBytes(ProbeMessage(s))) == None
  {
    EqReflexive(s.instance);
    EqReflexive(s.host);
    ProbeVerdict(s, s);
    VerdictIsTotalOrder(s.Claimed(), s.Claimed(), s.Claimed());
  }

  lemma {:induction false} SectionIsQuiet(s: Service, section: seq<Record>)
    requires OwnNamesApart(s) && WellFormedSection(section)
    requires forall r :: r in section ==> r.ttl == 0 || r in s.Announcement()
    ensures ConflictIn(s, MessageBytes(Response(section))) == None
  {
    EmptyWellFormed();
    hide MessageBytes, ConflictIn, WellFormedSection, OwnNamesApart;
    hide Service.Announcement;
    OwnResponseIsQuiet(s, Response(section));
  }

  lemma {:induction false} OwnAnnouncementIsQuiet(s: Service)
    requires s.WellFormedService() && OwnNamesApart(s)
    ensures ConflictIn(s, MessageBytes(Response(s.Announcement()))) == None
    ensures ConflictIn(s, MessageBytes(Response(s.Goodbye()))) == None
  {
    AnnouncementWellFormed(s);
    assert forall r :: r in s.Goodbye() ==> r.ttl == 0;
    hide MessageBytes, ConflictIn, WellFormedSection, OwnNamesApart;
    hide Service.Announcement, Service.Goodbye, Service.Claimed, Service.WellFormedService;
    SectionIsQuiet(s, s.Announcement());
    SectionIsQuiet(s, s.Goodbye());
  }

  /** Every record of a reply is one we announce, and the reply survives the wire. */
  lemma {:induction false} ReplyWithin(s: Service, query: Message)
    requires s.WellFormedService() && Reply(s, query).Some?
    ensures var m := Reply(s, query).value;
            WellFormedMessage(m) && IsResponse(m) && forall r :: r in m.answers + m.additional ==> r in s.Announcement()
  {
    EmptyWellFormed();
    hide WellFormedSection, Collect;
    CollectWithin(s, query.questions, query.answers, Draft([], [], false));
    var m := Reply(s, query).value;
    OwnSectionWellFormed(s, m.answers);
    OwnSectionWellFormed(s, m.additional);
  }

  lemma {:induction false} OwnReplyIsQuiet(s: Service, query: Message)
    requires s.WellFormedService() && OwnNamesApart(s) && Reply(s, query).Some?
    ensures ConflictIn(s, MessageBytes(Reply(s, query).value)) == None
  {
    hide Reply, MessageBytes, ConflictIn, WellFormedMessage;
    ReplyWithin(s, query);
    OwnResponseIsQuiet(s, Reply(s, query).value);
  }

  lemma {:induction false} AnnouncementSendable(s: Service)
    requires s.Announceable()
    ensures SendableMessage(Response(s.Announcement()))
  {
    hide WellFormed;
    assert WellFormed(ENUMERATION) by { EnumerationFits(); }
    var all := s.Announcement();
    forall i | 0 <= i < |all| ensures SendableRecord(all[i]) {
      assert i >= 4 ==> all[i] == s.AddressRecord(s.addresses[i - 4]);
    }
  }

  /** The announced record that, read back, speaks against its own service. */
  lemma {:induction false} SelfForeign(s: Service) returns (r: Record)
    requires s.serviceTtl > 0 && !(OwnNamesApart(s) && CanonicalTxt(s.txt))
    ensures r in s.Announcement() && Foreign(s, AsRead(r))
  {
    ReadableIffCanonical(s.txt);
    hide ReadableTxt, CanonicalTxt;
    var all, claimed := s.Announcement(), s.Claimed();
    assert all[0] == s.EnumerationPtr() && all[1] == s.Ptr() && all[3] == s.TxtRecord();
    var i := if s.Owns(ENUMERATION) then 0 else if s.Owns(s.serviceType) then 1 else 3;
    r := all[i];
    EqReflexive(s.instance);
    hide EqIgnoreCase;
    forall k | 0 <= k < |claimed| ensures claimed[k].data != AsRead(r).data {
      assert k >= 2 ==> claimed[k] == s.AddressRecord(s.addresses[k - 2]);
    }
  }

  /**
   * The announcement, heard back, is no conflict exactly when the names we own head nothing shared and no TXT string is
   * empty or over 255 octets - or when the service's own lifetime is zero and what could be heard is a goodbye.
   */
  lemma {:induction false} OwnAnnouncementQuietIff(s: Service)
    requires s.Announceable()
    ensures ConflictIn(s, MessageBytes(Response(s.Announcement()))) == None
       <==> s.serviceTtl == 0 || (OwnNamesApart(s) && CanonicalTxt(s.txt))
  {
    AnnouncementSendable(s);
    var m := Response(s.Announcement());
    hide MessageBytes, ConflictIn, SendableMessage;
    ResponseForeignIff(s, m);
    assert m.answers + m.additional == s.Announcement();
    if s.serviceTtl == 0 {
      ShortLivedIsQuiet(s);
    } else if !(OwnNamesApart(s) && CanonicalTxt(s.txt)) {
      var r := SelfForeign(s);
    } else {
      OwnAnnouncementIsQuiet(s);
    }
  }

  lemma {:induction false} ShortLivedIsQuiet(s: Service)
    requires s.serviceTtl == 0
    ensures forall r :: r in s.Announcement() ==> !Foreign(s, AsRead(r))
  {
    var all, claimed := s.Announcement(), s.Claimed();
    forall r | r in all ensures !Foreign(s, AsRead(r)) {
      var i :| 0 <= i < |all| && all[i] == r;
      assert i >= 4 ==> r == s.AddressRecord(s.addresses[i - 4]);
      hide SameAnswer, ReadableTxt;
      if AsRead(r).ttl != 0 {
        assert claimed[i - 2] == r;
        SelfSame(r);
      }
    }
  }

  /** Whatever we send for our names - probe, announcement, goodbye, reply to any query - is no conflict to us. */
  ghost predicate SelfQuiet(s: Service) {
    && ConflictIn(s, MessageBytes(ProbeMessage(s))) == None
    && ConflictIn(s, MessageBytes(Response(s.Announcement()))) == None
    && ConflictIn(s, MessageBytes(Response(s.Goodbye()))) == None
    && forall query: Message :: Reply(s, query).Some? ==> ConflictIn(s, MessageBytes(Reply(s, query).value)) == None
  }

  lemma {:induction false} CanonicalIsSelfQuiet(s: Service)
    requires s.WellFormedService() && OwnNamesApart(s)
    ensures SelfQuiet(s)
  {
    hide MessageBytes, ConflictIn, Reply, ProbeMessage;
    OwnProbeIsQuiet(s);
    OwnAnnouncementIsQuiet(s);
    forall query: Message | Reply(s, query).Some?
      ensures ConflictIn(s, MessageBytes(Reply(s, query).value)) == None
    {
      OwnReplyIsQuiet(s, query);
    }
  }

  /**
   * A responder that hears itself takes nothing it sends for another host's claim if and only if its names head nothing
   * shared and its TXT strings are all of 1 to 255 octets. Starting one checks neither.
   */
  lemma {:induction false} NoSelfConflictIff(s: Service)
    requires s.Announceable() && s.serviceTtl > 0
    ensures SelfQuiet(s) <==> OwnNamesApart(s) && CanonicalTxt(s.txt)
  {
    OwnAnnouncementQuietIff(s);
    if OwnNamesApart(s) && CanonicalTxt(s.txt) {
      CanonicalIsSelfQuiet(s);
    }
    hide ConflictIn, MessageBytes, Reply;
  }

  // ---------------------------------------------------------------------
  // A name that is held is defended
  // ---------------------------------------------------------------------

  /** Merging keeps what was said and says everything offered. */
  lemma {:induction false} MergeSays(held: seq<Record>, more: seq<Record>, r: Record)
    requires Says(held, r) || r in more
    ensures Says(Merge(held, more), r)
    decreases |more|
  {
    hide SameAnswer;
    if more != [] {
      SelfSame(more[0]);
      var next := if Says(held, more[0]) then held else held + [more[0]];
      if Says(held, r) {
        var i :| 0 <= i < |held| && SameAnswer(held[i], r);
        assert next[i] == held[i];
      } else if r == more[0] {
        assert next[|next| - 1] == r || Says(held, r);
      } else {
        assert more == [more[0]] + more[1..];
      }
      MergeSays(next, more[1..], r);
    }
  }

  lemma {:induction false} ProbeDraft(s: Service, t: Service) returns (a: Answer, b: Answer)
    requires OwnNamesApart(s) && EqIgnoreCase(s.instance, t.instance) && EqIgnoreCase(s.host, t.host)
    ensures a == Answer([s.Srv(), s.TxtRecord()], s.AddressRecords()) && b == AnswerTo(s, ProbeQuestion(t.host), [])
    ensures Collect(s, ProbeMessage(t).questions, [], Draft([], [], false))
         == Collect(s, [ProbeQuestion(t.host)], [], Draft(Merge([], a.answers), Merge([], a.additional), true))
  {
    var q := ProbeQuestion(t.instance);
    var qs := ProbeMessage(t).questions;
    a, b := AnswerTo(s, q, []), AnswerTo(s, ProbeQuestion(t.host), []);
    hide EqIgnoreCase, Merge, Suppressed;
    EqSymmetricTransitive(s.instance, t.instance, s.serviceType);
    EqSymmetricTransitive(s.instance, t.instance, ENUMERATION);
    NothingSuppressed([s.Srv(), s.TxtRecord()]);
    assert qs[1..] == [ProbeQuestion(t.host)];
  }

  lemma {:induction false} NothingSuppressed(rs: seq<Record>)
    ensures Unsuppressed(rs, []) == rs
  {
    if rs != [] {
      NothingSuppressed(rs[1..]);
      assert rs == [rs[0]] + rs[1..];
    }
  }

  /** The reply to a probe for our names says every record we hold under them. */
  lemma {:induction false} DefenceSaysAll(s: Service, t: Service, r: Record)
    requires OwnNamesApart(s) && EqIgnoreCase(s.instance, t.instance) && EqIgnoreCase(s.host, t.host)
    requires r in s.Claimed()
    ensures Reply(s, ProbeMessage(t)).Some?
    ensures var m := Reply(s, ProbeMessage(t)).value; Says(m.answers, r) || Says(m.additional, r)
  {
    var a, b := ProbeDraft(s, t);
    hide SameAnswer, AnswerTo;
    var d := Draft(Merge([], a.answers), Merge([], a.additional), true);
    var answers := Merge(d.answers, b.answers);
    var q := ProbeQuestion(t.host);
    assert [q][1..] == [];
    assert Collect(s, [q], [], d)
        == if b.answers == [] then d else Draft(answers, Merge(d.additional, b.additional), true);
    if r in a.answers {
      MergeSays([], a.answers, r);
      MergeSays(d.answers, b.answers, r);
    } else {
      assert s.Claimed() == a.answers + a.additional;
      MergeSays([], a.additional, r);
      MergeSays(d.additional, b.additional, r);
    }
    MergeSays([], a.answers, s.Srv());
    MergeSays(d.answers, b.answers, s.Srv());
  }

  lemma {:induction false} LiveAnnouncement(s: Service)
    requires s.hostTtl > 0 && s.serviceTtl > 0
    ensures forall r :: r in s.Announcement() ==> r.ttl > 0
  {
    forall r | r in s.Announcement() ensures r.ttl > 0 {
      var i :| 0 <= i < |s.Announcement()| && s.Announcement()[i] == r;
      assert i >= 4 ==> r == s.AddressRecord(s.addresses[i - 4]);
    }
  }

  /** `r` and `x` say the same, so they are ours or not together. */
  lemma {:induction false} SameAnswerSameSide(t: Service, x: Record, r: Record)
    requires SameAnswer(x, r)
    ensures IsOurs(t, x) <==> IsOurs(t, r)
    ensures t.Owns(x.name) <==> t.Owns(r.name)
  {
    EqSymmetricTransitive(t.instance, x.name, r.name);
    EqSymmetricTransitive(t.instance, r.name, x.name);
    EqSymmetricTransitive(t.host, x.name, r.name);
    EqSymmetricTransitive(t.host, r.name, x.name);
    EqSymmetricTransitive(x.name, r.name, x.name);
    forall i | 0 <= i < |t.Claimed()| ensures SameAnswer(t.Claimed()[i], x) <==> SameAnswer(t.Claimed()[i], r) {
      var c := t.Claimed()[i];
      EqSymmetricTransitive(c.name, x.name, r.name);
      EqSymmetricTransitive(c.name, r.name, x.name);
    }
  }

  lemma {:induction false} OwnsFollows(s: Service, t: Service, name: Name)
    requires EqIgnoreCase(s.instance, t.instance) && EqIgnoreCase(s.host, t.host)
    ensures s.Owns(name) <==> t.Owns(name)
  {
    EqSymmetricTransitive(s.instance, t.instance, name);
    EqSymmetricTransitive(t.instance, s.instance, name);
    EqSymmetricTransitive(s.host, t.host, name);
    EqSymmetricTransitive(t.host, s.host, name);
  }

  lemma {:induction false} OwnedAnnouncementIsClaimed(s: Service, r: Record)
    requires OwnNamesApart(s) && r in s.Announcement() && s.Owns(r.name)
    ensures r in s.Claimed()
  {
    hide EqIgnoreCase;
    var all := s.Announcement();
    var i :| 0 <= i < |all| && all[i] == r;
    if i >= 2 {
      assert s.Claimed()[i - 2] == r;
    }
  }

  /** The holder has a record under the contested names that the prober does not propose itself. */
  ghost predicate HoldsOther(s: Service, t: Service) {
    exists r :: r in s.Claimed() && !IsOurs(t, r)
  }

  lemma {:induction false} DefenceSpeaksOut(s: Service, t: Service, m: Message) returns (x: Record)
    requires OwnNamesApart(s) && EqIgnoreCase(s.instance, t.instance) && EqIgnoreCase(s.host, t.host)
    requires s.hostTtl > 0 && s.serviceTtl > 0 && HoldsOther(s, t)
    requires Reply(s, ProbeMessage(t)) == Some(m) && forall r :: r in m.answers + m.additional ==> r in s.Announcement()
    ensures x in m.answers + m.additional && Foreign(t, x)
  {
    hide SameAnswer, Reply;
    var r :| r in s.Claimed() && !IsOurs(t, r);
    DefenceSaysAll(s, t, r);
    LiveAnnouncement(s);
    ClaimedOwned(s, s) by { EqReflexive(s.instance); EqReflexive(s.host); }
    OwnsFollows(s, t, r.name);
    if Says(m.answers, r) {
      var i :| 0 <= i < |m.answers| && SameAnswer(m.answers[i], r);
      x := m.answers[i];
    } else {
      var i :| 0 <= i < |m.additional| && SameAnswer(m.additional[i], r);
      x := m.additional[i];
    }
    SameAnswerSameSide(t, x, r);
  }

  /**
   * A probe for names that are held draws a reply, and the prober, reading that reply off the wire, sees a conflict
   * exactly when the holder has a record it does not propose itself.
   */
  lemma {:induction false} HeldNameIsDefended(s: Service, t: Service)
    requires s.WellFormedService() && OwnNamesApart(s) && s.hostTtl > 0 && s.serviceTtl > 0
    requires EqIgnoreCase(s.instance, t.instance) && EqIgnoreCase(s.host, t.host)
    ensures Reply(s, ProbeMessage(t)).Some?
    ensures ConflictIn(t, MessageBytes(Reply(s, ProbeMessage(t)).value)) != None <==> HoldsOther(s, t)
  {
    DefenceSaysAll(s, t, s.Srv());
    ReplyWithin(s, ProbeMessage(t));
    var m := Reply(s, ProbeMessage(t)).value;
    WellFormedRoundTrips(m);
    hide MessageBytes, ReadMessage, WellFormedMessage, Reply, IsOurs;
    var all := m.answers + m.additional;
    FirstForeignFinds(t, all);
    if HoldsOther(s, t) {
      var x := DefenceSpeaksOut(s, t, m);
    }
    if x :| x in all && Foreign(t, x) {
      OwnsFollows(s, t, x.name);
      OwnedAnnouncementIsClaimed(s, x);
    }
  }
}
