/** A service's records, the answer to one question, and when answering is filtering them. */
module Services {
  import opened Wire
  import opened Names
  import opened Records
  import Sequences

  datatype IpAddr = V4Addr(v4: V4) | V6Addr(v6: V6)

  /** `_services._dns-sd._udp.local`, RFC 6763 section 9. */
  const ENUMERATION := Name([
    [95, 115, 101, 114, 118, 105, 99, 101, 115],
    [95, 100, 110, 115, 45, 115, 100],
    [95, 117, 100, 112],
    [108, 111, 99, 97, 108]])

  datatype Service = Service(
    instance: Name, serviceType: Name, host: Name, port: u16, txt: seq<seq<byte>>,
    addresses: seq<IpAddr>, hostTtl: u32, serviceTtl: u32)
  {
    /** Shared: several hosts answer the service type. */
    function Ptr(): Record {
      Shared(serviceType, serviceTtl, DataPtr(instance))
    }

    function EnumerationPtr(): Record {
      Shared(ENUMERATION, serviceTtl, DataPtr(serviceType))
    }

    function Srv(): Record {
      Flushing(instance, hostTtl, DataSrv(0, 0, port, host))
    }

    function TxtRecord(): Record {
      Flushing(instance, serviceTtl, DataTxt(txt))
    }

    function AddressRecord(a: IpAddr): Record {
      Flushing(host, hostTtl, match a case V4Addr(v4) => DataA(v4) case V6Addr(v6) => DataAaaa(v6))
    }

    function AddressRecords(): (rs: seq<Record>)
      ensures |rs| == |addresses|
    {
      seq(|addresses|, i requires 0 <= i < |addresses| => AddressRecord(addresses[i]))
    }

    function Announcement(): seq<Record> {
      [EnumerationPtr(), Ptr(), Srv(), TxtRecord()] + AddressRecords()
    }

    function Goodbye(): seq<Record> {
      var all := Announcement();
      seq(|all|, i requires 0 <= i < |all| => AsGoodbye(all[i]))
    }

    /** The unique records a probe claims: not the shared pointers. */
    function Claimed(): seq<Record> {
      [Srv(), TxtRecord()] + AddressRecords()
    }

    predicate HostClashes() {
      EqIgnoreCase(host, serviceType) || EqIgnoreCase(host, ENUMERATION) || EqIgnoreCase(host, instance)
    }

    predicate Owns(name: Name) {
      EqIgnoreCase(instance, name) || EqIgnoreCase(host, name)
    }

    function Renamed(instanceLabel: Label, hostLabel: Label): Service {
      this.(instance := Prepend(serviceType, instanceLabel), host := Prepend(WithoutFirstLabel(host), hostLabel))
    }

    /** Everything this service sends can be read: legal names, and lengths and counts that fit in 16 bits. */
    predicate Announceable() {
      && WellFormed(instance) && WellFormed(serviceType) && WellFormed(host)
      && |TxtBytes(txt)| < 0x1_0000 && |addresses| + 4 < 0x1_0000
    }

    /** Everything this service sends survives the wire. */
    predicate WellFormedService() {
      Announceable() && CanonicalTxt(txt)
    }
  }

  function Prepend(name: Name, l: Label): Name {
    Name([l] + name.labels)
  }

  function WithoutFirstLabel(name: Name): Name {
    if name.labels == [] then ROOT else Name(name.labels[1..])
  }

  // ---------------------------------------------------------------------
  // Answering
  // ---------------------------------------------------------------------

  datatype Answer = Answer(answers: seq<Record>, additional: seq<Record>)

  predicate Wants(q: Question, rtype: u16) {
    q.qtype == rtype || q.qtype == ANY
  }

  /** The same answer, and twice its lifetime - in 32 bits, so it wraps - is no less than the candidate's. */
  predicate Suppresses(held: Record, candidate: Record) {
    SameAnswer(held, candidate) && held.ttl * 2 % 0x1_0000_0000 >= candidate.ttl
  }

  predicate Suppressed(candidate: Record, known: seq<Record>) {
    exists i :: 0 <= i < |known| && Suppresses(known[i], candidate)
  }

  function Unsuppressed(rs: seq<Record>, known: seq<Record>): seq<Record> {
    if rs == [] then []
    else (if Suppressed(rs[0], known) then [] else [rs[0]]) + Unsuppressed(rs[1..], known)
  }

  function OfType(rs: seq<Record>, q: Question): seq<Record> {
    if rs == [] then []
    else (if Wants(q, RType(rs[0].data)) then [rs[0]] else []) + OfType(rs[1..], q)
  }

  /** The branch a question takes, before suppression. */
  function Consider(s: Service, q: Question): Answer {
    if EqIgnoreCase(q.name, s.serviceType) && Wants(q, PTR) then
      Answer([s.Ptr()], [s.Srv(), s.TxtRecord()] + s.AddressRecords())
    else if EqIgnoreCase(q.name, ENUMERATION) && Wants(q, PTR) then
      Answer([s.EnumerationPtr()], [])
    else if EqIgnoreCase(q.name, s.instance) then
      var answers := (if Wants(q, SRV) then [s.Srv()] else []) + (if Wants(q, TXT) then [s.TxtRecord()] else []);
      Answer(answers, if answers == [] then [] else s.AddressRecords())
    else if EqIgnoreCase(q.name, s.host) && (Wants(q, A) || Wants(q, AAAA)) then
      Answer(OfType(s.AddressRecords(), q), [])
    else Answer([], [])
  }

  function AnswerTo(s: Service, q: Question, known: seq<Record>): Answer {
    var considered := Consider(s, q);
    var answers := Unsuppressed(considered.answers, known);
    Answer(answers, if answers == [] then [] else considered.additional)
  }

  method SelectAddresses(records: seq<Record>, q: Question) returns (answers: seq<Record>)
    ensures answers == OfType(records, q)
  {
    hide RType;
    answers := [];
    for i := 0 to |records|
      invariant answers + OfType(records[i..], q) == OfType(records, q)
    {
      assert records[i..][1..] == records[i + 1..];
      if q.qtype == ANY || RType(records[i].data) == q.qtype {
        answers := answers + [records[i]];
      }
    }
    assert records[|records|..] == [];
  }

  method RetainUnknown(candidates: seq<Record>, known: seq<Record>) returns (answers: seq<Record>)
    ensures answers == Unsuppressed(candidates, known)
  {
    hide Suppressed, Unsuppressed;
    answers := [];
    Sequences.Whole(candidates);
    Sequences.Empty(Unsuppressed(candidates, known));
    for i := 0 to |candidates|
      invariant answers + Unsuppressed(candidates[i..], known) == Unsuppressed(candidates, known)
    {
      Sequences.DropTail(candidates, i);
      UnsuppressedCons(candidates[i..], known);
      Sequences.Empty(Unsuppressed(candidates[i + 1..], known));
      if !Suppressed(candidates[i], known) {
        Sequences.Assoc(answers, [candidates[i]], Unsuppressed(candidates[i + 1..], known));
        answers := answers + [candidates[i]];
      }
    }
    UnsuppressedCons([], known);
    Sequences.Empty(answers);
  }

  lemma {:induction false} UnsuppressedCons(rs: seq<Record>, known: seq<Record>)
    ensures Unsuppressed([], known) == []
    ensures rs != [] ==> var rest := Unsuppressed(rs[1..], known);
              Unsuppressed(rs, known) == (if Suppressed(rs[0], known) then [] else [rs[0]]) + rest
  {
    hide Suppressed;
  }

  method AnswerQuestion(s: Service, q: Question, known: seq<Record>) returns (r: Answer)
    ensures r == AnswerTo(s, q, known)
  {
    var answers: seq<Record> := [];
    var additional: seq<Record> := [];
    if EqIgnoreCase(q.name, s.serviceType) && Wants(q, PTR) {
      answers := answers + [s.Ptr()];
      additional := additional + [s.Srv()];
      additional := additional + [s.TxtRecord()];
      additional := additional + s.AddressRecords();
    } else if EqIgnoreCase(q.name, ENUMERATION) && Wants(q, PTR) {
      answers := answers + [s.EnumerationPtr()];
    } else if EqIgnoreCase(q.name, s.instance) {
      if Wants(q, SRV) {
        answers := answers + [s.Srv()];
      }
      if Wants(q, TXT) {
        answers := answers + [s.TxtRecord()];
      }
      if answers != [] {
        additional := additional + s.AddressRecords();
      }
    } else if EqIgnoreCase(q.name, s.host) && (Wants(q, A) || Wants(q, AAAA)) {
      answers := SelectAddresses(s.AddressRecords(), q);
    }
    assert Answer(answers, additional) == Consider(s, q);
    answers := RetainUnknown(answers, known);
    if answers == [] {
      additional := [];
    }
    return Answer(answers, additional);
  }

  // ---------------------------------------------------------------------
  // Answering is filtering the announcement
  // ---------------------------------------------------------------------

  predicate Matches(r: Record, q: Question) {
    EqIgnoreCase(q.name, r.name) && Wants(q, RType(r.data))
  }

  /** The records that match the question, in order. */
  function Matching(rs: seq<Record>, q: Question): seq<Record> {
    if rs == [] then [] else (if Matches(rs[0], q) then [rs[0]] else []) + Matching(rs[1..], q)
  }

  /** No two of the four names that head records coincide; a host without addresses heads none. */
  predicate DistinctNames(s: Service) {
    && !EqIgnoreCase(s.serviceType, ENUMERATION)
    && !EqIgnoreCase(s.serviceType, s.instance)
    && !EqIgnoreCase(ENUMERATION, s.instance)
    && (s.addresses != [] ==> !s.HostClashes())
  }

  lemma {:induction false} MatchingConcat(a: seq<Record>, b: seq<Record>, q: Question)
    ensures Matching(a + b, q) == Matching(a, q) + Matching(b, q)
  {
    hide Matches;
    if a == [] {
      assert a + b == b;
    } else {
      assert (a + b)[1..] == a[1..] + b;
      MatchingConcat(a[1..], b, q);
    }
  }

  lemma {:induction false} EqSymmetricTransitive(a: Name, b: Name, c: Name)
    ensures EqIgnoreCase(a, b) <==> EqIgnoreCase(b, a)
    ensures EqIgnoreCase(a, b) && EqIgnoreCase(b, c) ==> EqIgnoreCase(a, c)
  {
    EqIsFold(a, b);
    EqIsFold(b, a);
    EqIsFold(b, c);
    EqIsFold(a, c);
  }

  /** Addresses all stand under the host name, so they match together or not at all. */
  lemma {:induction false} MatchingAddresses(rs: seq<Record>, host: Name, q: Question)
    requires forall i :: 0 <= i < |rs| ==> rs[i].name == host
    ensures Matching(rs, q) == if EqIgnoreCase(q.name, host) then OfType(rs, q) else []
  {
    hide EqIgnoreCase, Wants;
    if rs != [] {
      assert rs[0].name == host;
      assert forall i :: 0 <= i < |rs[1..]| ==> rs[1..][i] == rs[i + 1];
      MatchingAddresses(rs[1..], host, q);
    }
  }

  lemma {:induction false} AddressTypes(rs: seq<Record>, q: Question)
    requires forall i :: 0 <= i < |rs| ==> rs[i].data.DataA? || rs[i].data.DataAaaa?
    ensures !Wants(q, A) && !Wants(q, AAAA) ==> OfType(rs, q) == []
    ensures q.qtype == ANY ==> OfType(rs, q) == rs
  {
    if rs != [] {
      assert rs[0].data.DataA? || rs[0].data.DataAaaa?;
      assert forall i :: 0 <= i < |rs[1..]| ==> rs[1..][i] == rs[i + 1];
      AddressTypes(rs[1..], q);
    }
  }

  function MatchOne(r: Record, q: Question): seq<Record> {
    if Matches(r, q) then [r] else []
  }

  lemma {:induction false} MatchingFour(a: Record, b: Record, c: Record, d: Record, q: Question)
    ensures Matching([a, b, c, d], q) == MatchOne(a, q) + MatchOne(b, q) + MatchOne(c, q) + MatchOne(d, q)
  {
    hide Matches;
    assert [a, b, c, d][1..] == [b, c, d] && [b, c, d][1..] == [c, d] && [c, d][1..] == [d] && [d][1..] == [];
    assert Matching([d], q) == MatchOne(d, q);
    assert Matching([c, d], q) == MatchOne(c, q) + MatchOne(d, q);
    assert Matching([b, c, d], q) == MatchOne(b, q) + (MatchOne(c, q) + MatchOne(d, q));
  }

  /** The announcement filtered, record by record. */
  lemma {:induction false} MatchingAnnouncement(s: Service, q: Question)
    ensures Matching(s.Announcement(), q)
         == MatchOne(s.EnumerationPtr(), q) + MatchOne(s.Ptr(), q) + MatchOne(s.Srv(), q) + MatchOne(s.TxtRecord(), q)
            + (if EqIgnoreCase(q.name, s.host) then OfType(s.AddressRecords(), q) else [])
  {
    hide EqIgnoreCase, Wants;
    MatchingConcat([s.EnumerationPtr(), s.Ptr(), s.Srv(), s.TxtRecord()], s.AddressRecords(), q);
    MatchingFour(s.EnumerationPtr(), s.Ptr(), s.Srv(), s.TxtRecord(), q);
    MatchingAddresses(s.AddressRecords(), s.host, q);
  }

  lemma {:induction false} DistinctMeansOneBranch(s: Service, q: Question)
    requires DistinctNames(s)
    ensures EqIgnoreCase(q.name, s.serviceType) ==>
              !EqIgnoreCase(q.name, ENUMERATION) && !EqIgnoreCase(q.name, s.instance)
    ensures EqIgnoreCase(q.name, ENUMERATION) ==> !EqIgnoreCase(q.name, s.instance)
    ensures s.addresses != [] && EqIgnoreCase(q.name, s.host) ==>
              && !EqIgnoreCase(q.name, s.serviceType) && !EqIgnoreCase(q.name, ENUMERATION)
              && !EqIgnoreCase(q.name, s.instance)
  {
    hide EqIgnoreCase;
    EqSymmetricTransitive(s.serviceType, q.name, ENUMERATION);
    EqSymmetricTransitive(s.serviceType, q.name, s.instance);
    EqSymmetricTransitive(ENUMERATION, q.name, s.instance);
    EqSymmetricTransitive(s.host, q.name, s.serviceType);
    EqSymmetricTransitive(s.host, q.name, ENUMERATION);
    EqSymmetricTransitive(s.host, q.name, s.instance);
  }

  lemma {:induction false} DistinctIsFilter(s: Service, q: Question)
    requires DistinctNames(s)
    ensures Consider(s, q).answers == Matching(s.Announcement(), q)
  {
    assert s.addresses == [] ==> OfType(s.AddressRecords(), q) == [];
    hide EqIgnoreCase, OfType, Matching;
    MatchingAnnouncement(s, q);
    DistinctMeansOneBranch(s, q);
    AddressTypes(s.AddressRecords(), q);
  }

  function Ask(name: Name): Question {
    Question(name, ANY, CLASS_IN, false)
  }

  /** When two heads coincide, asking for everything under that name shows the difference. */
  lemma {:induction false} ClashShows(s: Service) returns (q: Question)
    requires !DistinctNames(s)
    ensures |Consider(s, q).answers| < |Matching(s.Announcement(), q)|
  {
    hide EqIgnoreCase, OfType;
    EqReflexive(s.serviceType);
    EqReflexive(ENUMERATION);
    EqReflexive(s.instance);
    EqReflexive(s.host);
    EqSymmetricTransitive(s.serviceType, ENUMERATION, s.instance);
    q := if EqIgnoreCase(s.serviceType, ENUMERATION) || EqIgnoreCase(s.serviceType, s.instance) then Ask(s.serviceType)
         else if EqIgnoreCase(ENUMERATION, s.instance) then Ask(ENUMERATION)
         else Ask(s.host);
    MatchingAnnouncement(s, q);
    AddressTypes(s.AddressRecords(), q);
  }

  lemma {:induction false} EqReflexive(a: Name)
    ensures EqIgnoreCase(a, a)
  {
  }

  ghost predicate AnswersByFilter(s: Service) {
    forall q: Question :: Consider(s, q).answers == Matching(s.Announcement(), q)
  }

  /**
   * Answering is filtering the announcement, in order, for every question, exactly when no two of the names that
   * head records coincide ignoring case.
   */
  lemma {:induction false} AnswerIsFilterIff(s: Service)
    ensures AnswersByFilter(s) <==> DistinctNames(s)
  {
    if DistinctNames(s) {
      forall q: Question ensures Consider(s, q).answers == Matching(s.Announcement(), q) {
        DistinctIsFilter(s, q);
      }
    } else {
      var q := ClashShows(s);
    }
  }

  lemma {:induction false} AnswerIsUnsuppressedFilter(s: Service, q: Question, known: seq<Record>)
    requires DistinctNames(s)
    ensures AnswerTo(s, q, known).answers == Unsuppressed(Matching(s.Announcement(), q), known)
  {
    DistinctIsFilter(s, q);
  }

  lemma {:induction false} UnsuppressedWithin(rs: seq<Record>, known: seq<Record>)
    ensures forall r :: r in Unsuppressed(rs, known) <==> r in rs && !Suppressed(r, known)
  {
    hide Suppressed;
    if rs != [] {
      UnsuppressedWithin(rs[1..], known);
      assert rs == [rs[0]] + rs[1..];
    }
  }

  lemma {:induction false} OfTypeWithin(rs: seq<Record>, q: Question)
    ensures forall r :: r in OfType(rs, q) ==> r in rs
  {
    if rs != [] {
      OfTypeWithin(rs[1..], q);
      assert rs == [rs[0]] + rs[1..];
    }
  }

  /** Whatever the names: nothing is answered that is not announced, and nothing rides along that is not claimed. */
  lemma {:induction false} AnswerWithinOwnRecords(s: Service, q: Question, known: seq<Record>)
    ensures var a := AnswerTo(s, q, known);
            && (forall r :: r in a.answers ==> r in s.Announcement() && !Suppressed(r, known))
            && (forall r :: r in a.additional ==> r in s.Claimed())
            && (a.answers == [] ==> a.additional == [])
  {
    hide EqIgnoreCase, Suppressed;
    UnsuppressedWithin(Consider(s, q).answers, known);
    OfTypeWithin(s.AddressRecords(), q);
    var four := [s.EnumerationPtr(), s.Ptr(), s.Srv(), s.TxtRecord()];
    assert s.Ptr() == four[1] && s.Srv() == four[2] && s.TxtRecord() == four[3];
    assert s.Announcement() == four + s.AddressRecords();
  }

  /** What rides along: every claim with the service's pointer, the addresses with an SRV or TXT, nothing else. */
  lemma {:induction false} AdditionalIffAnswered(s: Service, q: Question, known: seq<Record>)
    requires DistinctNames(s)
    ensures var a := AnswerTo(s, q, known);
            a.additional == if s.Ptr() in a.answers then [s.Srv(), s.TxtRecord()] + s.AddressRecords()
                            else if s.Srv() in a.answers || s.TxtRecord() in a.answers then s.AddressRecords()
                            else []
  {
    var c := Consider(s, q);
    var a := AnswerTo(s, q, known);
    UnsuppressedWithin(c.answers, known);
    EqReflexive(ENUMERATION);
    OfTypeWithin(s.AddressRecords(), q);
    hide Unsuppressed, Suppressed, EqIgnoreCase, Wants, OfType;
    assert s.Ptr() != s.EnumerationPtr();
    if a.answers != [] {
      assert a.answers[0] in c.answers;
    }
  }
}
