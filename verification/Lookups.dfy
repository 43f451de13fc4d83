/** One question and one reply: a browser that asks gets everything it needs to connect. */
module Lookups {
  import opened Wire
  import opened Names
  import opened NameText
  import opened Records
  import opened Messages
  import opened Caching
  import opened Services
  import opened Responders
  import opened ResponderEngines
  import opened Browsing
  import opened Discovery
  import opened BrowserRuns
  import opened Listings
  import Suppression

  // ---------------------------------------------------------------------
  // What is answered is told
  // ---------------------------------------------------------------------

  lemma {:induction false} SaysIsTold(rs: seq<Record>, r: Record)
    ensures Says(rs, r) <==> Told(rs, r)
  {
    forall i | 0 <= i < |rs| ensures SameAnswer(rs[i], r) <==> Key(rs[i]) == Key(r) {
      SameAnswerIsKey(rs[i], r);
    }
  }

  lemma {:induction false} MergeKeeps(held: seq<Record>, more: seq<Record>, r: Record)
    requires Says(held, r)
    ensures Says(Merge(held, more), r)
  {
    MergeSays(held, more, r);
  }

  /** What the draft says already, the rest of the questions do not take away. */
  lemma {:induction false} CollectKeeps(s: Service, qs: seq<Question>, known: seq<Record>, d: Draft, r: Record)
    ensures Says(d.answers, r) ==> Says(Collect(s, qs, known, d).answers, r)
    ensures Says(d.additional, r) ==> Says(Collect(s, qs, known, d).additional, r)
    decreases |qs|
  {
    hide AnswerTo, Says, Merge;
    if qs != [] {
      var a := AnswerTo(s, qs[0], known);
      var next := if a.answers == [] then d
                  else Draft(Merge(d.answers, a.answers), Merge(d.additional, a.additional),
                             d.unicast || qs[0].unicastResponse);
      if Says(d.answers, r) {
        MergeKeeps(d.answers, a.answers, r);
      }
      if Says(d.additional, r) {
        MergeKeeps(d.additional, a.additional, r);
      }
      CollectKeeps(s, qs[1..], known, next, r);
    }
  }

  /** Every question that is answered at all has its whole answer in the collection. */
  lemma {:induction false} CollectTells(s: Service, qs: seq<Question>, known: seq<Record>, d: Draft, i: nat, r: Record)
    requires i < |qs| && AnswerTo(s, qs[i], known).answers != []
    ensures r in AnswerTo(s, qs[i], known).answers ==> Says(Collect(s, qs, known, d).answers, r)
    ensures r in AnswerTo(s, qs[i], known).additional ==> Says(Collect(s, qs, known, d).additional, r)
    decreases |qs|
  {
    hide AnswerTo, Says, Merge;
    var a := AnswerTo(s, qs[0], known);
    var next := if a.answers == [] then d
                else Draft(Merge(d.answers, a.answers), Merge(d.additional, a.additional),
                           d.unicast || qs[0].unicastResponse);
    if i > 0 {
      CollectTells(s, qs[1..], known, next, i - 1, r);
    } else {
      if r in a.answers {
        MergeSays(d.answers, a.answers, r);
      }
      if r in a.additional {
        MergeSays(d.additional, a.additional, r);
      }
      CollectKeeps(s, qs[1..], known, next, r);
    }
  }

  lemma {:induction false} NobodyAsksForUnicast(s: Service, qs: seq<Question>, known: seq<Record>, d: Draft)
    requires (forall i :: 0 <= i < |qs| ==> !qs[i].unicastResponse) && !d.unicast
    ensures !Collect(s, qs, known, d).unicast
    decreases |qs|
  {
    hide AnswerTo, Merge;
    if qs != [] {
      assert forall i :: 0 <= i < |qs[1..]| ==> qs[1..][i] == qs[i + 1];
      var a := AnswerTo(s, qs[0], known);
      NobodyAsksForUnicast(s, qs[1..], known,
                           if a.answers == [] then d
                           else Draft(Merge(d.answers, a.answers), Merge(d.additional, a.additional),
                                      d.unicast || qs[0].unicastResponse));
    }
  }

  /** A record told by either section of a reply. */
  lemma {:induction false} ToldInReply(answers: seq<Record>, additional: seq<Record>, r: Record)
    requires Says(answers, r) || Says(additional, r)
    ensures Told(answers + additional, r)
  {
    var rs := answers + additional;
    if Says(answers, r) {
      SaysIsTold(answers, r);
      var i :| 0 <= i < |answers| && Key(answers[i]) == Key(r);
      assert rs[i] == answers[i];
    } else {
      SaysIsTold(additional, r);
      var i :| 0 <= i < |additional| && Key(additional[i]) == Key(r);
      assert rs[|answers| + i] == additional[i];
    }
  }

  // ---------------------------------------------------------------------
  // The query
  // ---------------------------------------------------------------------

  lemma {:induction false} NeedingAre(es: seq<Entry>, instances: seq<Name>)
    ensures |Needing(es, instances)| <= |instances|
    ensures forall n :: n in Needing(es, instances) <==> n in instances && NeedsDetail(es, n)
  {
    hide NeedsDetail;
    if instances != [] {
      NeedingAre(es, instances[1..]);
      assert instances == [instances[0]] + instances[1..];
    }
  }

  lemma {:induction false} DetailQuestionsAre(instances: seq<Name>)
    ensures |DetailQuestions(instances)| == 2 * |instances|
    ensures forall q :: q in DetailQuestions(instances)
                        <==> exists n :: n in instances && (q == Asking(n, SRV) || q == Asking(n, TXT))
  {
    if instances != [] {
      var rest := instances[1..];
      DetailQuestionsAre(rest);
      assert instances == [instances[0]] + rest;
      forall q ensures q in DetailQuestions(instances)
                       <==> exists n :: n in instances && (q == Asking(n, SRV) || q == Asking(n, TXT)) {
        if q in DetailQuestions(instances) && q != Asking(instances[0], SRV) && q != Asking(instances[0], TXT) {
          assert q in DetailQuestions(rest);
          var n :| n in rest && (q == Asking(n, SRV) || q == Asking(n, TXT));
          assert n in instances;
        }
        if n :| n in instances && (q == Asking(n, SRV) || q == Asking(n, TXT)) {
          assert n == instances[0] || n in rest;
        }
      }
    } else {
      assert DetailQuestions(instances) == [];
    }
  }

  lemma {:induction false} HeldBound(es: seq<Entry>, name: Name, want: u16, now: nat)
    ensures |Held(es, name, want)| <= |es| && |KnownAnswers(es, name, want, now)| <= |es|
  {
    hide Wanted, Remaining;
    if es != [] {
      HeldBound(es[1..], name, want, now);
    }
  }

  lemma {:induction false} InstancesBound(rs: seq<Record>)
    ensures |Instances(rs)| <= |rs|
  {
    if rs != [] {
      InstancesBound(rs[1..]);
    }
  }

  lemma {:induction false} QuestionsAre(serviceType: Name, es: seq<Entry>, now: nat)
    ensures var qs := QueryOf(serviceType, es, now).questions;
            && 1 <= |qs| <= 1 + 2 * |es| && qs[0] == Asking(serviceType, PTR)
            && (forall q :: q in qs ==> !q.unicastResponse && q.qclass == CLASS_IN)
            && (forall q :: q in qs ==> q.name == serviceType || q.name in Instances(Held(es, serviceType, PTR)))
            && (forall n :: n in Instances(Held(es, serviceType, PTR)) && NeedsDetail(es, n) ==> Asking(n, SRV) in qs)
            && (forall n :: n in Instances(Held(es, serviceType, PTR)) && NeedsDetail(es, n) ==> Asking(n, TXT) in qs)
  {
    var held := Held(es, serviceType, PTR);
    var instances := Instances(held);
    HeldBound(es, serviceType, PTR, now);
    InstancesBound(held);
    NeedingAre(es, instances);
    hide Held, Instances, Needing, DetailQuestions, NeedsDetail, KnownAnswers;
    var wanted := Needing(es, instances);
    DetailQuestionsAre(wanted);
    var qs := QueryOf(serviceType, es, now).questions;
    assert qs == [Asking(serviceType, PTR)] + DetailQuestions(wanted);
    forall q | q in qs ensures q.name == serviceType || q.name in instances {
      assert q == Asking(serviceType, PTR) || q in DetailQuestions(wanted);
    }
  }

  lemma {:induction false} KnownWellFormed(es: seq<Entry>, name: Name, want: u16, now: nat)
    requires WellFormedEntries(es)
    ensures forall x :: x in KnownAnswers(es, name, want, now) ==> WellFormedRecord(x) && Wanted(x, name, want)
  {
    Suppression.KnownAnswersAre(es, name, want, now);
    hide KnownAnswers, Remaining, WellFormed, WellFormedData, EqIgnoreCase;
    forall x | x in KnownAnswers(es, name, want, now) ensures WellFormedRecord(x) && Wanted(x, name, want) {
      var i :| 0 <= i < |es| && Suppression.Offered(es[i], name, want, now, x);
    }
  }

  lemma {:induction false} PointeesWellFormed(es: seq<Entry>, serviceType: Name)
    requires WellFormedEntries(es)
    ensures forall n :: n in Instances(Held(es, serviceType, PTR)) ==> WellFormed(n)
    ensures forall n :: n in Instances(Held(es, serviceType, PTR)) <==> Cached(es, serviceType, n)
  {
    assert forall i :: 0 <= i < |es| ==> WellFormedRecord(es[i].record);
    InstancesAre(es, serviceType);
    hide Instances, Held, WellFormed;
    forall n | Cached(es, serviceType, n) ensures WellFormed(n) {
      var i :| 0 <= i < |es| && PointsTo(es[i].record, serviceType, n);
      assert WellFormedRecord(es[i].record);
    }
  }

  /** The 16-bit counts of a message can say how many questions and known answers it carries. */
  predicate CountsFit(q: Message) {
    |q.questions| < 0x1_0000 && |q.answers| < 0x1_0000
  }

  /** The query survives the wire exactly when its counts do, and those of a cache below 32767 entries always do. */
  lemma {:induction false} QueryWellFormedIff(serviceType: Name, es: seq<Entry>, now: nat)
    requires WellFormed(serviceType) && WellFormedEntries(es)
    ensures WellFormedMessage(QueryOf(serviceType, es, now)) <==> CountsFit(QueryOf(serviceType, es, now))
    ensures |es| < 0x7FFF ==> CountsFit(QueryOf(serviceType, es, now))
  {
    HeldBound(es, serviceType, PTR, now);
    KnownWellFormed(es, serviceType, PTR, now);
    PointeesWellFormed(es, serviceType);
    QuestionsAre(serviceType, es, now);
    hide KnownAnswers, Held, Instances, WellFormed, WellFormedRecord, NeedsDetail, DetailQuestions, Needing;
    var m := QueryOf(serviceType, es, now);
    forall i | 0 <= i < |m.questions| ensures WellFormedQuestion(m.questions[i]) {
      assert m.questions[i] in m.questions;
    }
    forall i | 0 <= i < |m.answers| ensures WellFormedRecord(m.answers[i]) {
      assert m.answers[i] in m.answers;
    }
  }

  lemma {:induction false} SectionSizes(qs: seq<Question>, rs: seq<Record>)
    ensures |qs| <= |QuestionsBytes(qs)| && |rs| <= |RecordsBytes(rs)|
    decreases |qs| + |rs|
  {
    hide QuestionBytes, RecordBytes, QuestionsBytes, RecordsBytes;
    QuestionsCons(qs);
    RecordsCons(rs);
    if qs != [] {
      QuestionSize(qs[0]);
      SectionSizes(qs[1..], rs);
    } else if rs != [] {
      RecordSize(rs[0]);
      SectionSizes(qs, rs[1..]);
    }
  }

  lemma {:induction false} QuestionSize(q: Question)
    ensures |QuestionBytes(q)| >= 1
  {
  }

  lemma {:induction false} RecordSize(r: Record)
    ensures |RecordBytes(r)| >= 1
  {
  }

  /** A query with more than the counts can say is longer than any datagram. */
  lemma {:induction false} DatagramCountsFit(m: Message)
    requires |MessageBytes(m)| < 0x1_0000
    ensures CountsFit(m)
  {
    SectionSizes(m.questions, m.answers);
    hide QuestionsBytes, RecordsBytes, HeaderBytes;
  }

  // ---------------------------------------------------------------------
  // The reply
  // ---------------------------------------------------------------------

  lemma {:induction false} UnsuppressedOne(r: Record, known: seq<Record>)
    requires !Suppressed(r, known)
    ensures Unsuppressed([r], known) == [r]
  {
    hide Suppressed;
    assert [r][1..] == [] && Unsuppressed([r][1..], known) == [];
  }

  /** Asked for its service type, a responder whose pointer is not suppressed tells all it claims along with it. */
  lemma {:induction false} PointerAnswered(s: Service, known: seq<Record>)
    requires !Suppressed(s.Ptr(), known)
    ensures AnswerTo(s, Asking(s.serviceType, PTR), known).answers == [s.Ptr()]
    ensures forall r :: r in s.Claimed() ==> r in AnswerTo(s, Asking(s.serviceType, PTR), known).additional
  {
    EqReflexive(s.serviceType);
    UnsuppressedOne(s.Ptr(), known);
    hide EqIgnoreCase, Suppressed, Unsuppressed;
  }

  /** Asked for its SRV or TXT, a responder answers, and tells its addresses along with them. */
  lemma {:induction false} DetailAnswered(s: Service, known: seq<Record>)
    requires forall x :: x in known ==> RType(x.data) == PTR
    ensures AnswerTo(s, Asking(s.instance, SRV), known) == Answer([s.Srv()], s.AddressRecords())
    ensures AnswerTo(s, Asking(s.instance, TXT), known) == Answer([s.TxtRecord()], s.AddressRecords())
  {
    EqReflexive(s.instance);
    assert !Suppressed(s.Srv(), known) && !Suppressed(s.TxtRecord(), known) by {
      assert forall i :: 0 <= i < |known| ==> known[i] in known;
    }
    UnsuppressedOne(s.Srv(), known);
    UnsuppressedOne(s.TxtRecord(), known);
    hide EqIgnoreCase, Suppressed, Unsuppressed;
    assert [] + [s.TxtRecord()] == [s.TxtRecord()] && [s.Srv()] + [] == [s.Srv()];
  }

  lemma {:induction false} HeldUnder(es: seq<Entry>, m: Deadlines, name: Name, want: u16, x: Record)
    requires Implements(es, m) && x in Held(es, name, want)
    ensures Key(x) in m && Key(x).name == Fold(name)
  {
    HeldAre(es, name, want);
    hide Held, Wanted, Fold;
    WantedMeans(x, name, want);
    var i :| 0 <= i < |es| && es[i].record == x;
  }

  lemma {:induction false} UnheardNeedsDetail(es: seq<Entry>, m: Deadlines, s: Service)
    requires Implements(es, m) && Unheard(m, s)
    ensures NeedsDetail(es, s.instance)
  {
    hide Held, Implements, Fold;
    var held := Held(es, s.instance, SRV);
    if held != [] {
      HeldUnder(es, m, s.instance, SRV, held[0]);
    }
  }

  /** A pointer that is left out because it is known is in the cache, and its instance is asked about. */
  lemma {:induction false} SuppressedPointerIsHeld(es: seq<Entry>, m: Deadlines, s: Service, now: nat)
    requires Implements(es, m) && Suppressed(s.Ptr(), KnownAnswers(es, s.serviceType, PTR, now))
    ensures Key(s.Ptr()) in m && Cached(es, s.serviceType, s.instance)
  {
    var known := KnownAnswers(es, s.serviceType, PTR, now);
    Suppression.KnownAnswersAre(es, s.serviceType, PTR, now);
    hide KnownAnswers, Remaining, Wanted;
    var k :| 0 <= k < |known| && Suppresses(known[k], s.Ptr());
    var x := known[k];
    assert x in known;
    var i :| 0 <= i < |es| && Suppression.Offered(es[i], s.serviceType, PTR, now, x);
    SameAnswerIsKey(x, s.Ptr());
    assert Key(es[i].record) == Key(s.Ptr());
    EqIsFold(es[i].record.name, s.serviceType);
    assert PointsTo(es[i].record, s.serviceType, s.instance);
  }

  lemma {:induction false} AnswerTold(s: Service, qs: seq<Question>, known: seq<Record>, q: Question, r: Record)
    requires q in qs && (r in AnswerTo(s, q, known).answers || r in AnswerTo(s, q, known).additional)
    ensures var d := Collect(s, qs, known, Draft([], [], false));
            Told(d.answers + d.additional, r) && d.answers != []
  {
    AnswerWithinOwnRecords(s, q, known);
    hide AnswerTo, Collect, Told;
    var i :| 0 <= i < |qs| && qs[i] == q;
    CollectTells(s, qs, known, Draft([], [], false), i, r);
    CollectTells(s, qs, known, Draft([], [], false), i, AnswerTo(s, q, known).answers[0]);
    var d := Collect(s, qs, known, Draft([], [], false));
    assert d.answers != [];
    hide Says;
    ToldInReply(d.answers, d.additional, r);
  }

  /** The reply to these questions tells all that is claimed. */
  ghost predicate TellsClaimed(s: Service, qs: seq<Question>, known: seq<Record>) {
    var d := Collect(s, qs, known, Draft([], [], false));
    d.answers != [] && forall r :: r in s.Claimed() ==> Told(d.answers + d.additional, r)
  }

  lemma {:induction false} TellsByPointer(s: Service, qs: seq<Question>, known: seq<Record>)
    requires Asking(s.serviceType, PTR) in qs && !Suppressed(s.Ptr(), known)
    ensures TellsClaimed(s, qs, known)
    ensures var d := Collect(s, qs, known, Draft([], [], false)); Told(d.answers + d.additional, s.Ptr())
  {
    var q := Asking(s.serviceType, PTR);
    PointerAnswered(s, known);
    hide Collect, AnswerTo, Told, Asking, Service.Claimed, Service.Ptr;
    AnswerTold(s, qs, known, q, s.Ptr());
    forall r | r in s.Claimed()
      ensures var d := Collect(s, qs, known, Draft([], [], false)); Told(d.answers + d.additional, r)
    {
      AnswerTold(s, qs, known, q, r);
    }
  }

  lemma {:induction false} TellsByDetail(s: Service, qs: seq<Question>, known: seq<Record>)
    requires Asking(s.instance, SRV) in qs && Asking(s.instance, TXT) in qs
    requires forall x :: x in known ==> RType(x.data) == PTR
    ensures TellsClaimed(s, qs, known)
  {
    DetailAnswered(s, known);
    assert s.Claimed() == [s.Srv(), s.TxtRecord()] + s.AddressRecords();
    hide Collect, AnswerTo, Told, Asking, Service.Claimed, Service.Srv, Service.TxtRecord, Service.AddressRecords;
    AnswerTold(s, qs, known, Asking(s.instance, SRV), s.Srv());
    forall r | r in s.Claimed()
      ensures var d := Collect(s, qs, known, Draft([], [], false)); Told(d.answers + d.additional, r)
    {
      if r == s.TxtRecord() {
        AnswerTold(s, qs, known, Asking(s.instance, TXT), r);
      } else {
        AnswerTold(s, qs, known, Asking(s.instance, SRV), r);
      }
    }
  }

  /** Whatever the browser knew, the reply to its query tells all that is claimed, and the pointer unless it is held. */
  lemma {:induction false} ReplyTellsAll(s: Service, es: seq<Entry>, m: Deadlines, now: nat)
    requires Implements(es, m) && Unheard(m, s) && WellFormedEntries(es)
    ensures var q := QueryOf(s.serviceType, es, now);
            var d := Collect(s, q.questions, q.answers, Draft([], [], false));
            TellsClaimed(s, q.questions, q.answers) && (Told(d.answers + d.additional, s.Ptr()) || Key(s.Ptr()) in m)
  {
    var q := QueryOf(s.serviceType, es, now);
    var known := KnownAnswers(es, s.serviceType, PTR, now);
    QuestionsAre(s.serviceType, es, now);
    KnownWellFormed(es, s.serviceType, PTR, now);
    assert q.questions[0] in q.questions && q.answers == known;
    assert forall x :: x in known ==> RType(x.data) == PTR;
    hide Collect, TellsClaimed, Told, KnownAnswers, QueryOf, Held, Instances, NeedsDetail, Suppressed, Implements,
         Unheard,
         WellFormedRecord, Wanted, WellFormedEntries;
    if Suppressed(s.Ptr(), known) {
      SuppressedPointerIsHeld(es, m, s, now);
      PointeesWellFormed(es, s.serviceType);
      UnheardNeedsDetail(es, m, s);
      TellsByDetail(s, q.questions, known);
    } else {
      TellsByPointer(s, q.questions, known);
    }
  }

  // ---------------------------------------------------------------------
  // What is suppressed is not told
  // ---------------------------------------------------------------------

  lemma {:induction false} MergeFrom(held: seq<Record>, more: seq<Record>)
    ensures forall r :: r in Merge(held, more) ==> r in held || r in more
    decreases |more|
  {
    hide Says;
    if more != [] {
      assert more == [more[0]] + more[1..];
      MergeFrom(if Says(held, more[0]) then held else held + [more[0]], more[1..]);
    }
  }

  ghost predicate Unspoken(s: Service, known: seq<Record>, d: Draft) {
    && (forall r :: r in d.answers ==> r in s.Announcement() && !Suppressed(r, known))
    && forall r :: r in d.additional ==> r in s.Claimed()
  }

  lemma {:induction false} CollectUnspoken(s: Service, qs: seq<Question>, known: seq<Record>, d: Draft)
    requires Unspoken(s, known, d)
    ensures Unspoken(s, known, Collect(s, qs, known, d))
    decreases |qs|
  {
    hide AnswerTo, Suppressed, Service.Announcement, Service.Claimed;
    if qs != [] {
      var a := AnswerTo(s, qs[0], known);
      AnswerWithinOwnRecords(s, qs[0], known);
      MergeFrom(d.answers, a.answers);
      MergeFrom(d.additional, a.additional);
      CollectUnspoken(s, qs[1..], known,
                      if a.answers == [] then d
                      else Draft(Merge(d.answers, a.answers), Merge(d.additional, a.additional),
                                 d.unicast || qs[0].unicastResponse));
    }
  }

  /** What says the pointer is as suppressed as the pointer, and is nothing that is claimed. */
  lemma {:induction false} PointerSaid(s: Service, known: seq<Record>, r: Record)
    requires r in s.Announcement() && Key(r) == Key(s.Ptr())
    ensures r !in s.Claimed() && (Suppressed(s.Ptr(), known) ==> Suppressed(r, known))
  {
    assert s.Announcement() == [s.EnumerationPtr(), s.Ptr()] + s.Claimed();
    assert s.Claimed() == [s.Srv(), s.TxtRecord()] + s.AddressRecords();
    assert r.data.DataPtr? && r.ttl == s.serviceTtl;
    if Suppressed(s.Ptr(), known) {
      var i :| 0 <= i < |known| && Suppresses(known[i], s.Ptr());
      SameAnswerIsKey(known[i], s.Ptr());
      SameAnswerIsKey(known[i], r);
      assert Suppresses(known[i], r);
    }
  }

  lemma {:induction false} SuppressedIsNotTold(s: Service, qs: seq<Question>, known: seq<Record>)
    requires Suppressed(s.Ptr(), known)
    ensures var d := Collect(s, qs, known, Draft([], [], false)); !Told(d.answers + d.additional, s.Ptr())
  {
    CollectUnspoken(s, qs, known, Draft([], [], false));
    ClaimedIsAnnounced(s);
    hide Collect, Key, Suppressed, Service.Announcement, Service.Claimed;
    var d := Collect(s, qs, known, Draft([], [], false));
    var rs := d.answers + d.additional;
    forall i | 0 <= i < |rs| ensures Key(rs[i]) != Key(s.Ptr()) {
      assert rs[i] in d.answers || rs[i] in d.additional;
      if Key(rs[i]) == Key(s.Ptr()) {
        PointerSaid(s, known, rs[i]);
      }
    }
  }

  // ---------------------------------------------------------------------
  // Question and reply
  // ---------------------------------------------------------------------

  /** The query a browser with this cache sends, as it goes out. */
  function QuerySent(s: Service, es: seq<Entry>, now: nat): Payload {
    MessageBytes(QueryOf(s.serviceType, es, now))
  }

  /** The responder's pointer is among the known answers, with half its lifetime left. */
  predicate KnowsPointer(s: Service, es: seq<Entry>, now: nat) {
    Suppressed(s.Ptr(), KnownAnswers(es, s.serviceType, PTR, now))
  }

  /** Reading the query off the wire, the responder sends this reply to the group. */
  predicate Replies(s: Service, query: Payload, reply: Payload) {
    && ReadMessage(query).Ok? && Reply(s, ReadMessage(query).value).Some?
    && reply == MessageBytes(Reply(s, ReadMessage(query).value).value)
    && Datagram(reply, Group) in Deliveries(s, ReadMessage(query).value)
  }

  lemma {:induction false} ReplyToGroup(s: Service, q: Message) returns (told: Message)
    requires s.WellFormedService() && WellFormedMessage(q)
    requires forall i :: 0 <= i < |q.questions| ==> !q.questions[i].unicastResponse
    requires Collect(s, q.questions, q.answers, Draft([], [], false)).answers != []
    ensures Replies(s, MessageBytes(q), MessageBytes(told)) && WellFormedMessage(told) && IsResponse(told)
    ensures var d := Collect(s, q.questions, q.answers, Draft([], [], false));
            told.answers + told.additional == d.answers + d.additional && AllAnnounced(d.answers + d.additional, s)
  {
    told := Reply(s, q).value;
    hide MessageBytes, ReadMessage, Collect, Deliveries, WellFormedMessage, Service.WellFormedService;
    WellFormedRoundTrips(q);
    NobodyAsksForUnicast(s, q.questions, q.answers, Draft([], [], false));
    DeliveriesAre(s, q);
    ReplyWithin(s, q);
  }

  /** The query of a browser that holds no details of a service draws a reply with all of them. */
  lemma {:induction false} AskingTells(s: Service, es: seq<Entry>, m: Deadlines, now: nat) returns (told: Message)
    requires s.WellFormedService() && CountsFit(QueryOf(s.serviceType, es, now))
    requires Implements(es, m) && Unheard(m, s) && Sane(es)
    ensures Replies(s, QuerySent(s, es, now), MessageBytes(told)) && WellFormedMessage(told) && IsResponse(told)
    ensures var rs := told.answers + told.additional;
            && AllAnnounced(rs, s) && (forall r :: r in s.Claimed() ==> Told(rs, r))
            && (Told(rs, s.Ptr()) <==> !KnowsPointer(s, es, now))
  {
    var q := QueryOf(s.serviceType, es, now);
    QueryWellFormedIff(s.serviceType, es, now);
    QuestionsAre(s.serviceType, es, now);
    ReplyTellsAll(s, es, m, now);
    hide MessageBytes, QueryOf, Collect, Told, Implements, Unheard, WellFormedEntries, KnownAnswers, AllAnnounced,
         WellFormedMessage, Replies, Sane, IsResponse, Service.WellFormedService, Suppressed;
    told := ReplyToGroup(s, q);
    if KnowsPointer(s, es, now) {
      SuppressedIsNotTold(s, q.questions, q.answers);
    } else {
      TellsByPointer(s, q.questions, q.answers);
    }
  }

  /**
   * A browser that after any run holds nothing under an instance's or its host's name - it may know the pointer, or not
   * - sends its query; the responder, reading it off the wire, replies to the group; whatever happens until the reply
   * arrives, short of hearing of the instance from elsewhere, the browser then lists the instance with exactly its
   * host, port, addresses and TXT pairs if and only if its known answers did not hold the pointer back, or the cache
   * still points to the instance, or the instance stood resolved so before.
   */
  lemma {:induction false} AskingResolvesIff(s: Service, hs: seq<Happening>, now: nat, between: seq<Happening>,
          later: nat) returns (reply: Payload)
    requires s.WellFormedService() && s.hostTtl > 0 && s.serviceTtl > 0 && s.addresses != []
    requires NothingHeard(Reached(s, hs).entries, s) && CountsFit(QueryOf(s.serviceType, Reached(s, hs).entries, now))
    requires NothingHeard(Reached(s, hs + between).entries, s)
    ensures Replies(s, QuerySent(s, Reached(s, hs).entries, now), reply)
    ensures Resolves(Reached(s, hs + between + [Arrives(reply, later)]).board, s)
       <==> || !KnowsPointer(s, Reached(s, hs).entries, now) || Resolves(Reached(s, hs + between).board, s)
            || Cached(Reached(s, hs + between).entries, s.serviceType, s.instance)
  {
    ReachedSane(s, hs);
    var es := Reached(s, hs).entries;
    hide Reached, NothingHeard, MessageBytes, QueryOf, Implements, Unheard, Resolves, Cached, Told, KnowsPointer,
         Replies, WellFormedMessage, IsResponse, Service.WellFormedService, AllAnnounced, QuerySent;
    var m := NothingHeardMap(es, s);
    var told := AskingTells(s, es, m, now);
    reply := MessageBytes(told);
    TellingResolvesIff(s, hs + between, told, later);
  }

  lemma {:induction false} HoldsIsCached(es: seq<Entry>, s: Service)
    requires Holds(es, s.Ptr())
    ensures Cached(es, s.serviceType, s.instance)
  {
    var i :| 0 <= i < |es| && SameAnswer(es[i].record, s.Ptr());
    assert PointsTo(es[i].record, s.serviceType, s.instance);
  }

  lemma {:induction false} KnownPointerIsHeld(es: seq<Entry>, s: Service, now: nat)
    requires KnowsPointer(s, es, now)
    ensures Holds(es, s.Ptr())
  {
    var known := KnownAnswers(es, s.serviceType, PTR, now);
    Suppression.KnownAnswersAre(es, s.serviceType, PTR, now);
    hide KnownAnswers, Remaining, Wanted, EqIgnoreCase;
    var k :| 0 <= k < |known| && Suppresses(known[k], s.Ptr());
    assert known[k] in known;
    var i :| 0 <= i < |es| && Suppression.Offered(es[i], s.serviceType, PTR, now, known[k]);
    assert SameAnswer(es[i].record, s.Ptr());
  }

  /** One round trip is enough, as section 12 of RFC 6763 wants it, unless a held pointer is lost meanwhile. */
  lemma {:induction false} AskingResolves(s: Service, hs: seq<Happening>, now: nat, between: seq<Happening>, later: nat)
      returns (reply: Payload)
    requires s.WellFormedService() && s.hostTtl > 0 && s.serviceTtl > 0 && s.addresses != []
    requires NothingHeard(Reached(s, hs).entries, s) && CountsFit(QueryOf(s.serviceType, Reached(s, hs).entries, now))
    requires NothingHeard(Reached(s, hs + between).entries, s)
    requires Holds(Reached(s, hs).entries, s.Ptr()) ==> Holds(Reached(s, hs + between).entries, s.Ptr())
    ensures Replies(s, QuerySent(s, Reached(s, hs).entries, now), reply)
    ensures Resolves(Reached(s, hs + between + [Arrives(reply, later)]).board, s)
  {
    hide Reached, NothingHeard, QueryOf, Resolves, Cached, KnowsPointer, Replies, Service.WellFormedService, Holds,
         QuerySent;
    reply := AskingResolvesIff(s, hs, now, between, later);
    if KnowsPointer(s, Reached(s, hs).entries, now) {
      KnownPointerIsHeld(Reached(s, hs).entries, s, now);
      HoldsIsCached(Reached(s, hs + between).entries, s);
    }
  }

  // ---------------------------------------------------------------------
  // The pointer that runs out meanwhile
  // ---------------------------------------------------------------------

  lemma {:induction false} FreshPointerIsKnown(s: Service)
    requires 0 < s.serviceTtl < 0x8000_0000
    ensures KnowsPointer(s, [Entry(s.Ptr(), Deadline(s.Ptr(), 0))], 0)
  {
    var e := Entry(s.Ptr(), Deadline(s.Ptr(), 0));
    EqReflexive(s.serviceType);
    assert Remaining(e, 0) == s.serviceTtl;
    assert [e][1..] == [] && KnownAnswers([], s.serviceType, PTR, 0) == [];
    var known := KnownAnswers([e], s.serviceType, PTR, 0);
    assert known == [s.Ptr()];
    assert Suppresses(known[0], s.Ptr());
  }

  /** After the pointer's whole lifetime nothing is left of it, in the cache or on the table. */
  lemma {:induction false} LonePointerExpires(s: Service, b: Browser)
    requires b.entries == [Entry(s.Ptr(), Deadline(s.Ptr(), 0))]
    ensures var t := After1(s.serviceType, b, Ticks(1000 * s.serviceTtl));
            t.entries == [] && Display(s.instance) !in t.board.known
  {
    var now := 1000 * s.serviceTtl;
    EqReflexive(s.serviceType);
    assert b.entries[1..] == [] && Live([], now) == [];
    hide Display, EqIgnoreCase, Dead, LoseAll;
    DeadPointerIsLost(b.entries, s.serviceType, now, 0, s.instance);
    LoseAllKeys(s.serviceType, b.board, Dead(b.entries, now));
  }

  lemma {:induction false} LonePointerArrives(s: Service)
    requires s.WellFormedService() && s.serviceTtl > 0
    ensures Reached(s, [Alone(s.Ptr(), 0)]).entries == [Entry(s.Ptr(), Deadline(s.Ptr(), 0))]
  {
    EqReflexive(s.serviceType);
    assert WellFormedRecord(s.Ptr());
    hide After1, Run, Alone, WellFormedRecord, Cached;
    RunOfTwo(s.serviceType, Alone(s.Ptr(), 0), Alone(s.Ptr(), 0));
    FirstPointer(s.serviceType, s.Ptr(), 0);
  }

  lemma {:induction false} LonePointerRun(s: Service)
    requires s.WellFormedService() && s.serviceTtl > 0
    ensures var hs, between := [Alone(s.Ptr(), 0)], [Ticks(1000 * s.serviceTtl)];
            && Reached(s, hs).entries == [Entry(s.Ptr(), Deadline(s.Ptr(), 0))]
            && Reached(s, hs + between).entries == []
            && Display(s.instance) !in Reached(s, hs + between).board.known
  {
    var hs, expiry := [Alone(s.Ptr(), 0)], Ticks(1000 * s.serviceTtl);
    hide Run, After1, Alone, Display, Service.WellFormedService;
    LonePointerArrives(s);
    LonePointerExpires(s, Reached(s, hs));
    RunSnoc(s.serviceType, FRESH, hs, expiry);
  }

  lemma {:induction false} LonePointerQuery(s: Service)
    requires s.WellFormedService() && 0 < s.serviceTtl < 0x8000_0000
    requires !EqIgnoreCase(s.serviceType, s.instance) && !EqIgnoreCase(s.serviceType, s.host)
    ensures var es := [Entry(s.Ptr(), Deadline(s.Ptr(), 0))];
            NothingHeard(es, s) && CountsFit(QueryOf(s.serviceType, es, 0)) && KnowsPointer(s, es, 0)
  {
    FreshPointerIsKnown(s);
    assert WellFormedRecord(s.Ptr());
    hide EqIgnoreCase, KnowsPointer, QueryOf, CountsFit, WellFormedRecord;
    QueryWellFormedIff(s.serviceType, [Entry(s.Ptr(), Deadline(s.Ptr(), 0))], 0);
  }

  lemma {:induction false} NothingLeft(s: Service, b: Browser)
    requires b.entries == [] && Display(s.instance) !in b.board.known
    ensures NothingHeard(b.entries, s) && !Cached(b.entries, s.serviceType, s.instance) && !Resolves(b.board, s)
  {
  }

  /**
   * How it fails. The pointer arrives alone, is offered with the query as known and so left out of the reply, and runs
   * out before the reply is there: the details come, and the instance is not resolved.
   */
  lemma {:induction false} PointerRunsOutMeanwhile(s: Service, later: nat) returns (reply: Payload)
    requires s.WellFormedService() && s.hostTtl > 0 && 0 < s.serviceTtl < 0x8000_0000 && s.addresses != []
    requires !EqIgnoreCase(s.serviceType, s.instance) && !EqIgnoreCase(s.serviceType, s.host)
    ensures var hs, between := [Alone(s.Ptr(), 0)], [Ticks(1000 * s.serviceTtl)];
            && Replies(s, QuerySent(s, Reached(s, hs).entries, 0), reply)
            && !Resolves(Reached(s, hs + between + [Arrives(reply, later)]).board, s)
  {
    var hs, between := [Alone(s.Ptr(), 0)], [Ticks(1000 * s.serviceTtl)];
    LonePointerRun(s);
    LonePointerQuery(s);
    NothingLeft(s, Reached(s, hs + between));
    hide Reached, NothingHeard, Alone, Display, Cached, Resolves, Replies, QuerySent, KnowsPointer, QueryOf, CountsFit,
         Deadline, Service.WellFormedService, EqIgnoreCase;
    reply := AskingResolvesIff(s, hs, 0, between, later);
  }
}
