/** Known-answer suppression across both halves: the querier's cache and the responder's test (RFC 6762 section 7.1). */
module Suppression {
  import opened Wire
  import opened Names
  import opened Records
  import opened Messages
  import opened Services
  import opened Caching

  ghost predicate Offered(e: Entry, name: Name, want: u16, now: nat, x: Record) {
    Wanted(e.record, name, want) && e.expires > now && x == e.record.(ttl := Remaining(e, now))
  }

  lemma {:induction false} KnownAnswersAre(es: seq<Entry>, name: Name, want: u16, now: nat)
    ensures forall x :: x in KnownAnswers(es, name, want, now) <==>
                          exists i :: 0 <= i < |es| && Offered(es[i], name, want, now, x)
  {
    hide Wanted, Remaining;
    if es != [] {
      var rest := es[1..];
      KnownAnswersAre(rest, name, want, now);
      forall x ensures x in KnownAnswers(es, name, want, now) <==>
                       exists i :: 0 <= i < |es| && Offered(es[i], name, want, now, x) {
        if i :| 0 <= i < |es| && Offered(es[i], name, want, now, x) {
          assert i > 0 ==> rest[i - 1] == es[i];
        }
        if x in KnownAnswers(rest, name, want, now) {
          var i :| 0 <= i < |rest| && Offered(rest[i], name, want, now, x);
          assert es[i + 1] == rest[i];
        }
      }
    }
  }

  /** Milliseconds the querier's copy of an answer still has to live. */
  function Left(m: Deadlines, k: AnswerKey, now: nat): nat {
    if k in m && m[k] > now then m[k] - now else 0
  }

  function HalfRoundedUp(ttl: u32): nat {
    (ttl + 1) / 2
  }

  lemma {:induction false} WantedFollows(a: Record, b: Record, name: Name, want: u16)
    requires SameAnswer(a, b)
    ensures Wanted(a, name, want) <==> Wanted(b, name, want)
  {
    EqSymmetricTransitive(a.name, b.name, name);
    EqSymmetricTransitive(b.name, a.name, name);
  }

  lemma {:induction false} DoublingTest(held: u32, ttl: u32)
    requires held <= ttl
    ensures held * 2 % 0x1_0000_0000 >= ttl <==> HalfRoundedUp(ttl) <= held < 0x8000_0000 || ttl == 0
  {
    if held >= 0x8000_0000 {
      assert held * 2 % 0x1_0000_0000 == held * 2 - 0x1_0000_0000;
    }
  }

  lemma {:induction false} TtlIsNotIdentity(r: Record, ttl: u32)
    ensures Key(r.(ttl := ttl)) == Key(r)
  {
  }

  /** The copy on offer for an answer carries what is left of it. */
  lemma {:induction false} OfferCarriesTheRest(e: Entry, m: Deadlines, c: Record, name: Name, want: u16, now: nat,
          x: Record)
    requires Key(e.record) in m && m[Key(e.record)] == e.expires
    requires Offered(e, name, want, now, x) && SameAnswer(x, c) && Left(m, Key(c), now) <= 1000 * c.ttl
    ensures x.ttl == Left(m, Key(c), now) / 1000 <= c.ttl
  {
    hide Wanted, SameAnswer, Key;
    SameAnswerIsKey(x, c);
    TtlIsNotIdentity(e.record, x.ttl);
  }

  lemma {:induction false} SuppressedMeansLeft(es: seq<Entry>, m: Deadlines, c: Record, name: Name, want: u16, now: nat)
    requires Implements(es, m) && c.ttl > 0 && Left(m, Key(c), now) <= 1000 * c.ttl
    requires Suppressed(c, KnownAnswers(es, name, want, now))
    ensures HalfRoundedUp(c.ttl) <= Left(m, Key(c), now) / 1000 < 0x8000_0000
  {
    hide Wanted, SameAnswer, Key, Offered, Left, KnownAnswers;
    var known := KnownAnswers(es, name, want, now);
    KnownAnswersAre(es, name, want, now);
    var i :| 0 <= i < |known| && Suppresses(known[i], c);
    assert known[i] in known;
    var j :| 0 <= j < |es| && Offered(es[j], name, want, now, known[i]);
    OfferCarriesTheRest(es[j], m, c, name, want, now, known[i]);
    DoublingTest(known[i].ttl, c.ttl);
  }

  lemma {:induction false} LeftMeansSuppressed(es: seq<Entry>, m: Deadlines, c: Record, name: Name, want: u16, now: nat)
    requires Implements(es, m) && c.ttl > 0 && Wanted(c, name, want) && Left(m, Key(c), now) <= 1000 * c.ttl
    requires HalfRoundedUp(c.ttl) <= Left(m, Key(c), now) / 1000 < 0x8000_0000
    ensures Suppressed(c, KnownAnswers(es, name, want, now))
  {
    hide Wanted, SameAnswer, Key, KnownAnswers;
    var known := KnownAnswers(es, name, want, now);
    KnownAnswersAre(es, name, want, now);
    assert Key(c) in m && m[Key(c)] > now;
    var j :| 0 <= j < |es| && Key(es[j].record) == Key(c);
    SameAnswerIsKey(es[j].record, c);
    WantedFollows(es[j].record, c, name, want);
    var x := es[j].record.(ttl := Remaining(es[j], now));
    assert Offered(es[j], name, want, now, x);
    TtlIsNotIdentity(es[j].record, x.ttl);
    SameAnswerIsKey(x, c);
    OfferCarriesTheRest(es[j], m, c, name, want, now, x);
    DoublingTest(x.ttl, c.ttl);
    assert x in known;
    var i :| 0 <= i < |known| && known[i] == x;
    assert Suppresses(known[i], c);
  }

  /**
   * A responder leaves an answer out exactly when the querier's copy, stored with the responder's own lifetime, has
   * at least half of it left in whole seconds - and fewer than 2^31 of them: past that the 32-bit doubling wraps and
   * the answer is sent although the copy is fresh. The known answers travel in the query's answer section.
   */
  lemma {:induction false} LeftOutIff(es: seq<Entry>, m: Deadlines, c: Record, name: Name, want: u16, now: nat,
          qs: seq<Question>)
    requires Implements(es, m) && c.ttl > 0 && Wanted(c, name, want) && Left(m, Key(c), now) <= 1000 * c.ttl
    requires WellFormedMessage(Query(qs, KnownAnswers(es, name, want, now)))
    ensures var q := Query(qs, KnownAnswers(es, name, want, now));
            && ReadMessage(MessageBytes(q)).Ok?
            && (Suppressed(c, ReadMessage(MessageBytes(q)).value.answers)
                <==> (c.ttl + 1) / 2 <= Left(m, Key(c), now) / 1000 < 0x8000_0000)
  {
    WellFormedRoundTrips(Query(qs, KnownAnswers(es, name, want, now)));
    hide MessageBytes, ReadMessage, Suppressed, Wanted, KnownAnswers, WellFormedMessage;
    if Suppressed(c, KnownAnswers(es, name, want, now)) {
      SuppressedMeansLeft(es, m, c, name, want, now);
    }
    if HalfRoundedUp(c.ttl) <= Left(m, Key(c), now) / 1000 < 0x8000_0000 {
      LeftMeansSuppressed(es, m, c, name, want, now);
    }
  }
}
