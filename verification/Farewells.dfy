/** The way out: a service's goodbye takes its instance off a browser's table. */
module Farewells {
  import opened Wire
  import opened Names
  import opened NameText
  import opened Records
  import opened Messages
  import opened Caching
  import opened Services
  import opened Browsing
  import opened BrowserRuns
  import opened Listings
  import opened Discovery
  import Responders
  import Sequences

  // ---------------------------------------------------------------------
  // The pointer runs out and nothing renews it
  // ---------------------------------------------------------------------

  /** Held, and for no longer than until `limit`. */
  predicate Fading(m: Deadlines, k: AnswerKey, limit: nat) {
    k in m && m[k] <= limit
  }

  /** The record neither says the pointer again nor sweeps it away. */
  predicate LetsFade(r: Record, s: Service) {
    r.ttl > 0 ==> !SameAnswer(r, s.Ptr()) && !(Flushes(r) && Points(r, s.serviceType))
  }

  lemma {:induction false} FadesOn(m: Deadlines, r: Record, now: nat, s: Service, limit: nat)
    requires Fading(m, Key(s.Ptr()), limit) && LetsFade(r, s) && WellFormedRecord(r)
    ensures Fading(MapPut(m, r, now), Key(s.Ptr()), limit)
  {
    SameAnswerIsKey(r, s.Ptr());
    EqIsFold(r.name, s.serviceType);
    hide SameAnswer, EqIgnoreCase;
  }

  lemma {:induction false} AllFadesOn(m: Deadlines, rs: seq<Record>, now: nat, s: Service, limit: nat)
    requires Fading(m, Key(s.Ptr()), limit)
    requires forall i :: 0 <= i < |rs| ==> LetsFade(rs[i], s) && WellFormedRecord(rs[i])
    ensures Fading(MapPutAll(m, rs, now), Key(s.Ptr()), limit)
    decreases |rs|
  {
    hide Fading, LetsFade, WellFormedRecord, MapPut, Key;
    if rs != [] {
      assert forall i :: 0 <= i < |rs[1..]| ==> rs[1..][i] == rs[i + 1];
      FadesOn(m, rs[0], now, s, limit);
      AllFadesOn(MapPut(m, rs[0], now), rs[1..], now, s, limit);
    }
  }

  lemma {:induction false} ByeFades(m: Deadlines, r: Record, now: nat, k: AnswerKey)
    requires r.ttl == 0 && k in m
    ensures k in MapPut(m, r, now) && MapPut(m, r, now)[k] <= m[k]
    ensures Key(r) == k ==> Fading(MapPut(m, r, now), k, now + GOODBYE_GRACE)
  {
  }

  lemma {:induction false} AllByesFade(m: Deadlines, rs: seq<Record>, now: nat, k: AnswerKey, i: nat)
    requires k in m && i < |rs| && Key(rs[i]) == k && forall j :: 0 <= j < |rs| ==> rs[j].ttl == 0
    ensures Fading(MapPutAll(m, rs, now), k, now + GOODBYE_GRACE)
    decreases |rs|
  {
    hide Key, MapPut;
    var rest := rs[1..];
    assert forall j :: 0 <= j < |rest| ==> rest[j] == rs[j + 1];
    ByeFades(m, rs[0], now, k);
    if i > 0 {
      AllByesFade(MapPut(m, rs[0], now), rest, now, k, i - 1);
    } else {
      ByesKeepFading(MapPut(m, rs[0], now), rest, now, k, now + GOODBYE_GRACE);
    }
  }

  lemma {:induction false} ByesKeepFading(m: Deadlines, rs: seq<Record>, now: nat, k: AnswerKey, limit: nat)
    requires Fading(m, k, limit) && forall j :: 0 <= j < |rs| ==> rs[j].ttl == 0
    ensures Fading(MapPutAll(m, rs, now), k, limit)
    decreases |rs|
  {
    hide Key, MapPut;
    if rs != [] {
      assert forall j :: 0 <= j < |rs[1..]| ==> rs[1..][j] == rs[j + 1];
      ByeFades(m, rs[0], now, k);
      ByesKeepFading(MapPut(m, rs[0], now), rs[1..], now, k, limit);
    }
  }

  // ---------------------------------------------------------------------
  // The table meanwhile
  // ---------------------------------------------------------------------

  /** How often the caller was told that the instance is gone. */
  function Losses(events: seq<Event>, key: Text): nat {
    if events == [] then 0
    else
      var k := |events| - 1;
      Losses(events[..k], key) + if events[k] == ServiceLost(key) then 1 else 0
  }

  lemma {:induction false} LossesConcat(a: seq<Event>, b: seq<Event>, key: Text)
    ensures Losses(a + b, key) == Losses(a, key) + Losses(b, key)
  {
    if b == [] {
      assert a + b == a;
    } else {
      var k := |b| - 1;
      assert (a + b)[..|a + b| - 1] == a + b[..k];
      LossesConcat(a, b[..k], key);
    }
  }

  lemma {:induction false} NoLosses(events: seq<Event>, key: Text)
    requires forall i :: 0 <= i < |events| ==> !events[i].ServiceLost?
    ensures Losses(events, key) == 0
  {
    if events != [] {
      NoLosses(events[..|events| - 1], key);
    }
  }

  lemma {:induction false} LossSnoc(events: seq<Event>, e: Event, key: Text)
    ensures Losses(events + [e], key) == Losses(events, key) + if e == ServiceLost(key) then 1 else 0
  {
    assert (events + [e])[..|events|] == events;
  }

  /** An expiry tells the caller of an instance once, however many pointers to it ran out. */
  lemma {:induction false} LostOnce(serviceType: Name, b: Board, gone: seq<Record>, key: Text)
    ensures Losses(LoseAll(serviceType, b, gone).events, key)
         == Losses(b.events, key) + if key in b.known && Loses(gone, serviceType, key) then 1 else 0
    decreases |gone|
  {
    if gone != [] {
      var c, rest := LoseOne(serviceType, b, gone[0]), gone[1..];
      LosesCons(gone, serviceType, key);
      if c != b {
        LossSnoc(b.events, ServiceLost(Display(gone[0].data.pointee)), key);
      }
      hide Display, EqIgnoreCase, Losses, Loses;
      LostOnce(serviceType, c, rest, key);
    }
  }

  lemma {:induction false} LosesCons(gone: seq<Record>, serviceType: Name, key: Text)
    requires gone != []
    ensures Loses(gone, serviceType, key)
       <==> (Points(gone[0], serviceType) && Display(gone[0].data.pointee) == key) || Loses(gone[1..], serviceType, key)
  {
    hide Display, EqIgnoreCase;
    var rest := gone[1..];
    if i :| 0 <= i < |rest| && Points(rest[i], serviceType) && Display(rest[i].data.pointee) == key {
      assert gone[i + 1] == rest[i];
    }
    if i :| 0 <= i < |gone| && Points(gone[i], serviceType) && Display(gone[i].data.pointee) == key {
      assert i > 0 ==> rest[i - 1] == gone[i];
    }
  }

  /** A datagram takes nothing off the table and reports no loss. */
  lemma {:induction false} ArrivalLosesNothing(serviceType: Name, s: Browser, p: seq<byte>, at: nat, key: Text)
    ensures var t := After1(serviceType, s, Arrives(p, at));
            s.board.known.Keys <= t.board.known.Keys && Losses(t.board.events, key) == Losses(s.board.events, key)
  {
    hide ReadMessage, PutAll, Held, Instances, ReportAll, Losses;
    var t := After1(serviceType, s, Arrives(p, at));
    if ReadMessage(p).Ok? && IsResponse(ReadMessage(p).value) {
      var es := t.entries;
      ReportLosesNothing(es, s.board, Instances(Held(es, serviceType, PTR)));
      var more := t.board.events[|s.board.events|..];
      assert t.board.events == s.board.events + more;
      LossesConcat(s.board.events, more, key);
      NoLosses(more, key);
    }
  }

  // ---------------------------------------------------------------------
  // The goodbye
  // ---------------------------------------------------------------------

  /** Listed, and its pointer held for no longer than until `limit`. */
  ghost predicate Leaving(s: Service, b: Browser, limit: nat) {
    && Sane(b.entries) && Display(s.instance) in b.board.known
    && exists i :: 0 <= i < |b.entries| && Key(b.entries[i].record) == Key(s.Ptr()) && b.entries[i].expires <= limit
  }

  lemma {:induction false} FadingEntry(es: seq<Entry>, m: Deadlines, k: AnswerKey, limit: nat)
    requires Implements(es, m)
    ensures Fading(m, k, limit) <==> exists i :: 0 <= i < |es| && Key(es[i].record) == k && es[i].expires <= limit
  {
    hide Key;
    if k in m {
      var i :| 0 <= i < |es| && Key(es[i].record) == k;
    }
  }

  lemma {:induction false} GoodbyeShape(s: Service)
    requires s.WellFormedService()
    ensures var rs := s.Goodbye();
            && |rs| > 1 && Key(rs[1]) == Key(s.Ptr()) && WellFormedMessage(Response(rs))
            && forall i :: 0 <= i < |rs| ==> rs[i].ttl == 0 && WellFormedRecord(rs[i])
  {
    Responders.AnnouncementWellFormed(s);
    Responders.EmptyWellFormed();
    hide WellFormedRecord;
  }

  lemma {:induction false} GoodbyeEntries(es: seq<Entry>, s: Service, rs: seq<Record>, at: nat)
    requires Sane(es) && Holds(es, s.Ptr()) && |rs| > 1 && Key(rs[1]) == Key(s.Ptr())
    requires forall i :: 0 <= i < |rs| ==> rs[i].ttl == 0 && WellFormedRecord(rs[i])
    ensures var after := PutAll(es, rs, at);
            && Sane(after) && exists i :: 0 <= i < |after| && Key(after[i].record) == Key(s.Ptr())
                                          && after[i].expires <= at + GOODBYE_GRACE
  {
    var m := MapOf(es);
    var i :| 0 <= i < |es| && SameAnswer(es[i].record, s.Ptr());
    SameAnswerIsKey(es[i].record, s.Ptr());
    SanePutAll(es, rs, at);
    hide PutAll, MapPutAll, Key, WellFormedRecord, SameAnswer;
    AllByesFade(m, rs, at, Key(s.Ptr()), 1);
    PutAllRefines(es, m, rs, at);
    FadingEntry(PutAll(es, rs, at), MapPutAll(m, rs, at), Key(s.Ptr()), at + GOODBYE_GRACE);
  }

  lemma {:induction false} GoodbyeStep(s: Service, b: Browser, at: nat)
    requires s.WellFormedService() && Sane(b.entries)
    requires Display(s.instance) in b.board.known && Holds(b.entries, s.Ptr())
    ensures Leaving(s, After1(s.serviceType, b, Arrives(MessageBytes(Response(s.Goodbye())), at)), at + GOODBYE_GRACE)
  {
    var rs := s.Goodbye();
    GoodbyeShape(s);
    hide MessageBytes, Report, Display, WellFormedRecord, PutAll, Service.Goodbye, Service.WellFormedService, Key,
         WellFormedMessage, Losses, Holds, Sane, After1;
    ResponseArrives(b, s.serviceType, Response(rs), at);
    Sequences.Empty(rs);
    ArrivalLosesNothing(s.serviceType, b, MessageBytes(Response(rs)), at, Display(s.instance));
    GoodbyeEntries(b.entries, s, rs, at);
  }

  /** Nothing in the datagram renews the pointer or sweeps it away. */
  predicate Uninvolved(h: Happening, s: Service) {
    h.Arrives? && (ReadMessage(h.payload).Ok? ==>
      var m := ReadMessage(h.payload).value;
      forall i :: 0 <= i < |m.answers + m.additional| ==> LetsFade((m.answers + m.additional)[i], s))
  }

  lemma {:induction false} UninvolvedStep(s: Service, b: Browser, h: Happening, limit: nat)
    requires Leaving(s, b, limit) && Uninvolved(h, s)
    ensures Leaving(s, After1(s.serviceType, b, h), limit)
    ensures var t := After1(s.serviceType, b, h); var key := Display(s.instance);
            Losses(t.board.events, key) == Losses(b.board.events, key)
  {
    ArrivalLosesNothing(s.serviceType, b, h.payload, h.at, Display(s.instance));
    if ReadMessage(h.payload).Ok? && IsResponse(ReadMessage(h.payload).value) {
      var m := ReadMessage(h.payload).value;
      var rs := m.answers + m.additional;
      DecodedIsWellFormed(h.payload);
      assert forall i :: 0 <= i < |rs| ==> WellFormedRecord(rs[i]);
      hide ReadMessage, Report, Display, WellFormedRecord, PutAll, MapPutAll, Key, LetsFade, Losses;
      var d := MapOf(b.entries);
      FadingEntry(b.entries, d, Key(s.Ptr()), limit);
      AllFadesOn(d, rs, h.at, s, limit);
      PutAllRefines(b.entries, d, rs, h.at);
      FadingEntry(PutAll(b.entries, rs, h.at), MapPutAll(d, rs, h.at), Key(s.Ptr()), limit);
      SanePutAll(b.entries, rs, h.at);
    }
  }

  lemma {:induction false} UninvolvedRun(s: Service, b: Browser, hs: seq<Happening>, limit: nat)
    requires Leaving(s, b, limit) && forall i :: 0 <= i < |hs| ==> Uninvolved(hs[i], s)
    ensures Leaving(s, Run(s.serviceType, b, hs), limit)
    ensures var t := Run(s.serviceType, b, hs); var key := Display(s.instance);
            Losses(t.board.events, key) == Losses(b.board.events, key)
    decreases |hs|
  {
    hide Leaving, Uninvolved, After1, Display, Losses;
    if hs != [] {
      assert forall i :: 0 <= i < |hs[1..]| ==> hs[1..][i] == hs[i + 1];
      UninvolvedStep(s, b, hs[0], limit);
      UninvolvedRun(s, After1(s.serviceType, b, hs[0]), hs[1..], limit);
    }
  }

  lemma {:induction false} TickTakesItOff(s: Service, b: Browser, limit: nat, now: nat)
    requires Leaving(s, b, limit) && limit <= now
    ensures var t := After1(s.serviceType, b, Ticks(now)); var key := Display(s.instance);
            key !in t.board.known && Losses(t.board.events, key) == Losses(b.board.events, key) + 1
  {
    var i :| 0 <= i < |b.entries| && Key(b.entries[i].record) == Key(s.Ptr()) && b.entries[i].expires <= limit;
    EqIsFold(b.entries[i].record.name, s.serviceType);
    assert PointsTo(b.entries[i].record, s.serviceType, s.instance);
    hide Display, EqIgnoreCase, Live, Dead, LoseAll, Losses;
    DeadPointerIsLost(b.entries, s.serviceType, now, i, s.instance);
    LoseAllKeys(s.serviceType, b.board, Dead(b.entries, now));
    LostOnce(s.serviceType, b.board, Dead(b.entries, now), Display(s.instance));
  }

  /**
   * Whatever classes point to the instance: where no expiry comes between the goodbye and the first one a second later,
   * and no datagram renews the pointer or sweeps it away, that expiry takes the instance off the table with one loss.
   */
  lemma {:induction false} FirstTickTakesItOff(s: Service, hs: seq<Happening>, at: nat, after: seq<Happening>, now: nat)
    requires s.WellFormedService() && at + 1000 <= now
    requires Display(s.instance) in Reached(s, hs).board.known && Holds(Reached(s, hs).entries, s.Ptr())
    requires forall i :: 0 <= i < |after| ==> Uninvolved(after[i], s)
    ensures var bye := Arrives(MessageBytes(Response(s.Goodbye())), at);
            var t := Reached(s, hs + [bye] + after + [Ticks(now)]); var key := Display(s.instance);
            key !in t.board.known && Losses(t.board.events, key) == Losses(Reached(s, hs).board.events, key) + 1
  {
    var bye := Arrives(MessageBytes(Response(s.Goodbye())), at);
    var b, limit := Reached(s, hs), at + GOODBYE_GRACE;
    ReachedSane(s, hs);
    GoodbyeStep(s, b, at);
    ArrivalLosesNothing(s.serviceType, b, bye.payload, at, Display(s.instance));
    hide MessageBytes, Leaving, Uninvolved, After1, Display, Losses, Holds, Run, Sane;
    var c := After1(s.serviceType, b, bye);
    UninvolvedRun(s, c, after, limit);
    TickTakesItOff(s, Run(s.serviceType, c, after), limit, now);
    RunSnoc(s.serviceType, FRESH, hs, bye);
    RunConcat(s.serviceType, FRESH, hs + [bye], after);
    RunSnoc(s.serviceType, FRESH, hs + [bye] + after, Ticks(now));
  }

  lemma {:induction false} RunConcat(serviceType: Name, s: Browser, a: seq<Happening>, b: seq<Happening>)
    ensures Run(serviceType, s, a + b) == Run(serviceType, Run(serviceType, s, a), b)
    decreases |a|
  {
    hide After1;
    if a == [] {
      assert a + b == b;
    } else {
      assert (a + b)[1..] == a[1..] + b;
      RunConcat(serviceType, After1(serviceType, s, a[0]), a[1..], b);
    }
  }

  // ---------------------------------------------------------------------
  // With expiries in between
  // ---------------------------------------------------------------------

  /** The record neither points to the instance nor sweeps pointers of its type away. */
  ghost predicate StaysAside(r: Record, s: Service) {
    r.ttl > 0 ==> !PointsTo(r, s.serviceType, s.instance) && !(Flushes(r) && Points(r, s.serviceType))
  }

  /** An expiry at any instant, or a datagram whose records all stay aside. */
  ghost predicate PassesBy(h: Happening, s: Service) {
    h.Arrives? && ReadMessage(h.payload).Ok? ==>
      var m := ReadMessage(h.payload).value;
      forall i :: 0 <= i < |m.answers + m.additional| ==> StaysAside((m.answers + m.additional)[i], s)
  }

  /** What points to the instance does so in class IN. */
  ghost predicate OneClass(es: seq<Entry>, s: Service) {
    forall i :: 0 <= i < |es| && PointsTo(es[i].record, s.serviceType, s.instance) ==> es[i].record.class_ == CLASS_IN
  }

  /** Off the table, and nothing in the cache to bring it back. */
  ghost predicate Gone(s: Service, b: Browser) {
    Sane(b.entries) && Display(s.instance) !in b.board.known && !Cached(b.entries, s.serviceType, s.instance)
  }

  /** Leaving with no loss reported yet, or gone with one. */
  ghost predicate OnTheWayOut(s: Service, b: Browser, limit: nat, losses: nat) {
    var reported := Losses(b.board.events, Display(s.instance));
    || (Leaving(s, b, limit) && OneClass(b.entries, s) && reported == losses)
    || (Gone(s, b) && reported == losses + 1)
  }

  lemma {:induction false} AsideLetsFade(r: Record, s: Service)
    requires StaysAside(r, s)
    ensures LetsFade(r, s)
  {
    EqIsFold(r.name, s.serviceType);
  }

  lemma {:induction false} PassingByIsUninvolved(h: Happening, s: Service)
    requires PassesBy(h, s) && h.Arrives?
    ensures Uninvolved(h, s)
  {
    hide ReadMessage, StaysAside, LetsFade;
    if ReadMessage(h.payload).Ok? {
      var m := ReadMessage(h.payload).value;
      forall i | 0 <= i < |m.answers + m.additional| ensures LetsFade((m.answers + m.additional)[i], s) {
        AsideLetsFade((m.answers + m.additional)[i], s);
      }
    }
  }

  lemma {:induction false} PutAside(es: seq<Entry>, r: Record, now: nat, s: Service)
    requires StaysAside(r, s) && WellFormedRecord(r)
    ensures OneClass(es, s) ==> OneClass(PutEntry(es, r, now).0, s)
    ensures !Cached(es, s.serviceType, s.instance) ==> !Cached(PutEntry(es, r, now).0, s.serviceType, s.instance)
  {
    PutCached(es, r, now, s.serviceType, s.instance);
    hide PutEntry, Points, WellFormedRecord, Cached, Flushes, Sweeps;
    if OneClass(es, s) {
      var out := PutEntry(es, r, now).0;
      forall i | 0 <= i < |out| && PointsTo(out[i].record, s.serviceType, s.instance)
        ensures out[i].record.class_ == CLASS_IN
      {
        var origin := PutOrigin(es, r, now, i);
        TtlIrrelevant(out[i].record, origin);
        PointsAlike(out[i].record, origin, s);
      }
    }
  }

  lemma {:induction false} PointsAlike(a: Record, b: Record, s: Service)
    requires a.name == b.name && a.data == b.data
    ensures PointsTo(a, s.serviceType, s.instance) <==> PointsTo(b, s.serviceType, s.instance)
  {
  }

  lemma {:induction false} PutAllAside(es: seq<Entry>, rs: seq<Record>, now: nat, s: Service)
    requires forall i :: 0 <= i < |rs| ==> StaysAside(rs[i], s) && WellFormedRecord(rs[i])
    ensures OneClass(es, s) ==> OneClass(PutAll(es, rs, now), s)
    ensures !Cached(es, s.serviceType, s.instance) ==> !Cached(PutAll(es, rs, now), s.serviceType, s.instance)
    decreases |rs|
  {
    hide PutEntry, StaysAside, WellFormedRecord, OneClass, Cached;
    if rs != [] {
      assert forall i :: 0 <= i < |rs[1..]| ==> rs[1..][i] == rs[i + 1];
      PutAside(es, rs[0], now, s);
      PutAllAside(PutEntry(es, rs[0], now).0, rs[1..], now, s);
    }
  }

  /** A datagram that passes by neither adds pointers to the instance nor lists it. */
  lemma {:induction false} PassingDatagram(s: Service, b: Browser, h: Happening)
    requires h.Arrives? && PassesBy(h, s) && Sane(b.entries)
    ensures var t := After1(s.serviceType, b, h);
            && (OneClass(b.entries, s) ==> OneClass(t.entries, s))
            && (s.WellFormedService() && Gone(s, b) ==> Gone(s, t))
  {
    if ReadMessage(h.payload).Ok? && IsResponse(ReadMessage(h.payload).value) {
      var m := ReadMessage(h.payload).value;
      var rs := m.answers + m.additional;
      DecodedIsWellFormed(h.payload);
      assert forall i :: 0 <= i < |rs| ==> WellFormedRecord(rs[i]);
      hide ReadMessage, Report, Display, WellFormedRecord, PutAll, StaysAside, OneClass, Cached;
      PutAllAside(b.entries, rs, h.at, s);
      SanePutAll(b.entries, rs, h.at);
      if s.WellFormedService() && Gone(s, b) {
        NotCachedNotListed(s, PutAll(b.entries, rs, h.at), b.board);
      }
    }
  }

  lemma {:induction false} NotCachedNotListed(s: Service, es: seq<Entry>, b: Board)
    requires s.WellFormedService() && WellFormedEntries(es)
    requires Display(s.instance) !in b.known && !Cached(es, s.serviceType, s.instance)
    ensures Display(s.instance) !in Report(s.serviceType, es, b).known
  {
    hide Display, WellFormedEntries, Cached, Report;
    ReportedKeys(es, b, s.serviceType, Display(s.instance));
    if n :| Cached(es, s.serviceType, n) && Display(n) == Display(s.instance) {
      CachedNamesPrint(es, s.serviceType, n);
      DisplayInjective(n, s.instance);
    }
  }

  /** The one pointer to an instance is still alive after an expiry, and the instance stays, or both are gone. */
  lemma {:induction false} PassingTick(s: Service, b: Browser, limit: nat, now: nat)
    requires s.WellFormedService() && Leaving(s, b, limit) && OneClass(b.entries, s)
    ensures var t := After1(s.serviceType, b, Ticks(now)); var key := Display(s.instance);
            || (now < limit && Leaving(s, t, limit) && OneClass(t.entries, s)
                && Losses(t.board.events, key) == Losses(b.board.events, key))
            || (Gone(s, t) && Losses(t.board.events, key) == Losses(b.board.events, key) + 1)
  {
    var i :| 0 <= i < |b.entries| && Key(b.entries[i].record) == Key(s.Ptr()) && b.entries[i].expires <= limit;
    PointerPoints(s, b.entries[i].record);
    SaneLive(b.entries, now);
    hide Display, Live, Dead, LoseAll, Losses, Loses, Points, Cached;
    LoseAllKeys(s.serviceType, b.board, Dead(b.entries, now));
    LostOnce(s.serviceType, b.board, Dead(b.entries, now), Display(s.instance));
    if b.entries[i].expires <= now {
      DeadPointerIsLost(b.entries, s.serviceType, now, i, s.instance);
      OnlyPointerDies(s, b.entries, now, i);
    } else {
      OnlyPointerLives(s, b.entries, now, i);
    }
  }

  lemma {:induction false} PointerPoints(s: Service, r: Record)
    requires Key(r) == Key(s.Ptr())
    ensures PointsTo(r, s.serviceType, s.instance)
  {
    EqIsFold(r.name, s.serviceType);
  }

  lemma {:induction false} SameInstanceSameKey(s: Service, a: Record, b: Record)
    requires PointsTo(a, s.serviceType, s.instance) && PointsTo(b, s.serviceType, s.instance) && a.class_ == b.class_
    ensures Key(a) == Key(b)
  {
    EqIsFold(a.name, s.serviceType);
    EqIsFold(b.name, s.serviceType);
  }

  lemma {:induction false} OnlyPointer(s: Service, es: seq<Entry>, i: nat, j: nat)
    requires Distinct(es) && OneClass(es, s) && i < |es| && j < |es|
    requires PointsTo(es[i].record, s.serviceType, s.instance) && PointsTo(es[j].record, s.serviceType, s.instance)
    ensures i == j
  {
    hide Points, Distinct;
    SameInstanceSameKey(s, es[i].record, es[j].record);
    KeyOnce(es, i, j);
  }

  lemma {:induction false} OnlyPointerDies(s: Service, es: seq<Entry>, now: nat, i: nat)
    requires Distinct(es) && OneClass(es, s) && i < |es| && es[i].expires <= now
    requires PointsTo(es[i].record, s.serviceType, s.instance)
    ensures !Cached(Live(es, now), s.serviceType, s.instance)
  {
    hide PointsTo, Distinct, OneClass;
    LiveOrExpired(es, now);
    var live := Live(es, now);
    if j :| 0 <= j < |live| && PointsTo(live[j].record, s.serviceType, s.instance) {
      assert live[j] in live && live[j] in es;
      var k :| 0 <= k < |es| && es[k] == live[j];
      OnlyPointer(s, es, i, k);
    }
  }

  lemma {:induction false} OnlyPointerLives(s: Service, es: seq<Entry>, now: nat, i: nat)
    requires s.WellFormedService() && Sane(es) && OneClass(es, s) && i < |es| && es[i].expires > now
    requires PointsTo(es[i].record, s.serviceType, s.instance)
    ensures es[i] in Live(es, now) && OneClass(Live(es, now), s)
    ensures !Loses(Dead(es, now), s.serviceType, Display(s.instance))
  {
    hide Display, EqIgnoreCase, WellFormedRecord;
    LiveOrExpired(es, now);
    DeadAreExpired(es, now);
    var live, dead, gone := Live(es, now), Expired(es, now), Dead(es, now);
    assert es[i] in live;
    forall j | 0 <= j < |live| && PointsTo(live[j].record, s.serviceType, s.instance)
      ensures live[j].record.class_ == CLASS_IN
    {
      assert live[j] in live && live[j] in es;
    }
    forall j | 0 <= j < |gone| && Points(gone[j], s.serviceType)
      ensures Display(gone[j].data.pointee) != Display(s.instance)
    {
      assert dead[j] in dead && dead[j] in es;
      var k :| 0 <= k < |es| && es[k] == dead[j];
      if Display(gone[j].data.pointee) == Display(s.instance) {
        assert PointsTo(es[k].record, s.serviceType, gone[j].data.pointee);
        CachedNamesPrint(es, s.serviceType, gone[j].data.pointee);
        DisplayInjective(gone[j].data.pointee, s.instance);
        OnlyPointer(s, es, i, k);
      }
    }
  }

  lemma {:induction false} LiveCachesNoMore(es: seq<Entry>, now: nat, serviceType: Name, n: Name)
    ensures Cached(Live(es, now), serviceType, n) ==> Cached(es, serviceType, n)
  {
    hide PointsTo;
    LiveOrExpired(es, now);
    var live := Live(es, now);
    if j :| 0 <= j < |live| && PointsTo(live[j].record, serviceType, n) {
      assert live[j] in live;
    }
  }

  lemma {:induction false} GoneStays(s: Service, b: Browser, h: Happening)
    requires s.WellFormedService() && Gone(s, b) && PassesBy(h, s)
    ensures var t := After1(s.serviceType, b, h); var key := Display(s.instance);
            Gone(s, t) && Losses(t.board.events, key) == Losses(b.board.events, key)
  {
    match h {
      case Arrives(p, at) =>
        hide Gone, PassesBy, After1, Losses, Display;
        GoneIsSane(s, b);
        PassingDatagram(s, b, h);
        ArrivalLosesNothing(s.serviceType, b, p, at, Display(s.instance));
      case Ticks(now) =>
        hide Display, Live, Dead, LoseAll, Losses, Loses, Cached;
        SaneLive(b.entries, now);
        LoseAllKeys(s.serviceType, b.board, Dead(b.entries, now));
        LostOnce(s.serviceType, b.board, Dead(b.entries, now), Display(s.instance));
        LiveCachesNoMore(b.entries, now, s.serviceType, s.instance);
    }
  }

  lemma {:induction false} GoneIsSane(s: Service, b: Browser)
    requires Gone(s, b)
    ensures Sane(b.entries)
  {
  }

  lemma {:induction false} LeavingIsSane(s: Service, b: Browser, limit: nat)
    requires Leaving(s, b, limit)
    ensures Sane(b.entries)
  {
  }

  lemma {:induction false} LeavingIsListed(s: Service, b: Browser, limit: nat)
    ensures Leaving(s, b, limit) ==> !Gone(s, b)
  {
  }

  /** Each step keeps the instance on its way out, and an expiry at the limit or later has it gone. */
  lemma {:induction false} WayOutStep(s: Service, b: Browser, h: Happening, limit: nat, losses: nat)
    requires s.WellFormedService() && OnTheWayOut(s, b, limit, losses) && PassesBy(h, s)
    ensures OnTheWayOut(s, After1(s.serviceType, b, h), limit, losses)
    ensures h.Ticks? && limit <= h.now ==> Gone(s, After1(s.serviceType, b, h))
  {
    hide Leaving, OneClass, Gone, PassesBy, After1, Losses, Display, Service.WellFormedService;
    LeavingIsListed(s, b, limit);
    if Gone(s, b) {
      GoneStays(s, b, h);
    } else if h.Ticks? {
      PassingTick(s, b, limit, h.now);
    } else {
      LeavingIsSane(s, b, limit);
      PassingByIsUninvolved(h, s);
      UninvolvedStep(s, b, h, limit);
      PassingDatagram(s, b, h);
    }
  }

  lemma {:induction false} WayOutRun(s: Service, b: Browser, hs: seq<Happening>, limit: nat, losses: nat)
    requires s.WellFormedService() && OnTheWayOut(s, b, limit, losses)
    requires forall i :: 0 <= i < |hs| ==> PassesBy(hs[i], s)
    ensures OnTheWayOut(s, Run(s.serviceType, b, hs), limit, losses)
    decreases |hs|
  {
    hide OnTheWayOut, PassesBy, After1, Service.WellFormedService;
    if hs != [] {
      assert forall i :: 0 <= i < |hs[1..]| ==> hs[1..][i] == hs[i + 1];
      WayOutStep(s, b, hs[0], limit, losses);
      WayOutRun(s, After1(s.serviceType, b, hs[0]), hs[1..], limit, losses);
    }
  }

  lemma {:induction false} GoodbyeKeepsOneClass(s: Service, b: Browser, at: nat)
    requires s.WellFormedService() && Sane(b.entries) && OneClass(b.entries, s)
    ensures OneClass(After1(s.serviceType, b, Arrives(MessageBytes(Response(s.Goodbye())), at)).entries, s)
  {
    GoodbyeShape(s);
    var rs := s.Goodbye();
    assert forall i :: 0 <= i < |rs| ==> StaysAside(rs[i], s);
    hide MessageBytes, Report, PutAll, OneClass, StaysAside, WellFormedRecord, Service.Goodbye, Sane, After1,
         Service.WellFormedService, WellFormedMessage;
    ResponseArrives(b, s.serviceType, Response(rs), at);
    Sequences.Empty(rs);
    PutAllAside(b.entries, rs, at, s);
  }

  /**
   * A browser that after any run lists an instance, holds its service's pointer and no pointer to it of another class
   * hears the goodbye. Then datagrams arrive that neither point to the instance nor sweep, and expiries happen at any
   * instants. From the first expiry a second after the goodbye on the instance is off the table and out of the cache,
   * and the caller has been told so exactly once.
   */
  lemma {:induction false} GoodbyeTakesItOff(s: Service, hs: seq<Happening>, at: nat, after: seq<Happening>, now: nat,
          later: seq<Happening>)
    requires s.WellFormedService() && at + 1000 <= now
    requires Display(s.instance) in Reached(s, hs).board.known && Holds(Reached(s, hs).entries, s.Ptr())
    requires OneClass(Reached(s, hs).entries, s)
    requires forall i :: 0 <= i < |after| ==> PassesBy(after[i], s)
    requires forall i :: 0 <= i < |later| ==> PassesBy(later[i], s)
    ensures var bye := Arrives(MessageBytes(Response(s.Goodbye())), at);
            var t := Reached(s, hs + [bye] + after + [Ticks(now)] + later); var key := Display(s.instance);
            && key !in t.board.known && !Cached(t.entries, s.serviceType, s.instance)
            && Losses(t.board.events, key) == Losses(Reached(s, hs).board.events, key) + 1
  {
    var bye := Arrives(MessageBytes(Response(s.Goodbye())), at);
    var b, limit := Reached(s, hs), at + GOODBYE_GRACE;
    var losses := Losses(b.board.events, Display(s.instance));
    ReachedSane(s, hs);
    GoodbyeStep(s, b, at);
    GoodbyeKeepsOneClass(s, b, at);
    ArrivalLosesNothing(s.serviceType, b, bye.payload, at, Display(s.instance));
    hide MessageBytes, Leaving, PassesBy, After1, Display, Losses, Holds, Run, Sane, OneClass, Cached,
         Service.WellFormedService;
    var c := After1(s.serviceType, b, bye);
    assert OnTheWayOut(s, c, limit, losses);
    var d := Run(s.serviceType, c, after);
    WayOutRun(s, c, after, limit, losses);
    WayOutStep(s, d, Ticks(now), limit, losses);
    GoneRun(s, After1(s.serviceType, d, Ticks(now)), later);
    LeavingIsListed(s, After1(s.serviceType, d, Ticks(now)), limit);
    RunSnoc(s.serviceType, FRESH, hs, bye);
    RunConcat(s.serviceType, FRESH, hs + [bye], after);
    RunSnoc(s.serviceType, FRESH, hs + [bye] + after, Ticks(now));
    RunConcat(s.serviceType, FRESH, hs + [bye] + after + [Ticks(now)], later);
  }

  lemma {:induction false} GoneRun(s: Service, b: Browser, hs: seq<Happening>)
    requires s.WellFormedService() && Gone(s, b) && forall i :: 0 <= i < |hs| ==> PassesBy(hs[i], s)
    ensures var t := Run(s.serviceType, b, hs); var key := Display(s.instance);
            Gone(s, t) && Losses(t.board.events, key) == Losses(b.board.events, key)
    decreases |hs|
  {
    hide Gone, PassesBy, After1, Display, Losses, Service.WellFormedService;
    if hs != [] {
      assert forall i :: 0 <= i < |hs[1..]| ==> hs[1..][i] == hs[i + 1];
      GoneStays(s, b, hs[0]);
      GoneRun(s, After1(s.serviceType, b, hs[0]), hs[1..]);
    }
  }
}
