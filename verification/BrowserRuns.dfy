/** What holds of a browser over every run of datagrams and expiries. */
module BrowserRuns {
  import opened Wire
  import opened Names
  import opened NameText
  import opened Records
  import opened Messages
  import opened Caching
  import opened Browsing

  // ---------------------------------------------------------------------
  // The grammar of one instance's events
  // ---------------------------------------------------------------------

  /** Where an instance stands; `Nonsense` is a sequence of events that should not be. */
  datatype Life = Absent | Unresolved | Up(details: Details) | Nonsense

  /** `(Found Resolved* Lost)*`, each Resolved connectable and different from the one before it. */
  function NextLife(l: Life, e: Event): Life {
    match (l, e)
    case (Absent, ServiceFound(_)) => Unresolved
    case (Unresolved, ServiceResolved(_, d)) => if d.addresses == [] then Nonsense else Up(d)
    case (Up(last), ServiceResolved(_, d)) => if d.addresses == [] || d == last then Nonsense else Up(d)
    case (Unresolved, ServiceLost(_)) => Absent
    case (Up(_), ServiceLost(_)) => Absent
    case _ => Nonsense
  }

  function LifeAfter(events: seq<Event>, key: Text): Life {
    if events == [] then Absent
    else
      var before := LifeAfter(events[..|events| - 1], key);
      var last := events[|events| - 1];
      if last.key == key then NextLife(before, last) else before
  }

  function Standing(known: map<Text, Reported>, key: Text): Life {
    if key !in known then Absent
    else match known[key].resolved case None => Unresolved case Some(d) => Up(d)
  }

  /** The events told so far and the table say the same about every instance. */
  ghost predicate Consistent(b: Board) {
    forall key :: LifeAfter(b.events, key) == Standing(b.known, key) && (key in b.known ==> b.known[key].found)
  }

  lemma {:induction false} LifeSnoc(events: seq<Event>, e: Event, key: Text)
    ensures LifeAfter(events + [e], key)
         == if e.key == key then NextLife(LifeAfter(events, key), e) else LifeAfter(events, key)
  {
    assert (events + [e])[..|events|] == events;
  }

  lemma {:induction false} FindConsistent(b: Board, key: Text)
    requires Consistent(b)
    ensures Consistent(FindOne(b, key)) && key in FindOne(b, key).known
    ensures forall k :: k != key ==> Standing(FindOne(b, key).known, k) == Standing(b.known, k)
  {
    var c := FindOne(b, key);
    forall k ensures LifeAfter(c.events, k) == Standing(c.known, k) && (k in c.known ==> c.known[k].found) {
      LifeSnoc(b.events, ServiceFound(key), k);
    }
  }

  lemma {:induction false} ResolveConsistent(b: Board, key: Text, d: Details)
    requires Consistent(b) && key in b.known && d.addresses != []
    ensures Consistent(ResolveOne(b, key, d))
  {
    var c := ResolveOne(b, key, d);
    forall k ensures LifeAfter(c.events, k) == Standing(c.known, k) && (k in c.known ==> c.known[k].found) {
      LifeSnoc(b.events, ServiceResolved(key, d), k);
    }
  }

  lemma {:induction false} LoseConsistent(serviceType: Name, b: Board, gone: Record)
    requires Consistent(b)
    ensures Consistent(LoseOne(serviceType, b, gone))
  {
    var c := LoseOne(serviceType, b, gone);
    if c != b {
      var key := Display(gone.data.pointee);
      forall k ensures LifeAfter(c.events, k) == Standing(c.known, k) && (k in c.known ==> c.known[k].found) {
        LifeSnoc(b.events, ServiceLost(key), k);
      }
    }
  }

  lemma {:induction false} ReportConsistent(es: seq<Entry>, b: Board, instances: seq<Name>)
    requires Consistent(b)
    ensures Consistent(ReportAll(es, b, instances))
    decreases |instances|
  {
    hide Consistent, DetailsOf, FindOne, ResolveOne;
    if instances != [] {
      var key := Display(instances[0]);
      FindConsistent(b, key);
      DetailsHaveAddresses(es, instances[0]);
      if DetailsOf(es, instances[0]).Some? {
        ResolveConsistent(FindOne(b, key), key, DetailsOf(es, instances[0]).value);
      }
      ReportConsistent(es, ReportOne(es, b, instances[0]), instances[1..]);
    }
  }

  lemma {:induction false} LoseAllConsistent(serviceType: Name, b: Board, gone: seq<Record>)
    requires Consistent(b)
    ensures Consistent(LoseAll(serviceType, b, gone))
    decreases |gone|
  {
    hide Consistent, LoseOne;
    if gone != [] {
      LoseConsistent(serviceType, b, gone[0]);
      LoseAllConsistent(serviceType, LoseOne(serviceType, b, gone[0]), gone[1..]);
    }
  }

  // ---------------------------------------------------------------------
  // Runs
  // ---------------------------------------------------------------------

  datatype Happening = Arrives(payload: seq<byte>, at: nat) | Ticks(now: nat)

  datatype Browser = Browser(entries: seq<Entry>, board: Board)

  function After1(serviceType: Name, s: Browser, h: Happening): Browser {
    match h
    case Arrives(p, at) => Browser(AbsorbEntries(s.entries, p, at), AbsorbBoard(serviceType, s.entries, s.board, p, at))
    case Ticks(now) => Browser(Live(s.entries, now), LoseAll(serviceType, s.board, Dead(s.entries, now)))
  }

  function Run(serviceType: Name, s: Browser, hs: seq<Happening>): Browser
    decreases |hs|
  {
    if hs == [] then s else Run(serviceType, After1(serviceType, s, hs[0]), hs[1..])
  }

  const FRESH := Browser([], Board(map[], []))

  lemma {:induction false} StepConsistent(serviceType: Name, s: Browser, h: Happening)
    requires Consistent(s.board)
    ensures Consistent(After1(serviceType, s, h).board)
  {
    hide Consistent, ReadMessage, PutAll, Held, Instances, ReportAll;
    match h {
      case Arrives(p, at) =>
        var es := AbsorbEntries(s.entries, p, at);
        ReportConsistent(es, s.board, Instances(Held(es, serviceType, PTR)));
      case Ticks(now) => LoseAllConsistent(serviceType, s.board, Dead(s.entries, now));
    }
  }

  lemma {:induction false} RunConsistent(serviceType: Name, s: Browser, hs: seq<Happening>)
    requires Consistent(s.board)
    ensures Consistent(Run(serviceType, s, hs).board)
    decreases |hs|
  {
    hide Consistent, After1;
    if hs != [] {
      StepConsistent(serviceType, s, hs[0]);
      RunConsistent(serviceType, After1(serviceType, s, hs[0]), hs[1..]);
    }
  }

  /** Over every run, every instance's events follow the grammar and end where the table says it stands. */
  lemma {:induction false} EventsFollowTheGrammar(serviceType: Name, hs: seq<Happening>, key: Text)
    ensures var b := Run(serviceType, FRESH, hs).board;
            LifeAfter(b.events, key) == Standing(b.known, key) && LifeAfter(b.events, key) != Nonsense
  {
    hide Run;
    assert Consistent(FRESH.board);
    RunConsistent(serviceType, FRESH, hs);
  }

  // ---------------------------------------------------------------------
  // What is reported is current
  // ---------------------------------------------------------------------

  /** The instance is in the table, and whatever the cache knows about it has been said. */
  ghost predicate UpToDate(es: seq<Entry>, b: Board, instance: Name) {
    var key := Display(instance);
    key in b.known && (DetailsOf(es, instance).Some? ==> b.known[key].resolved == DetailsOf(es, instance))
  }

  lemma {:induction false} ReportTouchesOne(es: seq<Entry>, b: Board, instance: Name)
    ensures var c := ReportOne(es, b, instance); var key := Display(instance);
            && c.known.Keys == b.known.Keys + {key}
            && (forall k :: k in b.known && k != key ==> c.known[k] == b.known[k])
            && UpToDate(es, c, instance)
  {
    hide DetailsOf, Display;
  }

  lemma {:induction false} ReportKeeps(es: seq<Entry>, b: Board, instances: seq<Name>, instance: Name)
    requires NonEmptyLabels(instance.labels) && forall n :: n in instances ==> NonEmptyLabels(n.labels)
    requires UpToDate(es, b, instance)
    ensures UpToDate(es, ReportAll(es, b, instances), instance)
    decreases |instances|
  {
    hide DetailsOf, Display, NonEmptyLabels;
    if instances != [] {
      var first := instances[0];
      ReportTouchesOne(es, b, first);
      if Display(first) == Display(instance) {
        DisplayInjective(first, instance);
      }
      ReportKeeps(es, ReportOne(es, b, first), instances[1..], instance);
    }
  }

  /** After a report every reported instance stands with its current details; the text key merges no two of them. */
  lemma {:induction false} ReportIsCurrent(es: seq<Entry>, b: Board, instances: seq<Name>)
    requires forall n :: n in instances ==> NonEmptyLabels(n.labels)
    ensures forall n :: n in instances ==> UpToDate(es, ReportAll(es, b, instances), n)
    ensures ReportAll(es, b, instances).known.Keys == b.known.Keys + set n | n in instances :: Display(n)
    decreases |instances|
  {
    hide DetailsOf, Display, NonEmptyLabels;
    if instances != [] {
      var first, rest := instances[0], instances[1..];
      assert instances == [first] + rest;
      var c := ReportOne(es, b, first);
      ReportTouchesOne(es, b, first);
      ReportIsCurrent(es, c, rest);
      ReportKeeps(es, c, rest, first);
    }
  }

  // ---------------------------------------------------------------------
  // What the cache points to
  // ---------------------------------------------------------------------

  /** A PTR record owned by `serviceType`. */
  predicate Points(r: Record, serviceType: Name) {
    EqIgnoreCase(r.name, serviceType) && r.data.DataPtr?
  }

  ghost predicate Cached(es: seq<Entry>, serviceType: Name, instance: Name) {
    exists i :: 0 <= i < |es| && PointsTo(es[i].record, serviceType, instance)
  }

  ghost predicate PointsTo(r: Record, serviceType: Name, instance: Name) {
    Points(r, serviceType) && r.data.pointee == instance
  }

  lemma {:induction false} CachedCons(es: seq<Entry>, serviceType: Name, n: Name)
    requires es != []
    ensures Cached(es, serviceType, n) <==> PointsTo(es[0].record, serviceType, n) || Cached(es[1..], serviceType, n)
  {
    hide Points;
    var rest := es[1..];
    if Cached(rest, serviceType, n) {
      var i :| 0 <= i < |rest| && PointsTo(rest[i].record, serviceType, n);
      assert es[i + 1] == rest[i];
    }
    if i :| 0 <= i < |es| && PointsTo(es[i].record, serviceType, n) {
      assert i > 0 ==> rest[i - 1] == es[i];
    }
  }

  lemma {:induction false} InstancesCons(r: Record, rest: seq<Record>)
    ensures Instances([r] + rest) == (if r.data.DataPtr? then [r.data.pointee] else []) + Instances(rest)
  {
    assert ([r] + rest)[1..] == rest;
  }

  lemma {:induction false} InstancesAre(es: seq<Entry>, serviceType: Name)
    requires forall i :: 0 <= i < |es| ==> WellFormedData(es[i].record.data)
    ensures forall n :: n in Instances(Held(es, serviceType, PTR)) <==> Cached(es, serviceType, n)
  {
    if es != [] {
      var rest, r := es[1..], es[0].record;
      assert forall i :: 0 <= i < |rest| ==> rest[i] == es[i + 1];
      InstancesAre(rest, serviceType);
      assert Wanted(r, serviceType, PTR) <==> Points(r, serviceType) by { assert WellFormedData(r.data); }
      InstancesCons(r, Held(rest, serviceType, PTR));
      hide Wanted, EqIgnoreCase, WellFormedData, Cached, Instances;
      assert [] + Held(rest, serviceType, PTR) == Held(rest, serviceType, PTR);
      forall n ensures n in Instances(Held(es, serviceType, PTR)) <==> Cached(es, serviceType, n) {
        CachedCons(es, serviceType, n);
      }
    }
  }

  // ---------------------------------------------------------------------
  // What every reachable cache is
  // ---------------------------------------------------------------------

  ghost predicate WellFormedEntries(es: seq<Entry>) {
    forall i :: 0 <= i < |es| ==> WellFormedRecord(es[i].record)
  }

  /** No answer stands twice and everything held came off the wire. */
  ghost predicate Sane(es: seq<Entry>) {
    Distinct(es) && WellFormedEntries(es)
  }

  lemma {:induction false} TtlIrrelevant(a: Record, b: Record)
    requires AsGoodbye(a) == AsGoodbye(b)
    ensures WellFormedRecord(a) <==> WellFormedRecord(b)
    ensures a.name == b.name && a.class_ == b.class_ && a.cacheFlush == b.cacheFlush && a.data == b.data
  {
    assert a.name == AsGoodbye(a).name && b.name == AsGoodbye(b).name;
    assert a.data == AsGoodbye(a).data && b.data == AsGoodbye(b).data;
    assert a.class_ == AsGoodbye(a).class_ && b.class_ == AsGoodbye(b).class_;
    assert a.cacheFlush == AsGoodbye(a).cacheFlush && b.cacheFlush == AsGoodbye(b).cacheFlush;
  }

  lemma {:induction false} SanePut(es: seq<Entry>, r: Record, now: nat)
    requires Sane(es) && WellFormedRecord(r)
    ensures Sane(PutEntry(es, r, now).0)
  {
    PutDistinct(es, r, now);
    hide PutEntry, WellFormedRecord, Distinct;
    var out := PutEntry(es, r, now).0;
    forall i | 0 <= i < |out| ensures WellFormedRecord(out[i].record) {
      var origin := PutOrigin(es, r, now, i);
      TtlIrrelevant(out[i].record, origin);
    }
  }

  lemma {:induction false} SanePutAll(es: seq<Entry>, rs: seq<Record>, now: nat)
    requires Sane(es) && forall i :: 0 <= i < |rs| ==> WellFormedRecord(rs[i])
    ensures Sane(PutAll(es, rs, now))
    decreases |rs|
  {
    hide PutEntry, WellFormedRecord, Sane;
    if rs != [] {
      SanePut(es, rs[0], now);
      assert forall i :: 0 <= i < |rs[1..]| ==> rs[1..][i] == rs[i + 1];
      SanePutAll(PutEntry(es, rs[0], now).0, rs[1..], now);
    }
  }

  lemma {:induction false} SaneLive(es: seq<Entry>, now: nat)
    requires Sane(es)
    ensures Sane(Live(es, now))
  {
    hide WellFormedRecord, Distinct;
    LiveDistinct(es, now);
    LiveOrExpired(es, now);
    var live := Live(es, now);
    forall i | 0 <= i < |live| ensures WellFormedRecord(live[i].record) {
      assert live[i] in live;
    }
  }

  lemma {:induction false} SaneStep(serviceType: Name, s: Browser, h: Happening)
    requires Sane(s.entries)
    ensures Sane(After1(serviceType, s, h).entries)
  {
    hide Sane, ReadMessage, WellFormedRecord;
    match h {
      case Arrives(p, at) =>
        if ReadMessage(p).Ok? {
          DecodedIsWellFormed(p);
          var m := ReadMessage(p).value;
          SanePutAll(s.entries, m.answers + m.additional, at);
        }
      case Ticks(now) => SaneLive(s.entries, now);
    }
  }

  /** Whatever arrives and however time passes, the cache stays sane. */
  lemma {:induction false} RunSane(serviceType: Name, s: Browser, hs: seq<Happening>)
    requires Sane(s.entries)
    ensures Sane(Run(serviceType, s, hs).entries)
    decreases |hs|
  {
    hide Sane, After1;
    if hs != [] {
      SaneStep(serviceType, s, hs[0]);
      RunSane(serviceType, After1(serviceType, s, hs[0]), hs[1..]);
    }
  }

  lemma {:induction false} RunSnoc(serviceType: Name, s: Browser, hs: seq<Happening>, h: Happening)
    ensures Run(serviceType, s, hs + [h]) == After1(serviceType, Run(serviceType, s, hs), h)
    decreases |hs|
  {
    hide After1;
    if hs == [] {
      assert hs + [h] == [h] && [h][1..] == [];
    } else {
      assert (hs + [h])[1..] == hs[1..] + [h];
      RunSnoc(serviceType, After1(serviceType, s, hs[0]), hs[1..], h);
    }
  }

  // ---------------------------------------------------------------------
  // What goes off the table
  // ---------------------------------------------------------------------

  /** What an expired pointer takes off the table. */
  ghost predicate Loses(gone: seq<Record>, serviceType: Name, key: Text) {
    exists i :: 0 <= i < |gone| && Points(gone[i], serviceType) && Display(gone[i].data.pointee) == key
  }

  lemma {:induction false} LoseAllKeys(serviceType: Name, b: Board, gone: seq<Record>)
    ensures forall key :: key in LoseAll(serviceType, b, gone).known
                     <==> key in b.known && !Loses(gone, serviceType, key)
    decreases |gone|
  {
    hide EqIgnoreCase, Display;
    if gone != [] {
      var rest := gone[1..];
      LoseAllKeys(serviceType, LoseOne(serviceType, b, gone[0]), rest);
      forall key ensures Loses(gone, serviceType, key) <==>
                         (Points(gone[0], serviceType) && Display(gone[0].data.pointee) == key)
                         || Loses(rest, serviceType, key) {
        if Loses(rest, serviceType, key) {
          var i :| 0 <= i < |rest| && Points(rest[i], serviceType) && Display(rest[i].data.pointee) == key;
          assert gone[i + 1] == rest[i];
        }
        if i :| 0 <= i < |gone| && Points(gone[i], serviceType) && Display(gone[i].data.pointee) == key {
          assert i > 0 ==> rest[i - 1] == gone[i];
        }
      }
    }
  }

  lemma {:induction false} DeadPointerIsLost(es: seq<Entry>, serviceType: Name, now: nat, i: nat, n: Name)
    requires i < |es| && es[i].expires <= now && PointsTo(es[i].record, serviceType, n)
    ensures Loses(Dead(es, now), serviceType, Display(n))
  {
    hide Display, EqIgnoreCase;
    LiveOrExpired(es, now);
    DeadAreExpired(es, now);
    var dead, gone := Expired(es, now), Dead(es, now);
    assert es[i] in dead;
    var j :| 0 <= j < |dead| && dead[j] == es[i];
    assert gone[j] == es[i].record;
  }

  /** A cached pointer that does not survive an expiry is reported lost. */
  lemma {:induction false} NotLostIsLive(es: seq<Entry>, serviceType: Name, now: nat, n: Name)
    requires Cached(es, serviceType, n) && !Loses(Dead(es, now), serviceType, Display(n))
    ensures Cached(Live(es, now), serviceType, n)
  {
    hide Display, Points, Loses;
    LiveOrExpired(es, now);
    var live := Live(es, now);
    var i :| 0 <= i < |es| && PointsTo(es[i].record, serviceType, n);
    if es[i].expires <= now {
      DeadPointerIsLost(es, serviceType, now, i, n);
    }
    assert es[i] in live;
    var j :| 0 <= j < |live| && live[j] == es[i];
  }

  lemma {:induction false} ReportLosesNothing(es: seq<Entry>, b: Board, instances: seq<Name>)
    ensures var c := ReportAll(es, b, instances);
            && b.known.Keys <= c.known.Keys && b.events <= c.events
            && forall i :: |b.events| <= i < |c.events| ==> !c.events[i].ServiceLost?
    decreases |instances|
  {
    hide DetailsOf, Display;
    if instances != [] {
      ReportLosesNothing(es, ReportOne(es, b, instances[0]), instances[1..]);
    }
  }
}
