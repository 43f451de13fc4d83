/** Exactly when a browser's table lists what its cache points to. */
module Listings {
  import opened Wire
  import opened Names
  import opened NameText
  import opened Records
  import opened Messages
  import opened Caching
  import opened Services
  import opened Browsing
  import opened BrowserRuns
  import Sequences

  /** The table lists the instances the cache holds a pointer to, and no others. */
  ghost predicate Faithful(s: Browser, serviceType: Name) {
    forall key :: key in s.board.known <==> exists n :: Cached(s.entries, serviceType, n) && Display(n) == key
  }

  // ---------------------------------------------------------------------
  // What one record does to the pointers held
  // ---------------------------------------------------------------------

  /** A new pointer of the type with the cache-flush bit: it takes the place of every other. */
  predicate Sweeps(es: seq<Entry>, r: Record, serviceType: Name) {
    Points(r, serviceType) && Flushes(r) && r.ttl > 0 && Find(es, r) == |es|
  }

  predicate Brings(r: Record, serviceType: Name, n: Name) {
    Points(r, serviceType) && r.ttl > 0 && r.data.pointee == n
  }

  lemma {:induction false} CachedSnoc(es: seq<Entry>, e: Entry, serviceType: Name, n: Name)
    ensures Cached(es + [e], serviceType, n) <==> Cached(es, serviceType, n) || PointsTo(e.record, serviceType, n)
  {
    hide PointsTo;
    var all := es + [e];
    if i :| 0 <= i < |es| && PointsTo(es[i].record, serviceType, n) {
      assert all[i] == es[i];
    }
    assert all[|es|] == e;
  }

  lemma {:induction false} SameRecordsSameCached(a: seq<Entry>, b: seq<Entry>, serviceType: Name, n: Name)
    requires |a| == |b|
    requires forall i :: 0 <= i < |a| ==>
               a[i].record.name == b[i].record.name && a[i].record.data == b[i].record.data
    ensures Cached(a, serviceType, n) <==> Cached(b, serviceType, n)
  {
    if i :| 0 <= i < |a| && PointsTo(a[i].record, serviceType, n) {
      assert PointsTo(b[i].record, serviceType, n);
    }
    if i :| 0 <= i < |b| && PointsTo(b[i].record, serviceType, n) {
      assert PointsTo(a[i].record, serviceType, n);
    }
  }

  /** Flushing by a pointer of the type leaves no other pointer of it; flushing by anything else leaves them all. */
  lemma {:induction false} UnflushedCached(es: seq<Entry>, r: Record, serviceType: Name, n: Name)
    requires WellFormedRecord(r)
    ensures Cached(Unflushed(es, r), serviceType, n) <==> Cached(es, serviceType, n) && !Points(r, serviceType)
  {
    hide WellFormed;
    UnflushedKeeps(es, r);
    var kept := Unflushed(es, r);
    EqIsFold(r.name, serviceType);
    if i :| 0 <= i < |kept| && PointsTo(kept[i].record, serviceType, n) {
      assert kept[i] in kept && kept[i] in es;
      EqIsFold(kept[i].record.name, serviceType);
      var j :| 0 <= j < |es| && es[j] == kept[i];
    }
    if !Points(r, serviceType) {
      if i :| 0 <= i < |es| && PointsTo(es[i].record, serviceType, n) {
        EqIsFold(es[i].record.name, serviceType);
        assert es[i] in kept;
        var j :| 0 <= j < |kept| && kept[j] == es[i];
      }
    }
  }

  lemma {:induction false} RefreshCached(es: seq<Entry>, r: Record, now: nat, serviceType: Name, n: Name)
    requires Find(es, r) < |es|
    ensures Cached(PutEntry(es, r, now).0, serviceType, n) <==> Cached(es, serviceType, n)
    ensures Brings(r, serviceType, n) ==> Cached(es, serviceType, n)
  {
    var f := Find(es, r);
    SameRecordsSameCached(PutEntry(es, r, now).0, es, serviceType, n);
    if Brings(r, serviceType, n) {
      EqIsFold(es[f].record.name, serviceType);
      EqIsFold(es[f].record.name, r.name);
      EqIsFold(r.name, serviceType);
      assert PointsTo(es[f].record, serviceType, n);
    }
  }

  /** An instance is pointed to after a record if the record brings it, or if it was and the record does not sweep. */
  lemma {:induction false} PutCached(es: seq<Entry>, r: Record, now: nat, serviceType: Name, n: Name)
    requires WellFormedRecord(r)
    ensures Cached(PutEntry(es, r, now).0, serviceType, n)
       <==> Brings(r, serviceType, n) || (Cached(es, serviceType, n) && !Sweeps(es, r, serviceType))
  {
    var f := Find(es, r);
    if f < |es| {
      RefreshCached(es, r, now, serviceType, n);
    } else if r.ttl == 0 {
      SameRecordsSameCached(PutEntry(es, r, now).0, es, serviceType, n);
    } else {
      UnflushedCached(es, r, serviceType, n);
      hide Cached, Points, Unflushed, WellFormedRecord, SameAnswer, Flushes;
      CachedSnoc(if Flushes(r) then Unflushed(es, r) else es, Entry(r, Deadline(r, now)), serviceType, n);
    }
  }

  // ---------------------------------------------------------------------
  // What a whole datagram does
  // ---------------------------------------------------------------------

  /** Some record sweeps when its turn comes, and neither it nor any after it brings the instance back. */
  ghost predicate SweptAway(es: seq<Entry>, rs: seq<Record>, now: nat, serviceType: Name, n: Name) {
    exists i :: 0 <= i < |rs| && SweepsAt(es, rs, now, serviceType, i) && NotBroughtFrom(rs, serviceType, n, i)
  }

  ghost predicate SweepsAt(es: seq<Entry>, rs: seq<Record>, now: nat, serviceType: Name, i: nat)
    requires i < |rs|
  {
    Sweeps(PutAll(es, rs[..i], now), rs[i], serviceType)
  }

  predicate NotBroughtFrom(rs: seq<Record>, serviceType: Name, n: Name, i: nat) {
    forall j :: i <= j < |rs| ==> !Brings(rs[j], serviceType, n)
  }

  lemma {:induction false} PutAllSnoc(es: seq<Entry>, rs: seq<Record>, r: Record, now: nat)
    ensures PutAll(es, rs + [r], now) == PutEntry(PutAll(es, rs, now), r, now).0
    decreases |rs|
  {
    hide PutEntry;
    if rs == [] {
      assert rs + [r] == [r] && [r][1..] == [];
    } else {
      assert (rs + [r])[1..] == rs[1..] + [r];
      PutAllSnoc(PutEntry(es, rs[0], now).0, rs[1..], r, now);
    }
  }

  lemma {:induction false} SweptAwaySnoc(es: seq<Entry>, rs: seq<Record>, r: Record, now: nat, serviceType: Name,
          n: Name)
    ensures SweptAway(es, rs + [r], now, serviceType, n)
       <==> !Brings(r, serviceType, n)
            && (SweptAway(es, rs, now, serviceType, n) || Sweeps(PutAll(es, rs, now), r, serviceType))
  {
    hide Sweeps, Brings, PutAll;
    var all, k := rs + [r], |rs|;
    assert all[k] == r && all[..k] == rs;
    forall i | 0 <= i < k ensures all[i] == rs[i] && all[..i] == rs[..i] {
    }
    if i :| 0 <= i < |all| && SweepsAt(es, all, now, serviceType, i) && NotBroughtFrom(all, serviceType, n, i) {
      if i < k {
        assert SweepsAt(es, rs, now, serviceType, i) && NotBroughtFrom(rs, serviceType, n, i);
      }
    }
    if !Brings(r, serviceType, n) {
      if i :| 0 <= i < |rs| && SweepsAt(es, rs, now, serviceType, i) && NotBroughtFrom(rs, serviceType, n, i) {
        assert SweepsAt(es, all, now, serviceType, i) && NotBroughtFrom(all, serviceType, n, i);
      }
      if Sweeps(PutAll(es, rs, now), r, serviceType) {
        assert SweepsAt(es, all, now, serviceType, k) && NotBroughtFrom(all, serviceType, n, k);
      }
    }
  }

  /** Of the instances pointed to before a datagram, exactly those it sweeps away are not pointed to after it. */
  lemma {:induction false} PutAllCached(es: seq<Entry>, rs: seq<Record>, now: nat, serviceType: Name, n: Name)
    requires (forall i :: 0 <= i < |rs| ==> WellFormedRecord(rs[i])) && Cached(es, serviceType, n)
    ensures Cached(PutAll(es, rs, now), serviceType, n) <==> !SweptAway(es, rs, now, serviceType, n)
    decreases |rs|
  {
    hide Cached, WellFormedRecord, Brings, Sweeps, PutEntry;
    if rs != [] {
      var k := |rs| - 1;
      var front, last := rs[..k], rs[k];
      assert rs == front + [last];
      PutAllCached(es, front, now, serviceType, n);
      PutAllSnoc(es, front, last, now);
      PutCached(PutAll(es, front, now), last, now, serviceType, n);
      SweptAwaySnoc(es, front, last, now, serviceType, n);
    }
  }

  // ---------------------------------------------------------------------
  // One step
  // ---------------------------------------------------------------------

  /** Two answers point to one instance - in different classes - and time runs out for one of them only. */
  ghost predicate Splits(es: seq<Entry>, serviceType: Name, now: nat) {
    exists i, j :: 0 <= i < |es| && 0 <= j < |es| && es[i].expires <= now < es[j].expires
                   && SameInstance(es[i].record, es[j].record, serviceType)
  }

  predicate SameInstance(a: Record, b: Record, serviceType: Name) {
    Points(a, serviceType) && Points(b, serviceType) && a.data.pointee == b.data.pointee
  }

  /** What makes a faithful table unfaithful. */
  ghost predicate Spoils(s: Browser, serviceType: Name, h: Happening) {
    match h
    case Arrives(p, at) =>
      && ReadMessage(p).Ok? && IsResponse(ReadMessage(p).value)
      && var m := ReadMessage(p).value;
         var rs := m.answers + m.additional;
         exists n :: Cached(s.entries, serviceType, n) && SweptAway(s.entries, rs, at, serviceType, n)
    case Ticks(now) => Splits(s.entries, serviceType, now)
  }

  lemma {:induction false} CachedNamesPrint(es: seq<Entry>, serviceType: Name, n: Name)
    requires WellFormedEntries(es) && Cached(es, serviceType, n)
    ensures NonEmptyLabels(n.labels)
  {
    var i :| 0 <= i < |es| && PointsTo(es[i].record, serviceType, n);
    assert WellFormedRecord(es[i].record);
  }

  /** A report adds what is pointed to and takes nothing off. */
  lemma {:induction false} ReportedKeys(es: seq<Entry>, b: Board, serviceType: Name, key: Text)
    requires WellFormedEntries(es)
    ensures key in Report(serviceType, es, b).known
       <==> key in b.known || exists n :: Cached(es, serviceType, n) && Display(n) == key
  {
    forall i | 0 <= i < |es| ensures WellFormedData(es[i].record.data) {
      assert WellFormedRecord(es[i].record);
    }
    InstancesAre(es, serviceType);
    hide WellFormedEntries, Cached, Display, NonEmptyLabels, UpToDate, ReportAll, Held, Instances, WellFormedData;
    var instances := Instances(Held(es, serviceType, PTR));
    forall n | n in instances ensures NonEmptyLabels(n.labels) {
      CachedNamesPrint(es, serviceType, n);
    }
    ReportIsCurrent(es, b, instances);
  }

  lemma {:induction false} SamePrintSameName(es: seq<Entry>, fs: seq<Entry>, serviceType: Name, a: Name, b: Name)
    requires WellFormedEntries(es) && Cached(es, serviceType, a) && WellFormedEntries(fs) && Cached(fs, serviceType, b)
    requires Display(a) == Display(b)
    ensures a == b
  {
    CachedNamesPrint(es, serviceType, a);
    CachedNamesPrint(fs, serviceType, b);
    hide Display;
    DisplayInjective(a, b);
  }

  lemma {:induction false} ArrivalIff(s: Browser, serviceType: Name, p: seq<byte>, at: nat)
    requires Sane(s.entries) && Faithful(s, serviceType)
    ensures Faithful(After1(serviceType, s, Arrives(p, at)), serviceType) <==> !Spoils(s, serviceType, Arrives(p, at))
  {
    if ReadMessage(p).Ok? && IsResponse(ReadMessage(p).value) {
      var m := ReadMessage(p).value;
      var rs := m.answers + m.additional;
      DecodedIsWellFormed(p);
      assert forall i :: 0 <= i < |rs| ==> WellFormedRecord(rs[i]);
      SanePutAll(s.entries, rs, at);
      hide ReadMessage, Cached, Display, WellFormedRecord, Report, PutAll, SweptAway;
      AbsorbedIff(s, serviceType, rs, at);
    }
  }

  function Absorbed(s: Browser, serviceType: Name, rs: seq<Record>, at: nat): Browser {
    var es := PutAll(s.entries, rs, at);
    Browser(es, Report(serviceType, es, s.board))
  }

  /** What a response does when it arrives as it was sent. */
  lemma {:induction false} ResponseArrives(s: Browser, serviceType: Name, m: Message, at: nat)
    requires WellFormedMessage(m) && IsResponse(m)
    ensures After1(serviceType, s, Arrives(MessageBytes(m), at))
         == Absorbed(s, serviceType, m.answers + m.additional, at)
  {
    WellFormedRoundTrips(m);
    hide MessageBytes, ReadMessage, PutAll, Report, WellFormedMessage;
  }

  lemma {:induction false} AbsorbedIff(s: Browser, serviceType: Name, rs: seq<Record>, at: nat)
    requires Sane(s.entries) && Faithful(s, serviceType) && (forall i :: 0 <= i < |rs| ==> WellFormedRecord(rs[i]))
    requires Sane(PutAll(s.entries, rs, at))
    ensures Faithful(Absorbed(s, serviceType, rs, at), serviceType)
       <==> !exists n :: Cached(s.entries, serviceType, n) && SweptAway(s.entries, rs, at, serviceType, n)
  {
    hide Cached, Display, WellFormedRecord, Report, PutAll, SweptAway, WellFormedEntries;
    var es := PutAll(s.entries, rs, at);
    var after := Absorbed(s, serviceType, rs, at);
    if n :| Cached(s.entries, serviceType, n) && SweptAway(s.entries, rs, at, serviceType, n) {
      PutAllCached(s.entries, rs, at, serviceType, n);
      ReportedKeys(es, s.board, serviceType, Display(n));
      assert Display(n) in after.board.known;
      forall o | Cached(es, serviceType, o) ensures Display(o) != Display(n) {
        if Display(o) == Display(n) {
          SamePrintSameName(es, s.entries, serviceType, o, n);
        }
      }
    } else {
      forall key ensures key in after.board.known <==> exists n :: Cached(es, serviceType, n) && Display(n) == key {
        ReportedKeys(es, s.board, serviceType, key);
        if key in s.board.known {
          var n :| Cached(s.entries, serviceType, n) && Display(n) == key;
          PutAllCached(s.entries, rs, at, serviceType, n);
        }
      }
    }
  }

  lemma {:induction false} SplitBy(es: seq<Entry>, serviceType: Name, now: nat, i: nat, j: nat)
    requires i < |es| && j < |es| && es[i].expires <= now < es[j].expires
    requires SameInstance(es[i].record, es[j].record, serviceType)
    ensures Splits(es, serviceType, now)
  {
  }

  /** Where no instance is split, what an expiry takes off the table is pointed to no longer. */
  lemma {:induction false} LostIsNotLive(es: seq<Entry>, serviceType: Name, now: nat, n: Name)
    requires WellFormedEntries(es) && !Splits(es, serviceType, now) && Cached(Live(es, now), serviceType, n)
    ensures Cached(es, serviceType, n) && !Loses(Dead(es, now), serviceType, Display(n))
  {
    hide Display, EqIgnoreCase, WellFormedRecord, Splits;
    LiveOrExpired(es, now);
    DeadAreExpired(es, now);
    var live, dead, gone := Live(es, now), Expired(es, now), Dead(es, now);
    var i :| 0 <= i < |live| && PointsTo(live[i].record, serviceType, n);
    assert live[i] in live && live[i] in es;
    var a :| 0 <= a < |es| && es[a] == live[i];
    forall j | 0 <= j < |gone| && Points(gone[j], serviceType) ensures Display(gone[j].data.pointee) != Display(n) {
      assert dead[j] in dead && dead[j] in es;
      var b :| 0 <= b < |es| && es[b] == dead[j];
      if Display(gone[j].data.pointee) == Display(n) {
        assert PointsTo(es[b].record, serviceType, gone[j].data.pointee);
        SamePrintSameName(es, es, serviceType, gone[j].data.pointee, n);
        SplitBy(es, serviceType, now, b, a);
      }
    }
  }

  lemma {:induction false} SplitIsUnfaithful(s: Browser, serviceType: Name, now: nat, i: nat, j: nat)
    requires i < |s.entries| && j < |s.entries| && s.entries[i].expires <= now < s.entries[j].expires
    requires SameInstance(s.entries[i].record, s.entries[j].record, serviceType)
    ensures var n := s.entries[j].record.data.pointee; var t := After1(serviceType, s, Ticks(now));
            Cached(t.entries, serviceType, n) && Display(n) !in t.board.known
  {
    var es, n := s.entries, s.entries[j].record.data.pointee;
    hide Display, EqIgnoreCase, Live, Dead, LoseAll;
    assert PointsTo(es[i].record, serviceType, n) && PointsTo(es[j].record, serviceType, n);
    DeadPointerIsLost(es, serviceType, now, i, n);
    LoseAllKeys(serviceType, s.board, Dead(es, now));
    LiveOrExpired(es, now);
    assert es[j] in es && es[j] in Live(es, now);
    var k :| 0 <= k < |Live(es, now)| && Live(es, now)[k] == es[j];
  }

  lemma {:induction false} TickIff(s: Browser, serviceType: Name, now: nat)
    requires Sane(s.entries) && Faithful(s, serviceType)
    ensures Faithful(After1(serviceType, s, Ticks(now)), serviceType) <==> !Spoils(s, serviceType, Ticks(now))
  {
    var es := s.entries;
    if Splits(es, serviceType, now) {
      var i, j :| 0 <= i < |es| && 0 <= j < |es| && es[i].expires <= now < es[j].expires
                  && SameInstance(es[i].record, es[j].record, serviceType);
      hide Cached, Display, Live, Dead, LoseAll, Splits;
      SplitIsUnfaithful(s, serviceType, now, i, j);
    } else {
      hide Cached, Display, Loses, Live, Dead, LoseAll, Splits;
      LoseAllKeys(serviceType, s.board, Dead(es, now));
      var known := LoseAll(serviceType, s.board, Dead(es, now)).known;
      forall key ensures key in known <==> exists n :: Cached(Live(es, now), serviceType, n) && Display(n) == key {
        if key in known {
          var n :| Cached(es, serviceType, n) && Display(n) == key;
          NotLostIsLive(es, serviceType, now, n);
        }
        if n :| Cached(Live(es, now), serviceType, n) && Display(n) == key {
          LostIsNotLive(es, serviceType, now, n);
        }
      }
    }
  }

  /** A step keeps the table faithful exactly when it does not spoil it, whatever the datagram, whatever the clock. */
  lemma {:induction false} FaithfulStepIff(s: Browser, serviceType: Name, h: Happening)
    requires Sane(s.entries) && Faithful(s, serviceType)
    ensures Faithful(After1(serviceType, s, h), serviceType) <==> !Spoils(s, serviceType, h)
  {
    hide Faithful, Spoils, After1;
    match h {
      case Arrives(p, at) => ArrivalIff(s, serviceType, p, at);
      case Ticks(now) => TickIff(s, serviceType, now);
    }
  }

  // ---------------------------------------------------------------------
  // Whole runs
  // ---------------------------------------------------------------------

  ghost predicate AlwaysFaithful(serviceType: Name, hs: seq<Happening>) {
    forall k :: 0 <= k <= |hs| ==> Faithful(Run(serviceType, FRESH, hs[..k]), serviceType)
  }

  ghost predicate NeverSpoilt(serviceType: Name, hs: seq<Happening>) {
    forall k :: 0 <= k < |hs| ==> !Spoils(Run(serviceType, FRESH, hs[..k]), serviceType, hs[k])
  }

  lemma {:induction false} FreshIsSaneAndFaithful(serviceType: Name)
    ensures Sane(FRESH.entries) && Faithful(FRESH, serviceType)
  {
  }

  lemma {:induction false} RunStep(serviceType: Name, hs: seq<Happening>, k: nat)
    requires k < |hs| && Faithful(Run(serviceType, FRESH, hs[..k]), serviceType)
    ensures Faithful(Run(serviceType, FRESH, hs[..k + 1]), serviceType)
       <==> !Spoils(Run(serviceType, FRESH, hs[..k]), serviceType, hs[k])
  {
    hide Faithful, Spoils, Run, Sane;
    FreshIsSaneAndFaithful(serviceType);
    RunSane(serviceType, FRESH, hs[..k]);
    RunSnoc(serviceType, FRESH, hs[..k], hs[k]);
    assert hs[..k + 1] == hs[..k] + [hs[k]];
    FaithfulStepIff(Run(serviceType, FRESH, hs[..k]), serviceType, hs[k]);
  }

  /**
   * Over every run of datagrams and expiries: the table lists exactly what the cache points to at every moment if and
   * only if no datagram sweeps a listed instance away and no expiry splits one.
   */
  lemma {:induction false} ListedExactlyWhileCachedIff(serviceType: Name, hs: seq<Happening>)
    ensures AlwaysFaithful(serviceType, hs) <==> NeverSpoilt(serviceType, hs)
  {
    hide Faithful, Spoils, Run;
    if AlwaysFaithful(serviceType, hs) {
      forall k | 0 <= k < |hs| ensures !Spoils(Run(serviceType, FRESH, hs[..k]), serviceType, hs[k]) {
        RunStep(serviceType, hs, k);
      }
    }
    if NeverSpoilt(serviceType, hs) {
      NeverSpoiltPrefix(serviceType, hs, |hs|);
    }
  }

  lemma {:induction false} NeverSpoiltPrefix(serviceType: Name, hs: seq<Happening>, n: nat)
    requires n <= |hs| && NeverSpoilt(serviceType, hs)
    ensures forall k :: 0 <= k <= n ==> Faithful(Run(serviceType, FRESH, hs[..k]), serviceType)
  {
    hide Faithful, Spoils;
    if n == 0 {
      FreshIsSaneAndFaithful(serviceType);
      assert hs[..0] == [];
    } else {
      hide Run;
      NeverSpoiltPrefix(serviceType, hs, n - 1);
      RunStep(serviceType, hs, n - 1);
    }
  }

  // ---------------------------------------------------------------------
  // The condition record by record
  // ---------------------------------------------------------------------

  /** A sweep with something to throw out. */
  ghost predicate Evicts(es: seq<Entry>, r: Record, serviceType: Name) {
    Sweeps(es, r, serviceType) && exists n :: Cached(es, serviceType, n) && n != r.data.pointee
  }

  /** For a response with one record the condition is whether that record evicts. */
  lemma {:induction false} OneRecordIff(s: Browser, serviceType: Name, r: Record, at: nat)
    requires Sane(s.entries) && Faithful(s, serviceType) && WellFormedRecord(r)
    ensures Faithful(After1(serviceType, s, Arrives(MessageBytes(Response([r])), at)), serviceType)
       <==> !Evicts(s.entries, r, serviceType)
  {
    var p := MessageBytes(Response([r]));
    WellFormedRoundTrips(Response([r]));
    hide MessageBytes, ReadMessage, Cached, Faithful, WellFormedRecord;
    ArrivalIff(s, serviceType, p, at);
    assert [r] + [] == [r] && [r][..0] == [];
    forall n ensures SweptAway(s.entries, [r], at, serviceType, n)
                <==> Sweeps(s.entries, r, serviceType) && n != r.data.pointee {
      OneSweep(s.entries, r, at, serviceType, n);
    }
  }

  lemma {:induction false} OneSweep(es: seq<Entry>, r: Record, at: nat, serviceType: Name, n: Name)
    ensures SweptAway(es, [r], at, serviceType, n) <==> Sweeps(es, r, serviceType) && n != r.data.pointee
  {
    SweptAwaySnoc(es, [], r, at, serviceType, n);
    assert [] + [r] == [r];
    assert !SweptAway(es, [], at, serviceType, n);
  }

  /** Pointers of the type are of class IN, as section 4.1 of RFC 6763 has them; they may flush or not. */
  predicate InternetPointer(r: Record, serviceType: Name) {
    Points(r, serviceType) ==> r.class_ == CLASS_IN
  }

  ghost predicate InternetPointers(es: seq<Entry>, serviceType: Name) {
    forall i :: 0 <= i < |es| ==> InternetPointer(es[i].record, serviceType)
  }

  /** Each record, when its turn comes, evicts nothing, and is of class IN if it points. */
  ghost predicate Gentle(es: seq<Entry>, rs: seq<Record>, at: nat, serviceType: Name) {
    forall i :: 0 <= i < |rs| ==> InternetPointer(rs[i], serviceType) && !EvictsAt(es, rs, at, serviceType, i)
  }

  ghost predicate EvictsAt(es: seq<Entry>, rs: seq<Record>, at: nat, serviceType: Name, i: nat)
    requires i < |rs|
  {
    Evicts(PutAll(es, rs[..i], at), rs[i], serviceType)
  }

  lemma {:induction false} GentleFront(es: seq<Entry>, rs: seq<Record>, r: Record, at: nat, serviceType: Name)
    requires Gentle(es, rs + [r], at, serviceType)
    ensures Gentle(es, rs, at, serviceType)
    ensures InternetPointer(r, serviceType) && !Evicts(PutAll(es, rs, at), r, serviceType)
  {
    hide Evicts, InternetPointer, PutAll;
    var all := rs + [r];
    forall i | 0 <= i < |rs| ensures InternetPointer(rs[i], serviceType) && !EvictsAt(es, rs, at, serviceType, i) {
      assert all[i] == rs[i] && all[..i] == rs[..i];
      assert !EvictsAt(es, all, at, serviceType, i);
    }
    assert all[|rs|] == r && all[..|rs|] == rs;
    assert !EvictsAt(es, all, at, serviceType, |rs|);
  }

  lemma {:induction false} InternetPut(es: seq<Entry>, r: Record, now: nat, serviceType: Name)
    requires InternetPointers(es, serviceType) && InternetPointer(r, serviceType)
    ensures InternetPointers(PutEntry(es, r, now).0, serviceType)
  {
    hide PutEntry, EqIgnoreCase;
    var out := PutEntry(es, r, now).0;
    forall i | 0 <= i < |out| ensures InternetPointer(out[i].record, serviceType) {
      var origin := PutOrigin(es, r, now, i);
      TtlIrrelevant(out[i].record, origin);
    }
  }

  /** A gentle datagram sweeps no instance away and leaves only pointers of class IN. */
  lemma {:induction false} GentleKeeps(es: seq<Entry>, rs: seq<Record>, at: nat, serviceType: Name)
    requires Gentle(es, rs, at, serviceType) && InternetPointers(es, serviceType)
    requires forall i :: 0 <= i < |rs| ==> WellFormedRecord(rs[i])
    ensures InternetPointers(PutAll(es, rs, at), serviceType)
    ensures forall n :: Cached(es, serviceType, n) ==> Cached(PutAll(es, rs, at), serviceType, n)
    decreases |rs|
  {
    hide Gentle, InternetPointers, Cached, WellFormedRecord, PutEntry, Points, InternetPointer;
    if rs != [] {
      var k := |rs| - 1;
      var front, last := rs[..k], rs[k];
      assert rs == front + [last];
      GentleFront(es, front, last, at, serviceType);
      GentleKeeps(es, front, at, serviceType);
      PutAllSnoc(es, front, last, at);
      InternetPut(PutAll(es, front, at), last, at, serviceType);
      forall n | Cached(es, serviceType, n) ensures Cached(PutAll(es, rs, at), serviceType, n) {
        PutCached(PutAll(es, front, at), last, at, serviceType, n);
      }
    }
  }

  /** Two pointers of class IN to one instance are one answer, so no expiry splits them. */
  lemma {:induction false} OneClassNeverSplits(es: seq<Entry>, serviceType: Name, now: nat)
    requires Distinct(es) && InternetPointers(es, serviceType)
    ensures !Splits(es, serviceType, now)
  {
    if Splits(es, serviceType, now) {
      var i, j :| 0 <= i < |es| && 0 <= j < |es| && es[i].expires <= now < es[j].expires
                  && SameInstance(es[i].record, es[j].record, serviceType);
      SameKeyOnce(es, serviceType, i, j);
    }
  }

  lemma {:induction false} KeyOnce(es: seq<Entry>, i: nat, j: nat)
    requires Distinct(es) && i < |es| && j < |es| && Key(es[i].record) == Key(es[j].record)
    ensures i == j
  {
    hide Key;
  }

  lemma {:induction false} SameKeyOnce(es: seq<Entry>, serviceType: Name, i: nat, j: nat)
    requires Distinct(es) && InternetPointers(es, serviceType) && i < |es| && j < |es|
    requires SameInstance(es[i].record, es[j].record, serviceType)
    ensures i == j
  {
    EqIsFold(es[i].record.name, serviceType);
    EqIsFold(es[j].record.name, serviceType);
    hide EqIgnoreCase;
    assert InternetPointer(es[i].record, serviceType) && InternetPointer(es[j].record, serviceType);
    KeyOnce(es, i, j);
  }

  ghost predicate GentleStep(s: Browser, serviceType: Name, h: Happening) {
    h.Arrives? && ReadMessage(h.payload).Ok? && IsResponse(ReadMessage(h.payload).value) ==>
      var m := ReadMessage(h.payload).value;
      Gentle(s.entries, m.answers + m.additional, h.at, serviceType)
  }

  lemma {:induction false} GentleStepKeeps(s: Browser, serviceType: Name, h: Happening)
    requires GentleStep(s, serviceType, h) && Sane(s.entries) && InternetPointers(s.entries, serviceType)
    ensures !Spoils(s, serviceType, h) && InternetPointers(After1(serviceType, s, h).entries, serviceType)
  {
    match h {
      case Arrives(p, at) =>
        if ReadMessage(p).Ok? && IsResponse(ReadMessage(p).value) {
          var m := ReadMessage(p).value;
          var rs := m.answers + m.additional;
          DecodedIsWellFormed(p);
          assert forall i :: 0 <= i < |rs| ==> WellFormedRecord(rs[i]);
          hide ReadMessage, Cached, WellFormedRecord, Gentle, InternetPointers, PutAll, SweptAway;
          GentleKeeps(s.entries, rs, at, serviceType);
          forall n | Cached(s.entries, serviceType, n) ensures !SweptAway(s.entries, rs, at, serviceType, n) {
            PutAllCached(s.entries, rs, at, serviceType, n);
          }
        }
      case Ticks(now) =>
        hide InternetPointer;
        OneClassNeverSplits(s.entries, serviceType, now);
        LiveOrExpired(s.entries, now);
        var live := Live(s.entries, now);
        forall i | 0 <= i < |live| ensures InternetPointer(live[i].record, serviceType) {
          assert live[i] in live && live[i] in s.entries;
        }
    }
  }

  /** Over every run with pointers of class IN only in which no record evicts, the table is always faithful. */
  lemma {:induction false} GentleRunsAreFaithful(serviceType: Name, hs: seq<Happening>)
    requires forall k :: 0 <= k < |hs| ==> GentleStep(Run(serviceType, FRESH, hs[..k]), serviceType, hs[k])
    ensures AlwaysFaithful(serviceType, hs)
  {
    hide Spoils, Run, GentleStep, AlwaysFaithful, InternetPointers;
    forall k | 0 <= k < |hs| ensures !Spoils(Run(serviceType, FRESH, hs[..k]), serviceType, hs[k]) {
      GentlePrefix(serviceType, hs, k);
      assert hs[..k] <= hs;
      FreshIsSaneAndFaithful(serviceType);
      RunSane(serviceType, FRESH, hs[..k]);
      GentleStepKeeps(Run(serviceType, FRESH, hs[..k]), serviceType, hs[k]);
    }
    ListedExactlyWhileCachedIff(serviceType, hs);
  }

  lemma {:induction false} NoPointersYet(serviceType: Name)
    ensures InternetPointers(Run(serviceType, FRESH, []).entries, serviceType)
  {
  }

  lemma {:induction false} GentlePrefix(serviceType: Name, hs: seq<Happening>, k: nat)
    requires k <= |hs|
    requires forall k :: 0 <= k < |hs| ==> GentleStep(Run(serviceType, FRESH, hs[..k]), serviceType, hs[k])
    ensures InternetPointers(Run(serviceType, FRESH, hs[..k]).entries, serviceType)
  {
    hide GentleStep, Run, InternetPointers, Sane;
    if k == 0 {
      assert hs[..0] == [];
      NoPointersYet(serviceType);
    } else {
      GentlePrefix(serviceType, hs, k - 1);
      assert hs[..k] == hs[..k - 1] + [hs[k - 1]];
      RunSnoc(serviceType, FRESH, hs[..k - 1], hs[k - 1]);
      FreshIsSaneAndFaithful(serviceType);
      RunSane(serviceType, FRESH, hs[..k - 1]);
      GentleStepKeeps(Run(serviceType, FRESH, hs[..k - 1]), serviceType, hs[k - 1]);
    }
  }

  // ---------------------------------------------------------------------
  // Both ways it fails, from the start
  // ---------------------------------------------------------------------

  /** One datagram with one record. */
  function Alone(r: Record, at: nat): Happening {
    Arrives(MessageBytes(Response([r])), at)
  }

  lemma {:induction false} AloneIs(serviceType: Name, s: Browser, r: Record, at: nat)
    requires WellFormedRecord(r)
    ensures After1(serviceType, s, Alone(r, at)) == Absorbed(s, serviceType, [r], at)
    ensures PutAll(s.entries, [r], at) == PutEntry(s.entries, r, at).0
  {
    WellFormedRoundTrips(Response([r]));
    hide MessageBytes, ReadMessage, PutEntry, Report, WellFormedRecord;
    assert [r] + [] == [r] && [r][1..] == [];
  }

  /** A first pointer: held, listed, nothing lost. */
  lemma {:induction false} FirstPointer(serviceType: Name, r: Record, at: nat)
    requires WellFormedRecord(r) && Points(r, serviceType) && r.ttl > 0
    ensures var s := After1(serviceType, FRESH, Alone(r, at));
            && s.entries == [Entry(r, Deadline(r, at))] && Display(r.data.pointee) in s.board.known
            && Cached(s.entries, serviceType, r.data.pointee)
            && forall i :: 0 <= i < |s.board.events| ==> !s.board.events[i].ServiceLost?
  {
    AloneIs(serviceType, FRESH, r, at);
    var es := PutEntry(FRESH.entries, r, at).0;
    assert es == [Entry(r, Deadline(r, at))];
    assert PointsTo(es[0].record, serviceType, r.data.pointee);
    assert WellFormedEntries(es);
    hide Display, ReportAll, Held, Instances, PutEntry, Points, WellFormedRecord, After1;
    ReportedKeys(es, FRESH.board, serviceType, Display(r.data.pointee));
    ReportLosesNothing(es, FRESH.board, Instances(Held(es, serviceType, PTR)));
  }

  /** One more record keeps the list and reports no loss, whatever leaves the cache. */
  lemma {:induction false} NothingLost(serviceType: Name, s: Browser, r: Record, at: nat)
    requires WellFormedRecord(r)
    ensures var t := After1(serviceType, s, Alone(r, at));
            && t.entries == PutEntry(s.entries, r, at).0 && s.board.known.Keys <= t.board.known.Keys
            && s.board.events <= t.board.events
            && forall i :: |s.board.events| <= i < |t.board.events| ==> !t.board.events[i].ServiceLost?
  {
    AloneIs(serviceType, s, r, at);
    hide PutEntry, Held, Instances, ReportAll, After1, WellFormedRecord;
    var es := PutEntry(s.entries, r, at).0;
    ReportLosesNothing(es, s.board, Instances(Held(es, serviceType, PTR)));
  }

  lemma {:induction false} RunNothing(serviceType: Name)
    ensures Run(serviceType, FRESH, []) == FRESH
  {
  }

  lemma {:induction false} RunOfTwo(serviceType: Name, a: Happening, b: Happening)
    ensures Run(serviceType, FRESH, [a]) == After1(serviceType, FRESH, a)
    ensures Run(serviceType, FRESH, [a, b]) == After1(serviceType, After1(serviceType, FRESH, a), b)
  {
    hide After1, Run;
    RunNothing(serviceType);
    RunSnoc(serviceType, FRESH, [], a);
    RunSnoc(serviceType, FRESH, [a], b);
    Sequences.Displays(a, b, b);
  }

  /**
   * A pointer to one instance, then a pointer to another with the cache-flush bit: the first instance has left the
   * cache, is still listed, and no `ServiceLost` was ever sent for anything.
   */
  lemma {:induction false} FlushingPointerDropsSilently(serviceType: Name, a: Name, b: Name, ttl: u32, t0: nat, t1: nat)
    requires WellFormed(serviceType) && WellFormed(a) && WellFormed(b) && a != b && ttl > 0
    ensures var first, second := Shared(serviceType, ttl, DataPtr(a)), Flushing(serviceType, ttl, DataPtr(b));
            var s := Run(serviceType, FRESH, [Alone(first, t0)]);
            var t := Run(serviceType, FRESH, [Alone(first, t0), Alone(second, t1)]);
            && Cached(s.entries, serviceType, a) && Display(a) in s.board.known
            && !Cached(t.entries, serviceType, a) && Display(a) in t.board.known
            && forall i :: 0 <= i < |t.board.events| ==> !t.board.events[i].ServiceLost?
  {
    var first, second := Shared(serviceType, ttl, DataPtr(a)), Flushing(serviceType, ttl, DataPtr(b));
    EqReflexive(serviceType);
    assert WellFormedRecord(first) && WellFormedRecord(second) && Points(first, serviceType);
    var es := [Entry(first, Deadline(first, t0))];
    assert Sweeps(es, second, serviceType) && !Brings(second, serviceType, a);
    hide Display, WellFormed, EqIgnoreCase, After1, Run, Alone, PutEntry, WellFormedRecord, Cached, Sweeps, Brings;
    RunOfTwo(serviceType, Alone(first, t0), Alone(second, t1));
    FirstPointer(serviceType, first, t0);
    NothingLost(serviceType, After1(serviceType, FRESH, Alone(first, t0)), second, t1);
    PutCached(es, second, t1, serviceType, a);
  }

  lemma {:induction false} OtherClassJoins(serviceType: Name, a: Name)
    requires WellFormed(serviceType) && WellFormed(a)
    ensures var brief := Shared(serviceType, 1, DataPtr(a)); var long := brief.(class_ := 3, ttl := 100);
            && WellFormedRecord(brief) && WellFormedRecord(long) && SameInstance(brief, long, serviceType)
            && PutEntry([Entry(brief, 1000)], long, 0).0 == [Entry(brief, 1000), Entry(long, 100000)]
  {
    EqReflexive(serviceType);
    hide EqIgnoreCase, WellFormed;
  }

  lemma {:induction false} TwoClasses(serviceType: Name, a: Name)
    requires WellFormed(serviceType) && WellFormed(a)
    ensures var brief := Shared(serviceType, 1, DataPtr(a)); var long := brief.(class_ := 3, ttl := 100);
            && Run(serviceType, FRESH, [Alone(brief, 0), Alone(long, 0)]).entries
               == [Entry(brief, 1000), Entry(long, 100000)]
            && SameInstance(brief, long, serviceType)
  {
    var brief := Shared(serviceType, 1, DataPtr(a));
    var long := brief.(class_ := 3, ttl := 100);
    OtherClassJoins(serviceType, a);
    assert Points(brief, serviceType);
    hide Display, WellFormed, EqIgnoreCase, After1, Run, Alone, PutEntry, WellFormedRecord, Cached, SameInstance,
         Points;
    RunOfTwo(serviceType, Alone(brief, 0), Alone(long, 0));
    FirstPointer(serviceType, brief, 0);
    NothingLost(serviceType, After1(serviceType, FRESH, Alone(brief, 0)), long, 0);
  }

  /**
   * Two pointers to one instance in different classes, neither flushing, one living a second and one a hundred: after
   * the second the instance is reported lost and is still in the cache.
   */
  lemma {:induction false} ClassesSplit(serviceType: Name, a: Name)
    requires WellFormed(serviceType) && WellFormed(a)
    ensures var brief := Shared(serviceType, 1, DataPtr(a)); var long := brief.(class_ := 3, ttl := 100);
            var t := Run(serviceType, FRESH, [Alone(brief, 0), Alone(long, 0), Ticks(1000)]);
            Cached(t.entries, serviceType, a) && Display(a) !in t.board.known
  {
    var brief := Shared(serviceType, 1, DataPtr(a));
    var long := brief.(class_ := 3, ttl := 100);
    hide Display, After1, Run, Alone, Cached, SameInstance;
    TwoClasses(serviceType, a);
    var t := Run(serviceType, FRESH, [Alone(brief, 0), Alone(long, 0)]);
    SplitIsUnfaithful(t, serviceType, 1000, 0, 1);
    RunSnoc(serviceType, FRESH, [Alone(brief, 0), Alone(long, 0)], Ticks(1000));
    Sequences.Displays(Alone(brief, 0), Alone(long, 0), Ticks(1000));
  }
}
