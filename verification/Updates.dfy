/** A service announced again with other details: when a browser that knew the old ones shows the new ones. */
module Updates {
  import opened Wire
  import opened Names
  import opened NameText
  import opened Records
  import opened Messages
  import opened Caching
  import opened Services
  import opened TieBreaking
  import opened Browsing
  import opened BrowserRuns
  import opened Listings
  import opened Discovery
  import Responders
  import Sequences

  // ---------------------------------------------------------------------
  // What is held under a name and type, as data in order
  // ---------------------------------------------------------------------

  function Slot(es: seq<Entry>, name: Name, want: u16): seq<RecordData> {
    if es == [] then []
    else (if Wanted(es[0].record, name, want) then [es[0].record.data] else []) + Slot(es[1..], name, want)
  }

  lemma {:induction false} SlotCons(es: seq<Entry>, name: Name, want: u16)
    ensures Slot([], name, want) == []
    ensures es != [] ==>
              Slot(es, name, want)
              == (if Wanted(es[0].record, name, want) then [es[0].record.data] else []) + Slot(es[1..], name, want)
  {
  }

  lemma {:induction false} SlotSnoc(es: seq<Entry>, e: Entry, name: Name, want: u16)
    ensures Slot(es + [e], name, want)
         == Slot(es, name, want) + if Wanted(e.record, name, want) then [e.record.data] else []
  {
    hide Slot, Wanted;
    SlotCons(es, name, want);
    SlotCons(es + [e], name, want);
    if es == [] {
      assert [] + [e] == [e] && [e][1..] == [];
    } else {
      Sequences.ConcatTail(es, [e]);
      SlotSnoc(es[1..], e, name, want);
    }
  }

  /** The details depend on what is held only through the data, in order. */
  lemma {:induction false} SlotDecides(es: seq<Entry>, fs: seq<Entry>, name: Name, want: u16)
    requires Slot(es, name, want) == Slot(fs, name, want)
    ensures FirstSrv(Held(es, name, want)) == FirstSrv(Held(fs, name, want))
    ensures FirstTxt(Held(es, name, want)) == FirstTxt(Held(fs, name, want))
  {
    SlotIsData(es, name, want);
    SlotIsData(fs, name, want);
    SameDataSameFirst(Held(es, name, want), Held(fs, name, want));
  }

  lemma {:induction false} SlotIsData(es: seq<Entry>, name: Name, want: u16)
    ensures |Held(es, name, want)| == |Slot(es, name, want)|
    ensures forall i :: 0 <= i < |Held(es, name, want)| ==> Held(es, name, want)[i].data == Slot(es, name, want)[i]
  {
    hide Wanted;
    if es != [] {
      SlotIsData(es[1..], name, want);
    }
  }

  lemma {:induction false} SameDataSameFirst(rs: seq<Record>, os: seq<Record>)
    requires |rs| == |os| && forall i :: 0 <= i < |rs| ==> rs[i].data == os[i].data
    ensures FirstSrv(rs) == FirstSrv(os) && FirstTxt(rs) == FirstTxt(os)
  {
    if rs != [] {
      assert forall i :: 0 <= i < |rs[1..]| ==> rs[1..][i] == rs[i + 1] && os[1..][i] == os[i + 1];
      SameDataSameFirst(rs[1..], os[1..]);
    }
  }

  // ---------------------------------------------------------------------
  // One record
  // ---------------------------------------------------------------------

  lemma {:induction false} SlotOfUpdated(es: seq<Entry>, i: nat, e: Entry, name: Name, want: u16)
    requires i < |es| && es[i].record.name == e.record.name && es[i].record.data == e.record.data
    ensures Slot(es[i := e], name, want) == Slot(es, name, want)
  {
    hide Slot, EqIgnoreCase;
    SlotCons(es, name, want);
    SlotCons(es[i := e], name, want);
    if i == 0 {
      assert es[i := e][1..] == es[1..];
    } else {
      assert es[i := e][1..] == es[1..][i - 1 := e];
      SlotOfUpdated(es[1..], i - 1, e, name, want);
    }
  }

  /** What a cache-flush record leaves of a slot: nothing if it is its own, and everything else. */
  lemma {:induction false} SlotOfUnflushed(es: seq<Entry>, r: Record, name: Name, want: u16)
    requires want != ANY
    ensures Slot(Unflushed(es, r), name, want)
         == if EqIgnoreCase(r.name, name) && RType(r.data) == want then [] else Slot(es, name, want)
  {
    hide Slot, Unflushed, EqIgnoreCase;
    SlotCons(es, name, want);
    UnflushedCons(es, r);
    if es == [] {
      SlotCons([], name, want);
    } else {
      SlotOfUnflushed(es[1..], r, name, want);
      EqSymmetricTransitive(es[0].record.name, name, r.name);
      EqSymmetricTransitive(r.name, es[0].record.name, name);
      EqSymmetricTransitive(r.name, name, r.name);
      var rest := Unflushed(es[1..], r);
      if SameNameAndType(es[0].record, r) {
        Sequences.Empty(rest);
      } else {
        SlotCons([es[0]] + rest, name, want);
        assert ([es[0]] + rest)[1..] == rest;
      }
    }
  }

  /** A record of another type leaves the slot alone; a cache-flush record takes its own slot unless it is in it. */
  lemma {:induction false} SlotOfPut(es: seq<Entry>, r: Record, now: nat, name: Name, want: u16)
    requires want != ANY && r.ttl > 0
    ensures RType(r.data) != want ==> Slot(PutEntry(es, r, now).0, name, want) == Slot(es, name, want)
    ensures RType(r.data) == want && Flushes(r) && r.name == name ==>
              Slot(PutEntry(es, r, now).0, name, want) == if Find(es, r) < |es| then Slot(es, name, want) else [r.data]
  {
    EqReflexive(name);
    var f := Find(es, r);
    if f < |es| {
      SlotOfUpdated(es, f, Entry(es[f].record.(ttl := r.ttl), Deadline(r, now)), name, want);
    } else {
      var kept := if Flushes(r) then Unflushed(es, r) else es;
      SlotOfUnflushed(es, r, name, want);
      hide Slot, Unflushed, EqIgnoreCase, Flushes;
      SlotSnoc(kept, Entry(r, Deadline(r, now)), name, want);
      Sequences.Empty(Slot(kept, name, want));
      Sequences.Empty([r.data]);
    }
  }

  lemma {:induction false} FoundIsHeld(es: seq<Entry>, r: Record)
    ensures Find(es, r) < |es| <==> Holds(es, r)
  {
    hide SameAnswer;
  }

  /** Putting other types neither adds an answer nor takes it away. */
  lemma {:induction false} HoldsAfterPut(es: seq<Entry>, r: Record, now: nat, own: Record)
    requires Sane(es) && r.ttl > 0
    ensures RType(r.data) != RType(own.data) ==> (Holds(PutEntry(es, r, now).0, own) <==> Holds(es, own))
    ensures r == own ==> Holds(PutEntry(es, r, now).0, own)
  {
    var m := MapOf(es);
    PutRefines(es, m, r, now);
    hide PutEntry, Fold;
    HoldsIsKey(es, m, own);
    HoldsIsKey(PutEntry(es, r, now).0, MapPut(m, r, now), own);
  }

  lemma {:induction false} HoldsIsKey(es: seq<Entry>, m: Deadlines, r: Record)
    requires Implements(es, m)
    ensures Holds(es, r) <==> Key(r) in m
  {
    hide SameAnswer, Key;
    if i :| 0 <= i < |es| && SameAnswer(es[i].record, r) {
      SameAnswerIsKey(es[i].record, r);
    }
    if Key(r) in m {
      var i :| 0 <= i < |es| && Key(es[i].record) == Key(r);
      SameAnswerIsKey(es[i].record, r);
    }
  }

  // ---------------------------------------------------------------------
  // A whole announcement
  // ---------------------------------------------------------------------

  /** Every record with the type of `own` is `own`. */
  ghost predicate OneOfType(rs: seq<Record>, own: Record) {
    forall r :: r in rs ==> r.ttl > 0 && WellFormedRecord(r) && (RType(r.data) == RType(own.data) ==> r == own)
  }

  lemma {:induction false} SlotOfAll(es: seq<Entry>, rs: seq<Record>, now: nat, own: Record)
    requires Sane(es) && OneOfType(rs, own) && Flushes(own) && RType(own.data) != ANY
    ensures Slot(PutAll(es, rs, now), own.name, RType(own.data))
         == if Holds(es, own) || own !in rs then Slot(es, own.name, RType(own.data)) else [own.data]
    decreases |rs|
  {
    hide PutEntry, Slot, Holds, Flushes, WellFormedRecord, Sane, Find;
    if rs != [] {
      var r, rest := rs[0], rs[1..];
      assert rs == [r] + rest;
      assert r in rs;
      SlotOfPut(es, r, now, own.name, RType(own.data));
      FoundIsHeld(es, own);
      HoldsAfterPut(es, r, now, own);
      SanePut(es, r, now);
      SlotOfAll(PutEntry(es, r, now).0, rest, now, own);
    }
  }

  /** The SRV and the TXT that count after an announcement: the announced ones, unless they were held already. */
  lemma {:induction false} FirstsAfter(es: seq<Entry>, s: Service, now: nat)
    requires Sane(es) && s.WellFormedService() && s.hostTtl > 0 && s.serviceTtl > 0
    ensures var after := PutAll(es, s.Announcement(), now);
            && FirstSrv(Held(after, s.instance, SRV))
               == (if Holds(es, s.Srv()) then FirstSrv(Held(es, s.instance, SRV)) else Some((s.host, s.port)))
            && FirstTxt(Held(after, s.instance, TXT))
               == if Holds(es, s.TxtRecord()) then FirstTxt(Held(es, s.instance, TXT)) else s.txt
  {
    var rs := s.Announcement();
    AnnouncedOnce(s);
    hide Holds, Slot, Held, Sane, Service.Announcement, PutAll, OneOfType, Service.WellFormedService;
    SlotOfAll(es, rs, now, s.Srv());
    SlotOfAll(es, rs, now, s.TxtRecord());
    if Holds(es, s.Srv()) {
      SlotDecides(PutAll(es, rs, now), es, s.instance, SRV);
    } else {
      OneInSlot(PutAll(es, rs, now), s.instance, SRV, s.Srv().data);
    }
    if Holds(es, s.TxtRecord()) {
      SlotDecides(PutAll(es, rs, now), es, s.instance, TXT);
    } else {
      OneInSlot(PutAll(es, rs, now), s.instance, TXT, s.TxtRecord().data);
    }
  }

  lemma {:induction false} OneInSlot(es: seq<Entry>, name: Name, want: u16, d: RecordData)
    requires Slot(es, name, want) == [d]
    ensures d.DataSrv? ==> FirstSrv(Held(es, name, want)) == Some((d.target, d.port))
    ensures d.DataTxt? ==> FirstTxt(Held(es, name, want)) == d.entries
  {
    SlotIsData(es, name, want);
  }

  lemma {:induction false} AnnouncedOnce(s: Service)
    requires s.WellFormedService() && s.hostTtl > 0 && s.serviceTtl > 0
    ensures OneOfType(s.Announcement(), s.Srv()) && OneOfType(s.Announcement(), s.TxtRecord())
    ensures s.Srv() in s.Announcement() && s.TxtRecord() in s.Announcement()
    ensures forall i :: 0 <= i < |s.Announcement()| ==> WellFormedRecord(s.Announcement()[i])
  {
    Responders.AnnouncementWellFormed(s);
    var rs := s.Announcement();
    assert rs[2] == s.Srv() && rs[3] == s.TxtRecord();
    hide WellFormedRecord, Service.WellFormedService;
    forall r | r in rs
      ensures r.ttl > 0 && (RType(r.data) == SRV ==> r == s.Srv()) && (RType(r.data) == TXT ==> r == s.TxtRecord())
    {
      AnnouncedShape(s, r);
    }
  }

  // ---------------------------------------------------------------------
  // The addresses
  // ---------------------------------------------------------------------

  /** Addresses join and never leave: announced records flush no address. */
  lemma {:induction false} AddressKeysJoin(m: Deadlines, rs: seq<Record>, now: nat, s: Service, q: AnswerKey)
    requires AllAnnounced(rs, s) && s.hostTtl > 0 && s.serviceTtl > 0 && AddressType(q.data)
    ensures q in MapPutAll(m, rs, now) <==> q in m || q in KeysOf(rs)
    decreases |rs|
  {
    hide Service.Announcement, Key;
    if rs == [] {
      assert KeysOf(rs) == {};
    } else {
      var rest := rs[1..];
      assert rs == [rs[0]] + rest;
      AddressKeyJoins(m, rs[0], now, s, q);
      AddressKeysJoin(MapPut(m, rs[0], now), rest, now, s, q);
      assert q in KeysOf(rs) <==> q == Key(rs[0]) || q in KeysOf(rest) by {
        if q in KeysOf(rs) {
          var i :| 0 <= i < |rs| && Key(rs[i]) == q;
          assert i > 0 ==> rest[i - 1] == rs[i];
        }
        if q in KeysOf(rest) {
          var i :| 0 <= i < |rest| && Key(rest[i]) == q;
          assert rs[i + 1] == rest[i];
        }
      }
    }
  }

  lemma {:induction false} AddressKeyJoins(m: Deadlines, r: Record, now: nat, s: Service, q: AnswerKey)
    requires r in s.Announcement() && s.hostTtl > 0 && s.serviceTtl > 0 && AddressType(q.data)
    ensures q in MapPut(m, r, now) <==> q in m || q == Key(r)
  {
    AnnouncedShape(s, r);
  }

  lemma {:induction false} AnnouncedAddressKeys(s: Service, q: AnswerKey)
    requires AddressType(q.data) && s.hostTtl > 0 && s.serviceTtl > 0
    ensures q in KeysOf(s.Announcement()) <==> q in KeysOf(s.AddressRecords())
    ensures q in KeysOf(s.AddressRecords()) ==> q.name == Fold(s.host) && q.class_ == CLASS_IN
  {
    var rs, addresses := s.Announcement(), s.AddressRecords();
    hide Fold;
    if q in KeysOf(rs) {
      var i :| 0 <= i < |rs| && Key(rs[i]) == q;
      assert i >= 4;
      assert rs[i] == addresses[i - 4];
    }
    if q in KeysOf(addresses) {
      var i :| 0 <= i < |addresses| && Key(addresses[i]) == q;
      assert rs[i + 4] == addresses[i];
      assert addresses[i] == s.AddressRecord(s.addresses[i]);
    }
  }

  /** What a map that holds these answers has under the host name after the announcement. */
  lemma {:induction false} HostAfter(m: Deadlines, s: Service, now: nat, q: AnswerKey)
    requires s.hostTtl > 0 && s.serviceTtl > 0 && AddressType(q.data)
    ensures q in MapPutAll(m, s.Announcement(), now) <==> q in m || q in KeysOf(s.AddressRecords())
  {
    hide KeysOf, MapPutAll, Service.Announcement, Service.AddressRecords, AddressType;
    AddressKeysJoin(m, s.Announcement(), now, s, q);
    AnnouncedAddressKeys(s, q);
  }

  ghost predicate AnnouncedAddress(s: Service, r: Record) {
    exists a :: a in s.addresses && SameAnswer(r, s.AddressRecord(a))
  }

  /** Every address held under the host name is one that is announced. */
  ghost predicate AddressesCurrent(es: seq<Entry>, s: Service) {
    forall i :: 0 <= i < |es| && EqIgnoreCase(es[i].record.name, s.host) && HasAddress(es[i].record) ==>
                  AnnouncedAddress(s, es[i].record)
  }

  lemma {:induction false} AnnouncedAddressIsKey(s: Service, r: Record)
    ensures AnnouncedAddress(s, r) <==> Key(r) in KeysOf(s.AddressRecords())
  {
    hide SameAnswer, Key, KeysOf;
    AddressKeyOf(s, Key(r));
    if a :| a in s.addresses && SameAnswer(r, s.AddressRecord(a)) {
      SameAnswerIsKey(r, s.AddressRecord(a));
      var i :| 0 <= i < |s.addresses| && s.addresses[i] == a;
      assert Key(r) == Key(s.AddressRecord(s.addresses[i]));
    }
    if i :| 0 <= i < |s.addresses| && Key(r) == Key(s.AddressRecord(s.addresses[i])) {
      SameAnswerIsKey(r, s.AddressRecord(s.addresses[i]));
      assert s.addresses[i] in s.addresses;
    }
  }

  /** In terms of the map the vector implements. */
  lemma {:induction false} CurrentIsKeys(es: seq<Entry>, m: Deadlines, s: Service)
    requires Implements(es, m)
    ensures AddressesCurrent(es, s) <==>
            forall q :: q in m && q.name == Fold(s.host) && AddressType(q.data) ==> q in KeysOf(s.AddressRecords())
  {
    hide KeysOf, AnnouncedAddress, EqIgnoreCase, Fold, Distinct;
    forall i | 0 <= i < |es|
      ensures EqIgnoreCase(es[i].record.name, s.host) <==> Key(es[i].record).name == Fold(s.host)
      ensures AnnouncedAddress(s, es[i].record) <==> Key(es[i].record) in KeysOf(s.AddressRecords())
    {
      EqIsFold(es[i].record.name, s.host);
      AnnouncedAddressIsKey(s, es[i].record);
    }
    if AddressesCurrent(es, s) {
      forall q | q in m && q.name == Fold(s.host) && AddressType(q.data) ensures q in KeysOf(s.AddressRecords()) {
        var i :| 0 <= i < |es| && Key(es[i].record) == q;
      }
    }
  }

  lemma {:induction false} HeldAddressIsListed(es: seq<Entry>, m: Deadlines, name: Name, q: AnswerKey)
      returns (x: Record)
    requires Implements(es, m) && q in m && q.name == Fold(name) && AddressType(q.data)
    ensures x in Held(es, name, ANY) && Key(x) == q && HasAddress(x) && Octets(x) in Addresses(Held(es, name, ANY))
  {
    hide Wanted, Fold, Distinct;
    var held := Held(es, name, ANY);
    HeldAre(es, name, ANY);
    AddressesAre(held);
    var i :| 0 <= i < |es| && Key(es[i].record) == q;
    x := es[i].record;
    WantedMeans(x, name, ANY);
    assert x in held;
    var j :| 0 <= j < |held| && held[j] == x;
    assert HasAddress(held[j]) && Octets(held[j]) == Octets(x);
  }

  /** Two records with one address list it twice. */
  lemma {:induction false} ListedTwice(rs: seq<Record>, x: Record, y: Record)
    requires x in rs && y in rs && x != y && HasAddress(x) && HasAddress(y) && Octets(x) == Octets(y)
    ensures !NoTwice(Addresses(rs))
  {
    var rest, o := rs[1..], Octets(x);
    assert rs == [rs[0]] + rest;
    AddressesAre(rest);
    AddressesCons(rs);
    hide Addresses;
    assert multiset(Addresses(rs)) == multiset(AddressOf(rs[0])) + multiset(Addresses(rest));
    if rs[0] == x || rs[0] == y {
      var z := if rs[0] == x then y else x;
      var i :| 0 <= i < |rest| && rest[i] == z;
      assert o in Addresses(rest);
      assert AddressOf(rs[0]) == [o];
      assert multiset(Addresses(rs))[o] >= 2;
    } else {
      ListedTwice(rest, x, y);
      var p :| multiset(Addresses(rest))[p] > 1;
      assert multiset(Addresses(rs))[p] > 1;
    }
  }

  /** Where the addresses found are the announced ones without repeats, each address held is an announced record. */
  lemma {:induction false} ExactIsCurrent(es: seq<Entry>, m: Deadlines, s: Service, q: AnswerKey)
    requires Implements(es, m) && q in m && q.name == Fold(s.host) && AddressType(q.data)
    requires forall k :: k in KeysOf(s.AddressRecords()) ==> k in m
    requires var found := Addresses(Held(es, s.host, ANY)); NoTwice(found) && forall o :: o in found ==> Announced(s, o)
    ensures q in KeysOf(s.AddressRecords())
  {
    var held := Held(es, s.host, ANY);
    var x := HeldAddressIsListed(es, m, s.host, q);
    var i :| 0 <= i < |s.addresses| && OctetsOf(s.addresses[i]) == Octets(x);
    var k := Key(s.AddressRecord(s.addresses[i]));
    hide KeysOf, Held, Addresses, NoTwice, Implements, Fold;
    AddressKeyOf(s, k);
    var y := HeldAddressIsListed(es, m, s.host, k);
    if q != k {
      assert y.data == s.AddressRecord(s.addresses[i]).data;
      ListedTwice(held, x, y);
    }
  }

  // ---------------------------------------------------------------------
  // The details
  // ---------------------------------------------------------------------

  /** The announced SRV is news, or the first one held says what it says. */
  ghost predicate SrvCurrent(es: seq<Entry>, s: Service) {
    Holds(es, s.Srv()) ==> FirstSrv(Held(es, s.instance, SRV)) == Some((s.host, s.port))
  }

  /** The announced TXT is news, or the first one held makes the same pairs. */
  ghost predicate TxtCurrent(es: seq<Entry>, s: Service) {
    Holds(es, s.TxtRecord()) ==> TxtPairs(FirstTxt(Held(es, s.instance, TXT))) == TxtPairs(s.txt)
  }

  lemma {:induction false} TargetPrints(es: seq<Entry>, name: Name)
    requires WellFormedEntries(es) && FirstSrv(Held(es, name, SRV)).Some?
    ensures NonEmptyLabels(FirstSrv(Held(es, name, SRV)).value.0.labels)
  {
    hide Wanted, WellFormedRecord;
    if es != [] {
      assert WellFormedEntries(es[1..]) by {
        assert forall i :: 0 <= i < |es[1..]| ==> es[1..][i] == es[i + 1];
      }
      if !(Wanted(es[0].record, name, SRV) && es[0].record.data.DataSrv?) {
        SkipNoSrv(es, name);
        TargetPrints(es[1..], name);
      } else {
        FirstIsHead(es, name);
        PointeePrints(es[0].record);
      }
    }
  }

  lemma {:induction false} PointeePrints(r: Record)
    requires WellFormedRecord(r) && r.data.DataSrv?
    ensures NonEmptyLabels(r.data.target.labels)
  {
  }

  lemma {:induction false} SkipNoSrv(es: seq<Entry>, name: Name)
    requires es != [] && !(Wanted(es[0].record, name, SRV) && es[0].record.data.DataSrv?)
    ensures FirstSrv(Held(es, name, SRV)) == FirstSrv(Held(es[1..], name, SRV))
  {
    hide Wanted;
    var rest := Held(es[1..], name, SRV);
    assert [] + rest == rest && ([es[0].record] + rest)[1..] == rest;
  }

  lemma {:induction false} FirstIsHead(es: seq<Entry>, name: Name)
    requires es != [] && Wanted(es[0].record, name, SRV) && es[0].record.data.DataSrv?
    ensures FirstSrv(Held(es, name, SRV)) == Some((es[0].record.data.target, es[0].record.data.port))
  {
    hide Wanted;
  }

  /** With the announced SRV, TXT and addresses in place the details are the announced ones. */
  lemma {:induction false} CurrentIsExact(es: seq<Entry>, m: Deadlines, s: Service)
    requires Implements(es, m) && HostLearned(m, s) && s.addresses != []
    requires FirstSrv(Held(es, s.instance, SRV)) == Some((s.host, s.port))
    requires TxtPairs(FirstTxt(Held(es, s.instance, TXT))) == TxtPairs(s.txt)
    ensures DetailsOf(es, s.instance).Some? && Exactly(DetailsOf(es, s.instance).value, s)
  {
    hide Held, Addresses, Display, TxtPairs, Implements, HostLearned, Sorted, NoTwice, Announced, FirstSrv, FirstTxt;
    LearnedAddresses(es, m, s);
  }

  /** Details that are the announced ones come from the announced host, port, pairs and addresses. */
  lemma {:induction false} ExactMeans(es: seq<Entry>, s: Service)
    requires s.WellFormedService() && WellFormedEntries(es)
    requires DetailsOf(es, s.instance).Some? && Exactly(DetailsOf(es, s.instance).value, s)
    ensures FirstSrv(Held(es, s.instance, SRV)) == Some((s.host, s.port))
    ensures TxtPairs(FirstTxt(Held(es, s.instance, TXT))) == TxtPairs(s.txt)
    ensures var found := Addresses(Held(es, s.host, ANY)); NoTwice(found) && forall o :: o in found ==> Announced(s, o)
  {
    TargetPrints(es, s.instance);
    var target := FirstSrv(Held(es, s.instance, SRV)).value.0;
    assert NonEmptyLabels(s.host.labels);
    hide Held, Addresses, Display, TxtPairs, Sorted, Announced, FirstSrv, FirstTxt, Sort, NonEmptyLabels,
         Service.WellFormedService;
    DisplayInjective(target, s.host);
    var found := Addresses(Held(es, s.host, ANY));
    SortSorts(found);
    forall o | o in found ensures Announced(s, o) {
      assert o in multiset(found);
      assert o in multiset(Sort(found));
    }
  }

  lemma {:induction false} DetailsAfterIff(es: seq<Entry>, s: Service, now: nat)
    requires Sane(es) && s.WellFormedService() && s.hostTtl > 0 && s.serviceTtl > 0 && s.addresses != []
    ensures var d := DetailsOf(PutAll(es, s.Announcement(), now), s.instance);
            d.Some? && Exactly(d.value, s) <==> SrvCurrent(es, s) && TxtCurrent(es, s) && AddressesCurrent(es, s)
  {
    var rs := s.Announcement();
    var after := PutAll(es, rs, now);
    var m := MapOf(es);
    AnnouncedOnce(s);
    SanePutAll(es, rs, now);
    PutAllRefines(es, m, rs, now);
    FirstsAfter(es, s, now);
    CurrentIsKeys(es, m, s);
    hide PutAll, MapPutAll, Service.Announcement, Held, FirstSrv, FirstTxt, Implements, Exactly, DetailsOf, TxtPairs,
         Holds, KeysOf, AddressesCurrent, Service.WellFormedService, Distinct, OneOfType, Fold, Addresses,
         WellFormedRecord, AddressType;
    var m1 := MapPutAll(m, rs, now);
    if SrvCurrent(es, s) && TxtCurrent(es, s) && AddressesCurrent(es, s) {
      HostIsLearned(m, s, now);
      CurrentIsExact(after, m1, s);
    }
    var d := DetailsOf(after, s.instance);
    if d.Some? && Exactly(d.value, s) {
      ExactMeans(after, s);
      forall q | q in m && q.name == Fold(s.host) && AddressType(q.data) ensures q in KeysOf(s.AddressRecords()) {
        AnnouncedHeldAfter(m, s, now);
        HostAfter(m, s, now, q);
        ExactIsCurrent(after, m1, s, q);
      }
    }
  }

  lemma {:induction false} HostIsLearned(m: Deadlines, s: Service, now: nat)
    requires s.hostTtl > 0 && s.serviceTtl > 0
    requires forall q :: q in m && q.name == Fold(s.host) && AddressType(q.data) ==> q in KeysOf(s.AddressRecords())
    ensures HostLearned(MapPutAll(m, s.Announcement(), now), s)
  {
    hide KeysOf, MapPutAll, Service.Announcement, Service.AddressRecords, Fold, AddressType;
    var m1 := MapPutAll(m, s.Announcement(), now);
    forall q ensures q in m1 && q.name == Fold(s.host) && AddressType(q.data) <==> q in KeysOf(s.AddressRecords()) {
      AddressKeysAreAddresses(s, q);
      if AddressType(q.data) {
        HostAfter(m, s, now, q);
        AnnouncedAddressKeys(s, q);
      }
    }
  }

  lemma {:induction false} AddressKeysAreAddresses(s: Service, q: AnswerKey)
    ensures q in KeysOf(s.AddressRecords()) ==> AddressType(q.data)
  {
    hide Fold;
    AddressKeyOf(s, q);
  }

  lemma {:induction false} AnnouncedHeldAfter(m: Deadlines, s: Service, now: nat)
    requires s.hostTtl > 0 && s.serviceTtl > 0
    ensures forall k :: k in KeysOf(s.AddressRecords()) ==> k in MapPutAll(m, s.Announcement(), now)
  {
    hide KeysOf, MapPutAll, Service.Announcement, Service.AddressRecords, AddressType;
    forall k | k in KeysOf(s.AddressRecords()) ensures k in MapPutAll(m, s.Announcement(), now) {
      AddressKeysAreAddresses(s, k);
      HostAfter(m, s, now, k);
    }
  }

  // ---------------------------------------------------------------------
  // What the browser shows
  // ---------------------------------------------------------------------

  /** The cache has details of the instance, and the table lists it with exactly the service's. */
  ghost predicate Shows(b: Browser, s: Service) {
    Resolves(b.board, s) && DetailsOf(b.entries, s.instance).Some?
  }

  lemma {:induction false} UpToDateShows(s: Service, b: Browser)
    requires UpToDate(b.entries, b.board, s.instance)
    ensures Shows(b, s)
       <==> DetailsOf(b.entries, s.instance).Some? && Exactly(DetailsOf(b.entries, s.instance).value, s)
  {
    hide DetailsOf, Exactly, Display;
  }

  lemma {:induction false} UpdateStep(s: Service, b: Browser, now: nat)
    requires Sane(b.entries) && s.WellFormedService() && s.hostTtl > 0 && s.serviceTtl > 0 && s.addresses != []
    ensures Shows(After1(s.serviceType, b, Arrives(MessageBytes(Response(s.Announcement())), now)), s)
       <==> SrvCurrent(b.entries, s) && TxtCurrent(b.entries, s) && AddressesCurrent(b.entries, s)
  {
    var rs := s.Announcement();
    var after := PutAll(b.entries, rs, now);
    Responders.AnnouncementWellFormed(s);
    Responders.EmptyWellFormed();
    TellsEverything(s);
    AnnouncedOnce(s);
    hide MessageBytes, PutAll, Shows, SrvCurrent, TxtCurrent, AddressesCurrent, Service.WellFormedService, After1,
         Report, Service.Announcement, WellFormedSection, DetailsOf, Exactly, Told, AllAnnounced, Cached, UpToDate,
         OneOfType, WellFormedRecord;
    ResponseArrives(b, s.serviceType, Response(rs), now);
    Sequences.Empty(rs);
    SanePutAll(b.entries, rs, now);
    AnnouncedCached(b.entries, s, rs, now);
    InstancesReported(after, b.board, s.serviceType, s.instance);
    DetailsAfterIff(b.entries, s, now);
    UpToDateShows(s, Browser(after, Report(s.serviceType, after, b.board)));
  }

  /**
   * Whatever a browser has heard before: after a service's announcement it shows exactly what is announced if and only
   * if the SRV is news or agrees with the first one held, the TXT likewise, and no address is held under the host name
   * that is not announced. Nothing flushes addresses, and a record that is held already flushes nothing.
   */
  lemma {:induction false} AnnouncementUpdatesIff(s: Service, hs: seq<Happening>, now: nat)
    requires s.WellFormedService() && s.hostTtl > 0 && s.serviceTtl > 0 && s.addresses != []
    ensures var es := Reached(s, hs).entries;
            Shows(Reached(s, hs + [Arrives(MessageBytes(Response(s.Announcement())), now)]), s)
            <==> SrvCurrent(es, s) && TxtCurrent(es, s) && AddressesCurrent(es, s)
  {
    ReachedSane(s, hs);
    hide MessageBytes, Shows, SrvCurrent, TxtCurrent, AddressesCurrent, Service.WellFormedService, After1, Run,
         Service.Announcement;
    UpdateStep(s, Reached(s, hs), now);
    RunSnoc(s.serviceType, FRESH, hs, Arrives(MessageBytes(Response(s.Announcement())), now));
  }

  // ---------------------------------------------------------------------
  // From one announcement to the next
  // ---------------------------------------------------------------------

  /** The cache holds the service's SRV and TXT alone under its instance and exactly its addresses under its host. */
  ghost predicate LearnedBy(es: seq<Entry>, s: Service) {
    exists m :: Implements(es, m) && Learned(m, s)
  }

  predicate SameService(former: Service, changed: Service) {
    former.instance == changed.instance && former.serviceType == changed.serviceType && former.host == changed.host
  }

  lemma {:induction false} AnnouncementIsLearned(s: Service, hs: seq<Happening>, now: nat)
    requires s.WellFormedService() && s.hostTtl > 0 && s.serviceTtl > 0 && NothingHeard(Reached(s, hs).entries, s)
    ensures LearnedBy(Reached(s, hs + [Arrives(MessageBytes(Response(s.Announcement())), now)]).entries, s)
  {
    var rs := s.Announcement();
    ReachedSane(s, hs);
    Responders.AnnouncementWellFormed(s);
    Responders.EmptyWellFormed();
    TellsEverything(s);
    hide MessageBytes, PutAll, MapPutAll, Service.WellFormedService, After1, Report, Run, Service.Announcement, Told,
         WellFormedSection, NothingHeard, Learned, Implements, Unheard, AllAnnounced;
    var b := Reached(s, hs);
    var m := NothingHeardMap(b.entries, s);
    RunSnoc(s.serviceType, FRESH, hs, Arrives(MessageBytes(Response(rs)), now));
    ResponseArrives(b, s.serviceType, Response(rs), now);
    Sequences.Empty(rs);
    PutAllRefines(b.entries, m, rs, now);
    ToldIsLearned(m, s, rs, now);
  }

  lemma {:induction false} LearnedFirsts(es: seq<Entry>, m: Deadlines, former: Service, changed: Service)
    requires Implements(es, m) && Learned(m, former) && SameService(former, changed)
    ensures SrvCurrent(es, changed) && TxtCurrent(es, changed)
  {
    HeldAlone(es, m, former.Srv(), SRV);
    HeldAlone(es, m, former.TxtRecord(), TXT);
    FirstSrvAlone(Held(es, former.instance, SRV), former.Srv().data);
    FirstTxtAlone(Held(es, former.instance, TXT), former.TxtRecord().data);
    HoldsIsKey(es, m, changed.Srv());
    HoldsIsKey(es, m, changed.TxtRecord());
    hide Held, FirstSrv, FirstTxt, Implements, TxtPairs, Holds, HostLearned;
    if Holds(es, changed.Srv()) {
      assert Key(changed.Srv()) == Key(former.Srv());
    }
    if Holds(es, changed.TxtRecord()) {
      assert Key(changed.TxtRecord()) == Key(former.TxtRecord());
    }
  }

  /** The key of an address under a host name. */
  function AddressKey(host: Name, a: IpAddr): AnswerKey {
    AnswerKey(Fold(host), CLASS_IN, match a case V4Addr(v4) => DataA(v4) case V6Addr(v6) => DataAaaa(v6))
  }

  lemma {:induction false} AddressKeysOf(s: Service, q: AnswerKey)
    ensures q in KeysOf(s.AddressRecords()) <==> exists a :: a in s.addresses && q == AddressKey(s.host, a)
  {
    hide Fold;
    AddressKeyOf(s, q);
    forall a ensures Key(s.AddressRecord(a)) == AddressKey(s.host, a) {
    }
    if i :| 0 <= i < |s.addresses| && q == Key(s.AddressRecord(s.addresses[i])) {
      assert s.addresses[i] in s.addresses;
    }
    if a :| a in s.addresses && q == AddressKey(s.host, a) {
      var i :| 0 <= i < |s.addresses| && s.addresses[i] == a;
    }
  }

  lemma {:induction false} AddressKeysDiffer(host: Name, a: IpAddr, b: IpAddr)
    requires AddressKey(host, a) == AddressKey(host, b)
    ensures a == b
  {
  }

  lemma {:induction false} LearnedAddressesCurrent(es: seq<Entry>, m: Deadlines, former: Service, changed: Service)
    requires Implements(es, m) && HostLearned(m, former) && SameService(former, changed)
    ensures AddressesCurrent(es, changed) <==> forall a :: a in former.addresses ==> a in changed.addresses
  {
    CurrentIsKeys(es, m, changed);
    hide KeysOf, Implements, AddressesCurrent, AddressKey, AddressType;
    if forall a :: a in former.addresses ==> a in changed.addresses {
      forall q | q in m && q.name == Fold(changed.host) && AddressType(q.data)
        ensures q in KeysOf(changed.AddressRecords())
      {
        AddressKeysOf(former, q);
        AddressKeysOf(changed, q);
      }
    }
    if AddressesCurrent(es, changed) {
      forall a | a in former.addresses ensures a in changed.addresses {
        var q := AddressKey(former.host, a);
        AddressKeysOf(former, q);
        assert q in m && q.name == Fold(changed.host) && AddressType(q.data);
        AddressKeysOf(changed, q);
        var b :| b in changed.addresses && q == AddressKey(changed.host, b);
        AddressKeysDiffer(former.host, a, b);
      }
    }
  }

  /**
   * A service that changes its port, its TXT or its addresses and announces itself again under the same names: a
   * browser that has learned the old announcement shows exactly the new one if and only if no address was withdrawn.
   * An old address stays in the details until it expires.
   */
  lemma {:induction false} ReannouncedIff(former: Service, changed: Service, hs: seq<Happening>, now: nat)
    requires changed.WellFormedService() && changed.hostTtl > 0 && changed.serviceTtl > 0 && changed.addresses != []
    requires SameService(former, changed) && LearnedBy(Reached(changed, hs).entries, former)
    ensures Shows(Reached(changed, hs + [Arrives(MessageBytes(Response(changed.Announcement())), now)]), changed)
       <==> forall a :: a in former.addresses ==> a in changed.addresses
  {
    var es := Reached(changed, hs).entries;
    hide MessageBytes, Shows, SrvCurrent, TxtCurrent, AddressesCurrent, Service.WellFormedService, Reached, Implements,
         Service.Announcement;
    var m :| Implements(es, m) && Learned(m, former);
    AnnouncementUpdatesIff(changed, hs, now);
    LearnedFirsts(es, m, former, changed);
    LearnedAddressesCurrent(es, m, former, changed);
  }
}
