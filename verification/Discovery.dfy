/** From one host to another: what an announcement makes a browser report. */
module Discovery {
  import opened Wire
  import opened Names
  import opened NameText
  import opened Records
  import opened Messages
  import opened Caching
  import opened Services
  import opened TieBreaking
  import opened Browsing
  import opened BrowserRuns
  import opened Listings
  import Responders

  function MapPutAll(m: Deadlines, rs: seq<Record>, now: nat): Deadlines
    decreases |rs|
  {
    if rs == [] then m else MapPutAll(MapPut(m, rs[0], now), rs[1..], now)
  }

  lemma {:induction false} PutAllRefines(es: seq<Entry>, m: Deadlines, rs: seq<Record>, now: nat)
    requires Implements(es, m)
    ensures Implements(PutAll(es, rs, now), MapPutAll(m, rs, now))
    decreases |rs|
  {
    hide Implements, PutEntry, MapPut;
    if rs != [] {
      PutRefines(es, m, rs[0], now);
      PutAllRefines(PutEntry(es, rs[0], now).0, MapPut(m, rs[0], now), rs[1..], now);
    }
  }

  predicate AddressType(d: RecordData) {
    d.DataA? || d.DataAaaa?
  }

  /** The cache holds nothing under the instance or the host name. */
  ghost predicate Unheard(m: Deadlines, s: Service) {
    forall k :: k in m ==> k.name != Fold(s.instance) && k.name != Fold(s.host)
  }

  /** `k` is held, and nothing else of its name and type is. */
  ghost predicate Only(m: Deadlines, k: AnswerKey) {
    k in m && forall q :: q in m && q.name == k.name && RType(q.data) == RType(k.data) ==> q == k
  }

  /** The answers a list of records gives. */
  ghost function KeysOf(rs: seq<Record>): set<AnswerKey> {
    set i | 0 <= i < |rs| :: Key(rs[i])
  }

  /** Among what is held, nothing is superseded by our SRV or TXT but those themselves. */
  ghost predicate OwnSlots(m: Deadlines, s: Service) {
    && (forall k :: k in m && Supersedes(s.Srv(), k) ==> k == Key(s.Srv()))
    && (forall k :: k in m && Supersedes(s.TxtRecord(), k) ==> k == Key(s.TxtRecord()))
  }

  ghost predicate AllAnnounced(rs: seq<Record>, s: Service) {
    forall r :: r in rs ==> r in s.Announcement()
  }

  ghost predicate Told(rs: seq<Record>, r: Record) {
    exists i :: 0 <= i < |rs| && Key(rs[i]) == Key(r)
  }

  lemma {:induction false} AnnouncedShape(s: Service, r: Record)
    requires r in s.Announcement() && s.hostTtl > 0 && s.serviceTtl > 0
    ensures r.ttl > 0 && (Flushes(r) ==> r == s.Srv() || r == s.TxtRecord())
    ensures RType(r.data) == SRV ==> r == s.Srv()
    ensures RType(r.data) == TXT ==> r == s.TxtRecord()
    ensures AddressType(r.data) ==> r in s.AddressRecords()
  {
    var four := [s.EnumerationPtr(), s.Ptr(), s.Srv(), s.TxtRecord()];
    assert s.Announcement() == four + s.AddressRecords();
  }

  lemma {:induction false} PutAnnounced(m: Deadlines, s: Service, r: Record, now: nat)
    requires OwnSlots(m, s) && r in s.Announcement() && s.hostTtl > 0 && s.serviceTtl > 0
    ensures MapPut(m, r, now).Keys == m.Keys + {Key(r)} && OwnSlots(MapPut(m, r, now), s)
  {
    AnnouncedShape(s, r);
    hide Service.Announcement;
    if Key(r) !in m && Flushes(r) {
      assert Kept(m, r) == m;
    }
    assert Supersedes(s.Srv(), Key(r)) ==> r == s.Srv();
    assert Supersedes(s.TxtRecord(), Key(r)) ==> r == s.TxtRecord();
  }

  /** Records of an announcement join the cache in any order and any number of times, and none throws out another. */
  lemma {:induction false} AnnouncedJoin(m: Deadlines, s: Service, rs: seq<Record>, now: nat)
    requires OwnSlots(m, s) && AllAnnounced(rs, s) && s.hostTtl > 0 && s.serviceTtl > 0
    ensures MapPutAll(m, rs, now).Keys == m.Keys + KeysOf(rs) && OwnSlots(MapPutAll(m, rs, now), s)
    decreases |rs|
  {
    hide Key, OwnSlots, MapPut, Service.Announcement;
    if rs == [] {
      assert KeysOf(rs) == {};
    } else {
      var rest := rs[1..];
      assert rs == [rs[0]] + rest;
      PutAnnounced(m, s, rs[0], now);
      AnnouncedJoin(MapPut(m, rs[0], now), s, rest, now);
      assert KeysOf(rs) == {Key(rs[0])} + KeysOf(rest) by {
        forall k | k in KeysOf(rs) ensures k in {Key(rs[0])} + KeysOf(rest) {
          var i :| 0 <= i < |rs| && Key(rs[i]) == k;
          assert i > 0 ==> rest[i - 1] == rs[i];
        }
      }
    }
  }

  /** What the cache holds under the service's names after its announcement. */
  ghost predicate Learned(m: Deadlines, s: Service) {
    Only(m, Key(s.Srv())) && Only(m, Key(s.TxtRecord())) && HostLearned(m, s)
  }

  /** The addresses under the host name are those announced. */
  ghost predicate HostLearned(m: Deadlines, s: Service) {
    forall q :: q in m && q.name == Fold(s.host) && AddressType(q.data) <==> q in KeysOf(s.AddressRecords())
  }

  /** Under the host name, the addresses told are the announced ones. */
  lemma {:induction false} AddressesTold(m: Deadlines, s: Service, rs: seq<Record>, q: AnswerKey)
    requires Unheard(m, s) && AllAnnounced(rs, s) && s.hostTtl > 0 && s.serviceTtl > 0
    requires forall r :: r in s.Claimed() ==> Told(rs, r)
    ensures q in m.Keys + KeysOf(rs) && q.name == Fold(s.host) && AddressType(q.data)
       <==> q in KeysOf(s.AddressRecords())
  {
    var addresses := s.AddressRecords();
    if q in KeysOf(rs) && AddressType(q.data) {
      var i :| 0 <= i < |rs| && Key(rs[i]) == q;
      assert rs[i] in rs;
      AnnouncedShape(s, rs[i]);
      hide Service.Announcement, Service.AddressRecords;
      var j :| 0 <= j < |addresses| && addresses[j] == rs[i];
    }
    if q in KeysOf(addresses) {
      var i :| 0 <= i < |addresses| && Key(addresses[i]) == q;
      assert addresses[i] == s.Claimed()[i + 2];
      assert Told(rs, s.Claimed()[i + 2]);
    }
  }

  /** Whatever of an announcement arrives, in whatever order: once all that is claimed has been told, it is learned. */
  lemma {:induction false} ToldIsLearned(m: Deadlines, s: Service, rs: seq<Record>, now: nat)
    requires Unheard(m, s) && AllAnnounced(rs, s) && s.hostTtl > 0 && s.serviceTtl > 0
    requires forall r :: r in s.Claimed() ==> Told(rs, r)
    ensures Learned(MapPutAll(m, rs, now), s)
    ensures MapPutAll(m, rs, now).Keys == m.Keys + KeysOf(rs)
  {
    AnnouncedJoin(m, s, rs, now);
    var f := MapPutAll(m, rs, now);
    assert s.Srv() == s.Claimed()[0] && s.TxtRecord() == s.Claimed()[1];
    assert Told(rs, s.Srv()) && Told(rs, s.TxtRecord());
    hide MapPutAll, AllAnnounced, Unheard, Service.Claimed, Service.AddressRecords, AddressType, Fold;
    forall q ensures q in f && q.name == Fold(s.host) && AddressType(q.data) <==> q in KeysOf(s.AddressRecords()) {
      AddressesTold(m, s, rs, q);
    }
  }

  // ---------------------------------------------------------------------
  // From what is held to what is reported
  // ---------------------------------------------------------------------

  lemma {:induction false} HeldAre(es: seq<Entry>, name: Name, want: u16)
    ensures forall x :: x in Held(es, name, want)
                   <==> exists i :: 0 <= i < |es| && es[i].record == x && Wanted(x, name, want)
  {
    hide Wanted;
    if es != [] {
      var rest := es[1..];
      HeldAre(rest, name, want);
      forall x
        ensures x in Held(es, name, want)
           <==> exists i :: 0 <= i < |es| && es[i].record == x && Wanted(x, name, want)
      {
        if i :| 0 <= i < |es| && es[i].record == x && Wanted(x, name, want) {
          assert i > 0 ==> rest[i - 1] == es[i];
        }
        if x in Held(rest, name, want) {
          var i :| 0 <= i < |rest| && rest[i].record == x;
          assert es[i + 1] == rest[i];
        }
      }
    }
  }

  /** A record held alone under its name and type is all there is to find. */
  lemma {:induction false} HeldAlone(es: seq<Entry>, m: Deadlines, r: Record, rtype: u16)
    requires Implements(es, m) && Only(m, Key(r)) && RType(r.data) == rtype != ANY
    ensures var held := Held(es, r.name, rtype); held != [] && forall x :: x in held ==> x.data == r.data
  {
    hide Wanted, Fold;
    HeldAre(es, r.name, rtype);
    var held := Held(es, r.name, rtype);
    forall x | x in held ensures x.data == r.data {
      var i :| 0 <= i < |es| && es[i].record == x && Wanted(x, r.name, rtype);
      WantedMeans(x, r.name, rtype);
      assert Key(x) in m;
    }
    var i :| 0 <= i < |es| && Key(es[i].record) == Key(r);
    WantedMeans(es[i].record, r.name, rtype);
    assert es[i].record in held;
  }

  lemma {:induction false} WantedMeans(x: Record, name: Name, want: u16)
    ensures Wanted(x, name, want) <==> Key(x).name == Fold(name) && (want == ANY || RType(x.data) == want)
  {
    EqIsFold(x.name, name);
  }

  lemma {:induction false} FirstSrvAlone(rs: seq<Record>, d: RecordData)
    requires rs != [] && d.DataSrv? && forall x :: x in rs ==> x.data == d
    ensures FirstSrv(rs) == Some((d.target, d.port))
  {
    assert rs[0] in rs;
  }

  lemma {:induction false} FirstTxtAlone(rs: seq<Record>, d: RecordData)
    requires rs != [] && d.DataTxt? && forall x :: x in rs ==> x.data == d
    ensures FirstTxt(rs) == d.entries
  {
    assert rs[0] in rs;
  }

  lemma {:induction false} AddressesAre(rs: seq<Record>)
    ensures forall o :: o in Addresses(rs) <==> exists i :: 0 <= i < |rs| && HasAddress(rs[i]) && Octets(rs[i]) == o
  {
    if rs != [] {
      var rest := rs[1..];
      AddressesAre(rest);
      forall o ensures o in Addresses(rs) <==> exists i :: 0 <= i < |rs| && HasAddress(rs[i]) && Octets(rs[i]) == o {
        if i :| 0 <= i < |rs| && HasAddress(rs[i]) && Octets(rs[i]) == o {
          assert i > 0 ==> rest[i - 1] == rs[i];
        }
        if o in Addresses(rest) {
          var i :| 0 <= i < |rest| && HasAddress(rest[i]) && Octets(rest[i]) == o;
          assert rs[i + 1] == rest[i];
        }
      }
    }
  }

  function OctetsOf(a: IpAddr): Bytes {
    match a case V4Addr(v4) => v4 case V6Addr(v6) => v6
  }

  ghost predicate Announced(s: Service, o: Bytes) {
    exists i :: 0 <= i < |s.addresses| && OctetsOf(s.addresses[i]) == o
  }

  lemma {:induction false} AddressKeyOf(s: Service, k: AnswerKey)
    ensures k in KeysOf(s.AddressRecords()) <==>
            exists i :: 0 <= i < |s.addresses| && k == Key(s.AddressRecord(s.addresses[i]))
  {
    hide Key;
    var rs := s.AddressRecords();
    if k in KeysOf(rs) {
      var i :| 0 <= i < |rs| && Key(rs[i]) == k;
      assert rs[i] == s.AddressRecord(s.addresses[i]);
    }
    if i :| 0 <= i < |s.addresses| && k == Key(s.AddressRecord(s.addresses[i])) {
      assert rs[i] == s.AddressRecord(s.addresses[i]);
    }
  }

  lemma {:induction false} HeldIsAnnounced(es: seq<Entry>, m: Deadlines, s: Service, o: Bytes)
    requires Implements(es, m) && HostLearned(m, s) && o in Addresses(Held(es, s.host, ANY))
    ensures Announced(s, o)
  {
    hide Wanted, Fold, KeysOf;
    var held := Held(es, s.host, ANY);
    HeldAre(es, s.host, ANY);
    AddressesAre(held);
    var j :| 0 <= j < |held| && HasAddress(held[j]) && Octets(held[j]) == o;
    assert held[j] in held;
    var i :| 0 <= i < |es| && es[i].record == held[j] && Wanted(held[j], s.host, ANY);
    WantedMeans(held[j], s.host, ANY);
    AddressKeyOf(s, Key(held[j]));
  }

  lemma {:induction false} AnnouncedIsHeld(es: seq<Entry>, m: Deadlines, s: Service, o: Bytes)
    requires Implements(es, m) && HostLearned(m, s) && Announced(s, o)
    ensures o in Addresses(Held(es, s.host, ANY))
  {
    hide Wanted, Fold, KeysOf;
    var held := Held(es, s.host, ANY);
    HeldAre(es, s.host, ANY);
    AddressesAre(held);
    var a :| 0 <= a < |s.addresses| && OctetsOf(s.addresses[a]) == o;
    var r := s.AddressRecord(s.addresses[a]);
    AddressKeyOf(s, Key(r));
    assert Key(r) in m;
    var i :| 0 <= i < |es| && Key(es[i].record) == Key(r);
    WantedMeans(es[i].record, s.host, ANY);
    assert es[i].record in held;
    var j :| 0 <= j < |held| && held[j] == es[i].record;
    assert HasAddress(held[j]) && Octets(held[j]) == o;
  }

  /** The addresses found under the host are the announced ones. */
  lemma {:induction false} HeldAddresses(es: seq<Entry>, m: Deadlines, s: Service, o: Bytes)
    requires Implements(es, m) && HostLearned(m, s)
    ensures o in Addresses(Held(es, s.host, ANY)) <==> Announced(s, o)
  {
    if o in Addresses(Held(es, s.host, ANY)) {
      HeldIsAnnounced(es, m, s, o);
    }
    if Announced(s, o) {
      AnnouncedIsHeld(es, m, s, o);
    }
  }

  ghost predicate NoTwice(os: seq<Bytes>) {
    forall o :: multiset(os)[o] <= 1
  }

  ghost predicate DataDiffer(rs: seq<Record>) {
    forall i, j :: 0 <= i < j < |rs| && HasAddress(rs[i]) && HasAddress(rs[j]) ==> rs[i].data != rs[j].data
  }

  lemma {:induction false} AddressesOnce(rs: seq<Record>)
    requires DataDiffer(rs)
    ensures NoTwice(Addresses(rs))
  {
    if rs != [] {
      var rest := rs[1..];
      assert forall i :: 0 <= i < |rest| ==> rest[i] == rs[i + 1];
      AddressesOnce(rest);
      if HasAddress(rs[0]) {
        AddressesAre(rest);
        assert Octets(rs[0]) !in Addresses(rest);
        assert multiset(Addresses(rest))[Octets(rs[0])] == 0;
        assert multiset(Addresses(rs)) == multiset{Octets(rs[0])} + multiset(Addresses(rest));
      }
    }
  }

  ghost predicate KeysDiffer(rs: seq<Record>) {
    forall i, j :: 0 <= i < j < |rs| ==> Key(rs[i]) != Key(rs[j])
  }

  lemma {:induction false} KeysDifferCons(r: Record, rest: seq<Record>)
    requires KeysDiffer(rest) && forall x :: x in rest ==> Key(r) != Key(x)
    ensures KeysDiffer([r] + rest)
  {
    hide Key;
    var all := [r] + rest;
    forall i, j | 0 <= i < j < |all| ensures Key(all[i]) != Key(all[j]) {
      assert all[j] == rest[j - 1];
      assert i > 0 ==> all[i] == rest[i - 1];
    }
  }

  lemma {:induction false} HeldDistinct(es: seq<Entry>, name: Name, want: u16)
    requires Distinct(es)
    ensures KeysDiffer(Held(es, name, want))
  {
    hide Key, Wanted, Distinct, KeysDiffer;
    if es == [] {
      assert Held(es, name, want) == [];
      NoKeys();
    } else {
      RestDistinct(es);
      HeldDistinct(es[1..], name, want);
      HeldAre(es[1..], name, want);
      var rest := Held(es[1..], name, want);
      forall x | x in rest ensures Key(es[0].record) != Key(x) {
        var i :| 0 <= i < |es[1..]| && es[1..][i].record == x;
        assert es[1..][i] in es[1..];
      }
      KeysDifferCons(es[0].record, rest);
      assert [] + rest == rest;
    }
  }

  lemma {:induction false} NoKeys()
    ensures KeysDiffer([])
  {
  }

  lemma {:induction false} HeldDataDiffer(es: seq<Entry>, m: Deadlines, s: Service)
    requires Implements(es, m) && HostLearned(m, s)
    ensures DataDiffer(Held(es, s.host, ANY))
  {
    hide Wanted, KeysOf, Distinct;
    var held := Held(es, s.host, ANY);
    HeldDistinct(es, s.host, ANY);
    HeldAre(es, s.host, ANY);
    forall i | 0 <= i < |held| && HasAddress(held[i])
      ensures Key(held[i]) == AnswerKey(Fold(s.host), CLASS_IN, held[i].data)
    {
      assert held[i] in held;
      var e :| 0 <= e < |es| && es[e].record == held[i] && Wanted(held[i], s.host, ANY);
      WantedMeans(held[i], s.host, ANY);
      AddressKeyOf(s, Key(held[i]));
    }
  }

  /** Host, port, the address set without repeats, and the TXT pairs: what was announced and nothing else. */
  ghost predicate Exactly(d: Details, s: Service) {
    && d.host == Display(s.host) && d.port == s.port && d.txt == TxtPairs(s.txt)
    && Sorted(d.addresses) && NoTwice(d.addresses)
    && forall o :: o in d.addresses <==> Announced(s, o)
  }

  lemma {:induction false} LearnedAddresses(es: seq<Entry>, m: Deadlines, s: Service)
    requires Implements(es, m) && HostLearned(m, s) && s.addresses != []
    ensures var found := Addresses(Held(es, s.host, ANY));
            && found != [] && Sorted(Sort(found)) && NoTwice(Sort(found))
            && forall o :: o in Sort(found) <==> Announced(s, o)
  {
    var found := Addresses(Held(es, s.host, ANY));
    HeldDataDiffer(es, m, s);
    AddressesOnce(Held(es, s.host, ANY));
    assert Announced(s, OctetsOf(s.addresses[0]));
    hide Held, Implements, HostLearned, Sorted, Announced, Addresses;
    forall o ensures o in found <==> Announced(s, o) {
      HeldAddresses(es, m, s, o);
    }
    SortSorts(found);
    forall o ensures o in Sort(found) <==> Announced(s, o) {
      assert o in multiset(Sort(found)) <==> o in multiset(found);
    }
  }

  lemma {:induction false} LearnedDetails(es: seq<Entry>, m: Deadlines, s: Service)
    requires Implements(es, m) && Learned(m, s) && s.addresses != []
    ensures DetailsOf(es, s.instance).Some? && Exactly(DetailsOf(es, s.instance).value, s)
  {
    HeldAlone(es, m, s.Srv(), SRV);
    HeldAlone(es, m, s.TxtRecord(), TXT);
    FirstSrvAlone(Held(es, s.instance, SRV), s.Srv().data);
    FirstTxtAlone(Held(es, s.instance, TXT), s.TxtRecord().data);
    hide Held, Addresses, Display, TxtPairs, Implements, HostLearned, Sorted, NoTwice, Announced;
    LearnedAddresses(es, m, s);
  }

  // ---------------------------------------------------------------------
  // End to end
  // ---------------------------------------------------------------------

  /** Of what is announced the pointer alone points to the instance, and nothing sweeps pointers away. */
  lemma {:induction false} AnnouncedPointers(s: Service, r: Record)
    requires r in s.Announcement() && s.hostTtl > 0 && s.serviceTtl > 0
    ensures Brings(r, s.serviceType, s.instance) <==> Key(r) == Key(s.Ptr())
    ensures !(Flushes(r) && Points(r, s.serviceType))
  {
    AnnouncedShape(s, r);
    EqIsFold(r.name, s.serviceType);
    var four := [s.EnumerationPtr(), s.Ptr(), s.Srv(), s.TxtRecord()];
    assert s.Announcement() == four + s.AddressRecords();
    hide EqIgnoreCase, Fold;
    assert r.data.DataPtr? ==> r.class_ == CLASS_IN;
  }

  /** After records of the announcement the instance is pointed to if it was, or if the pointer is among them. */
  lemma {:induction false} AnnouncedCached(es: seq<Entry>, s: Service, rs: seq<Record>, now: nat)
    requires AllAnnounced(rs, s) && s.hostTtl > 0 && s.serviceTtl > 0
    requires forall i :: 0 <= i < |rs| ==> WellFormedRecord(rs[i])
    ensures Cached(PutAll(es, rs, now), s.serviceType, s.instance)
       <==> Cached(es, s.serviceType, s.instance) || Told(rs, s.Ptr())
    decreases |rs|
  {
    hide Cached, Brings, Key, WellFormedRecord, Service.Announcement, PutEntry;
    if rs != [] {
      var rest := rs[1..];
      assert rs == [rs[0]] + rest;
      AnnouncedPointers(s, rs[0]);
      PutCached(es, rs[0], now, s.serviceType, s.instance);
      AnnouncedCached(PutEntry(es, rs[0], now).0, s, rest, now);
      ToldCons(rs, s.Ptr());
    }
  }

  lemma {:induction false} ToldCons(rs: seq<Record>, r: Record)
    requires rs != []
    ensures Told(rs, r) <==> Key(rs[0]) == Key(r) || Told(rs[1..], r)
  {
    hide Key;
    var rest := rs[1..];
    if i :| 0 <= i < |rs| && Key(rs[i]) == Key(r) {
      assert i > 0 ==> rest[i - 1] == rs[i];
    }
    if i :| 0 <= i < |rest| && Key(rest[i]) == Key(r) {
      assert rs[i + 1] == rest[i];
    }
  }

  /** The cache after a datagram that tells all a service claims. */
  lemma {:induction false} ToldEntries(es: seq<Entry>, m: Deadlines, s: Service, rs: seq<Record>, now: nat)
    requires Implements(es, m) && Unheard(m, s) && Sane(es)
    requires s.WellFormedService() && s.hostTtl > 0 && s.serviceTtl > 0 && s.addresses != []
    requires AllAnnounced(rs, s) && forall r :: r in s.Claimed() ==> Told(rs, r)
    ensures var after := PutAll(es, rs, now);
            && Sane(after) && DetailsOf(after, s.instance).Some? && Exactly(DetailsOf(after, s.instance).value, s)
            && (Cached(after, s.serviceType, s.instance)
                <==> Cached(es, s.serviceType, s.instance) || Told(rs, s.Ptr()))
  {
    Responders.AnnouncementWellFormed(s);
    assert forall i :: 0 <= i < |rs| ==> rs[i] in rs;
    hide MapPutAll, KeysOf, PutAll, Implements, WellFormedRecord, Learned, DetailsOf, Exactly, Told, Sane, Cached;
    PutAllRefines(es, m, rs, now);
    ToldIsLearned(m, s, rs, now);
    LearnedDetails(PutAll(es, rs, now), MapPutAll(m, rs, now), s);
    AnnouncedCached(es, s, rs, now);
    SanePutAll(es, rs, now);
  }

  /** The instance is listed, with exactly the service's host, port, addresses and TXT pairs. */
  ghost predicate Resolves(board: Board, s: Service) {
    var key := Display(s.instance);
    key in board.known && board.known[key].resolved.Some? && Exactly(board.known[key].resolved.value, s)
  }

  /** The cache holds nothing under the instance's name or the host's. */
  predicate NothingHeard(es: seq<Entry>, s: Service) {
    forall i :: 0 <= i < |es| ==>
      !EqIgnoreCase(es[i].record.name, s.instance) && !EqIgnoreCase(es[i].record.name, s.host)
  }

  predicate Holds(es: seq<Entry>, r: Record) {
    exists i :: 0 <= i < |es| && SameAnswer(es[i].record, r)
  }

  lemma {:induction false} NothingHeardMap(es: seq<Entry>, s: Service) returns (m: Deadlines)
    requires Distinct(es) && NothingHeard(es, s)
    ensures Implements(es, m) && Unheard(m, s)
  {
    m := MapOf(es);
    forall k | k in m ensures k.name != Fold(s.instance) && k.name != Fold(s.host) {
      var i :| 0 <= i < |es| && Key(es[i].record) == k;
      EqIsFold(es[i].record.name, s.instance);
      EqIsFold(es[i].record.name, s.host);
    }
  }

  /** Where a browser stands after a run from the start. */
  function Reached(s: Service, hs: seq<Happening>): Browser {
    Run(s.serviceType, FRESH, hs)
  }

  lemma {:induction false} ReachedSane(s: Service, hs: seq<Happening>)
    ensures Sane(Reached(s, hs).entries)
  {
    hide Run;
    RunSane(s.serviceType, FRESH, hs);
  }

  /** A report leaves alone what is not pointed to. */
  lemma {:induction false} ReportLeaves(es: seq<Entry>, b: Board, instances: seq<Name>, key: Text)
    requires forall n :: n in instances ==> Display(n) != key
    ensures var c := ReportAll(es, b, instances);
            (key in c.known <==> key in b.known) && (key in b.known ==> c.known[key] == b.known[key])
    decreases |instances|
  {
    hide Display, UpToDate, ReportOne;
    if instances != [] {
      ReportTouchesOne(es, b, instances[0]);
      ReportLeaves(es, ReportOne(es, b, instances[0]), instances[1..], key);
    }
  }

  lemma {:induction false} UncachedIsLeft(s: Service, es: seq<Entry>, b: Board)
    requires s.WellFormedService() && WellFormedEntries(es) && !Cached(es, s.serviceType, s.instance)
    ensures Resolves(Report(s.serviceType, es, b), s) <==> Resolves(b, s)
  {
    forall i | 0 <= i < |es| ensures WellFormedData(es[i].record.data) {
      assert WellFormedRecord(es[i].record);
    }
    InstancesAre(es, s.serviceType);
    hide Display, Cached, WellFormedEntries, ReportAll, Held, Instances, Exactly;
    var instances := Instances(Held(es, s.serviceType, PTR));
    forall n | n in instances ensures Display(n) != Display(s.instance) {
      CachedNamesPrint(es, s.serviceType, n);
      if Display(n) == Display(s.instance) {
        DisplayInjective(n, s.instance);
      }
    }
    ReportLeaves(es, b, instances, Display(s.instance));
  }

  lemma {:induction false} TellingStep(s: Service, browser: Browser, m: Deadlines, told: Message, now: nat)
    requires s.WellFormedService() && s.hostTtl > 0 && s.serviceTtl > 0 && s.addresses != []
    requires Implements(browser.entries, m) && Unheard(m, s) && Sane(browser.entries)
    requires WellFormedMessage(told) && IsResponse(told)
    requires var rs := told.answers + told.additional;
             AllAnnounced(rs, s) && forall r :: r in s.Claimed() ==> Told(rs, r)
    ensures Resolves(After1(s.serviceType, browser, Arrives(MessageBytes(told), now)).board, s)
       <==> || Told(told.answers + told.additional, s.Ptr()) || Cached(browser.entries, s.serviceType, s.instance)
            || Resolves(browser.board, s)
  {
    var rs := told.answers + told.additional;
    var after := PutAll(browser.entries, rs, now);
    hide AllAnnounced, Told, WellFormedMessage, MessageBytes, PutAll, DetailsOf, Exactly, Implements, Report, Unheard,
         WellFormedEntries, After1, Cached, IsResponse, Service.WellFormedService;
    ResponseArrives(browser, s.serviceType, told, now);
    ToldEntries(browser.entries, m, s, rs, now);
    if Cached(after, s.serviceType, s.instance) {
      InstancesReported(after, browser.board, s.serviceType, s.instance);
    } else {
      UncachedIsLeft(s, after, browser.board);
    }
  }

  /**
   * A browser that after any run holds nothing of the instance or its host receives a datagram with records of the
   * service's announcement, in any order and any section, that tells all it claims. The instance resolves if and only
   * if the pointer is among them, or the cache points to the instance already, or it stood resolved so before.
   */
  lemma {:induction false} TellingResolvesIff(s: Service, hs: seq<Happening>, told: Message, now: nat)
    requires s.WellFormedService() && s.hostTtl > 0 && s.serviceTtl > 0 && s.addresses != []
    requires NothingHeard(Reached(s, hs).entries, s) && WellFormedMessage(told) && IsResponse(told)
    requires var rs := told.answers + told.additional;
             AllAnnounced(rs, s) && forall r :: r in s.Claimed() ==> Told(rs, r)
    ensures Resolves(Reached(s, hs + [Arrives(MessageBytes(told), now)]).board, s)
       <==> || Told(told.answers + told.additional, s.Ptr()) || Resolves(Reached(s, hs).board, s)
            || Cached(Reached(s, hs).entries, s.serviceType, s.instance)
  {
    hide AllAnnounced, Told, WellFormedMessage, MessageBytes, Resolves, NothingHeard, Run, WellFormedEntries, After1,
         Unheard, Implements, Cached, IsResponse;
    ReachedSane(s, hs);
    var m := NothingHeardMap(Reached(s, hs).entries, s);
    RunSnoc(s.serviceType, FRESH, hs, Arrives(MessageBytes(told), now));
    TellingStep(s, Reached(s, hs), m, told, now);
  }

  /**
   * The announcement datagram is one: from its bytes alone the browser lists the instance and reports exactly the
   * announced host, port, addresses and TXT pairs.
   */
  lemma {:induction false} AnnouncementResolves(s: Service, hs: seq<Happening>, now: nat)
    requires s.WellFormedService() && s.hostTtl > 0 && s.serviceTtl > 0 && s.addresses != []
    requires NothingHeard(Reached(s, hs).entries, s)
    ensures Resolves(Reached(s, hs + [Arrives(MessageBytes(Response(s.Announcement())), now)]).board, s)
  {
    Responders.AnnouncementWellFormed(s);
    Responders.EmptyWellFormed();
    var told := Response(s.Announcement());
    var rs := told.answers + told.additional;
    assert rs == s.Announcement();
    TellsEverything(s);
    hide Resolves, NothingHeard, WellFormedSection, Told, AllAnnounced, Reached, Cached;
    TellingResolvesIff(s, hs, told, now);
  }

  lemma {:induction false} TellsEverything(s: Service)
    ensures AllAnnounced(s.Announcement(), s) && Told(s.Announcement(), s.Ptr())
    ensures forall r :: r in s.Claimed() ==> Told(s.Announcement(), r)
  {
    var rs := s.Announcement();
    assert rs == [s.EnumerationPtr(), s.Ptr()] + s.Claimed();
    assert Key(rs[1]) == Key(s.Ptr());
    forall r | r in s.Claimed() ensures Told(rs, r) {
      var i :| 0 <= i < |s.Claimed()| && s.Claimed()[i] == r;
      assert Key(rs[i + 2]) == Key(r);
    }
  }

  lemma {:induction false} InstancesReported(es: seq<Entry>, b: Board, serviceType: Name, n: Name)
    requires WellFormedEntries(es) && Cached(es, serviceType, n)
    ensures UpToDate(es, Report(serviceType, es, b), n)
  {
    forall i | 0 <= i < |es| ensures WellFormedData(es[i].record.data) {
      assert WellFormedRecord(es[i].record);
    }
    InstancesAre(es, serviceType);
    hide ReportAll, Held, Instances, UpToDate;
    forall p | Cached(es, serviceType, p) ensures NonEmptyLabels(p.labels) {
      var i :| 0 <= i < |es| && PointsTo(es[i].record, serviceType, p);
      assert WellFormedRecord(es[i].record);
    }
    ReportIsCurrent(es, b, Instances(Held(es, serviceType, PTR)));
  }
}
