/** Who backs off when two probers share names otherwise: only the host name, or one's instance and the other's host. */
module HostClash {
  import opened Wire
  import opened Names
  import opened Records
  import opened Messages
  import opened Services
  import opened TieBreaking
  import opened Responders
  import opened PartialClash

  // ---------------------------------------------------------------------
  // Lists of keys
  // ---------------------------------------------------------------------

  lemma {:induction false} LexSameFront(front: seq<Bytes>, a: seq<Bytes>, b: seq<Bytes>)
    ensures Lex(CompareBytes, front + a, front + b) == Lex(CompareBytes, a, b)
  {
    BytesTotal();
    hide CompareBytes;
    if front == [] {
      assert front + a == a && front + b == b;
    } else {
      assert (front + a)[1..] == front[1..] + a && (front + b)[1..] == front[1..] + b;
      LexSameFront(front[1..], a, b);
    }
  }

  /** Where neither list is the beginning of the other, what follows them does not matter. */
  lemma {:induction false} LexApart(a: seq<Bytes>, b: seq<Bytes>, x: seq<Bytes>, y: seq<Bytes>)
    requires !(a <= b) && !(b <= a)
    ensures Lex(CompareBytes, a + x, b + y) == Lex(CompareBytes, a, b)
  {
    BytesTotal();
    hide CompareBytes;
    assert (a + x)[1..] == a[1..] + x && (b + y)[1..] == b[1..] + y;
    if a[0] == b[0] {
      assert a == [a[0]] + a[1..] && b == [b[0]] + b[1..];
      LexApart(a[1..], b[1..], x, y);
    }
  }

  ghost predicate AllBelow(a: seq<Bytes>, b: seq<Bytes>) {
    forall x, y :: x in a && y in b ==> CompareBytes(x, y) == Less
  }

  lemma {:induction false} SortAppend(ks: seq<Bytes>, a: seq<Bytes>, b: seq<Bytes>)
    requires multiset(ks) == multiset(a) + multiset(b) && AllBelow(a, b)
    ensures Sort(ks) == Sort(a) + Sort(b)
  {
    SortSorts(ks);
    SortSorts(a);
    SortSorts(b);
    hide CompareBytes, Sort;
    var x, y := Sort(a), Sort(b);
    forall i, j | 0 <= i < j < |x + y| ensures CompareBytes((x + y)[i], (x + y)[j]) != Greater {
      if i < |x| <= j {
        assert x[i] in multiset(x) && y[j - |x|] in multiset(y);
        assert x[i] in a && y[j - |x|] in b;
      }
    }
    SortedUnique(Sort(ks), x + y);
  }

  // ---------------------------------------------------------------------
  // The claim in order
  // ---------------------------------------------------------------------

  /** The keys of the records of one type, in order. */
  function KindKeys(rs: seq<Record>, rtype: u16): seq<Bytes> {
    if rs == [] then []
    else (if RType(rs[0].data) == rtype then [SortKey(rs[0])] else []) + KindKeys(rs[1..], rtype)
  }

  predicate AddressesOnly(rs: seq<Record>) {
    forall i :: 0 <= i < |rs| ==> rs[i].class_ == CLASS_IN && (RType(rs[i].data) == A || RType(rs[i].data) == AAAA)
  }

  lemma {:induction false} KindsCons(r: Record, rs: seq<Record>, rtype: u16)
    ensures KindKeys([r] + rs, rtype) == (if RType(r.data) == rtype then [SortKey(r)] else []) + KindKeys(rs, rtype)
    ensures Keys([r] + rs) == [SortKey(r)] + Keys(rs)
  {
    assert ([r] + rs)[1..] == rs;
  }

  lemma {:induction false} KindsTogether(rs: seq<Record>)
    requires AddressesOnly(rs)
    ensures multiset(Keys(rs)) == multiset(KindKeys(rs, A)) + multiset(KindKeys(rs, AAAA))
  {
    if rs != [] {
      var rest := rs[1..];
      assert rs == [rs[0]] + rest && forall i :: 0 <= i < |rest| ==> rest[i] == rs[i + 1];
      KindsTogether(rest);
      KindsCons(rs[0], rest, A);
      KindsCons(rs[0], rest, AAAA);
      hide SortKey, Keys, KindKeys;
    }
  }

  lemma {:induction false} KindKeysAre(rs: seq<Record>, rtype: u16, k: Bytes)
    requires k in KindKeys(rs, rtype)
    ensures exists r :: r in rs && RType(r.data) == rtype && SortKey(r) == k
  {
    hide SortKey;
    assert rs == [rs[0]] + rs[1..];
    if !(RType(rs[0].data) == rtype && SortKey(rs[0]) == k) {
      KindKeysAre(rs[1..], rtype, k);
    }
  }

  lemma {:induction false} KindsApart(rs: seq<Record>, os: seq<Record>, a: u16, b: u16)
    requires AddressesOnly(rs) && AddressesOnly(os) && a < b < 0x100
    ensures AllBelow(KindKeys(rs, a), KindKeys(os, b))
  {
    hide SortKey, CompareBytes;
    forall x, y | x in KindKeys(rs, a) && y in KindKeys(os, b) ensures CompareBytes(x, y) == Less {
      KindKeysAre(rs, a, x);
      KindKeysAre(os, b, y);
      var r :| r in rs && RType(r.data) == a && SortKey(r) == x;
      var o :| o in os && RType(o.data) == b && SortKey(o) == y;
      SmallerTypeFirst(r, o);
    }
  }

  lemma {:induction false} KindBelowRecord(rs: seq<Record>, a: u16, r: Record)
    requires AddressesOnly(rs) && r.class_ == CLASS_IN && a < RType(r.data) < 0x100
    ensures AllBelow(KindKeys(rs, a), [SortKey(r)])
  {
    hide SortKey, CompareBytes;
    forall x | x in KindKeys(rs, a) ensures CompareBytes(x, SortKey(r)) == Less {
      KindKeysAre(rs, a, x);
      var o :| o in rs && RType(o.data) == a && SortKey(o) == x;
      SmallerTypeFirst(o, r);
    }
  }

  lemma {:induction false} RecordBelowKind(rs: seq<Record>, a: u16, r: Record)
    requires AddressesOnly(rs) && r.class_ == CLASS_IN && RType(r.data) < a < 0x100
    ensures AllBelow([SortKey(r)], KindKeys(rs, a))
  {
    hide SortKey, CompareBytes;
    forall x | x in KindKeys(rs, a) ensures CompareBytes(SortKey(r), x) == Less {
      KindKeysAre(rs, a, x);
      var o :| o in rs && RType(o.data) == a && SortKey(o) == x;
      SmallerTypeFirst(r, o);
    }
  }

  function V4Keys(s: Service): seq<Bytes> {
    Sort(KindKeys(s.AddressRecords(), A))
  }

  function V6Keys(s: Service): seq<Bytes> {
    Sort(KindKeys(s.AddressRecords(), AAAA))
  }

  function SrvKey(s: Service): Bytes {
    SortKey(s.Srv())
  }

  lemma {:induction false} OwnAddresses(s: Service)
    ensures AddressesOnly(s.AddressRecords())
  {
  }

  lemma {:induction false} SortOne(k: Bytes)
    ensures Sort([k]) == [k]
  {
    assert [k][1..] == [];
  }

  lemma {:induction false} BelowJoin(a: seq<Bytes>, b: seq<Bytes>, c: seq<Bytes>)
    requires AllBelow(a, b) && AllBelow(a, c)
    ensures AllBelow(a, b + c)
  {
    hide CompareBytes;
  }

  /** TXT, IPv6 addresses, SRV: what follows the IPv4 addresses. */
  lemma {:induction false} ClaimTailSorted(s: Service)
    ensures var rest := [TxtKey(s)] + (KindKeys(s.AddressRecords(), AAAA) + [SrvKey(s)]);
            Sort(rest) == [TxtKey(s)] + (V6Keys(s) + [SrvKey(s)])
  {
    var rs := s.AddressRecords();
    OwnAddresses(s);
    KindBelowRecord(rs, AAAA, s.Srv());
    RecordBelowKind(rs, AAAA, s.TxtRecord());
    SmallerTypeFirst(s.TxtRecord(), s.Srv());
    SortOne(TxtKey(s));
    SortOne(SrvKey(s));
    hide SortKey, CompareBytes, KindKeys, Sort, AddressesOnly;
    var txt, v6, srv := [TxtKey(s)], KindKeys(rs, AAAA), [SrvKey(s)];
    assert AllBelow(txt, srv);
    BelowJoin(txt, v6, srv);
    hide TxtKey, SrvKey, AllBelow;
    SortAppend(v6 + srv, v6, srv);
    SortAppend(txt + (v6 + srv), txt, v6 + srv);
  }

  lemma {:induction false} V4BelowTheRest(s: Service)
    ensures AllBelow(KindKeys(s.AddressRecords(), A), [TxtKey(s)] + (KindKeys(s.AddressRecords(), AAAA) + [SrvKey(s)]))
  {
    var rs := s.AddressRecords();
    OwnAddresses(s);
    KindBelowRecord(rs, A, s.Srv());
    KindBelowRecord(rs, A, s.TxtRecord());
    KindsApart(rs, rs, A, AAAA);
    hide SortKey, CompareBytes, KindKeys, AddressesOnly, AllBelow;
    BelowJoin(KindKeys(rs, A), KindKeys(rs, AAAA), [SrvKey(s)]);
    BelowJoin(KindKeys(rs, A), [TxtKey(s)], KindKeys(rs, AAAA) + [SrvKey(s)]);
  }

  /** A claim in order: IPv4 addresses, TXT, IPv6 addresses, SRV. */
  lemma {:induction false} ClaimSorted(s: Service)
    ensures Sort(Keys(s.Claimed())) == V4Keys(s) + ([TxtKey(s)] + (V6Keys(s) + [SrvKey(s)]))
  {
    var rs := s.AddressRecords();
    OwnAddresses(s);
    KindsTogether(rs);
    ClaimKeys(s);
    ClaimTailSorted(s);
    V4BelowTheRest(s);
    assert SrvKey(s) == SortKey(s.Srv());
    hide SortKey, CompareBytes, KindKeys, Sort, Keys, AddressesOnly, SrvKey, TxtKey, AllBelow;
    SortAppend(Keys(s.Claimed()), KindKeys(rs, A), [TxtKey(s)] + (KindKeys(rs, AAAA) + [SrvKey(s)]));
  }

  lemma {:induction false} AddressesSorted(t: Service)
    ensures Sort(Keys(t.AddressRecords())) == V4Keys(t) + V6Keys(t)
  {
    var rs := t.AddressRecords();
    OwnAddresses(t);
    KindsTogether(rs);
    KindsApart(rs, rs, A, AAAA);
    hide SortKey, CompareBytes, KindKeys, Sort, Keys;
    SortAppend(Keys(rs), KindKeys(rs, A), KindKeys(rs, AAAA));
  }

  // ---------------------------------------------------------------------
  // Comparing a claim with the other's addresses
  // ---------------------------------------------------------------------

  /**
   * Whether a host backs off when the other's claim counts for its addresses only: its IPv4 addresses come first in
   * order at the first place the two lists differ, or the other's are the beginning of its own and the other has an
   * IPv6 address as well.
   */
  predicate YieldsAddresses(s: Service, t: Service) {
    var ours, theirs := V4Keys(s), V4Keys(t);
    if theirs <= ours then V6Keys(t) != [] else Lex(CompareBytes, ours, theirs) == Less && !(ours <= theirs)
  }

  lemma {:induction false} V6KeysAre(t: Service, k: Bytes)
    requires k in V6Keys(t)
    ensures exists r :: r in t.AddressRecords() && RType(r.data) == AAAA && SortKey(r) == k
  {
    var rs := t.AddressRecords();
    SortSorts(KindKeys(rs, AAAA));
    assert k in multiset(V6Keys(t));
    hide SortKey;
    KindKeysAre(rs, AAAA, k);
  }

  lemma {:induction false} V4KeysAre(t: Service, k: Bytes)
    requires k in V4Keys(t)
    ensures exists r :: r in t.AddressRecords() && RType(r.data) == A && SortKey(r) == k
  {
    var rs := t.AddressRecords();
    SortSorts(KindKeys(rs, A));
    assert k in multiset(V4Keys(t));
    hide SortKey;
    KindKeysAre(rs, A, k);
  }

  lemma {:induction false} V4OrTxtBelowV6(s: Service, t: Service, k: Bytes, v6: Bytes)
    requires (k in V4Keys(s) || k == TxtKey(s)) && v6 in V6Keys(t)
    ensures CompareBytes(k, v6) == Less
  {
    V6KeysAre(t, v6);
    OwnAddresses(s);
    OwnAddresses(t);
    hide SortKey, CompareBytes, V4Keys, V6Keys;
    var o :| o in t.AddressRecords() && RType(o.data) == AAAA && SortKey(o) == v6;
    if k in V4Keys(s) {
      V4KeysAre(s, k);
      var r :| r in s.AddressRecords() && RType(r.data) == A && SortKey(r) == k;
      SmallerTypeFirst(r, o);
    } else {
      SmallerTypeFirst(s.TxtRecord(), o);
    }
  }

  lemma {:induction false} TxtAboveV4(s: Service, t: Service, k: Bytes)
    requires k in V4Keys(t)
    ensures CompareBytes(TxtKey(s), k) == Greater
  {
    V4KeysAre(t, k);
    OwnAddresses(t);
    BytesTotal();
    hide SortKey, CompareBytes, V4Keys;
    var r :| r in t.AddressRecords() && RType(r.data) == A && SortKey(r) == k;
    SmallerTypeFirst(r, s.TxtRecord());
    assert CompareBytes(TxtKey(s), k) == Reverse(CompareBytes(k, TxtKey(s)));
  }

  lemma {:induction false} AddressVerdict(s: Service, t: Service)
    ensures Verdict(s.Claimed(), t.AddressRecords()) == Less <==> YieldsAddresses(s, t)
  {
    ClaimSorted(s);
    AddressesSorted(t);
    hide Sort, Keys, V4Keys, V6Keys, TxtKey, SrvKey, CompareBytes;
    var a, b, v6 := V4Keys(s), V4Keys(t), V6Keys(t);
    var tail := [TxtKey(s)] + (V6Keys(s) + [SrvKey(s)]);
    if b <= a {
      var more := a[|b|..] + tail;
      assert a + tail == b + more;
      LexSameFront(b, more, v6);
      if v6 != [] {
        assert more[0] == if |a| > |b| then a[|b|] else TxtKey(s);
        V4OrTxtBelowV6(s, t, more[0], v6[0]);
      }
    } else if a <= b {
      var more := b[|a|..] + v6;
      assert b + v6 == a + more;
      LexSameFront(a, tail, more);
      assert more[0] == b[|a|];
      TxtAboveV4(s, t, more[0]);
    } else {
      LexApart(a, b, tail, v6);
    }
  }

  // ---------------------------------------------------------------------
  // Every way of sharing
  // ---------------------------------------------------------------------

  /** What of the other's claim stands under names we own. */
  function Overlap(s: Service, t: Service): seq<Record> {
    (if s.Owns(t.instance) then [t.Srv(), t.TxtRecord()] else []) + (if s.Owns(t.host) then t.AddressRecords() else [])
  }

  lemma {:induction false} UnderOurNamesConcat(s: Service, a: seq<Record>, b: seq<Record>)
    ensures UnderOurNames(s, a + b) == UnderOurNames(s, a) + UnderOurNames(s, b)
  {
    if a == [] {
      assert a + b == b;
    } else {
      assert (a + b)[1..] == a[1..] + b;
      UnderOurNamesConcat(s, a[1..], b);
    }
  }

  lemma {:induction false} OneName(s: Service, rs: seq<Record>, name: Name)
    requires forall r :: r in rs ==> r.name == name
    ensures UnderOurNames(s, rs) == if s.Owns(name) then rs else []
  {
    hide EqIgnoreCase;
    if s.Owns(name) {
      OursAllUnderOurNames(s, rs);
    } else {
      NoneUnderOurNames(s, rs);
    }
  }

  lemma {:induction false} OverlapCounts(s: Service, t: Service)
    ensures UnderOurNames(s, t.Claimed()) == Overlap(s, t)
  {
    var pair, addresses := [t.Srv(), t.TxtRecord()], t.AddressRecords();
    assert forall r :: r in pair ==> r.name == t.instance;
    assert forall r :: r in addresses ==> r.name == t.host;
    assert t.Claimed() == pair + addresses;
    hide EqIgnoreCase, UnderOurNames;
    UnderOurNamesConcat(s, pair, addresses);
    OneName(s, pair, t.instance);
    OneName(s, addresses, t.host);
  }

  lemma {:induction false} OverlapVerdict(s: Service, t: Service)
    requires t.WellFormedService()
    ensures ConflictIn(s, MessageBytes(ProbeMessage(t))) != None
       <==> Overlap(s, t) != [] && Verdict(s.Claimed(), Overlap(s, t)) == Less
  {
    ProbeRoundTrips(t);
    OverlapCounts(s, t);
    var m := ProbeMessage(t);
    hide MessageBytes, ReadMessage, Verdict, EqIgnoreCase, UnderOurNames;
    if s.Owns(t.instance) {
      assert s.Owns(m.questions[0].name);
    }
    if s.Owns(t.host) {
      assert s.Owns(m.questions[1].name);
    }
  }

  /** Whether a host with an address backs off before the other's probe, by which of the other's names it owns. */
  predicate BacksOff(s: Service, t: Service) {
    if s.Owns(t.instance) && s.Owns(t.host) then Verdict(s.Claimed(), t.Claimed()) == Less
    else if s.Owns(t.instance) then Yields(s, t)
    else if s.Owns(t.host) then YieldsAddresses(s, t)
    else false
  }

  /** Exactly who backs off, however the two probers' names coincide. */
  lemma {:induction false} WhoBacksOff(s: Service, t: Service)
    requires t.WellFormedService() && s.addresses != [] && t.addresses != []
    ensures ConflictIn(s, MessageBytes(ProbeMessage(t))) != None <==> BacksOff(s, t)
  {
    OverlapVerdict(s, t);
    hide ConflictIn, MessageBytes, EqIgnoreCase, Verdict, TxtKey, CompareBytes, YieldsAddresses, ProbeMessage;
    if s.Owns(t.instance) && s.Owns(t.host) {
      assert Overlap(s, t) == t.Claimed();
    } else if s.Owns(t.instance) {
      assert Overlap(s, t) == [t.Srv(), t.TxtRecord()];
      if HasV4(s) { V4AlwaysLoses(s, t); } else { V6DecidedByTxt(s, t); }
    } else if s.Owns(t.host) {
      assert Overlap(s, t) == t.AddressRecords();
      AddressVerdict(s, t);
    }
  }

  ghost predicate SharesOnlyHost(s: Service, t: Service) {
    && EqIgnoreCase(s.host, t.host)
    && !EqIgnoreCase(s.instance, t.instance) && !EqIgnoreCase(s.instance, t.host) && !EqIgnoreCase(t.instance, s.host)
  }

  /**
   * Two probers that share only the host name, where section 8.2 of RFC 6762 wants exactly one to back off: both do if
   * their IPv4 addresses are the same and both have IPv6 addresses; neither does if one's IPv4 addresses, in order, are
   * the beginning of the other's and it has no IPv6 address - nor the other, when they are the same.
   */
  lemma {:induction false} SharedHost(s: Service, t: Service)
    requires s.WellFormedService() && t.WellFormedService() && s.addresses != [] && t.addresses != []
    requires SharesOnlyHost(s, t)
    ensures ConflictIn(s, MessageBytes(ProbeMessage(t))) != None <==> YieldsAddresses(s, t)
    ensures ConflictIn(t, MessageBytes(ProbeMessage(s))) != None <==> YieldsAddresses(t, s)
    ensures YieldsAddresses(s, t) && YieldsAddresses(t, s)
       <==> V4Keys(s) == V4Keys(t) && V6Keys(s) != [] && V6Keys(t) != []
    ensures !YieldsAddresses(s, t) && !YieldsAddresses(t, s)
       <==> || (V4Keys(t) <= V4Keys(s) && V6Keys(t) == [] && (V4Keys(s) == V4Keys(t) ==> V6Keys(s) == []))
            || (V4Keys(s) <= V4Keys(t) && V6Keys(s) == [] && (V4Keys(s) == V4Keys(t) ==> V6Keys(t) == []))
  {
    EqSymmetricTransitive(s.host, t.host, s.host);
    EqSymmetricTransitive(t.host, s.host, t.host);
    EqSymmetricTransitive(s.instance, t.instance, s.instance);
    EqSymmetricTransitive(t.instance, s.host, t.instance);
    EqSymmetricTransitive(s.instance, t.host, s.instance);
    hide ConflictIn, MessageBytes, EqIgnoreCase, ProbeMessage, V4Keys, V6Keys, CompareBytes;
    WhoBacksOff(s, t);
    WhoBacksOff(t, s);
    BytesTotal();
    LexEqual(CompareBytes, V4Keys(s), V4Keys(t));
  }

  // Two services on the host `a.l`, called `t` and `u`, with one and the same IPv4 address.

  const UPPER := Service(Name([[116], [95, 112], [108]]), Name([[95, 112], [108]]), Name([[97], [108]]), 80, [],
                         [V4Addr([10, 0, 0, 1])], 120, 4500)
  const LOWER := UPPER.(instance := Name([[117], [95, 112], [108]]), port := 81)

  /** One host name, one IPv4 address: neither prober is told that it lost. */
  lemma {:induction false} SameAddressNeitherYields(s: Service, t: Service)
    requires s.WellFormedService() && t.WellFormedService() && SharesOnlyHost(s, t)
    requires s.addresses == t.addresses && |s.addresses| == 1 && s.addresses[0].V4Addr?
    ensures ConflictIn(s, MessageBytes(ProbeMessage(t))) == None
    ensures ConflictIn(t, MessageBytes(ProbeMessage(s))) == None
  {
    OneV4Address(s);
    OneV4Address(t);
    SameV4Keys(s, t);
    hide ConflictIn, MessageBytes, ProbeMessage, SharesOnlyHost, V4Keys, V6Keys, Service.WellFormedService;
    SharedHost(s, t);
  }

  lemma {:induction false} SameV4Keys(s: Service, t: Service)
    requires s.addresses == t.addresses
    ensures V4Keys(s) == V4Keys(t)
  {
    SameKindKeys(s.AddressRecords(), t.AddressRecords(), A);
  }

  lemma {:induction false} SameKindKeys(rs: seq<Record>, os: seq<Record>, rtype: u16)
    requires |rs| == |os| && forall i :: 0 <= i < |rs| ==> rs[i].class_ == os[i].class_ && rs[i].data == os[i].data
    ensures KindKeys(rs, rtype) == KindKeys(os, rtype)
  {
    if rs != [] {
      assert forall i :: 0 <= i < |rs[1..]| ==> rs[1..][i] == rs[i + 1] && os[1..][i] == os[i + 1];
      SameKindKeys(rs[1..], os[1..], rtype);
    }
  }

  lemma {:induction false} BothWellFormed()
    ensures UPPER.WellFormedService() && LOWER.WellFormedService()
  {
  }

  /** Such a pair exists, and there neither is told that it lost, though their claims differ. */
  lemma {:induction false} NeitherBacksOff()
    ensures SharesOnlyHost(UPPER, LOWER) && multiset(Keys(UPPER.Claimed())) != multiset(Keys(LOWER.Claimed()))
    ensures ConflictIn(UPPER, MessageBytes(ProbeMessage(LOWER))) == None
    ensures ConflictIn(LOWER, MessageBytes(ProbeMessage(UPPER))) == None
  {
    OneHost();
    PortsDiffer();
    BothWellFormed();
    hide ConflictIn, MessageBytes, ProbeMessage, SharesOnlyHost, Keys, Service.WellFormedService;
    SameAddressNeitherYields(UPPER, LOWER);
  }

  lemma {:induction false} OneHost()
    ensures SharesOnlyHost(UPPER, LOWER)
  {
    EqReflexive(UPPER.host);
    assert !LabelsEqual(UPPER.instance.labels[0], LOWER.instance.labels[0]) by {
      assert Lower(UPPER.instance.labels[0][0]) != Lower(LOWER.instance.labels[0][0]);
    }
  }

  lemma {:induction false} OneV4Address(s: Service)
    requires |s.addresses| == 1 && s.addresses[0].V4Addr?
    ensures V6Keys(s) == []
  {
    var rs := s.AddressRecords();
    assert rs[1..] == [] && RType(rs[0].data) == A;
    assert KindKeys(rs, AAAA) == [];
  }

  lemma {:induction false} PortsDiffer()
    ensures multiset(Keys(UPPER.Claimed())) != multiset(Keys(LOWER.Claimed()))
  {
    ClaimKeys(UPPER);
    ClaimKeys(LOWER);
    assert SortKey(UPPER.Srv()) == SrvKey(UPPER) && SortKey(LOWER.Srv()) == SrvKey(LOWER);
    SrvKeysDiffer();
    assert UPPER.AddressRecords() == LOWER.AddressRecords() && TxtKey(UPPER) == TxtKey(LOWER);
    var ours, theirs := SrvKey(UPPER), SrvKey(LOWER);
    var rest := multiset{TxtKey(UPPER)} + multiset(Keys(UPPER.AddressRecords()));
    hide SrvKey, TxtKey, Keys;
    assert multiset(Keys(UPPER.Claimed()))[ours] == 1 + rest[ours];
    assert multiset(Keys(LOWER.Claimed()))[ours] == rest[ours];
  }

  lemma {:induction false} SrvKeysDiffer()
    ensures SrvKey(UPPER) != SrvKey(LOWER)
  {
    assert SrvKey(UPPER)[9] == 80 && SrvKey(LOWER)[9] == 81;
  }
}
