/**
 * Probers that want one instance name under different host names - a configured host name makes this
 * possible. Each then weighs its whole claim against only the other's SRV and TXT, so the two comparisons are no
 * longer mirror images. This module works out exactly who backs off.
 */
module PartialClash {
  import opened Wire
  import opened Names
  import opened Records
  import opened Messages
  import opened Services
  import opened TieBreaking
  import opened Responders

  ghost predicate SharesOnlyInstance(s: Service, t: Service) {
    && EqIgnoreCase(s.instance, t.instance)
    && !EqIgnoreCase(s.instance, t.host) && !EqIgnoreCase(s.host, t.host)
    && !EqIgnoreCase(t.instance, s.host)
  }

  predicate HasV4(s: Service) {
    exists i :: 0 <= i < |s.addresses| && s.addresses[i].V4Addr?
  }

  function TxtKey(s: Service): Bytes {
    SortKey(s.TxtRecord())
  }

  // ---------------------------------------------------------------------
  // Ordering keys by record type
  // ---------------------------------------------------------------------

  lemma {:induction false} LexPrefix(p: Bytes, a: Bytes, b: Bytes)
    ensures CompareBytes(p + a, p + b) == CompareBytes(a, b)
  {
    if p == [] {
      assert p + a == a && p + b == b;
    } else {
      assert (p + a)[1..] == p[1..] + a && (p + b)[1..] == p[1..] + b;
      LexPrefix(p[1..], a, b);
    }
  }

  /** Between records of class IN, the one with the smaller type comes first whatever they carry. */
  lemma {:induction false} SmallerTypeFirst(x: Record, y: Record)
    requires x.class_ == CLASS_IN == y.class_ && RType(x.data) < RType(y.data) < 0x100
    ensures CompareBytes(SortKey(x), SortKey(y)) == Less
  {
    var p: Bytes := [0, 1, 0];
    var a, b := [RType(x.data)] + DataBytes(x.data), [RType(y.data)] + DataBytes(y.data);
    assert SortKey(x) == p + a && SortKey(y) == p + b;
    LexPrefix(p, a, b);
  }

  ghost predicate NotAbove(x: Bytes, ks: seq<Bytes>) {
    forall y :: y in ks ==> CompareBytes(x, y) != Greater
  }

  /** The smallest key comes first and the rest are sorted on their own. */
  lemma {:induction false} SortPeel(ks: seq<Bytes>, x: Bytes, rest: seq<Bytes>)
    requires multiset(ks) == multiset{x} + multiset(rest) && NotAbove(x, rest)
    ensures Sort(ks) == [x] + Sort(rest)
  {
    hide CompareBytes;
    SortSorts(ks);
    SortSorts(rest);
    forall y | y in Sort(rest) ensures CompareBytes(x, y) != Greater {
      assert y in multiset(Sort(rest));
    }
    ConsSorted(x, Sort(rest));
    SortedUnique(Sort(ks), [x] + Sort(rest));
  }

  /** Holding a key below everything on the other side decides the comparison. */
  lemma {:induction false} SmallerHeadLoses(ours: seq<Bytes>, theirs: seq<Bytes>, x: Bytes)
    requires x in ours && theirs != [] && forall y :: y in theirs ==> CompareBytes(x, y) == Less
    ensures Lex(CompareBytes, Sort(ours), Sort(theirs)) == Less
  {
    hide CompareBytes;
    BytesTotal();
    SortSorts(ours);
    SortSorts(theirs);
    var a, b := Sort(ours), Sort(theirs);
    assert |b| == |theirs| by { assert |multiset(b)| == |multiset(theirs)|; }
    assert x in multiset(a);
    var i :| 0 <= i < |a| && a[i] == x;
    assert b[0] in multiset(b);
    assert CompareBytes(x, b[0]) == Less;
    assert i == 0 || CompareBytes(a[0], a[i]) != Greater;
    assert CompareBytes(a[0], b[0]) == Less;
  }

  // ---------------------------------------------------------------------
  // What each side compares
  // ---------------------------------------------------------------------

  lemma {:induction false} NoneUnderOurNames(s: Service, rs: seq<Record>)
    requires forall r :: r in rs ==> !s.Owns(r.name)
    ensures UnderOurNames(s, rs) == []
  {
    if rs != [] {
      assert rs == [rs[0]] + rs[1..];
      NoneUnderOurNames(s, rs[1..]);
    }
  }

  lemma {:induction false} OnlySrvAndTxtCount(s: Service, t: Service)
    requires SharesOnlyInstance(s, t)
    ensures UnderOurNames(s, t.Claimed()) == [t.Srv(), t.TxtRecord()]
  {
    hide EqIgnoreCase;
    var claimed := t.Claimed();
    forall r | r in t.AddressRecords() ensures !s.Owns(r.name) {
      var i :| 0 <= i < |t.addresses| && r == t.AddressRecord(t.addresses[i]);
    }
    NoneUnderOurNames(s, t.AddressRecords());
    assert claimed[1..][1..] == t.AddressRecords();
    assert UnderOurNames(s, claimed[1..]) == [t.TxtRecord()];
  }

  lemma {:induction false} PartialVerdict(s: Service, t: Service)
    requires t.WellFormedService() && SharesOnlyInstance(s, t)
    ensures ConflictIn(s, MessageBytes(ProbeMessage(t))) != None
       <==> Verdict(s.Claimed(), [t.Srv(), t.TxtRecord()]) == Less
  {
    ProbeRoundTrips(t);
    OnlySrvAndTxtCount(s, t);
    hide MessageBytes, ReadMessage, Verdict;
    assert s.Owns(ProbeMessage(t).questions[0].name);
  }

  lemma {:induction false} AddressKey(s: Service, i: nat)
    requires i < |s.addresses|
    ensures SortKey(s.AddressRecord(s.addresses[i])) in Keys(s.Claimed())
  {
    assert s.Claimed()[i + 2] == s.AddressRecord(s.addresses[i]);
    assert Keys(s.Claimed())[i + 2] == SortKey(s.Claimed()[i + 2]);
  }

  lemma {:induction false} V4AlwaysLoses(s: Service, t: Service)
    requires HasV4(s)
    ensures Verdict(s.Claimed(), [t.Srv(), t.TxtRecord()]) == Less
  {
    var i :| 0 <= i < |s.addresses| && s.addresses[i].V4Addr?;
    AddressKey(s, i);
    var x := s.AddressRecord(s.addresses[i]);
    SmallerTypeFirst(x, t.Srv());
    SmallerTypeFirst(x, t.TxtRecord());
    hide SortKey, CompareBytes;
    SmallerHeadLoses(Keys(s.Claimed()), Keys([t.Srv(), t.TxtRecord()]), SortKey(x));
  }

  lemma {:induction false} TxtBelowTheRest(s: Service)
    requires !HasV4(s)
    ensures NotAbove(TxtKey(s), [SortKey(s.Srv())] + Keys(s.AddressRecords()))
  {
    SmallerTypeFirst(s.TxtRecord(), s.Srv());
    forall y | y in Keys(s.AddressRecords()) ensures CompareBytes(TxtKey(s), y) == Less {
      var i :| 0 <= i < |s.addresses| && y == SortKey(s.AddressRecord(s.addresses[i]));
      assert s.addresses[i].V6Addr?;
      SmallerTypeFirst(s.TxtRecord(), s.AddressRecord(s.addresses[i]));
    }
  }

  lemma {:induction false} ClaimKeys(s: Service)
    ensures multiset(Keys(s.Claimed())) == multiset{TxtKey(s)} + multiset([SortKey(s.Srv())] + Keys(s.AddressRecords()))
  {
    hide SortKey;
    var addresses := Keys(s.AddressRecords());
    assert Keys(s.Claimed()) == [SortKey(s.Srv()), TxtKey(s)] + addresses;
  }

  /** With only IPv6 addresses the TXT comes first. */
  lemma {:induction false} TxtFirst(s: Service)
    requires !HasV4(s)
    ensures var rest := [SortKey(s.Srv())] + Keys(s.AddressRecords());
            Sort(Keys(s.Claimed())) == [TxtKey(s)] + Sort(rest)
  {
    TxtBelowTheRest(s);
    ClaimKeys(s);
    hide SortKey, TxtKey, CompareBytes, HasV4, NotAbove, Keys, Sort;
    SortPeel(Keys(s.Claimed()), TxtKey(s), [SortKey(s.Srv())] + Keys(s.AddressRecords()));
  }

  lemma {:induction false} TxtBeforeSrv(t: Service)
    ensures Sort(Keys([t.Srv(), t.TxtRecord()])) == [TxtKey(t)] + Sort([SortKey(t.Srv())])
  {
    SmallerTypeFirst(t.TxtRecord(), t.Srv());
    hide SortKey, CompareBytes;
    assert Keys([t.Srv(), t.TxtRecord()]) == [SortKey(t.Srv()), TxtKey(t)];
    SortPeel(Keys([t.Srv(), t.TxtRecord()]), TxtKey(t), [SortKey(t.Srv())]);
  }

  lemma {:induction false} V6DecidedByTxt(s: Service, t: Service)
    requires !HasV4(s) && s.addresses != []
    ensures Verdict(s.Claimed(), [t.Srv(), t.TxtRecord()]) == Less
       <==> CompareBytes(TxtKey(s), TxtKey(t)) != Greater
  {
    TxtFirst(s);
    TxtBeforeSrv(t);
    var rest := [SortKey(s.Srv())] + Keys(s.AddressRecords());
    var x := s.AddressRecords()[0];
    assert s.addresses[0].V6Addr?;
    SmallerTypeFirst(x, t.Srv());
    assert Keys(s.AddressRecords())[0] == SortKey(x) && SortKey(x) in rest;
    hide SortKey, CompareBytes, TxtKey;
    SmallerHeadLoses(rest, [SortKey(t.Srv())], SortKey(x));
    var a, b := [TxtKey(s)] + Sort(rest), [TxtKey(t)] + Sort([SortKey(t.Srv())]);
    assert a[1..] == Sort(rest) && b[1..] == Sort([SortKey(t.Srv())]);
    assert Lex(CompareBytes, a, b) == Verdict(s.Claimed(), [t.Srv(), t.TxtRecord()]);
  }

  /** Whether a host with at least one address backs off in such a clash. */
  predicate Yields(s: Service, t: Service) {
    HasV4(s) || CompareBytes(TxtKey(s), TxtKey(t)) != Greater
  }

  /**
   * Exactly who backs off when only the instance name is shared. RFC 6762 section 8.2 wants opposite verdicts; here at
   * least one side always yields, and both do unless the side with the greater TXT announces IPv6 only.
   */
  lemma {:induction false} WhoYields(s: Service, t: Service)
    requires s.WellFormedService() && t.WellFormedService() && s.addresses != [] && t.addresses != []
    requires SharesOnlyInstance(s, t)
    ensures ConflictIn(s, MessageBytes(ProbeMessage(t))) != None <==> Yields(s, t)
    ensures ConflictIn(t, MessageBytes(ProbeMessage(s))) != None <==> Yields(t, s)
    ensures Yields(s, t) || Yields(t, s)
    ensures Yields(s, t) && Yields(t, s) <==>
            !(CompareBytes(TxtKey(s), TxtKey(t)) == Greater && !HasV4(s))
            && !(CompareBytes(TxtKey(t), TxtKey(s)) == Greater && !HasV4(t))
  {
    hide ConflictIn, MessageBytes, Verdict, EqIgnoreCase, TxtKey, CompareBytes;
    SharingTurnsRound(s, t);
    PartialVerdict(s, t);
    PartialVerdict(t, s);
    BytesTotal();
    if HasV4(s) { V4AlwaysLoses(s, t); } else { V6DecidedByTxt(s, t); }
    if HasV4(t) { V4AlwaysLoses(t, s); } else { V6DecidedByTxt(t, s); }
    assert CompareBytes(TxtKey(t), TxtKey(s)) == Reverse(CompareBytes(TxtKey(s), TxtKey(t)));
  }

  lemma {:induction false} SharingTurnsRound(s: Service, t: Service)
    requires SharesOnlyInstance(s, t)
    ensures SharesOnlyInstance(t, s)
  {
    EqSymmetricTransitive(s.instance, t.instance, s.instance);
    EqSymmetricTransitive(s.host, t.host, s.host);
  }

  // Two tills called `t` on the hosts `a.l` and `b.l`, one IPv4 address each.

  const LEFT := Service(Name([[116], [95, 112], [108]]), Name([[95, 112], [108]]), Name([[97], [108]]), 80, [],
                        [V4Addr([10, 0, 0, 1])], 120, 4500)
  const RIGHT := LEFT.(host := Name([[98], [108]]), addresses := [V4Addr([10, 0, 0, 2])])

  /** Such a pair exists, and there section 8.2 fails: each is told that it lost, and both give the name up. */
  lemma {:induction false} BothTillsBackOff()
    ensures SharesOnlyInstance(LEFT, RIGHT)
    ensures ConflictIn(LEFT, MessageBytes(ProbeMessage(RIGHT))) != None
    ensures ConflictIn(RIGHT, MessageBytes(ProbeMessage(LEFT))) != None
  {
    hide ConflictIn, MessageBytes, ProbeMessage, TxtKey, CompareBytes;
    assert !LabelsEqual(LEFT.host.labels[0], RIGHT.host.labels[0]) by {
      assert Lower(LEFT.host.labels[0][0]) != Lower(RIGHT.host.labels[0][0]);
    }
    assert LEFT.addresses[0].V4Addr? && RIGHT.addresses[0].V4Addr?;
    WhoYields(LEFT, RIGHT);
  }
}
