/** What a datagram does to the cache, what the cache knows of an instance, and what a query asks, entry by entry. */
module CacheReadings {
  import opened Wire
  import opened Names
  import opened NameText
  import opened Records
  import opened Messages
  import opened TieBreaking
  import opened Caching
  import opened Browsing
  import opened BrowserRuns
  import Suppression

  // ---------------------------------------------------------------------
  // Absorbing
  // ---------------------------------------------------------------------

  function Puts(rs: seq<Record>, now: nat): seq<Step> {
    seq(|rs|, i requires 0 <= i < |rs| => PutStep(rs[i], now))
  }

  lemma {:induction false} PutAllIsRun(es: seq<Entry>, rs: seq<Record>, now: nat)
    ensures PutAll(es, rs, now) == VectorRun(es, Puts(rs, now))
    decreases |rs|
  {
    hide PutEntry;
    if rs != [] {
      assert Puts(rs, now)[0] == PutStep(rs[0], now) && Puts(rs, now)[1..] == Puts(rs[1..], now);
      PutAllIsRun(PutEntry(es, rs[0], now).0, rs[1..], now);
    }
  }

  /** A response is one run of puts, its answers first and then its additional records; all else changes nothing. */
  lemma {:induction false} AbsorbIsRun(es: seq<Entry>, p: seq<byte>, now: nat)
    ensures var m := ReadMessage(p);
            if m.Ok? && IsResponse(m.value)
            then AbsorbEntries(es, p, now) == VectorRun(es, Puts(m.value.answers, now) + Puts(m.value.additional, now))
            else AbsorbEntries(es, p, now) == es
  {
    hide ReadMessage;
    if ReadMessage(p).Ok? {
      var m := ReadMessage(p).value;
      PutAllIsRun(es, m.answers + m.additional, now);
      assert Puts(m.answers + m.additional, now) == Puts(m.answers, now) + Puts(m.additional, now);
    }
  }

  // ---------------------------------------------------------------------
  // The details of one instance
  // ---------------------------------------------------------------------

  /** The `i`-th entry is the first SRV under this name. */
  ghost predicate FirstSrvAt(es: seq<Entry>, name: Name, i: nat) {
    && i < |es| && es[i].record.data.DataSrv? && EqIgnoreCase(es[i].record.name, name)
    && forall j :: 0 <= j < i ==> !(es[j].record.data.DataSrv? && EqIgnoreCase(es[j].record.name, name))
  }

  ghost predicate FirstTxtAt(es: seq<Entry>, name: Name, i: nat) {
    && i < |es| && es[i].record.data.DataTxt? && EqIgnoreCase(es[i].record.name, name)
    && forall j :: 0 <= j < i ==> !(es[j].record.data.DataTxt? && EqIgnoreCase(es[j].record.name, name))
  }

  lemma {:induction false} HeldCons(es: seq<Entry>, name: Name, want: u16)
    requires es != []
    ensures Held(es, name, want)
         == (if Wanted(es[0].record, name, want) then [es[0].record] else []) + Held(es[1..], name, want)
  {
  }

  lemma {:induction false} FirstSrvIs(es: seq<Entry>, name: Name, i: nat)
    requires FirstSrvAt(es, name, i)
    ensures FirstSrv(Held(es, name, SRV)) == Some((es[i].record.data.target, es[i].record.data.port))
  {
    hide EqIgnoreCase, Held;
    HeldCons(es, name, SRV);
    var rest := Held(es[1..], name, SRV);
    assert ([es[0].record] + rest)[1..] == rest && [] + rest == rest;
    if i > 0 {
      assert forall j :: 0 <= j < |es| - 1 ==> es[1..][j] == es[j + 1];
      FirstSrvIs(es[1..], name, i - 1);
    }
  }

  lemma {:induction false} NoSrv(es: seq<Entry>, name: Name)
    requires forall i :: 0 <= i < |es| ==> !(es[i].record.data.DataSrv? && EqIgnoreCase(es[i].record.name, name))
    ensures FirstSrv(Held(es, name, SRV)) == None
  {
    hide EqIgnoreCase, Held;
    if es == [] {
      assert Held(es, name, SRV) == [] by { HeldNothing(name, SRV); }
    } else {
      HeldCons(es, name, SRV);
      var rest := Held(es[1..], name, SRV);
      assert ([es[0].record] + rest)[1..] == rest && [] + rest == rest;
      assert forall j :: 0 <= j < |es| - 1 ==> es[1..][j] == es[j + 1];
      NoSrv(es[1..], name);
    }
  }

  lemma {:induction false} HeldNothing(name: Name, want: u16)
    ensures Held([], name, want) == []
  {
  }

  lemma {:induction false} FirstTxtIs(es: seq<Entry>, name: Name, i: nat)
    requires FirstTxtAt(es, name, i)
    ensures FirstTxt(Held(es, name, TXT)) == es[i].record.data.entries
  {
    hide EqIgnoreCase, Held;
    HeldCons(es, name, TXT);
    var rest := Held(es[1..], name, TXT);
    assert ([es[0].record] + rest)[1..] == rest && [] + rest == rest;
    if i > 0 {
      assert forall j :: 0 <= j < |es| - 1 ==> es[1..][j] == es[j + 1];
      FirstTxtIs(es[1..], name, i - 1);
    }
  }

  lemma {:induction false} NoTxt(es: seq<Entry>, name: Name)
    requires forall i :: 0 <= i < |es| ==> !(es[i].record.data.DataTxt? && EqIgnoreCase(es[i].record.name, name))
    ensures FirstTxt(Held(es, name, TXT)) == []
  {
    hide EqIgnoreCase, Held;
    if es == [] {
      HeldNothing(name, TXT);
    } else {
      HeldCons(es, name, TXT);
      var rest := Held(es[1..], name, TXT);
      assert ([es[0].record] + rest)[1..] == rest && [] + rest == rest;
      assert forall j :: 0 <= j < |es| - 1 ==> es[1..][j] == es[j + 1];
      NoTxt(es[1..], name);
    }
  }

  /** An address of either family under the host's name. */
  ghost predicate AddressUnder(r: Record, host: Name, octets: Bytes) {
    EqIgnoreCase(r.name, host) && ((r.data.DataA? && r.data.v4 == octets) || (r.data.DataAaaa? && r.data.v6 == octets))
  }

  ghost predicate AddressHeld(es: seq<Entry>, host: Name, octets: Bytes) {
    exists i :: 0 <= i < |es| && AddressUnder(es[i].record, host, octets)
  }

  lemma {:induction false} AddressesAre(es: seq<Entry>, host: Name, octets: Bytes)
    ensures octets in Addresses(Held(es, host, ANY)) <==> AddressHeld(es, host, octets)
  {
    hide EqIgnoreCase, Held, Addresses;
    AddressesCons([]);
    if es == [] {
      HeldNothing(host, ANY);
    } else {
      var rest := Held(es[1..], host, ANY);
      HeldCons(es, host, ANY);
      AddressesCons([es[0].record] + rest);
      assert ([es[0].record] + rest)[1..] == rest && [] + rest == rest;
      AddressesAre(es[1..], host, octets);
      if i :| 0 <= i < |es| && AddressUnder(es[i].record, host, octets) {
        assert i > 0 ==> es[1..][i - 1] == es[i];
      }
      if AddressHeld(es[1..], host, octets) {
        var i :| 0 <= i < |es[1..]| && AddressUnder(es[1..][i].record, host, octets);
        assert es[i + 1] == es[1..][i];
      }
    }
  }

  /**
   * What is known of an instance, read off the cache: nothing without an SRV under its name or without an address under
   * the first one's target; otherwise that target and port, all those addresses in ascending order, and the first TXT.
   */
  lemma {:induction false} DetailsAre(es: seq<Entry>, instance: Name, i: nat)
    requires FirstSrvAt(es, instance, i)
    ensures var srv, d := es[i].record.data, DetailsOf(es, instance);
            && (d == None <==> forall octets :: !AddressHeld(es, srv.target, octets))
            && (d.Some? ==>
                  && d.value.host == Display(srv.target) && d.value.port == srv.port && Ascending(d.value.addresses)
                  && (forall octets :: octets in d.value.addresses <==> AddressHeld(es, srv.target, octets))
                  && (forall k: nat :: FirstTxtAt(es, instance, k) ==>
                        d.value.txt == TxtPairs(es[k].record.data.entries))
                  && (HasNoTxt(es, instance) ==> d.value.txt == []))
  {
    FirstSrvIs(es, instance, i);
    var found := Addresses(Held(es, es[i].record.data.target, ANY));
    SortSorts(found);
    AscendingIsSorted(Sort(found));
    TxtPairsCons([]);
    hide EqIgnoreCase, Held, Addresses, FirstSrv, FirstTxt, TxtPairs, Display, AddressHeld, Sort, Ascending, Sorted;
    forall octets ensures octets in found <==> AddressHeld(es, es[i].record.data.target, octets) {
      AddressesAre(es, es[i].record.data.target, octets);
    }
    if found != [] {
      assert found[0] in found;
    }
    assert forall octets :: octets in Sort(found) <==> octets in multiset(Sort(found));
    forall k: nat | FirstTxtAt(es, instance, k)
      ensures FirstTxt(Held(es, instance, TXT)) == es[k].record.data.entries
    {
      FirstTxtIs(es, instance, k);
    }
    if HasNoTxt(es, instance) {
      NoTxt(es, instance);
    }
  }

  ghost predicate HasNoTxt(es: seq<Entry>, name: Name) {
    forall i :: 0 <= i < |es| ==> !(es[i].record.data.DataTxt? && EqIgnoreCase(es[i].record.name, name))
  }

  /** The other case: no SRV under the name, no details. */
  lemma {:induction false} NoDetails(es: seq<Entry>, instance: Name)
    requires forall i :: 0 <= i < |es| ==>
               !(es[i].record.data.DataSrv? && EqIgnoreCase(es[i].record.name, instance))
    ensures DetailsOf(es, instance) == None
  {
    hide EqIgnoreCase;
    NoSrv(es, instance);
  }

  // ---------------------------------------------------------------------
  // Asking
  // ---------------------------------------------------------------------

  ghost predicate HoldsType(es: seq<Entry>, name: Name, number: u16) {
    exists i :: 0 <= i < |es| && EqIgnoreCase(es[i].record.name, name) && RType(es[i].record.data) == number
  }

  lemma {:induction false} HeldIff(es: seq<Entry>, name: Name, number: u16)
    requires number != 255
    ensures Held(es, name, number) != [] <==> HoldsType(es, name, number)
  {
    hide EqIgnoreCase, Held, RType;
    if es == [] {
      HeldNothing(name, number);
    } else {
      HeldCons(es, name, number);
      HeldIff(es[1..], name, number);
      if HoldsType(es[1..], name, number) {
        var i :| 0 <= i < |es[1..]| && EqIgnoreCase(es[1..][i].record.name, name)
                 && RType(es[1..][i].record.data) == number;
        assert es[i + 1] == es[1..][i];
      }
      if i :| 0 <= i < |es| && EqIgnoreCase(es[i].record.name, name) && RType(es[i].record.data) == number {
        assert i > 0 ==> es[1..][i - 1] == es[i];
      }
    }
  }

  /** Which details a query asks for: SRV (33) and TXT (16) of an instance pointed to that lacks one of them. */
  ghost predicate AsksDetail(es: seq<Entry>, serviceType: Name, q: Question) {
    exists n ::
      && Cached(es, serviceType, n) && (!HoldsType(es, n, 33) || !HoldsType(es, n, 16))
      && (q == Question(n, 33, 1, false) || q == Question(n, 16, 1, false))
  }

  lemma {:induction false} NeedingAre(es: seq<Entry>, instances: seq<Name>)
    ensures forall n :: n in Needing(es, instances) <==> n in instances && NeedsDetail(es, n)
  {
    hide NeedsDetail;
    if instances != [] {
      NeedingAre(es, instances[1..]);
      assert instances == [instances[0]] + instances[1..];
    }
  }

  lemma {:induction false} DetailQuestionsAre(instances: seq<Name>, q: Question)
    ensures q in DetailQuestions(instances) <==>
              exists n :: n in instances && (q == Question(n, 33, 1, false) || q == Question(n, 16, 1, false))
  {
    if instances != [] {
      DetailQuestionsAre(instances[1..], q);
      assert instances == [instances[0]] + instances[1..];
      assert q in DetailQuestions(instances) <==>
        q == Asking(instances[0], SRV) || q == Asking(instances[0], TXT) || q in DetailQuestions(instances[1..]);
    }
  }

  /** A query asks first who is there, by a pointer (12) in class IN, and then for the details it lacks. */
  lemma {:induction false} QueryAsks(serviceType: Name, es: seq<Entry>, now: nat, q: Question)
    requires WellFormedEntries(es)
    ensures var asked := QueryOf(serviceType, es, now).questions;
            && asked[0] == Question(serviceType, 12, 1, false)
            && (q in asked[1..] <==> AsksDetail(es, serviceType, q))
  {
    var instances := Instances(Held(es, serviceType, PTR));
    InstancesAre(es, serviceType);
    NeedingAre(es, instances);
    DetailQuestionsAre(Needing(es, instances), q);
    hide Cached, Held, Instances, HoldsType, Needing, DetailQuestions, KnownAnswers, WellFormedEntries;
    forall n ensures NeedsDetail(es, n) <==> !HoldsType(es, n, 33) || !HoldsType(es, n, 16) {
      HeldIff(es, n, 33);
      HeldIff(es, n, 16);
    }
    var asked := QueryOf(serviceType, es, now).questions;
    assert asked[1..] == DetailQuestions(Needing(es, instances));
  }

  /** What it offers as known: the pointers still alive, each with the whole seconds it has left, in 32 bits. */
  lemma {:induction false} QueryOffers(serviceType: Name, es: seq<Entry>, now: nat, x: Record)
    ensures x in QueryOf(serviceType, es, now).answers <==>
              exists i ::
                && 0 <= i < |es| && EqIgnoreCase(es[i].record.name, serviceType) && RType(es[i].record.data) == 12
                && es[i].expires > now && x == es[i].record.(ttl := (es[i].expires - now) / 1000 % 4294967296)
  {
    Suppression.KnownAnswersAre(es, serviceType, PTR, now);
    hide KnownAnswers, EqIgnoreCase, RType;
    forall i | 0 <= i < |es|
      ensures Suppression.Offered(es[i], serviceType, PTR, now, x) <==>
                && EqIgnoreCase(es[i].record.name, serviceType) && RType(es[i].record.data) == 12
                && es[i].expires > now && x == es[i].record.(ttl := (es[i].expires - now) / 1000 % 4294967296)
    {
    }
  }
}
