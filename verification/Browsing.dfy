/** The browser: what it remembers, what it has said, and when it says something new. */
module Browsing {
  import opened Wire
  import opened Names
  import opened NameText
  import opened Records
  import opened Messages
  import opened Caching
  import opened TieBreaking
  import opened Utf8
  import Sequences

  // ---------------------------------------------------------------------
  // TXT pairs
  // ---------------------------------------------------------------------

  const EQUALS: byte := 61

  datatype TxtPair = TxtPair(key: seq<byte>, value: seq<byte>)

  /** The position of the first `=`, or the length. */
  function FindEquals(e: seq<byte>): (i: nat)
    ensures i <= |e| && EQUALS !in e[..i]
    ensures i < |e| ==> e[i] == EQUALS
  {
    if e == [] || e[0] == EQUALS then 0
    else
      var i := 1 + FindEquals(e[1..]);
      assert e[..i] == [e[0]] + e[1..][..i - 1];
      i
  }

  /** A key without `=`; what follows the first one is the value, and without one the value is empty. */
  function Pair(e: seq<byte>): (p: TxtPair)
    ensures 61 !in p.key
    ensures if 61 in e then e == p.key + [61] + p.value else e == p.key && p.value == []
  {
    var at := FindEquals(e);
    Sequences.Whole(e);
    if at < |e| then
      Sequences.Cut(e, at);
      TxtPair(e[..at], e[at + 1..])
    else TxtPair(e, [])
  }

  /** Entries that are not UTF-8 are dropped. */
  function TxtPairs(es: seq<seq<byte>>): seq<TxtPair> {
    if es == [] then [] else (if IsUtf8(es[0]) then [Pair(es[0])] else []) + TxtPairs(es[1..])
  }

  lemma {:induction false} TxtPairsCons(es: seq<seq<byte>>)
    ensures TxtPairs([]) == []
    ensures es != [] ==> TxtPairs(es) == (if IsUtf8(es[0]) then [Pair(es[0])] else []) + TxtPairs(es[1..])
  {
  }

  /** The pairs of the UTF-8 entries and of no others, in order. */
  lemma {:induction false} TxtPairsAre(a: seq<seq<byte>>, b: seq<seq<byte>>, e: seq<byte>)
    ensures TxtPairs(a + b) == TxtPairs(a) + TxtPairs(b)
    ensures TxtPairs([e]) == if IsUtf8(e) then [Pair(e)] else []
  {
    TxtPairsCons([e]);
    assert [e][1..] == [];
    TxtPairsCons([]);
    TxtPairsCons(a);
    TxtPairsCons(a + b);
    hide TxtPairs, IsUtf8, Pair;
    Sequences.Empty(if IsUtf8(e) then [Pair(e)] else []);
    if a == [] {
      Sequences.Empty(b);
      Sequences.Empty(TxtPairs(b));
    } else {
      Sequences.ConcatTail(a, b);
      TxtPairsAre(a[1..], b, e);
      Sequences.Assoc(if IsUtf8(a[0]) then [Pair(a[0])] else [], TxtPairs(a[1..]), TxtPairs(b));
    }
  }

  lemma {:induction false} TxtPairsSnoc(es: seq<seq<byte>>, i: nat)
    requires i < |es|
    ensures TxtPairs(es[..i + 1]) == TxtPairs(es[..i]) + if IsUtf8(es[i]) then [Pair(es[i])] else []
  {
    hide TxtPairs, IsUtf8, Pair;
    Sequences.PrefixTail(es, i + 1);
    TxtPairsCons(es[..i + 1]);
    if i > 0 {
      Sequences.PrefixTail(es, i);
      TxtPairsCons(es[..i]);
      TxtPairsSnoc(es[1..], i - 1);
    }
  }

  method SplitPairs(entries: seq<seq<byte>>) returns (pairs: seq<TxtPair>)
    ensures pairs == TxtPairs(entries)
  {
    hide TxtPairs, Pair, IsUtf8;
    pairs := [];
    TxtPairsCons([]);
    Sequences.Whole(entries);
    for i := 0 to |entries|
      invariant pairs == TxtPairs(entries[..i])
    {
      TxtPairsSnoc(entries, i);
      if !IsUtf8(entries[i]) {
        continue;
      }
      pairs := pairs + [Pair(entries[i])];
    }
  }

  // ---------------------------------------------------------------------
  // Details of one instance
  // ---------------------------------------------------------------------

  /** The contents of a Resolved event, and what two of them are compared by. Addresses are their octets, sorted. */
  datatype Details = Details(host: seq<byte>, port: u16, addresses: seq<Bytes>, txt: seq<TxtPair>)

  /** Target and port of the first SRV. */
  function FirstSrv(rs: seq<Record>): Option<(Name, u16)> {
    if rs == [] then None
    else if rs[0].data.DataSrv? then Some((rs[0].data.target, rs[0].data.port))
    else FirstSrv(rs[1..])
  }

  function FirstTxt(rs: seq<Record>): seq<seq<byte>> {
    if rs == [] then [] else if rs[0].data.DataTxt? then rs[0].data.entries else FirstTxt(rs[1..])
  }

  predicate HasAddress(r: Record) {
    r.data.DataA? || r.data.DataAaaa?
  }

  function Octets(r: Record): Bytes
    requires HasAddress(r)
  {
    if r.data.DataA? then r.data.v4 else r.data.v6
  }

  function AddressOf(r: Record): seq<Bytes> {
    if HasAddress(r) then [Octets(r)] else []
  }

  function Addresses(rs: seq<Record>): seq<Bytes> {
    if rs == [] then [] else AddressOf(rs[0]) + Addresses(rs[1..])
  }

  /** `None` without an SRV under `instance` or without an address under its target; a missing TXT gives no pairs. */
  function DetailsOf(es: seq<Entry>, instance: Name): Option<Details> {
    match FirstSrv(Held(es, instance, SRV))
    case None => None
    case Some((target, port)) =>
      var addresses := Addresses(Held(es, target, ANY));
      if addresses == [] then None
      else Some(Details(Display(target), port, Sort(addresses), TxtPairs(FirstTxt(Held(es, instance, TXT)))))
  }

  lemma {:induction false} AddressesCons(rs: seq<Record>)
    ensures Addresses([]) == []
    ensures rs != [] ==> Addresses(rs) == AddressOf(rs[0]) + Addresses(rs[1..])
  {
  }

  lemma {:induction false} AddressesSnoc(rs: seq<Record>, i: nat)
    requires i < |rs|
    ensures Addresses(rs[..i + 1]) == Addresses(rs[..i]) + AddressOf(rs[i])
  {
    hide Addresses, AddressOf;
    Sequences.PrefixTail(rs, i + 1);
    AddressesCons(rs[..i + 1]);
    if i > 0 {
      Sequences.PrefixTail(rs, i);
      AddressesCons(rs[..i]);
      AddressesSnoc(rs[1..], i - 1);
    }
  }

  method CollectAddresses(records: seq<Record>) returns (addresses: seq<Bytes>)
    ensures addresses == Addresses(records)
  {
    assert Addresses([]) == [] && records[..0] == [] && records[..|records|] == records;
    hide Addresses;
    addresses := [];
    for i := 0 to |records|
      invariant addresses == Addresses(records[..i])
    {
      AddressesSnoc(records, i);
      match records[i].data {
        case DataA(v4) => addresses := addresses + [v4];
        case DataAaaa(v6) => addresses := addresses + [v6];
        case _ =>
      }
    }
  }

  /** Whatever is reported has somewhere to connect to. */
  lemma {:induction false} DetailsHaveAddresses(es: seq<Entry>, instance: Name)
    ensures DetailsOf(es, instance).Some? ==> DetailsOf(es, instance).value.addresses != []
  {
    if DetailsOf(es, instance).Some? {
      var srv := FirstSrv(Held(es, instance, SRV));
      var addresses := Addresses(Held(es, srv.value.0, ANY));
      SortSorts(addresses);
      assert |multiset(Sort(addresses))| == |multiset(addresses)|;
    }
  }

  // ---------------------------------------------------------------------
  // What has been said
  // ---------------------------------------------------------------------

  type Text = seq<byte>

  datatype Reported = Reported(found: bool, resolved: Option<Details>)

  datatype Event = ServiceFound(key: Text) | ServiceResolved(key: Text, details: Details) | ServiceLost(key: Text)

  /** The table of known instances and the events sent. */
  datatype Board = Board(known: map<Text, Reported>, events: seq<Event>)

  function FindOne(b: Board, key: Text): Board {
    var entry := if key in b.known then b.known[key] else Reported(false, None);
    if entry.found then b
    else Board(b.known[key := entry.(found := true)], b.events + [ServiceFound(key)])
  }

  function ResolveOne(b: Board, key: Text, d: Details): Board
    requires key in b.known
  {
    if b.known[key].resolved == Some(d) then b
    else Board(b.known[key := b.known[key].(resolved := Some(d))], b.events + [ServiceResolved(key, d)])
  }

  function ReportOne(es: seq<Entry>, b: Board, instance: Name): Board {
    var key := Display(instance);
    var found := FindOne(b, key);
    match DetailsOf(es, instance)
    case None => found
    case Some(d) => ResolveOne(found, key, d)
  }

  function ReportAll(es: seq<Entry>, b: Board, instances: seq<Name>): Board
    decreases |instances|
  {
    if instances == [] then b else ReportAll(es, ReportOne(es, b, instances[0]), instances[1..])
  }

  /** The instances the cached pointers of the service type name. */
  function Instances(rs: seq<Record>): seq<Name> {
    if rs == [] then []
    else (if rs[0].data.DataPtr? then [rs[0].data.pointee] else []) + Instances(rs[1..])
  }

  function Report(serviceType: Name, es: seq<Entry>, b: Board): Board {
    ReportAll(es, b, Instances(Held(es, serviceType, PTR)))
  }

  function LoseOne(serviceType: Name, b: Board, gone: Record): Board {
    if !gone.data.DataPtr? || !EqIgnoreCase(gone.name, serviceType) then b
    else
      var key := Display(gone.data.pointee);
      if key in b.known then Board(b.known - {key}, b.events + [ServiceLost(key)]) else b
  }

  function LoseAll(serviceType: Name, b: Board, gone: seq<Record>): Board
    decreases |gone|
  {
    if gone == [] then b else LoseAll(serviceType, LoseOne(serviceType, b, gone[0]), gone[1..])
  }

  function PutAll(es: seq<Entry>, rs: seq<Record>, now: nat): seq<Entry>
    decreases |rs|
  {
    if rs == [] then es else PutAll(PutEntry(es, rs[0], now).0, rs[1..], now)
  }

  /** Everything a datagram does to the cache. */
  function AbsorbEntries(es: seq<Entry>, payload: seq<byte>, now: nat): seq<Entry> {
    match ReadMessage(payload)
    case Err(_) => es
    case Ok(m) => if IsResponse(m) then PutAll(es, m.answers + m.additional, now) else es
  }

  function AbsorbBoard(serviceType: Name, es: seq<Entry>, b: Board, payload: seq<byte>, now: nat): Board {
    match ReadMessage(payload)
    case Err(_) => b
    case Ok(m) => if IsResponse(m) then Report(serviceType, AbsorbEntries(es, payload, now), b) else b
  }

  // ---------------------------------------------------------------------
  // Asking
  // ---------------------------------------------------------------------

  predicate NeedsDetail(es: seq<Entry>, instance: Name) {
    Held(es, instance, SRV) == [] || Held(es, instance, TXT) == []
  }

  function Needing(es: seq<Entry>, instances: seq<Name>): seq<Name> {
    if instances == [] then []
    else (if NeedsDetail(es, instances[0]) then [instances[0]] else []) + Needing(es, instances[1..])
  }

  function Asking(name: Name, qtype: u16): Question {
    Question(name, qtype, CLASS_IN, false)
  }

  function DetailQuestions(instances: seq<Name>): seq<Question> {
    if instances == [] then []
    else [Asking(instances[0], SRV), Asking(instances[0], TXT)] + DetailQuestions(instances[1..])
  }

  /** Who is there, and what is missing about those already known; what is held is offered as known. */
  function QueryOf(serviceType: Name, es: seq<Entry>, now: nat): Message {
    Query([Asking(serviceType, PTR)] + DetailQuestions(Needing(es, Instances(Held(es, serviceType, PTR)))),
          KnownAnswers(es, serviceType, PTR, now))
  }

  // ---------------------------------------------------------------------
  // The engine
  // ---------------------------------------------------------------------

  class BrowseEngine {
    const serviceType: Name
    const cache: Cache
    var known: map<Text, Reported>
    var events: seq<Event>

    function CurrentBoard(): Board
      reads this
    {
      Board(known, events)
    }

    constructor (serviceType: Name)
      ensures this.serviceType == serviceType && cache.entries == [] && CurrentBoard() == Board(map[], [])
      ensures fresh(cache)
    {
      this.serviceType := serviceType;
      cache := new Cache();
      known := map[];
      events := [];
    }

    method DetailsFor(instance: Name) returns (d: Option<Details>)
      ensures d == DetailsOf(cache.entries, instance)
    {
      hide Held, Display, Sort, TxtPairs;
      var srv := FirstSrv(Held(cache.entries, instance, SRV));
      if srv == None {
        return None;
      }
      var addresses := CollectAddresses(Held(cache.entries, srv.value.0, ANY));
      if addresses == [] {
        return None;
      }
      addresses := Sort(addresses);
      var txt := SplitPairs(FirstTxt(Held(cache.entries, instance, TXT)));
      return Some(Details(Display(srv.value.0), srv.value.1, addresses, txt));
    }

    /** Brings `known` up to the cache: one event for each entry made and for each change of its details. */
    method ReportNews()
      modifies this
      ensures CurrentBoard() == Report(serviceType, cache.entries, old(CurrentBoard()))
    {
      hide DetailsOf, Held, Display, Instances;
      var instances := Instances(Held(cache.entries, serviceType, PTR));
      for i := 0 to |instances|
        invariant ReportAll(cache.entries, CurrentBoard(), instances[i..])
               == Report(serviceType, cache.entries, old(CurrentBoard()))
      {
        assert instances[i..][1..] == instances[i + 1..];
        var instance := instances[i];
        var key := Display(instance);
        if key !in known || !known[key].found {
          var entry := if key in known then known[key] else Reported(false, None);
          known := known[key := entry.(found := true)];
          events := events + [ServiceFound(key)];
        }
        var details := DetailsFor(instance);
        if details == None {
          continue;
        }
        if known[key].resolved == details {
          continue;
        }
        known := known[key := known[key].(resolved := details)];
        events := events + [ServiceResolved(key, details.value)];
      }
      assert instances[|instances|..] == [];
    }

    method Absorb(payload: seq<byte>, now: nat)
      modifies this, cache
      ensures cache.entries == AbsorbEntries(old(cache.entries), payload, now)
      ensures CurrentBoard() == AbsorbBoard(serviceType, old(cache.entries), old(CurrentBoard()), payload, now)
    {
      hide PutEntry, ReadMessage, Report;
      var decoded := Decode(payload);
      if decoded.Err? {
        return;
      }
      var message := decoded.value;
      if !IsResponse(message) {
        return;
      }
      var records := message.answers + message.additional;
      for i := 0 to |records|
        invariant PutAll(cache.entries, records[i..], now) == PutAll(old(cache.entries), records, now)
        invariant CurrentBoard() == old(CurrentBoard())
      {
        assert records[i..][1..] == records[i + 1..];
        var change := cache.Put(records[i], now);
      }
      assert records[|records|..] == [];
      ReportNews();
    }

    method InstancesNeedingDetail() returns (wanted: seq<Name>)
      ensures wanted == Needing(cache.entries, Instances(Held(cache.entries, serviceType, PTR)))
    {
      hide Held, Instances;
      wanted := [];
      var instances := Instances(Held(cache.entries, serviceType, PTR));
      for i := 0 to |instances|
        invariant wanted + Needing(cache.entries, instances[i..]) == Needing(cache.entries, instances)
      {
        assert instances[i..][1..] == instances[i + 1..];
        var hasSrv := Held(cache.entries, instances[i], SRV) != [];
        var hasTxt := Held(cache.entries, instances[i], TXT) != [];
        if !hasSrv || !hasTxt {
          wanted := wanted + [instances[i]];
        }
      }
      assert instances[|instances|..] == [];
    }

    /** The query datagram. */
    method SendQuery(now: nat) returns (payload: seq<byte>)
      ensures payload == MessageBytes(QueryOf(serviceType, cache.entries, now))
    {
      hide Held, Instances, KnownAnswers, MessageBytes, Needing;
      var known := KnownAnswers(cache.entries, serviceType, PTR, now);
      var questions := [Asking(serviceType, PTR)];
      var wanted := InstancesNeedingDetail();
      for i := 0 to |wanted|
        invariant questions + DetailQuestions(wanted[i..]) == [Asking(serviceType, PTR)] + DetailQuestions(wanted)
      {
        assert wanted[i..][1..] == wanted[i + 1..];
        questions := questions + [Asking(wanted[i], SRV)];
        questions := questions + [Asking(wanted[i], TXT)];
      }
      assert wanted[|wanted|..] == [] && questions + [] == questions;
      payload := Encode(Query(questions, known));
    }

    /** Drops what has run out and reports the instances that went with it. */
    method Tick(now: nat)
      modifies this, cache
      ensures cache.entries == Live(old(cache.entries), now)
      ensures CurrentBoard() == LoseAll(serviceType, old(CurrentBoard()), Dead(old(cache.entries), now))
    {
      hide Live, Dead, Display, EqIgnoreCase;
      var gone := cache.Expire(now);
      for i := 0 to |gone|
        invariant cache.entries == Live(old(cache.entries), now)
        invariant LoseAll(serviceType, CurrentBoard(), gone[i..])
               == LoseAll(serviceType, old(CurrentBoard()), gone)
      {
        assert gone[i..][1..] == gone[i + 1..];
        Retire(gone[i]);
      }
      assert gone[|gone|..] == [];
    }

    /** Removes the entry of an expired pointer's instance, with one event if there was such an entry. */
    method Retire(gone: Record)
      modifies this
      ensures CurrentBoard() == LoseOne(serviceType, old(CurrentBoard()), gone)
    {
      if !gone.data.DataPtr? {
        return;
      }
      if !EqIgnoreCase(gone.name, serviceType) {
        return;
      }
      var key := Display(gone.data.pointee);
      if key in known {
        known := known - {key};
        events := events + [ServiceLost(key)];
      }
    }
  }
}
