/** The cache as an entry vector, and the map from answers to deadlines it refines. Instants are milliseconds. */
module Caching {
  import opened Wire
  import opened Names
  import opened Records
  import Sequences

  const GOODBYE_GRACE: nat := 1000

  datatype Change = Added | Refreshed | Replaced | Retiring

  datatype Entry = Entry(record: Record, expires: nat)

  predicate IsAddress(r: Record) {
    RType(r.data) == A || RType(r.data) == AAAA
  }

  /** Same owner name and type: what a cache-flush record replaces. */
  predicate SameNameAndType(a: Record, b: Record) {
    EqIgnoreCase(a.name, b.name) && RType(a.data) == RType(b.data)
  }

  predicate Flushes(r: Record) {
    r.cacheFlush && !IsAddress(r)
  }

  function Deadline(r: Record, now: nat): nat {
    now + 1000 * r.ttl
  }

  // ---------------------------------------------------------------------
  // The entry vector
  // ---------------------------------------------------------------------

  function RetireOne(e: Entry, r: Record, now: nat): Entry {
    if SameAnswer(e.record, r) && now + GOODBYE_GRACE < e.expires then e.(expires := now + GOODBYE_GRACE) else e
  }

  function RetireAll(es: seq<Entry>, r: Record, now: nat): seq<Entry> {
    seq(|es|, i requires 0 <= i < |es| => RetireOne(es[i], r, now))
  }

  /** The position of the answer, or the length when it is not held. */
  function Find(es: seq<Entry>, r: Record): (i: nat)
    ensures i <= |es|
    ensures i < |es| ==> SameAnswer(es[i].record, r)
    ensures forall j :: 0 <= j < i ==> !SameAnswer(es[j].record, r)
  {
    if es == [] || SameAnswer(es[0].record, r) then 0 else 1 + Find(es[1..], r)
  }

  function Unflushed(es: seq<Entry>, r: Record): seq<Entry> {
    if es == [] then []
    else if SameNameAndType(es[0].record, r) then Unflushed(es[1..], r)
    else [es[0]] + Unflushed(es[1..], r)
  }

  lemma {:induction false} UnflushedCons(es: seq<Entry>, r: Record)
    ensures Unflushed([], r) == []
    ensures es != [] ==>
              Unflushed(es, r) == (if SameNameAndType(es[0].record, r) then [] else [es[0]]) + Unflushed(es[1..], r)
  {
  }

  lemma {:induction false} UnflushedSnoc(es: seq<Entry>, i: nat, r: Record)
    requires i < |es|
    ensures Unflushed(es[..i + 1], r)
         == Unflushed(es[..i], r) + if SameNameAndType(es[i].record, r) then [] else [es[i]]
  {
    hide Unflushed, SameNameAndType;
    Sequences.PrefixTail(es, i + 1);
    UnflushedCons(es[..i + 1], r);
    if i > 0 {
      Sequences.PrefixTail(es, i);
      UnflushedCons(es[..i], r);
      UnflushedSnoc(es[1..], i - 1, r);
    }
  }

  function PutEntry(es: seq<Entry>, r: Record, now: nat): (seq<Entry>, Change) {
    var i := Find(es, r);
    if r.ttl == 0 then (RetireAll(es, r, now), if i < |es| then Retiring else Refreshed)
    else if i < |es| then (es[i := Entry(es[i].record.(ttl := r.ttl), Deadline(r, now))], Refreshed)
    else
      var kept := if Flushes(r) then Unflushed(es, r) else es;
      (kept + [Entry(r, Deadline(r, now))], if |kept| != |es| then Replaced else Added)
  }

  function Live(es: seq<Entry>, now: nat): seq<Entry> {
    if es == [] then []
    else if es[0].expires <= now then Live(es[1..], now)
    else [es[0]] + Live(es[1..], now)
  }

  function Dead(es: seq<Entry>, now: nat): seq<Record> {
    if es == [] then []
    else if es[0].expires <= now then [es[0].record] + Dead(es[1..], now)
    else Dead(es[1..], now)
  }

  lemma {:induction false} ByDeadline(es: seq<Entry>, now: nat)
    ensures Live([], now) == [] && Dead([], now) == []
    ensures es != [] ==> Live(es, now) == (if es[0].expires <= now then [] else [es[0]]) + Live(es[1..], now)
    ensures es != [] ==> Dead(es, now) == (if es[0].expires <= now then [es[0].record] else []) + Dead(es[1..], now)
  {
  }

  lemma {:induction false} ByDeadlineSnoc(es: seq<Entry>, i: nat, now: nat)
    requires i < |es|
    ensures Live(es[..i + 1], now) == Live(es[..i], now) + if es[i].expires <= now then [] else [es[i]]
    ensures Dead(es[..i + 1], now) == Dead(es[..i], now) + if es[i].expires <= now then [es[i].record] else []
  {
    hide Live, Dead;
    Sequences.PrefixTail(es, i + 1);
    ByDeadline(es[..i + 1], now);
    if i > 0 {
      Sequences.PrefixTail(es, i);
      ByDeadline(es[..i], now);
      ByDeadlineSnoc(es[1..], i - 1, now);
    }
  }

  predicate Wanted(r: Record, name: Name, want: u16) {
    EqIgnoreCase(r.name, name) && (want == ANY || RType(r.data) == want)
  }

  function Held(es: seq<Entry>, name: Name, want: u16): seq<Record> {
    if es == [] then []
    else (if Wanted(es[0].record, name, want) then [es[0].record] else []) + Held(es[1..], name, want)
  }

  /** Whole seconds left, cut to 32 bits. */
  function Remaining(e: Entry, now: nat): u32 {
    if e.expires > now then (e.expires - now) / 1000 % 0x1_0000_0000 else 0
  }

  function KnownAnswers(es: seq<Entry>, name: Name, want: u16, now: nat): seq<Record> {
    if es == [] then []
    else
      (if Wanted(es[0].record, name, want) && es[0].expires > now
       then [es[0].record.(ttl := Remaining(es[0], now))] else [])
      + KnownAnswers(es[1..], name, want, now)
  }

  class Cache {
    var entries: seq<Entry>

    constructor ()
      ensures entries == []
    {
      entries := [];
    }

    /** `PutEntry` on the vector: a goodbye, a refresh in place, or a new entry at the end. */
    method Put(record: Record, now: nat) returns (change: Change)
      modifies this
      ensures (entries, change) == PutEntry(old(entries), record, now)
    {
      if record.ttl == 0 {
        change := Goodbye(record, now);
        return;
      }
      var expires := Deadline(record, now);
      var at := 0;
      while at < |entries| && !SameAnswer(entries[at].record, record)
        invariant at <= |entries|
        invariant forall j :: 0 <= j < at ==> !SameAnswer(entries[j].record, record)
      {
        at := at + 1;
      }
      if at < |entries| {
        entries := entries[at := Entry(entries[at].record.(ttl := record.ttl), expires)];
        return Refreshed;
      }
      var replaced := false;
      if Flushes(record) {
        var before := |entries|;
        Retain(record);
        replaced := |entries| != before;
      }
      entries := entries + [Entry(record, expires)];
      return if replaced then Replaced else Added;
    }

    method Goodbye(record: Record, now: nat) returns (change: Change)
      modifies this
      ensures entries == RetireAll(old(entries), record, now)
      ensures change == if Find(old(entries), record) < |old(entries)| then Retiring else Refreshed
    {
      change := Retiring;
      var found := false;
      for i := 0 to |entries|
        invariant |entries| == |old(entries)|
        invariant forall j :: 0 <= j < i ==> entries[j] == RetireOne(old(entries)[j], record, now)
        invariant forall j :: i <= j < |entries| ==> entries[j] == old(entries)[j]
        invariant found <==> exists j :: 0 <= j < i && SameAnswer(old(entries)[j].record, record)
      {
        if SameAnswer(entries[i].record, record) {
          found := true;
          var retireAt := now + GOODBYE_GRACE;
          if retireAt < entries[i].expires {
            entries := entries[i := entries[i].(expires := retireAt)];
          }
        }
      }
      if !found {
        change := Refreshed;
      }
    }

    method Retain(record: Record)
      modifies this
      ensures entries == Unflushed(old(entries), record)
    {
      hide Unflushed, SameNameAndType;
      var kept: seq<Entry> := [];
      Sequences.Whole(entries);
      UnflushedCons([], record);
      for i := 0 to |entries|
        invariant entries == old(entries)
        invariant kept == Unflushed(entries[..i], record)
      {
        UnflushedSnoc(entries, i, record);
        if !SameNameAndType(entries[i].record, record) {
          kept := kept + [entries[i]];
        }
      }
      entries := kept;
    }

    /** Splits the vector by deadline: `Live` stays, the records of the others are the result. */
    method Expire(now: nat) returns (gone: seq<Record>)
      modifies this
      ensures entries == Live(old(entries), now)
      ensures gone == Dead(old(entries), now)
    {
      hide Live, Dead;
      var kept: seq<Entry> := [];
      gone := [];
      Sequences.Whole(entries);
      ByDeadline([], now);
      for i := 0 to |entries|
        invariant entries == old(entries)
        invariant kept == Live(entries[..i], now) && gone == Dead(entries[..i], now)
      {
        ByDeadlineSnoc(entries, i, now);
        if entries[i].expires <= now {
          gone := gone + [entries[i].record];
        } else {
          kept := kept + [entries[i]];
        }
      }
      entries := kept;
    }
  }

  // ---------------------------------------------------------------------
  // The map the vector implements
  // ---------------------------------------------------------------------

  /** What identifies an answer: the name up to case, the class and the payload. */
  datatype AnswerKey = AnswerKey(name: Name, class_: u16, data: RecordData)

  function Key(r: Record): AnswerKey {
    AnswerKey(Fold(r.name), r.class_, r.data)
  }

  lemma {:induction false} SameAnswerIsKey(a: Record, b: Record)
    ensures SameAnswer(a, b) <==> Key(a) == Key(b)
  {
    EqIsFold(a.name, b.name);
  }

  predicate Supersedes(r: Record, q: AnswerKey) {
    q.name == Fold(r.name) && RType(q.data) == RType(r.data)
  }

  type Deadlines = map<AnswerKey, nat>

  ghost predicate Distinct(es: seq<Entry>) {
    forall i, j :: 0 <= i < j < |es| ==> Key(es[i].record) != Key(es[j].record)
  }

  /** No answer twice, and the map holds exactly the vector's answers and deadlines. */
  ghost predicate Implements(es: seq<Entry>, m: Deadlines) {
    && Distinct(es)
    && (forall i :: 0 <= i < |es| ==> Key(es[i].record) in m && m[Key(es[i].record)] == es[i].expires)
    && (forall k :: k in m ==> exists i :: 0 <= i < |es| && Key(es[i].record) == k)
  }

  function Kept(m: Deadlines, r: Record): Deadlines {
    map q | q in m && !Supersedes(r, q) :: m[q]
  }

  function MapPut(m: Deadlines, r: Record, now: nat): Deadlines {
    var k := Key(r);
    if r.ttl == 0 then
      if k in m && now + GOODBYE_GRACE < m[k] then m[k := now + GOODBYE_GRACE] else m
    else (if k !in m && Flushes(r) then Kept(m, r) else m)[k := Deadline(r, now)]
  }

  ghost function MapChange(m: Deadlines, r: Record): Change {
    if Key(r) in m then if r.ttl == 0 then Retiring else Refreshed
    else if r.ttl == 0 then Refreshed
    else if Flushes(r) && exists q :: q in m && Supersedes(r, q) then Replaced
    else Added
  }

  function MapExpire(m: Deadlines, now: nat): Deadlines {
    map k | k in m && m[k] > now :: m[k]
  }

  lemma {:induction false} FindIsMembership(es: seq<Entry>, m: Deadlines, r: Record)
    requires Implements(es, m)
    ensures Find(es, r) < |es| <==> Key(r) in m
    ensures Find(es, r) < |es| ==> Key(es[Find(es, r)].record) == Key(r)
  {
    var f := Find(es, r);
    if f < |es| {
      SameAnswerIsKey(es[f].record, r);
    } else if Key(r) in m {
      var i :| 0 <= i < |es| && Key(es[i].record) == Key(r);
      SameAnswerIsKey(es[i].record, r);
    }
  }

  lemma {:induction false} RetireImplements(es: seq<Entry>, m: Deadlines, r: Record, now: nat)
    requires Implements(es, m) && r.ttl == 0
    ensures Implements(RetireAll(es, r, now), MapPut(m, r, now))
  {
    hide Key, SameAnswer;
    var out, m1 := RetireAll(es, r, now), MapPut(m, r, now);
    forall i | 0 <= i < |es|
      ensures out[i].record == es[i].record
      ensures Key(out[i].record) in m1 && m1[Key(out[i].record)] == out[i].expires
    {
      SameAnswerIsKey(es[i].record, r);
    }
    forall k | k in m1 ensures exists i :: 0 <= i < |out| && Key(out[i].record) == k {
      var i :| 0 <= i < |es| && Key(es[i].record) == k;
      assert Key(out[i].record) == k;
    }
  }

  lemma {:induction false} UnflushedKeeps(es: seq<Entry>, r: Record)
    ensures var kept := Unflushed(es, r);
            && |kept| <= |es|
            && (forall e :: e in kept <==> e in es && !Supersedes(r, Key(e.record)))
            && (|kept| < |es| <==> exists e :: e in es && Supersedes(r, Key(e.record)))
  {
    if es != [] {
      UnflushedKeeps(es[1..], r);
      EqIsFold(es[0].record.name, r.name);
      assert es == [es[0]] + es[1..];
    }
  }

  lemma {:induction false} ConsDistinct(e: Entry, es: seq<Entry>)
    requires Distinct(es) && forall o :: o in es ==> Key(e.record) != Key(o.record)
    ensures Distinct([e] + es)
  {
    hide Key;
    var all := [e] + es;
    forall i, j | 0 <= i < j < |all| ensures Key(all[i].record) != Key(all[j].record) {
      assert all[j] == es[j - 1];
      assert i > 0 ==> all[i] == es[i - 1];
    }
  }

  lemma {:induction false} RestDistinct(es: seq<Entry>)
    requires Distinct(es) && es != []
    ensures Distinct(es[1..]) && forall o :: o in es[1..] ==> Key(es[0].record) != Key(o.record)
  {
    hide Key;
    assert forall i :: 0 <= i < |es[1..]| ==> es[1..][i] == es[i + 1];
  }

  lemma {:induction false} UnflushedDistinct(es: seq<Entry>, r: Record)
    requires Distinct(es)
    ensures Distinct(Unflushed(es, r))
  {
    hide Key, Distinct;
    if es == [] {
      assert Unflushed(es, r) == es;
    } else {
      RestDistinct(es);
      UnflushedDistinct(es[1..], r);
      UnflushedKeeps(es[1..], r);
      ConsDistinct(es[0], Unflushed(es[1..], r));
    }
  }

  lemma {:induction false} FlushImplements(es: seq<Entry>, m: Deadlines, r: Record)
    requires Implements(es, m)
    ensures Implements(Unflushed(es, r), Kept(m, r))
    ensures |Unflushed(es, r)| != |es| <==> exists q :: q in m && Supersedes(r, q)
  {
    var kept := Unflushed(es, r);
    UnflushedKeeps(es, r);
    UnflushedDistinct(es, r);
    forall i | 0 <= i < |kept|
      ensures Key(kept[i].record) in Kept(m, r) && Kept(m, r)[Key(kept[i].record)] == kept[i].expires
    {
      assert kept[i] in kept;
    }
    forall k | k in Kept(m, r) ensures exists i :: 0 <= i < |kept| && Key(kept[i].record) == k {
      var i :| 0 <= i < |es| && Key(es[i].record) == k;
      assert es[i] in kept;
    }
    if q :| q in m && Supersedes(r, q) {
      var i :| 0 <= i < |es| && Key(es[i].record) == q;
      assert es[i] in es;
    }
    if |kept| != |es| {
      var e :| e in es && Supersedes(r, Key(e.record));
      assert Key(e.record) in m;
    }
  }

  lemma {:induction false} PushImplements(es: seq<Entry>, m: Deadlines, r: Record, expires: nat)
    requires Implements(es, m) && Key(r) !in m
    ensures Implements(es + [Entry(r, expires)], m[Key(r) := expires])
  {
    hide Key;
    var es1, m1 := es + [Entry(r, expires)], m[Key(r) := expires];
    forall k | k in m1 ensures exists i :: 0 <= i < |es1| && Key(es1[i].record) == k {
      if k == Key(r) {
        assert Key(es1[|es|].record) == k;
      } else {
        var i :| 0 <= i < |es| && Key(es[i].record) == k;
        assert Key(es1[i].record) == k;
      }
    }
  }

  lemma {:induction false} RefreshImplements(es: seq<Entry>, m: Deadlines, i: nat, ttl: u32, expires: nat)
    requires Implements(es, m) && i < |es|
    ensures Implements(es[i := Entry(es[i].record.(ttl := ttl), expires)], m[Key(es[i].record) := expires])
  {
    assert Key(es[i].record.(ttl := ttl)) == Key(es[i].record);
    hide Key;
    var es1, m1 := es[i := Entry(es[i].record.(ttl := ttl), expires)], m[Key(es[i].record) := expires];
    assert forall j :: 0 <= j < |es| ==> Key(es1[j].record) == Key(es[j].record);
    forall k | k in m1 ensures exists j :: 0 <= j < |es1| && Key(es1[j].record) == k {
      var j :| 0 <= j < |es| && Key(es[j].record) == k;
      assert Key(es1[j].record) == k;
    }
  }

  /** One `put` on the vector is one update of the map, and the change it reports is the map's. */
  lemma {:induction false} PutRefines(es: seq<Entry>, m: Deadlines, r: Record, now: nat)
    requires Implements(es, m)
    ensures Implements(PutEntry(es, r, now).0, MapPut(m, r, now))
    ensures PutEntry(es, r, now).1 == MapChange(m, r)
  {
    FindIsMembership(es, m, r);
    var i := Find(es, r);
    if r.ttl == 0 {
      RetireImplements(es, m, r, now);
    } else if i < |es| {
      RefreshImplements(es, m, i, r.ttl, Deadline(r, now));
    } else if Flushes(r) {
      FlushImplements(es, m, r);
      PushImplements(Unflushed(es, r), Kept(m, r), r, Deadline(r, now));
    } else {
      PushImplements(es, m, r, Deadline(r, now));
    }
  }

  ghost function Expired(es: seq<Entry>, now: nat): seq<Entry> {
    if es == [] then [] else (if es[0].expires <= now then [es[0]] else []) + Expired(es[1..], now)
  }

  lemma {:induction false} LiveOrExpired(es: seq<Entry>, now: nat)
    ensures forall e :: e in Live(es, now) <==> e in es && e.expires > now
    ensures forall e :: e in Expired(es, now) <==> e in es && e.expires <= now
    ensures multiset(es) == multiset(Live(es, now)) + multiset(Expired(es, now))
  {
    if es != [] {
      LiveOrExpired(es[1..], now);
      assert es == [es[0]] + es[1..];
    }
  }

  lemma {:induction false} LiveDistinct(es: seq<Entry>, now: nat)
    requires Distinct(es)
    ensures Distinct(Live(es, now))
  {
    hide Key, Distinct;
    if es == [] {
      assert Live(es, now) == es;
    } else {
      RestDistinct(es);
      LiveDistinct(es[1..], now);
      LiveOrExpired(es[1..], now);
      ConsDistinct(es[0], Live(es[1..], now));
    }
  }

  lemma {:induction false} DeadAreExpired(es: seq<Entry>, now: nat)
    ensures |Dead(es, now)| == |Expired(es, now)|
    ensures forall i :: 0 <= i < |Dead(es, now)| ==> Dead(es, now)[i] == Expired(es, now)[i].record
  {
    if es != [] {
      DeadAreExpired(es[1..], now);
    }
  }

  lemma {:induction false} ExpireKeepsTheRest(es: seq<Entry>, m: Deadlines, now: nat)
    requires Implements(es, m)
    ensures Implements(Live(es, now), MapExpire(m, now))
  {
    hide Key;
    LiveOrExpired(es, now);
    assert Distinct(es);
    LiveDistinct(es, now);
    var live := Live(es, now);
    forall i | 0 <= i < |live|
      ensures Key(live[i].record) in MapExpire(m, now) && MapExpire(m, now)[Key(live[i].record)] == live[i].expires
    {
      assert live[i] in live;
    }
    forall k | k in MapExpire(m, now) ensures exists i :: 0 <= i < |live| && Key(live[i].record) == k {
      var i :| 0 <= i < |es| && Key(es[i].record) == k;
      assert es[i] in live;
    }
  }

  ghost predicate Dropped(es: seq<Entry>, now: nat, k: AnswerKey) {
    exists r :: r in Dead(es, now) && Key(r) == k
  }

  lemma {:induction false} ExpireReportsTheDead(es: seq<Entry>, m: Deadlines, now: nat, k: AnswerKey)
    requires Implements(es, m)
    ensures Dropped(es, now, k) <==> k in m && m[k] <= now
  {
    hide Key, Expired, Dead, Live, Distinct;
    LiveOrExpired(es, now);
    DeadAreExpired(es, now);
    var gone, dead := Expired(es, now), Dead(es, now);
    if k in m && m[k] <= now {
      var i :| 0 <= i < |es| && Key(es[i].record) == k;
      assert es[i] in gone;
      var j :| 0 <= j < |gone| && gone[j] == es[i];
      assert dead[j] == es[i].record && dead[j] in dead;
    }
    if Dropped(es, now, k) {
      var r :| r in dead && Key(r) == k;
      var j :| 0 <= j < |dead| && dead[j] == r;
      assert gone[j] in gone;
    }
  }

  /** `expire` keeps what is still alive and hands back exactly what it drops. */
  lemma {:induction false} ExpireRefines(es: seq<Entry>, m: Deadlines, now: nat)
    requires Implements(es, m)
    ensures Implements(Live(es, now), MapExpire(m, now))
    ensures forall k :: Dropped(es, now, k) <==> k in m && m[k] <= now
  {
    ExpireKeepsTheRest(es, m, now);
    forall k ensures Dropped(es, now, k) <==> k in m && m[k] <= now {
      ExpireReportsTheDead(es, m, now, k);
    }
  }

  // ---------------------------------------------------------------------
  // Where entries come from and which survive
  // ---------------------------------------------------------------------

  lemma {:induction false} PutDistinct(es: seq<Entry>, r: Record, now: nat)
    requires Distinct(es)
    ensures Distinct(PutEntry(es, r, now).0)
  {
    var m := MapOf(es);
    PutRefines(es, m, r, now);
  }

  /** The map a duplicate-free vector implements. */
  lemma {:induction false} MapOf(es: seq<Entry>) returns (m: Deadlines)
    requires Distinct(es)
    ensures Implements(es, m)
  {
    hide Key;
    m := map[];
    for i := 0 to |es|
      invariant Implements(es[..i], m)
    {
      forall j | 0 <= j < i ensures Key(es[j].record) != Key(es[i].record) {
      }
      assert forall j :: 0 <= j < |es[..i]| ==> Key(es[..i][j].record) != Key(es[i].record);
      PushImplements(es[..i], m, es[i].record, es[i].expires);
      assert es[..i + 1] == es[..i] + [Entry(es[i].record, es[i].expires)];
      m := m[Key(es[i].record) := es[i].expires];
    }
    assert es[..|es|] == es;
  }

  /** Every entry after a `put` says what an entry before it, or the new record, says. */
  lemma {:induction false} PutOrigin(es: seq<Entry>, r: Record, now: nat, i: nat) returns (origin: Record)
    requires i < |PutEntry(es, r, now).0|
    ensures AsGoodbye(PutEntry(es, r, now).0[i].record) == AsGoodbye(origin)
    ensures (origin == r && r.ttl > 0) || exists j :: 0 <= j < |es| && es[j].record == origin
  {
    hide SameAnswer, Flushes, SameNameAndType;
    var f := Find(es, r);
    if r.ttl == 0 || f < |es| {
      origin := es[i].record;
    } else {
      var kept := if Flushes(r) then Unflushed(es, r) else es;
      if i < |kept| {
        origin := kept[i].record;
        UnflushedKeeps(es, r);
        assert kept[i] in kept && kept[i] in es;
      } else {
        origin := r;
      }
    }
  }

  // ---------------------------------------------------------------------
  // Whole runs
  // ---------------------------------------------------------------------

  datatype Step = PutStep(record: Record, now: nat) | ExpireStep(now: nat)

  function VectorRun(es: seq<Entry>, steps: seq<Step>): seq<Entry>
    decreases |steps|
  {
    if steps == [] then es
    else
      match steps[0]
      case PutStep(r, now) => VectorRun(PutEntry(es, r, now).0, steps[1..])
      case ExpireStep(now) => VectorRun(Live(es, now), steps[1..])
  }

  function MapRun(m: Deadlines, steps: seq<Step>): Deadlines
    decreases |steps|
  {
    if steps == [] then m
    else
      match steps[0]
      case PutStep(r, now) => MapRun(MapPut(m, r, now), steps[1..])
      case ExpireStep(now) => MapRun(MapExpire(m, now), steps[1..])
  }

  lemma {:induction false} RunRefines(es: seq<Entry>, m: Deadlines, steps: seq<Step>)
    requires Implements(es, m)
    ensures Implements(VectorRun(es, steps), MapRun(m, steps))
    decreases |steps|
  {
    if steps != [] {
      match steps[0] {
        case PutStep(r, now) =>
          PutRefines(es, m, r, now);
          RunRefines(PutEntry(es, r, now).0, MapPut(m, r, now), steps[1..]);
        case ExpireStep(now) =>
          ExpireRefines(es, m, now);
          RunRefines(Live(es, now), MapExpire(m, now), steps[1..]);
      }
    }
  }

  /** A put spelled out, key by key: when each answer held afterwards runs out, in milliseconds. */
  lemma {:induction false} PutMeans(m: Deadlines, r: Record, now: nat, q: AnswerKey)
    ensures var k, after := AnswerKey(Fold(r.name), r.class_, r.data), MapPut(m, r, now);
            && (q == k && r.ttl > 0 ==> q in after && after[q] == now + 1000 * r.ttl)
            && (q == k && r.ttl == 0 ==> (q in after <==> q in m))
            && (q == k && r.ttl == 0 && q in m ==> after[q] == if m[q] < now + 1000 then m[q] else now + 1000)
            && (q != k && q in after ==> q in m && after[q] == m[q])
            && (q != k && q in m && q !in after <==>
                  && q in m && q != k && k !in m && r.ttl > 0 && r.cacheFlush && !r.data.DataA? && !r.data.DataAaaa?
                  && !(r.data.DataOther? && r.data.otherType in {1, 28})
                  && q.name == k.name && RType(q.data) == RType(r.data))
  {
    assert RType(r.data) in {1, 28} <==>
           r.data.DataA? || r.data.DataAaaa? || (r.data.DataOther? && r.data.otherType in {1, 28});
    hide Fold, RType;
  }

  /** What is held is refreshed where it stands; what is new goes to the end, and a flushing record clears first. */
  lemma {:induction false} PutInPlace(es: seq<Entry>, r: Record, now: nat)
    requires r.ttl > 0
    ensures var after := PutEntry(es, r, now).0;
            && (forall i :: 0 <= i < |es| && FirstSame(es, r, i) ==>
                  after == es[i := Entry(es[i].record.(ttl := r.ttl), now + 1000 * r.ttl)])
            && ((forall i :: 0 <= i < |es| ==> !SameAnswer(es[i].record, r)) ==>
                  && after != [] && after[|after| - 1] == Entry(r, now + 1000 * r.ttl)
                  && (!r.cacheFlush || RType(r.data) in {1, 28} ==> after[..|after| - 1] == es)
                  && (r.cacheFlush && RType(r.data) !in {1, 28} ==> forall e :: e in after[..|after| - 1] <==>
                        e in es && !(EqIgnoreCase(e.record.name, r.name) && RType(e.record.data) == RType(r.data))))
  {
    UnflushedIs(es, r);
    hide SameAnswer, EqIgnoreCase, RType, Unflushed;
    var i := Find(es, r);
  }

  ghost predicate FirstSame(es: seq<Entry>, r: Record, i: nat)
    requires i < |es|
  {
    SameAnswer(es[i].record, r) && forall j :: 0 <= j < i ==> !SameAnswer(es[j].record, r)
  }

  lemma {:induction false} UnflushedIs(es: seq<Entry>, r: Record)
    ensures forall e :: e in Unflushed(es, r) <==>
                          e in es && !(EqIgnoreCase(e.record.name, r.name) && RType(e.record.data) == RType(r.data))
  {
    hide EqIgnoreCase, RType;
    if es != [] {
      UnflushedIs(es[1..], r);
      assert es == [es[0]] + es[1..];
    }
  }

  /** An answer put with a lifetime is alive until just before that many seconds are over, whatever was held. */
  lemma {:induction false} LivesItsLifetime(es: seq<Entry>, r: Record, now: nat, later: nat)
    requires Distinct(es) && r.ttl > 0
    ensures (exists e :: e in Live(PutEntry(es, r, now).0, later) && SameAnswer(e.record, r)) <==>
              later < now + 1000 * r.ttl
  {
    var m := MapOf(es);
    PutRefines(es, m, r, now);
    var es1, m1 := PutEntry(es, r, now).0, MapPut(m, r, now);
    PutMeans(m, r, now, Key(r));
    hide PutEntry, MapPut, Live;
    LiveOrExpired(es1, later);
    if e :| e in Live(es1, later) && SameAnswer(e.record, r) {
      SameAnswerIsKey(e.record, r);
      var i :| 0 <= i < |es1| && es1[i] == e;
      assert m1[Key(es1[i].record)] == e.expires;
    }
    var i :| 0 <= i < |es1| && Key(es1[i].record) == Key(r);
    SameAnswerIsKey(es1[i].record, r);
    assert es1[i] in es1;
  }

  predicate Announces(s: Step, k: AnswerKey) {
    s.PutStep? && s.record.ttl > 0 && Key(s.record) == k
  }

  lemma {:induction false} UnannouncedOnlyFades(m: Deadlines, steps: seq<Step>, k: AnswerKey, limit: nat)
    requires forall i :: 0 <= i < |steps| ==> !Announces(steps[i], k)
    requires k in m ==> m[k] <= limit
    ensures k in MapRun(m, steps) ==> MapRun(m, steps)[k] <= limit
    decreases |steps|
  {
    if steps != [] {
      var rest := steps[1..];
      assert forall i :: 0 <= i < |rest| ==> rest[i] == steps[i + 1];
      match steps[0] {
        case PutStep(r, now) =>
          assert !Announces(steps[0], k);
          UnannouncedOnlyFades(MapPut(m, r, now), rest, k, limit);
        case ExpireStep(now) => UnannouncedOnlyFades(MapExpire(m, now), rest, k, limit);
      }
    }
  }

  /**
   * After a goodbye at `at`, whatever else arrives, an answer that is not announced again is gone at the first
   * expiry a second later.
   */
  lemma {:induction false} GoodbyeTakesEffect(before: seq<Step>, bye: Record, at: nat, after: seq<Step>, now: nat)
    requires bye.ttl == 0 && now >= at + 1000
    requires forall i :: 0 <= i < |after| ==> !Announces(after[i], Key(bye))
    ensures var es := VectorRun(PutEntry(VectorRun([], before), bye, at).0, after);
            forall e :: e in Live(es, now) ==> !SameAnswer(e.record, bye)
  {
    RunRefines([], map[], before);
    var es0, m0 := VectorRun([], before), MapRun(map[], before);
    PutRefines(es0, m0, bye, at);
    var es1, m1 := PutEntry(es0, bye, at).0, MapPut(m0, bye, at);
    RunRefines(es1, m1, after);
    UnannouncedOnlyFades(m1, after, Key(bye), at + GOODBYE_GRACE);
    var es := VectorRun(es1, after);
    LiveOrExpired(es, now);
    forall e | e in Live(es, now) ensures !SameAnswer(e.record, bye) {
      SameAnswerIsKey(e.record, bye);
      assert Key(e.record) in MapRun(m1, after);
    }
  }

  /** The answers of some entries, without their lifetimes. */
  function Answers(es: seq<Entry>): seq<Record> {
    seq(|es|, i requires 0 <= i < |es| => AsGoodbye(es[i].record))
  }

  function Without(es: seq<Entry>, r: Record): seq<Entry> {
    if es == [] then []
    else (if SameAnswer(es[0].record, r) then [] else [es[0]]) + Without(es[1..], r)
  }

  /**
   * What a goodbye does to the vector, seen through expiry: at any instant less than a second later the same answers
   * are alive, in the same order, as without it; from a second on the one said goodbye to is missing and nothing else.
   */
  lemma {:induction false} GoodbyeOnlyLowers(es: seq<Entry>, bye: Record, now: nat, later: nat)
    requires bye.ttl == 0
    ensures Answers(Live(PutEntry(es, bye, now).0, later))
         == Answers(if later < now + 1000 then Live(es, later) else Without(Live(es, later), bye))
  {
    RetiredLive(es, bye, now, later);
  }

  lemma {:induction false} AnswersCons(e: Entry, es: seq<Entry>)
    ensures Answers([e] + es) == [AsGoodbye(e.record)] + Answers(es)
  {
  }

  lemma {:induction false} RetiredLive(es: seq<Entry>, bye: Record, now: nat, later: nat)
    ensures Answers(Live(RetireAll(es, bye, now), later))
         == Answers(if later < now + GOODBYE_GRACE then Live(es, later) else Without(Live(es, later), bye))
  {
    hide SameAnswer, Answers;
    if es == [] {
      assert RetireAll(es, bye, now) == es;
    } else {
      var rest := es[1..];
      var e := RetireOne(es[0], bye, now);
      assert RetireAll(es, bye, now) == [e] + RetireAll(rest, bye, now);
      assert ([e] + RetireAll(rest, bye, now))[1..] == RetireAll(rest, bye, now);
      RetiredLive(rest, bye, now, later);
      AnswersCons(e, Live(RetireAll(rest, bye, now), later));
      AnswersCons(es[0], Live(rest, later));
      AnswersCons(es[0], Without(Live(rest, later), bye));
      assert ([es[0]] + Live(rest, later))[1..] == Live(rest, later);
      assert [] + Without(Live(rest, later), bye) == Without(Live(rest, later), bye);
    }
  }

  predicate Named(k: AnswerKey, name: Name, rtype: u16) {
    k.name == name && RType(k.data) == rtype
  }

  ghost predicate AtMostOne(m: Deadlines, name: Name, rtype: u16) {
    forall k, q :: k in m && q in m && Named(k, name, rtype) && Named(q, name, rtype) ==> k == q
  }

  predicate FlushedStep(s: Step, name: Name, rtype: u16) {
    s.PutStep? && s.record.ttl > 0 && Named(Key(s.record), name, rtype) ==> s.record.cacheFlush
  }

  lemma {:induction false} FlushedStaysSingle(m: Deadlines, steps: seq<Step>, name: Name, rtype: u16)
    requires rtype != A && rtype != AAAA && AtMostOne(m, name, rtype)
    requires forall i :: 0 <= i < |steps| ==> FlushedStep(steps[i], name, rtype)
    ensures AtMostOne(MapRun(m, steps), name, rtype)
    decreases |steps|
  {
    if steps != [] {
      var rest := steps[1..];
      assert forall i :: 0 <= i < |rest| ==> rest[i] == steps[i + 1];
      match steps[0] {
        case PutStep(r, now) =>
          assert FlushedStep(steps[0], name, rtype);
          FlushedStaysSingle(MapPut(m, r, now), rest, name, rtype);
        case ExpireStep(now) => FlushedStaysSingle(MapExpire(m, now), rest, name, rtype);
      }
    }
  }

  /** A name and non-address type fed only by flushing records never holds two answers, over any run. */
  lemma {:induction false} FlushedNeverHoldsTwo(steps: seq<Step>, name: Name, rtype: u16, i: nat, j: nat)
    requires rtype != A && rtype != AAAA
    requires forall s :: 0 <= s < |steps| ==> FlushedStep(steps[s], Fold(name), rtype)
    requires i < j < |VectorRun([], steps)|
    ensures var es := VectorRun([], steps);
            !(Named(Key(es[i].record), Fold(name), rtype) && Named(Key(es[j].record), Fold(name), rtype))
  {
    RunRefines([], map[], steps);
    FlushedStaysSingle(map[], steps, Fold(name), rtype);
  }

  /** Under the record's name and type, nothing but the record's own answer is held. */
  ghost predicate Unrivalled(m: Deadlines, r: Record) {
    forall q :: q in m && Supersedes(r, q) ==> q == Key(r)
  }

  /** A second answer under the record's name and type, held until at least a second after `now`. */
  lemma {:induction false} SurvivesFlush(m: Deadlines, r: Record, now: nat, q: AnswerKey)
    requires q in m && Supersedes(r, q) && q != Key(r) && (Key(r) in m || IsAddress(r)) && r.ttl > 0
    ensures q in MapPut(m, r, now) && MapPut(m, r, now)[q] == m[q]
  {
  }

  /**
   * The cache-flush bit promises that the record replaces whatever was held for its name and type. It does exactly
   * when the record is not an address and its answer is news, or when there was nothing to replace: a refresh returns
   * before the bit is looked at, and addresses always join.
   */
  lemma {:induction false} FlushClearsIff(m: Deadlines, r: Record, now: nat)
    requires r.cacheFlush && r.ttl > 0
    ensures Unrivalled(MapPut(m, r, now), r) <==> (Key(r) !in m && !IsAddress(r)) || Unrivalled(m, r)
  {
    if !Unrivalled(m, r) && (Key(r) in m || IsAddress(r)) {
      var q :| q in m && Supersedes(r, q) && q != Key(r);
      SurvivesFlush(m, r, now, q);
      assert q in MapPut(m, r, now);
    }
  }
}
