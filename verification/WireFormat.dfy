/** The octets of a datagram, position by position and in numbers, as the standards lay them out. */
module WireFormat {
  import opened Wire
  import opened Names
  import opened Records
  import opened Messages
  import opened Services
  import opened Responders
  import opened TieBreaking
  import Sequences

  /** Two octets, the higher first. */
  function Two(m: seq<byte>, at: nat): nat
    requires at + 2 <= |m|
  {
    256 * (m[at] as int) + m[at + 1]
  }

  function Four(m: seq<byte>, at: nat): nat
    requires at + 4 <= |m|
  {
    16777216 * (m[at] as int) + 65536 * (m[at + 1] as int) + 256 * (m[at + 2] as int) + m[at + 3]
  }

  lemma {:induction false} U16IsTwo(x: u16)
    ensures Two(U16(x), 0) == x
  {
  }

  lemma {:induction false} U32IsFour(x: u32)
    ensures Four(U32(x), 0) == x
  {
  }

  // ---------------------------------------------------------------------
  // What is written (RFC 1035 sections 4.1.1 to 4.1.3)
  // ---------------------------------------------------------------------

  /** Identifier, flags and the four counts, then the four sections. */
  lemma {:induction false} HeaderOctets(m: Message)
    ensures var b := MessageBytes(m);
            && |b| >= 12 && Two(b, 0) == m.id && Two(b, 2) == m.flags
            && Two(b, 4) == |m.questions| % 65536 && Two(b, 6) == |m.answers| % 65536
            && Two(b, 8) == |m.authority| % 65536 && Two(b, 10) == |m.additional| % 65536
            && b[12..] == QuestionsBytes(m.questions) + RecordsBytes(m.answers) + RecordsBytes(m.authority)
                          + RecordsBytes(m.additional)
  {
    hide QuestionsBytes, RecordsBytes;
    var h := HeaderBytes(m);
    var q, a := QuestionsBytes(m.questions), RecordsBytes(m.answers);
    var n, d := RecordsBytes(m.authority), RecordsBytes(m.additional);
    assert MessageBytes(m) == h + (q + a + n + d);
    hide HeaderBytes;
    HeaderFields(m);
    assert forall i :: 0 <= i < 12 ==> MessageBytes(m)[i] == h[i];
  }

  lemma {:induction false} HeaderFields(m: Message)
    ensures var h := HeaderBytes(m);
            && Two(h, 0) == m.id && Two(h, 2) == m.flags
            && Two(h, 4) == |m.questions| % 65536 && Two(h, 6) == |m.answers| % 65536
            && Two(h, 8) == |m.authority| % 65536 && Two(h, 10) == |m.additional| % 65536
  {
    U16IsTwo(m.id);
    U16IsTwo(m.flags);
    U16IsTwo(|m.questions| % 65536);
    U16IsTwo(|m.answers| % 65536);
    U16IsTwo(|m.authority| % 65536);
    U16IsTwo(|m.additional| % 65536);
    hide U16;
  }

  /** The name, then type and class; the top bit of the class asks for a reply to the sender. */
  lemma {:induction false} QuestionOctets(q: Question)
    requires q.qclass < 32768
    ensures var b, n := QuestionBytes(q), |NameBytes(q.name)|;
            && |b| == n + 4 && b[..n] == NameBytes(q.name) && Two(b, n) == q.qtype
            && Two(b, n + 2) == q.qclass + if q.unicastResponse then 32768 else 0
  {
    var n, t := NameBytes(q.name), U16(q.qtype);
    var c := U16(PackClass(q.qclass, q.unicastResponse));
    U16IsTwo(q.qtype);
    U16IsTwo(PackClass(q.qclass, q.unicastResponse));
    hide NameBytes, U16;
    assert QuestionBytes(q) == n + t + c;
  }

  /** The name, then type, class, lifetime and length; the top bit of the class says the record flushes the cache. */
  lemma {:induction false} RecordOctets(r: Record)
    requires r.class_ < 32768 && |DataBytes(r.data)| < 65536
    ensures var b, n, d := RecordBytes(r), |NameBytes(r.name)|, DataBytes(r.data);
            && |b| == n + 10 + |d| && b[..n] == NameBytes(r.name) && b[n + 10..] == d
            && Two(b, n) == TypeNumber(r.data) && Two(b, n + 2) == r.class_ + (if r.cacheFlush then 32768 else 0)
            && Four(b, n + 4) == r.ttl && Two(b, n + 8) == |d|
  {
    RecordParts(r);
    FixedFields(r);
    U16IsTwo(|DataBytes(r.data)|);
    hide NameBytes, FixedBytes, DataBytes, U16, RecordBytes;
    var n, f, l, d := NameBytes(r.name), FixedBytes(r), U16(|DataBytes(r.data)|), DataBytes(r.data);
    var b := n + f + l + d;
    assert forall i :: 0 <= i < 8 ==> b[|n| + i] == f[i];
    assert forall i :: 0 <= i < 2 ==> b[|n| + 8 + i] == l[i];
  }

  lemma {:induction false} FixedFields(r: Record)
    requires r.class_ < 32768
    ensures var f := FixedBytes(r);
            && Two(f, 0) == TypeNumber(r.data) && Two(f, 2) == r.class_ + (if r.cacheFlush then 32768 else 0)
            && Four(f, 4) == r.ttl
  {
    var t, c, l := U16(RType(r.data)), U16(PackClass(r.class_, r.cacheFlush)), U32(r.ttl);
    U16IsTwo(RType(r.data));
    U16IsTwo(PackClass(r.class_, r.cacheFlush));
    U32IsFour(r.ttl);
    hide U16, U32;
    assert FixedBytes(r) == t + c + l;
  }

  /** The numbers of the types: RFC 1035 section 3.2.2, RFC 3596 section 2.1 and RFC 2782. */
  function TypeNumber(d: RecordData): u16 {
    match d
    case DataA(_) => 1
    case DataPtr(_) => 12
    case DataTxt(_) => 16
    case DataAaaa(_) => 28
    case DataSrv(_, _, _, _) => 33
    case DataOther(t, _) => t
  }

  /** Priority, weight and port stand in front of an SRV's target (RFC 2782). */
  lemma {:induction false} SrvOctets(d: RecordData)
    requires d.DataSrv?
    ensures var b := DataBytes(d);
            && |b| >= 6 && Two(b, 0) == d.priority && Two(b, 2) == d.weight && Two(b, 4) == d.port
            && b[6..] == NameBytes(d.target)
  {
    U16IsTwo(d.priority);
    U16IsTwo(d.weight);
    U16IsTwo(d.port);
    hide NameBytes, U16;
    var p, w, t, n := U16(d.priority), U16(d.weight), U16(d.port), NameBytes(d.target);
    assert DataBytes(d) == p + w + t + n;
  }

  /** Addresses and names stand alone; a TXT is its strings, a length octet before each, or one zero (RFC 6763 6.1). */
  lemma {:induction false} OtherOctets(d: RecordData)
    ensures d.DataA? ==> DataBytes(d) == d.v4
    ensures d.DataAaaa? ==> DataBytes(d) == d.v6
    ensures d.DataPtr? ==> DataBytes(d) == NameBytes(d.pointee)
    ensures d.DataTxt? && d.entries == [] ==> DataBytes(d) == [0]
    ensures d.DataTxt? && d.entries != [] && |d.entries[0]| < 256 ==>
              DataBytes(d) == [|d.entries[0]|] + d.entries[0] + TxtBytes(d.entries[1..])
    ensures d.DataTxt? && d.entries != [] && |d.entries[0]| >= 256 ==>
              DataBytes(d) == [255] + d.entries[0][..255] + TxtBytes(d.entries[1..])
  {
    hide NameBytes;
    if d.DataTxt? && d.entries != [] && |d.entries[0]| <= 255 {
      assert d.entries[0][..|d.entries[0]|] == d.entries[0];
    }
  }

  /** A name is its labels, one behind the other, the length of each in front of it, and a zero (section 3.1). */
  lemma {:induction false} NameOctets(before: seq<Label>, l: Label, behind: seq<Label>)
    requires |l| <= 63
    ensures NameBytes(ROOT) == [0]
    ensures NameBytes(Name(before + [l] + behind)) == LabelsBytes(before) + ([|l|] + l) + NameBytes(Name(behind))
  {
    OneLabel(l);
    var a, c := LabelsBytes(before), LabelsBytes(behind);
    hide LabelsBytes;
    LabelsJoin(before + [l], behind);
    LabelsJoin(before, [l]);
    assert NameBytes(ROOT) == [0] by { LabelsCons([]); }
    assert NameBytes(Name(before + [l] + behind)) == a + ([|l|] + l) + c + [0];
    Sequences.Assoc(a + ([|l|] + l), c, [0]);
  }

  lemma {:induction false} OneLabel(l: Label)
    requires |l| <= 63
    ensures LabelsBytes([l]) == [|l|] + l
  {
    assert [l][1..] == [];
    LabelsCons([l]);
    hide LabelsBytes;
  }

  lemma {:induction false} LabelsJoin(a: seq<Label>, b: seq<Label>)
    ensures LabelsBytes(a + b) == LabelsBytes(a) + LabelsBytes(b)
  {
    LabelsCons(a);
    LabelsCons(a + b);
    hide LabelsBytes, LabelBytes;
    if a == [] {
      assert a + b == b;
    } else {
      Sequences.ConcatTail(a, b);
      LabelsJoin(a[1..], b);
      Sequences.Assoc(LabelBytes(a[0]), LabelsBytes(a[1..]), LabelsBytes(b));
    }
  }

  // ---------------------------------------------------------------------
  // What is read
  // ---------------------------------------------------------------------

  /** Twelve octets, the identifier and the flags first; the top bit of octet 2 marks a response, bit 2 authority. */
  lemma {:induction false} ReadHeaderOctets(m: seq<byte>)
    ensures ReadMessage(m).Ok? ==>
              && |m| >= 12
              && var d := ReadMessage(m).value;
                 && d.id == Two(m, 0) && d.flags == Two(m, 2)
                 && |d.questions| == Two(m, 4) && |d.answers| == Two(m, 6)
                 && |d.authority| == Two(m, 8) && |d.additional| == Two(m, 10)
                 && (IsResponse(d) <==> m[2] >= 128) && (IsAuthoritative(d) <==> m[2] / 4 % 2 == 1)
    ensures |m| < 12 ==> ReadMessage(m) == Err(TooShort(|m|))
  {
    if ReadMessage(m).Ok? {
      ReadHeaderFields(m);
      FlagBits(m);
      hide ReadMessage;
    }
  }

  lemma {:induction false} FlagBits(m: seq<byte>)
    requires |m| >= 12
    ensures forall k :: 0 <= k < 11 ==> ReadU16(m, k) == Two(m, k)
    ensures Two(m, 2) >= 32768 <==> m[2] >= 128
    ensures Two(m, 2) / 1024 % 2 == m[2] / 4 % 2
  {
  }

  lemma {:induction false} ReadHeaderFields(m: seq<byte>)
    requires ReadMessage(m).Ok?
    ensures |m| >= 12
    ensures var d := ReadMessage(m).value;
            && d.id == ReadU16(m, 0) && d.flags == ReadU16(m, 2)
            && |d.questions| == ReadU16(m, 4) && |d.answers| == ReadU16(m, 6)
            && |d.authority| == ReadU16(m, 8) && |d.additional| == ReadU16(m, 10)
  {
    hide ReadQuestions, ReadRecords, ReadU16;
    var (_, q) := ReadQuestions(m, 12, ReadU16(m, 4)).value;
    ReadQuestionsCount(m, 12, ReadU16(m, 4));
    ReadRecordsCount(m, q, ReadU16(m, 6));
    var (_, a) := ReadRecords(m, q, ReadU16(m, 6)).value;
    ReadRecordsCount(m, a, ReadU16(m, 8));
    ReadRecordsCount(m, ReadRecords(m, a, ReadU16(m, 8)).value.1, ReadU16(m, 10));
  }

  lemma {:induction false} ReadQuestionsCount(m: seq<byte>, at: nat, count: nat)
    requires ReadQuestions(m, at, count).Ok?
    ensures |ReadQuestions(m, at, count).value.0| == count
    decreases count
  {
    hide ReadQuestion;
    if count > 0 {
      ReadQuestionsCount(m, ReadQuestion(m, at).value.1, count - 1);
    }
  }

  lemma {:induction false} ReadRecordsCount(m: seq<byte>, at: nat, count: nat)
    requires ReadRecords(m, at, count).Ok?
    ensures |ReadRecords(m, at, count).value.0| == count
    decreases count
  {
    hide ReadRecord;
    if count > 0 {
      ReadRecordsCount(m, ReadRecord(m, at).value.1, count - 1);
    }
  }

  lemma {:induction false} ReadQuestionOctets(m: seq<byte>, at: nat)
    requires ReadQuestion(m, at).Ok?
    ensures ReadName(m, at).Ok? && ReadName(m, at).value.1 + 4 <= |m|
    ensures var (q, end), n := ReadQuestion(m, at).value, ReadName(m, at).value.1;
            && q.name == ReadName(m, at).value.0 && q.qtype == Two(m, n) && end == n + 4
            && q.qclass == Two(m, n + 2) % 32768 && (q.unicastResponse <==> m[n + 2] >= 128)
  {
    hide ReadName;
  }

  /** Type, class, lifetime and length stand behind the name, and the data behind them. */
  lemma {:induction false} ReadRecordOctets(m: seq<byte>, at: nat)
    requires ReadRecord(m, at).Ok?
    ensures ReadName(m, at).Ok? && ReadName(m, at).value.1 + 10 <= |m|
    ensures var (r, end), n := ReadRecord(m, at).value, ReadName(m, at).value.1;
            && r.name == ReadName(m, at).value.0 && r.ttl == Four(m, n + 4)
            && r.class_ == Two(m, n + 2) % 32768 && (r.cacheFlush <==> m[n + 2] >= 128)
            && end == n + 10 + Two(m, n + 8) <= |m|
            && ReadData(m, Two(m, n), n + 10, Two(m, n + 8)) == Ok(r.data)
  {
    hide ReadName, ReadData;
    var n := ReadName(m, at).value.1;
    FieldsAgree(m, n);
    hide ReadU16, ReadU32;
    assert ReadData(m, ReadU16(m, n), n + 10, ReadU16(m, n + 8)).Ok?;
    DataInside(m, ReadU16(m, n), n + 10, ReadU16(m, n + 8));
  }

  lemma {:induction false} FieldsAgree(m: seq<byte>, n: nat)
    requires n + 10 <= |m|
    ensures ReadU16(m, n) == Two(m, n) && ReadU16(m, n + 2) == Two(m, n + 2) && ReadU16(m, n + 8) == Two(m, n + 8)
    ensures ReadU32(m, n + 4) == Four(m, n + 4)
    ensures Two(m, n + 2) >= 32768 <==> m[n + 2] >= 128
  {
  }

  lemma {:induction false} DataInside(m: seq<byte>, rtype: u16, start: nat, len: nat)
    ensures ReadData(m, rtype, start, len).Ok? ==> start + len <= |m|
  {
  }

  /** What the octets of a record's data are taken for, by the number of its type and their number. */
  lemma {:induction false} ReadDataKind(m: seq<byte>, rtype: u16, start: nat, len: nat)
    requires ReadData(m, rtype, start, len).Ok?
    ensures start + len <= |m| && TypeNumber(ReadData(m, rtype, start, len).value) == rtype
    ensures var d := ReadData(m, rtype, start, len).value;
            && (d.DataA? <==> rtype == 1 && len == 4) && (d.DataPtr? <==> rtype == 12) && (d.DataTxt? <==> rtype == 16)
            && (d.DataAaaa? <==> rtype == 28 && len == 16) && (d.DataSrv? <==> rtype == 33 && len >= 7)
    ensures var d, body := ReadData(m, rtype, start, len).value, m[start..start + len];
            match d
            case DataA(v4) => v4 == body
            case DataAaaa(v6) => v6 == body
            case DataPtr(name) => ReadName(m, start).Ok? && name == ReadName(m, start).value.0
            case DataSrv(priority, weight, port, target) =>
              && priority == Two(m, start) && weight == Two(m, start + 2) && port == Two(m, start + 4)
              && ReadName(m, start + 6).Ok? && target == ReadName(m, start + 6).value.0
            case DataTxt(entries) => entries == ReadTxt(body, 0)
            case DataOther(_, bytes) => bytes == body
  {
    hide ReadName, ReadTxt;
  }

  /** The strings of a TXT lie one behind the other, a length octet before each, up to one that does not fit. */
  lemma {:induction false} ReadTxtStands(body: seq<byte>, i: nat)
    requires i <= |body|
    ensures var es := ReadTxt(body, i);
            i == |body| || i + 1 + body[i] > |body| ==> es == []
    ensures i < |body| && body[i] == 0 ==> ReadTxt(body, i) == ReadTxt(body, i + 1)
    ensures i < |body| && body[i] > 0 && i + 1 + body[i] <= |body| ==>
              ReadTxt(body, i) == [body[i + 1..i + 1 + body[i]]] + ReadTxt(body, i + 1 + body[i])
  {
    ReadTxtStep(body, i);
    hide ReadTxt;
    if i < |body| && body[i] == 0 {
      Sequences.Empty(ReadTxt(body, i + 1));
    }
  }

  // ---------------------------------------------------------------------
  // What this program sends
  // ---------------------------------------------------------------------

  /** A response has identifier 0 and flags 84 00, a query 0 and 0 (RFC 6762 section 18). */
  lemma {:induction false} SentFlags(questions: seq<Question>, records: seq<Record>)
    ensures MessageBytes(Response(records))[..6] == [0, 0, 132, 0, 0, 0]
    ensures MessageBytes(Query(questions, records))[..4] == [0, 0, 0, 0]
  {
    hide QuestionsBytes, RecordsBytes;
    var r, q := Response(records), Query(questions, records);
    assert MessageBytes(r)[..6] == HeaderBytes(r)[..6] && MessageBytes(q)[..4] == HeaderBytes(q)[..4];
  }

  /** A probe: no flags, two questions for anything in class IN with an answer to the sender, and claims to compare. */
  lemma {:induction false} ProbeOctets(s: Service)
    ensures MessageBytes(ProbeMessage(s))
         == [0, 0, 0, 0, 0, 2, 0, 0] + U16((|s.addresses| + 2) % 65536) + [0, 0]
            + (NameBytes(s.instance) + [0, 255, 128, 1] + (NameBytes(s.host) + [0, 255, 128, 1]))
            + RecordsBytes(s.Claimed())
  {
    ProbeHeader(s);
    ProbeQuestions(s);
    RecordsCons([]);
    hide HeaderBytes, QuestionsBytes, RecordsBytes, NameBytes, U16;
    var p := ProbeMessage(s);
    var h, q, c := HeaderBytes(p), QuestionsBytes(p.questions), RecordsBytes(s.Claimed());
    assert MessageBytes(p) == h + q + [] + c + [];
  }

  lemma {:induction false} ProbeHeader(s: Service)
    ensures HeaderBytes(ProbeMessage(s)) == [0, 0, 0, 0, 0, 2, 0, 0] + U16((|s.addresses| + 2) % 65536) + [0, 0]
  {
    assert U16(0) == [0, 0] && U16(2) == [0, 2];
    hide U16;
  }

  lemma {:induction false} ProbeQuestions(s: Service)
    ensures QuestionsBytes(ProbeMessage(s).questions)
         == NameBytes(s.instance) + [0, 255, 128, 1] + (NameBytes(s.host) + [0, 255, 128, 1])
  {
    var i, h := ProbeQuestion(s.instance), ProbeQuestion(s.host);
    AskedForAnything(s.instance);
    AskedForAnything(s.host);
    hide NameBytes, QuestionBytes, ProbeQuestion;
    QuestionsCons([i, h]);
    QuestionsCons([h]);
    assert [i, h][1..] == [h] && [h][1..] == [];
    QuestionsCons([]);
    hide QuestionsBytes;
    Sequences.Empty(QuestionBytes(h));
  }

  lemma {:induction false} AskedForAnything(name: Name)
    ensures QuestionBytes(ProbeQuestion(name)) == NameBytes(name) + [0, 255, 128, 1]
  {
    assert U16(255) == [0, 255] && U16(0x8001) == [128, 1];
    hide NameBytes, U16;
  }

  /** The two pointers of a service, octet by octet (RFC 6763 sections 4 and 9): they do not flush. */
  lemma {:induction false} OwnPointerOctets(s: Service)
    requires s.Announceable()
    ensures var t, i, long := NameBytes(s.serviceType), NameBytes(s.instance), U32(s.serviceTtl);
            && RecordBytes(s.EnumerationPtr()) == NameBytes(ENUMERATION) + ([0, 12, 0, 1] + long) + U16(|t|) + t
            && RecordBytes(s.Ptr()) == t + ([0, 12, 0, 1] + long) + U16(|i|) + i
  {
    PointerOctets(ENUMERATION, s.serviceTtl, s.serviceType);
    PointerOctets(s.serviceType, s.serviceTtl, s.instance);
    hide NameBytes, U16, U32, RecordBytes;
  }

  lemma {:induction false} PointerOctets(name: Name, ttl: u32, target: Name)
    requires WellFormed(target)
    ensures var n, t := NameBytes(name), NameBytes(target);
            RecordBytes(Shared(name, ttl, DataPtr(target))) == n + ([0, 12, 0, 1] + U32(ttl)) + U16(|t|) + t
  {
    var r := Shared(name, ttl, DataPtr(target));
    RecordParts(r);
    FixedOctets(r);
    hide NameBytes, FixedBytes, U16, U32, RecordBytes;
    assert DataBytes(r.data) == NameBytes(target);
  }

  /** What only this host may say flushes (RFC 6762 section 10.2); what names the host has the host's lifetime. */
  lemma {:induction false} OwnSrvOctets(s: Service)
    requires s.Announceable()
    ensures var i, h, short := NameBytes(s.instance), NameBytes(s.host), U32(s.hostTtl);
            RecordBytes(s.Srv()) == i + ([0, 33, 128, 1] + short) + U16(6 + |h|) + ([0, 0, 0, 0] + U16(s.port) + h)
  {
    RecordParts(s.Srv());
    FixedOctets(s.Srv());
    SrvData(s.port, s.host);
    hide NameBytes, FixedBytes, U16, U32, RecordBytes, DataBytes;
  }

  lemma {:induction false} OwnTxtOctets(s: Service)
    requires s.Announceable()
    ensures var i, long := NameBytes(s.instance), U32(s.serviceTtl);
            var body := if s.txt == [] then [0] else TxtBytes(s.txt);
            RecordBytes(s.TxtRecord()) == i + ([0, 16, 128, 1] + long) + U16(|body|) + body
  {
    RecordParts(s.TxtRecord());
    FixedOctets(s.TxtRecord());
    hide NameBytes, FixedBytes, U16, U32, RecordBytes, TxtBytes;
  }

  lemma {:induction false} OwnAddressOctets(s: Service, k: nat)
    requires k < |s.addresses|
    ensures var h, short, b := NameBytes(s.host), U32(s.hostTtl), RecordBytes(s.AddressRecords()[k]);
            && (s.addresses[k].V4Addr? ==> b == h + ([0, 1, 128, 1] + short) + [0, 4] + s.addresses[k].v4)
            && (s.addresses[k].V6Addr? ==> b == h + ([0, 28, 128, 1] + short) + [0, 16] + s.addresses[k].v6)
  {
    match s.addresses[k] {
      case V4Addr(v4) => V4Octets(s.host, s.hostTtl, v4);
      case V6Addr(v6) => V6Octets(s.host, s.hostTtl, v6);
    }
    hide NameBytes, U32, RecordBytes;
  }

  lemma {:induction false} V4Octets(host: Name, ttl: u32, v4: V4)
    ensures RecordBytes(Flushing(host, ttl, DataA(v4))) == NameBytes(host) + ([0, 1, 128, 1] + U32(ttl)) + [0, 4] + v4
  {
    var r := Flushing(host, ttl, DataA(v4));
    RecordParts(r);
    FixedOctets(r);
    assert U16(4) == [0, 4];
    hide NameBytes, FixedBytes, U16, U32, RecordBytes;
  }

  lemma {:induction false} V6Octets(host: Name, ttl: u32, v6: V6)
    ensures RecordBytes(Flushing(host, ttl, DataAaaa(v6)))
         == NameBytes(host) + ([0, 28, 128, 1] + U32(ttl)) + [0, 16] + v6
  {
    var r := Flushing(host, ttl, DataAaaa(v6));
    RecordParts(r);
    FixedOctets(r);
    assert U16(16) == [0, 16];
    hide NameBytes, FixedBytes, U16, U32, RecordBytes;
  }

  lemma {:induction false} FixedOctets(r: Record)
    requires r.class_ == 1
    ensures FixedBytes(r)
         == [TypeNumber(r.data) / 256, TypeNumber(r.data) % 256] + [if r.cacheFlush then 128 else 0, 1] + U32(r.ttl)
  {
    hide U32;
  }

  lemma {:induction false} SrvData(port: u16, host: Name)
    ensures DataBytes(DataSrv(0, 0, port, host)) == [0, 0, 0, 0] + U16(port) + NameBytes(host)
  {
    assert U16(0) == [0, 0];
    hide U16, NameBytes;
  }

  /** What claims are compared by (RFC 6762 section 8.2): class, type, then the octets of the data. */
  lemma {:induction false} KeyOctets(r: Record)
    ensures SortKey(r)
         == [r.class_ / 256, r.class_ % 256] + [TypeNumber(r.data) / 256, TypeNumber(r.data) % 256] + DataBytes(r.data)
  {
    hide DataBytes;
  }

  /** Announced are all of them, claimed all but the pointers, and taken back are the announced ones with lifetime 0. */
  lemma {:induction false} OwnSections(s: Service)
    ensures s.Announcement() == [s.EnumerationPtr(), s.Ptr(), s.Srv(), s.TxtRecord()] + s.AddressRecords()
    ensures s.Claimed() == s.Announcement()[2..]
    ensures |s.Goodbye()| == |s.Announcement()| == |s.addresses| + 4
    ensures forall i :: 0 <= i < |s.Goodbye()| ==> s.Goodbye()[i] == s.Announcement()[i].(ttl := 0)
  {
  }

  /** The name under which all service types are listed, spelled (RFC 6763 section 9). */
  lemma {:induction false} EnumerationIsSpelled()
    ensures |ENUMERATION.labels| == 4
    ensures Characters(ENUMERATION.labels[0]) == "_services" && Characters(ENUMERATION.labels[1]) == "_dns-sd"
    ensures Characters(ENUMERATION.labels[2]) == "_udp" && Characters(ENUMERATION.labels[3]) == "local"
  {
  }

  function Characters(l: Label): string {
    seq(|l|, i requires 0 <= i < |l| => l[i] as char)
  }
}
