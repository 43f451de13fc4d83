/** Questions, resource records and their wire form. */
module Records {
  import opened Wire
  import opened Names
  import Sequences

  const A: u16 := 1
  const PTR: u16 := 12
  const TXT: u16 := 16
  const AAAA: u16 := 28
  const SRV: u16 := 33
  const ANY: u16 := 255

  const CLASS_IN: u16 := 1

  /** The bit `PackClass` adds to a class. */
  const TOP_BIT: u16 := 0x8000

  type V4 = s: seq<byte> | |s| == 4 witness [0, 0, 0, 0]
  type V6 = s: seq<byte> | |s| == 16 witness seq(16, _ => 0)

  datatype Question = Question(name: Name, qtype: u16, qclass: u16, unicastResponse: bool)

  datatype RecordData =
    | DataA(v4: V4)
    | DataAaaa(v6: V6)
    | DataPtr(pointee: Name)
    | DataSrv(priority: u16, weight: u16, port: u16, target: Name)
    | DataTxt(entries: seq<seq<byte>>)
    | DataOther(otherType: u16, data: seq<byte>)

  datatype Record = Record(name: Name, class_: u16, ttl: u32, cacheFlush: bool, data: RecordData)

  function RType(d: RecordData): u16 {
    match d
    case DataA(_) => A
    case DataAaaa(_) => AAAA
    case DataPtr(_) => PTR
    case DataSrv(_, _, _, _) => SRV
    case DataTxt(_) => TXT
    case DataOther(t, _) => t
  }

  function Flushing(name: Name, ttl: u32, data: RecordData): Record {
    Record(name, CLASS_IN, ttl, true, data)
  }

  function Shared(name: Name, ttl: u32, data: RecordData): Record {
    Record(name, CLASS_IN, ttl, false, data)
  }

  function AsGoodbye(r: Record): Record {
    r.(ttl := 0)
  }

  /** The same answer whatever its lifetime: names compare ignoring case, the payload does not. */
  predicate SameAnswer(a: Record, b: Record) {
    EqIgnoreCase(a.name, b.name) && a.class_ == b.class_ && a.data == b.data
  }

  /** `class | TOP_BIT` when the flag is set. */
  function PackClass(class_: u16, top: bool): u16 {
    if top && class_ < TOP_BIT then class_ + TOP_BIT else class_
  }

  // ---------------------------------------------------------------------
  // Well-formedness: what survives the wire
  // ---------------------------------------------------------------------

  predicate CanonicalTxt(entries: seq<seq<byte>>) {
    forall i :: 0 <= i < |entries| ==> 1 <= |entries[i]| <= 255
  }

  predicate WellFormedData(d: RecordData) {
    match d
    case DataA(_) => true
    case DataAaaa(_) => true
    case DataPtr(n) => WellFormed(n)
    case DataSrv(_, _, _, n) => WellFormed(n)
    case DataTxt(es) => CanonicalTxt(es) && |TxtBytes(es)| < 0x1_0000
    case DataOther(t, bytes) =>
      && |bytes| < 0x1_0000
      && t != PTR && t != TXT && !(t == A && |bytes| == 4) && !(t == AAAA && |bytes| == 16)
      && !(t == SRV && |bytes| >= 7)
  }

  predicate WellFormedRecord(r: Record) {
    WellFormed(r.name) && r.class_ < TOP_BIT && WellFormedData(r.data)
  }

  /** What a record may hold and still be read back as a record of its type: any TXT strings, if they fit. */
  predicate SendableData(d: RecordData) {
    if d.DataTxt? then |TxtBytes(d.entries)| < 0x1_0000 else WellFormedData(d)
  }

  predicate SendableRecord(r: Record) {
    WellFormed(r.name) && r.class_ < TOP_BIT && SendableData(r.data)
  }

  /** The strings the other side sees: the empty ones are gone and the long ones are cut. */
  function ReadableTxt(es: seq<seq<byte>>): seq<seq<byte>> {
    if es == [] then []
    else (if es[0] == [] then [] else [es[0][..if |es[0]| < 255 then |es[0]| else 255]]) + ReadableTxt(es[1..])
  }

  function AsRead(r: Record): Record {
    if r.data.DataTxt? then r.(data := DataTxt(ReadableTxt(r.data.entries))) else r
  }

  predicate WellFormedQuestion(q: Question) {
    WellFormed(q.name) && q.qclass < TOP_BIT
  }

  // ---------------------------------------------------------------------
  // Writing
  // ---------------------------------------------------------------------

  /** One TXT string; anything past 255 bytes is cut off. */
  function TxtEntryBytes(e: seq<byte>): seq<byte> {
    var len := if |e| < 255 then |e| else 255;
    [len] + e[..len]
  }

  function TxtBytes(es: seq<seq<byte>>): seq<byte> {
    if es == [] then [] else TxtEntryBytes(es[0]) + TxtBytes(es[1..])
  }

  function DataBytes(d: RecordData): seq<byte> {
    match d
    case DataA(v4) => v4
    case DataAaaa(v6) => v6
    case DataPtr(n) => NameBytes(n)
    case DataSrv(priority, weight, port, target) => U16(priority) + U16(weight) + U16(port) + NameBytes(target)
    case DataTxt(es) => if es == [] then [0] else TxtBytes(es)
    case DataOther(_, bytes) => bytes
  }

  /** Type, class and lifetime: everything between a record's name and its length. */
  function FixedBytes(r: Record): (s: seq<byte>)
    ensures |s| == 8
  {
    U16(RType(r.data)) + U16(PackClass(r.class_, r.cacheFlush)) + U32(r.ttl)
  }

  function RecordBytes(r: Record): seq<byte> {
    NameBytes(r.name) + FixedBytes(r) + U16(|DataBytes(r.data)| % 0x1_0000) + DataBytes(r.data)
  }

  function QuestionBytes(q: Question): seq<byte> {
    NameBytes(q.name) + U16(q.qtype) + U16(PackClass(q.qclass, q.unicastResponse))
  }

  lemma {:induction false} TxtCons(es: seq<seq<byte>>)
    ensures TxtBytes([]) == []
    ensures es != [] ==> TxtBytes(es) == TxtEntryBytes(es[0]) + TxtBytes(es[1..])
  {
  }

  lemma {:induction false} TxtSnoc(es: seq<seq<byte>>, i: nat)
    requires i < |es|
    ensures TxtBytes(es[..i + 1]) == TxtBytes(es[..i]) + TxtEntryBytes(es[i])
  {
    hide TxtBytes, TxtEntryBytes;
    Sequences.PrefixTail(es, i + 1);
    TxtCons(es[..i + 1]);
    if i > 0 {
      Sequences.PrefixTail(es, i);
      TxtCons(es[..i]);
      TxtSnoc(es[1..], i - 1);
    }
  }

  method EncodeData(d: RecordData, out: Buffer)
    modifies out
    ensures out.bytes == old(out.bytes) + DataBytes(d)
  {
    match d {
      case DataA(v4) => out.Extend(v4);
      case DataAaaa(v6) => out.Extend(v6);
      case DataPtr(name) => EncodeName(name, out);
      case DataSrv(priority, weight, port, target) =>
        out.Extend(U16(priority));
        out.Extend(U16(weight));
        out.Extend(U16(port));
        EncodeName(target, out);
      case DataTxt(entries) =>
        if entries == [] {
          out.Push(0);
          return;
        }
        TxtCons([]);
        hide TxtBytes;
        Sequences.Empty(out.bytes);
        for i := 0 to |entries|
          invariant out.bytes == old(out.bytes) + TxtBytes(entries[..i])
        {
          TxtSnoc(entries, i);
          var len := if |entries[i]| < 255 then |entries[i]| else 255;
          Sequences.Assoc(out.bytes, [len], entries[i][..len]);
          out.Push(len);
          out.Extend(entries[i][..len]);
          Sequences.Assoc(old(out.bytes), TxtBytes(entries[..i]), TxtEntryBytes(entries[i]));
        }
        Sequences.Whole(entries);
      case DataOther(_, data) => out.Extend(data);
    }
  }

  /** Appends `RecordBytes(r)`; the length field holds zeros until `Patch` puts in what `EncodeData` appended. */
  method EncodeRecord(r: Record, out: Buffer)
    modifies out
    ensures out.bytes == old(out.bytes) + RecordBytes(r)
  {
    hide U16, U32, NameBytes, DataBytes, RType, PackClass;
    EncodeName(r.name, out);
    out.Extend(U16(RType(r.data)));
    out.Extend(U16(PackClass(r.class_, r.cacheFlush)));
    out.Extend(U32(r.ttl));
    var lengthAt := |out.bytes|;
    ghost var head := out.bytes;
    out.Extend([0, 0]);
    EncodeData(r.data, out);
    assert out.bytes == head + ([0, 0] + DataBytes(r.data));
    var written := (|out.bytes| - lengthAt - 2) % 0x1_0000;
    out.Patch(lengthAt, U16(written));
    assert out.bytes == head + (U16(written) + DataBytes(r.data));
  }

  method EncodeQuestion(q: Question, out: Buffer)
    modifies out
    ensures out.bytes == old(out.bytes) + QuestionBytes(q)
  {
    EncodeName(q.name, out);
    out.Extend(U16(q.qtype));
    out.Extend(U16(PackClass(q.qclass, q.unicastResponse)));
  }

  // ---------------------------------------------------------------------
  // Reading
  // ---------------------------------------------------------------------

  /** The non-empty strings of a TXT body from `i`, stopping at a clipped one. */
  function ReadTxt(body: seq<byte>, i: nat): seq<seq<byte>>
    decreases |body| - i
  {
    if i >= |body| || i + 1 + body[i] > |body| then []
    else (if body[i] > 0 then [body[i + 1..i + 1 + body[i]]] else []) + ReadTxt(body, i + 1 + body[i])
  }

  function ReadData(m: seq<byte>, rtype: u16, start: nat, len: nat): Result<RecordData, NameError> {
    if start + len > |m| then Err(Truncated)
    else
      var body := m[start..start + len];
      if rtype == A && len == 4 then Ok(DataA(body))
      else if rtype == AAAA && len == 16 then Ok(DataAaaa(body))
      else if rtype == PTR then
        var (name, _) :- ReadName(m, start);
        Ok(DataPtr(name))
      else if rtype == SRV && len >= 7 then
        var (target, _) :- ReadName(m, start + 6);
        Ok(DataSrv(ReadU16(body, 0), ReadU16(body, 2), ReadU16(body, 4), target))
      else if rtype == TXT then Ok(DataTxt(ReadTxt(body, 0)))
      else Ok(DataOther(rtype, body))
  }

  function UnpackClass(raw: u16): (u16, bool) {
    if raw >= TOP_BIT then (raw - TOP_BIT, true) else (raw, false)
  }

  function ReadRecord(m: seq<byte>, at: nat): Result<(Record, nat), NameError> {
    var (name, next) :- ReadName(m, at);
    if next + 10 > |m| then Err(Truncated)
    else
      var (class_, flush) := UnpackClass(ReadU16(m, next + 2));
      var rdlength := ReadU16(m, next + 8);
      var data :- ReadData(m, ReadU16(m, next), next + 10, rdlength);
      Ok((Record(name, class_, ReadU32(m, next + 4), flush, data), next + 10 + rdlength))
  }

  function ReadQuestion(m: seq<byte>, at: nat): Result<(Question, nat), NameError> {
    var (name, next) :- ReadName(m, at);
    if next + 4 > |m| then Err(Truncated)
    else
      var (class_, unicast) := UnpackClass(ReadU16(m, next + 2));
      Ok((Question(name, ReadU16(m, next), class_, unicast), next + 4))
  }

  lemma {:induction false} ReadTxtStep(body: seq<byte>, i: nat)
    requires i <= |body|
    ensures i < |body| ==> var l := body[i];
              ReadTxt(body, i) == if i + 1 + l > |body| then []
                                  else (if l > 0 then [body[i + 1..i + 1 + l]] else []) + ReadTxt(body, i + 1 + l)
    ensures ReadTxt(body, |body|) == []
  {
  }

  method DecodeTxt(body: seq<byte>) returns (entries: seq<seq<byte>>)
    ensures entries == ReadTxt(body, 0)
  {
    entries := [];
    var i := 0;
    if body == [] {
      return;
    }
    hide ReadTxt;
    Sequences.Empty(ReadTxt(body, 0));
    while i < |body|
      invariant 0 <= i <= |body|
      invariant entries + ReadTxt(body, i) == ReadTxt(body, 0)
    {
      ReadTxtStep(body, i);
      Sequences.Empty(entries);
      var l := body[i];
      if i + 1 + l > |body| {
        break;
      }
      if l > 0 {
        Sequences.Assoc(entries, [body[i + 1..i + 1 + l]], ReadTxt(body, i + 1 + l));
        entries := entries + [body[i + 1..i + 1 + l]];
      } else {
        Sequences.Empty(ReadTxt(body, i + 1));
      }
      i := i + 1 + l;
    }
  }

  method DecodeData(message: seq<byte>, rtype: u16, start: nat, len: nat) returns (r: Result<RecordData, NameError>)
    ensures r == ReadData(message, rtype, start, len)
  {
    var end := start + len;
    if end > |message| {
      return Err(Truncated);
    }
    var body := message[start..end];
    if rtype == A && len == 4 {
      return Ok(DataA(body));
    }
    if rtype == AAAA && len == 16 {
      return Ok(DataAaaa(body));
    }
    if rtype == PTR {
      var n := DecodeName(message, start);
      return if n.Err? then Err(n.error) else Ok(DataPtr(n.value.0));
    }
    if rtype == SRV && len >= 7 {
      var n := DecodeName(message, start + 6);
      return if n.Err? then Err(n.error)
             else Ok(DataSrv(ReadU16(body, 0), ReadU16(body, 2), ReadU16(body, 4), n.value.0));
    }
    if rtype == TXT {
      var entries := DecodeTxt(body);
      return Ok(DataTxt(entries));
    }
    return Ok(DataOther(rtype, body));
  }

  // ---------------------------------------------------------------------
  // What is read is well-formed
  // ---------------------------------------------------------------------

  lemma {:induction false} ReadTxtSound(body: seq<byte>, i: nat)
    requires i <= |body|
    ensures CanonicalTxt(ReadTxt(body, i)) && |TxtBytes(ReadTxt(body, i))| <= |body| - i
    decreases |body| - i
  {
    if i < |body| && i + 1 + body[i] <= |body| {
      var rest := ReadTxt(body, i + 1 + body[i]);
      ReadTxtSound(body, i + 1 + body[i]);
      if body[i] == 0 {
        assert ReadTxt(body, i) == rest;
      } else {
        var e := body[i + 1..i + 1 + body[i]];
        assert ReadTxt(body, i) == [e] + rest;
        assert ([e] + rest)[1..] == rest;
      }
    }
  }

  lemma {:induction false} ReadDataSound(m: seq<byte>, rtype: u16, start: nat, len: u16)
    requires ReadData(m, rtype, start, len).Ok?
    ensures WellFormedData(ReadData(m, rtype, start, len).value)
  {
    var body := m[start..start + len];
    if (rtype == A && len == 4) || (rtype == AAAA && len == 16) {
    } else if rtype == PTR {
      ReadNameSound(m, start);
    } else if rtype == SRV && len >= 7 {
      ReadNameSound(m, start + 6);
    } else if rtype == TXT {
      ReadTxtSound(body, 0);
    }
  }

  lemma {:induction false} ReadRecordSound(m: seq<byte>, at: nat)
    requires ReadRecord(m, at).Ok?
    ensures WellFormedRecord(ReadRecord(m, at).value.0)
    ensures at < ReadRecord(m, at).value.1 <= |m|
  {
    ReadNameSound(m, at);
    var next := ReadName(m, at).value.1;
    ReadDataSound(m, ReadU16(m, next), next + 10, ReadU16(m, next + 8));
  }

  lemma {:induction false} ReadQuestionSound(m: seq<byte>, at: nat)
    requires ReadQuestion(m, at).Ok?
    ensures WellFormedQuestion(ReadQuestion(m, at).value.0)
    ensures at < ReadQuestion(m, at).value.1 <= |m|
  {
    ReadNameSound(m, at);
  }

  // ---------------------------------------------------------------------
  // What was written is read back
  // ---------------------------------------------------------------------

  /** Whatever strings were written, reading finds them without the empty ones and with the long ones cut. */
  lemma {:induction false} ReadBackTxt(body: seq<byte>, i: nat, es: seq<seq<byte>>)
    requires i <= |body| && body[i..] == TxtBytes(es)
    ensures ReadTxt(body, i) == ReadableTxt(es)
    decreases |es|
  {
    hide TxtBytes, ReadTxt, ReadableTxt;
    TxtCons(es);
    ReadableCons(es);
    if es == [] {
      ReadTxtStep(body, i);
    } else {
      var entry, l := TxtEntryBytes(es[0]), if |es[0]| < 255 then |es[0]| else 255;
      assert entry[0] == l && entry[1..] == es[0][..l];
      hide TxtEntryBytes;
      TxtFollows(body, i, entry, TxtBytes(es[1..]));
      ReadTxtStep(body, i);
      ReadBackTxt(body, i + 1 + l, es[1..]);
    }
  }

  lemma {:induction false} ReadableCons(es: seq<seq<byte>>)
    ensures ReadableTxt([]) == []
    ensures es != [] ==> var l := if |es[0]| < 255 then |es[0]| else 255;
              ReadableTxt(es) == (if l > 0 then [es[0][..l]] else []) + ReadableTxt(es[1..])
  {
  }

  /** One length byte and its string, then the rest. */
  lemma {:induction false} TxtFollows(body: seq<byte>, i: nat, entry: seq<byte>, rest: seq<byte>)
    requires i <= |body| && body[i..] == entry + rest && entry != []
    ensures i + |entry| <= |body| && body[i] == entry[0]
    ensures body[i + 1..i + |entry|] == entry[1..] && body[i + |entry|..] == rest
  {
    var both := entry + rest;
    forall k | 0 <= k < |both| ensures body[i + k] == both[k] {
      assert body[i..][k] == both[k];
    }
    assert forall k :: 0 <= k < |entry| ==> both[k] == entry[k];
    assert forall k :: 0 <= k < |rest| ==> both[|entry| + k] == rest[k];
  }

  lemma {:induction false} ReadableIsCanonical(es: seq<seq<byte>>)
    ensures CanonicalTxt(ReadableTxt(es))
  {
    if es != [] {
      ReadableIsCanonical(es[1..]);
    }
  }

  lemma {:induction false} CanonicalIsReadable(es: seq<seq<byte>>)
    requires CanonicalTxt(es)
    ensures ReadableTxt(es) == es
  {
    if es != [] {
      var rest := es[1..];
      assert forall i :: 0 <= i < |rest| ==> rest[i] == es[i + 1];
      CanonicalIsReadable(rest);
      assert es[0][..|es[0]|] == es[0] && es == [es[0]] + rest;
    }
  }

  /** A TXT survives the wire exactly when none of its strings is empty or over 255 octets. */
  lemma {:induction false} ReadableIffCanonical(es: seq<seq<byte>>)
    ensures ReadableTxt(es) == es <==> CanonicalTxt(es)
  {
    ReadableIsCanonical(es);
    if CanonicalTxt(es) {
      CanonicalIsReadable(es);
    }
  }

  lemma {:induction false} ReadBackSrv(m: seq<byte>, start: nat, d: RecordData)
    requires d.DataSrv? && WellFormedData(d) && At(m, start, DataBytes(d))
    ensures ReadData(m, SRV, start, |DataBytes(d)|) == Ok(d)
  {
    var fields := U16(d.priority) + U16(d.weight) + U16(d.port);
    AtSplit(m, start, fields, NameBytes(d.target));
    ReadBackName(m, start + 6, d.target);
    var body := m[start..start + |DataBytes(d)|];
    assert body[0..2] == U16(d.priority) && body[2..4] == U16(d.weight) && body[4..6] == U16(d.port);
    ReadBackU16(body, 0, d.priority);
    ReadBackU16(body, 2, d.weight);
    ReadBackU16(body, 4, d.port);
  }

  lemma {:induction false} ReadBackData(m: seq<byte>, start: nat, d: RecordData)
    requires SendableData(d) && At(m, start, DataBytes(d))
    ensures ReadData(m, RType(d), start, |DataBytes(d)|)
         == Ok(if d.DataTxt? then DataTxt(ReadableTxt(d.entries)) else d)
  {
    match d {
      case DataA(_) =>
      case DataAaaa(_) =>
      case DataPtr(n) => ReadBackName(m, start, n);
      case DataSrv(_, _, _, _) => ReadBackSrv(m, start, d);
      case DataTxt(es) =>
        var body := m[start..start + |DataBytes(d)|];
        assert body[0..] == body;
        if es != [] {
          ReadBackTxt(body, 0, es);
        } else {
          assert body == [0] && ReadTxt(body, 1) == [];
          assert ReadTxt(body, 0) == [];
        }
      case DataOther(_, _) =>
    }
  }

  lemma {:induction false} DataLength(d: RecordData)
    requires SendableData(d)
    ensures |DataBytes(d)| < 0x1_0000
  {
  }

  lemma {:induction false} ReadBackFixed(m: seq<byte>, at: nat, r: Record)
    requires r.class_ < TOP_BIT && At(m, at, FixedBytes(r))
    ensures ReadU16(m, at) == RType(r.data) && ReadU32(m, at + 4) == r.ttl
    ensures UnpackClass(ReadU16(m, at + 2)) == (r.class_, r.cacheFlush)
  {
    var t, c := U16(RType(r.data)), U16(PackClass(r.class_, r.cacheFlush));
    AtSplit(m, at, t + c, U32(r.ttl));
    AtSplit(m, at, t, c);
    ReadBackU16(m, at, RType(r.data));
    ReadBackU16(m, at + 2, PackClass(r.class_, r.cacheFlush));
    ReadBackU32(m, at + 4, r.ttl);
  }

  lemma {:induction false} RecordParts(r: Record)
    requires |DataBytes(r.data)| < 0x1_0000
    ensures var n, f, d := NameBytes(r.name), FixedBytes(r), DataBytes(r.data);
            RecordBytes(r) == n + f + U16(|d|) + d
  {
    hide NameBytes, FixedBytes, DataBytes, U16;
  }

  lemma {:induction false} RecordLayout(m: seq<byte>, at: nat, r: Record)
    requires SendableData(r.data) && At(m, at, RecordBytes(r))
    ensures var next := at + EncodedLen(r.name); var d := DataBytes(r.data);
            && At(m, at, NameBytes(r.name)) && At(m, next, FixedBytes(r)) && At(m, next + 10, d)
            && next + 10 + |d| <= |m| && ReadU16(m, next + 8) == |d|
            && |RecordBytes(r)| == EncodedLen(r.name) + 10 + |d|
  {
    var n, f, d := NameBytes(r.name), FixedBytes(r), DataBytes(r.data);
    DataLength(r.data);
    RecordParts(r);
    hide RecordBytes, U16, ReadU16, NameBytes, FixedBytes, DataBytes, At, SendableData;
    AtSplit(m, at, n + f + U16(|d|), d);
    AtSplit(m, at, n + f, U16(|d|));
    AtSplit(m, at, n, f);
    ReadBackU16(m, at + |n| + 8, |d|);
  }

  /** A record that can be sent is read back wherever it stands, with its TXT as the other side sees it. */
  lemma {:induction false} ReadBackSendable(m: seq<byte>, at: nat, r: Record)
    requires SendableRecord(r) && At(m, at, RecordBytes(r))
    ensures ReadRecord(m, at) == Ok((AsRead(r), at + |RecordBytes(r)|))
  {
    hide At, RecordBytes, NameBytes, FixedBytes, DataBytes, ReadU16, ReadU32, ReadName, ReadData, U16, U32,
         SendableData;
    RecordLayout(m, at, r);
    ReadBackName(m, at, r.name);
    ReadBackFixed(m, at + EncodedLen(r.name), r);
    ReadBackData(m, at + EncodedLen(r.name) + 10, r.data);
  }

  lemma {:induction false} WellFormedAsRead(r: Record)
    requires WellFormedRecord(r)
    ensures SendableRecord(r) && AsRead(r) == r
  {
    if r.data.DataTxt? {
      ReadableIffCanonical(r.data.entries);
    }
  }

  lemma {:induction false} ReadBackRecord(m: seq<byte>, at: nat, r: Record)
    requires WellFormedRecord(r) && At(m, at, RecordBytes(r))
    ensures ReadRecord(m, at) == Ok((r, at + |RecordBytes(r)|))
  {
    WellFormedAsRead(r);
    hide At, RecordBytes, ReadRecord, AsRead;
    ReadBackSendable(m, at, r);
  }

  lemma {:induction false} ReadBackQuestion(m: seq<byte>, at: nat, q: Question)
    requires WellFormedQuestion(q) && At(m, at, QuestionBytes(q))
    ensures ReadQuestion(m, at) == Ok((q, at + |QuestionBytes(q)|))
  {
    var n, t, c := NameBytes(q.name), U16(q.qtype), U16(PackClass(q.qclass, q.unicastResponse));
    AtSplit(m, at, n + t, c);
    AtSplit(m, at, n, t);
    ReadBackName(m, at, q.name);
    ReadBackU16(m, at + |n|, q.qtype);
    ReadBackU16(m, at + |n| + 2, PackClass(q.qclass, q.unicastResponse));
  }
}
