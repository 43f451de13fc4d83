/** Encoding and decoding a DNS message, and exactly which messages come back from it unchanged. */
module Messages {
  import opened Wire
  import opened Names
  import opened Records
  import Sequences

  const FLAG_RESPONSE: u16 := 0x8000
  const FLAG_AUTHORITATIVE: u16 := 0x0400

  datatype Message = Message(
    id: u16, flags: u16,
    questions: seq<Question>, answers: seq<Record>, authority: seq<Record>, additional: seq<Record>)

  datatype ParseError = TooShort(octets: nat) | BadName(error: NameError)

  predicate IsResponse(m: Message) {
    m.flags >= FLAG_RESPONSE
  }

  predicate IsAuthoritative(m: Message) {
    m.flags / FLAG_AUTHORITATIVE % 2 == 1
  }

  /** Identifier zero, response and authoritative flags set, one section filled. */
  function Response(answers: seq<Record>): Message {
    Message(0, FLAG_RESPONSE + FLAG_AUTHORITATIVE, [], answers, [], [])
  }

  /** No flags; the answer section holds what the asker has already. */
  function Query(questions: seq<Question>, known: seq<Record>): Message {
    Message(0, 0, questions, known, [], [])
  }

  predicate WellFormedSection(rs: seq<Record>) {
    |rs| < 0x1_0000 && forall i :: 0 <= i < |rs| ==> WellFormedRecord(rs[i])
  }

  /** The messages that survive the wire. */
  predicate WellFormedMessage(m: Message) {
    && |m.questions| < 0x1_0000
    && (forall i :: 0 <= i < |m.questions| ==> WellFormedQuestion(m.questions[i]))
    && WellFormedSection(m.answers) && WellFormedSection(m.authority) && WellFormedSection(m.additional)
  }

  predicate SendableSection(rs: seq<Record>) {
    |rs| < 0x1_0000 && forall i :: 0 <= i < |rs| ==> SendableRecord(rs[i])
  }

  /** The messages that can be read at all once sent: TXT strings need not be canonical. */
  predicate SendableMessage(m: Message) {
    && |m.questions| < 0x1_0000
    && (forall i :: 0 <= i < |m.questions| ==> WellFormedQuestion(m.questions[i]))
    && SendableSection(m.answers) && SendableSection(m.authority) && SendableSection(m.additional)
  }

  function AllAsRead(rs: seq<Record>): seq<Record> {
    seq(|rs|, i requires 0 <= i < |rs| => AsRead(rs[i]))
  }

  /** A message as the other side sees it. */
  function MessageAsRead(m: Message): Message {
    m.(answers := AllAsRead(m.answers), authority := AllAsRead(m.authority), additional := AllAsRead(m.additional))
  }

  // ---------------------------------------------------------------------
  // Writing
  // ---------------------------------------------------------------------

  function QuestionsBytes(qs: seq<Question>): seq<byte> {
    if qs == [] then [] else QuestionBytes(qs[0]) + QuestionsBytes(qs[1..])
  }

  function RecordsBytes(rs: seq<Record>): seq<byte> {
    if rs == [] then [] else RecordBytes(rs[0]) + RecordsBytes(rs[1..])
  }

  function HeaderBytes(m: Message): (s: seq<byte>)
    ensures |s| == 12
  {
    U16(m.id) + U16(m.flags) + U16(|m.questions| % 0x1_0000) + U16(|m.answers| % 0x1_0000)
    + U16(|m.authority| % 0x1_0000) + U16(|m.additional| % 0x1_0000)
  }

  function MessageBytes(m: Message): seq<byte> {
    HeaderBytes(m) + QuestionsBytes(m.questions)
    + RecordsBytes(m.answers) + RecordsBytes(m.authority) + RecordsBytes(m.additional)
  }

  lemma {:induction false} QuestionsCons(qs: seq<Question>)
    ensures QuestionsBytes([]) == []
    ensures qs != [] ==> QuestionsBytes(qs) == QuestionBytes(qs[0]) + QuestionsBytes(qs[1..])
  {
  }

  lemma {:induction false} QuestionsSnoc(qs: seq<Question>, i: nat)
    requires i < |qs|
    ensures QuestionsBytes(qs[..i + 1]) == QuestionsBytes(qs[..i]) + QuestionBytes(qs[i])
  {
    hide QuestionsBytes, QuestionBytes;
    Sequences.PrefixTail(qs, i + 1);
    QuestionsCons(qs[..i + 1]);
    if i > 0 {
      Sequences.PrefixTail(qs, i);
      QuestionsCons(qs[..i]);
      QuestionsSnoc(qs[1..], i - 1);
    }
  }

  lemma {:induction false} RecordsCons(rs: seq<Record>)
    ensures RecordsBytes([]) == []
    ensures rs != [] ==> RecordsBytes(rs) == RecordBytes(rs[0]) + RecordsBytes(rs[1..])
  {
  }

  lemma {:induction false} RecordsSnoc(rs: seq<Record>, i: nat)
    requires i < |rs|
    ensures RecordsBytes(rs[..i + 1]) == RecordsBytes(rs[..i]) + RecordBytes(rs[i])
  {
    hide RecordsBytes, RecordBytes;
    Sequences.PrefixTail(rs, i + 1);
    RecordsCons(rs[..i + 1]);
    if i > 0 {
      Sequences.PrefixTail(rs, i);
      RecordsCons(rs[..i]);
      RecordsSnoc(rs[1..], i - 1);
    }
  }

  method EncodeQuestions(questions: seq<Question>, out: Buffer)
    modifies out
    ensures out.bytes == old(out.bytes) + QuestionsBytes(questions)
  {
    hide QuestionBytes;
    for i := 0 to |questions|
      invariant out.bytes == old(out.bytes) + QuestionsBytes(questions[..i])
    {
      QuestionsSnoc(questions, i);
      EncodeQuestion(questions[i], out);
    }
    assert questions[..|questions|] == questions;
  }

  method EncodeSection(section: seq<Record>, out: Buffer)
    modifies out
    ensures out.bytes == old(out.bytes) + RecordsBytes(section)
  {
    hide RecordBytes;
    for i := 0 to |section|
      invariant out.bytes == old(out.bytes) + RecordsBytes(section[..i])
    {
      RecordsSnoc(section, i);
      EncodeRecord(section[i], out);
    }
    assert section[..|section|] == section;
  }

  method Encode(m: Message) returns (bytes: seq<byte>)
    ensures bytes == MessageBytes(m)
  {
    var out := new Buffer();
    out.Extend(U16(m.id));
    out.Extend(U16(m.flags));
    out.Extend(U16(|m.questions| % 0x1_0000));
    out.Extend(U16(|m.answers| % 0x1_0000));
    out.Extend(U16(|m.authority| % 0x1_0000));
    out.Extend(U16(|m.additional| % 0x1_0000));
    assert out.bytes == HeaderBytes(m);
    EncodeQuestions(m.questions, out);
    EncodeSection(m.answers, out);
    EncodeSection(m.authority, out);
    EncodeSection(m.additional, out);
    bytes := out.bytes;
  }

  // ---------------------------------------------------------------------
  // Reading
  // ---------------------------------------------------------------------

  function ReadQuestions(m: seq<byte>, at: nat, count: nat): Result<(seq<Question>, nat), NameError>
    decreases count
  {
    if count == 0 then Ok(([], at))
    else
      var (q, next) :- ReadQuestion(m, at);
      var (rest, end) :- ReadQuestions(m, next, count - 1);
      Ok(([q] + rest, end))
  }

  function ReadRecords(m: seq<byte>, at: nat, count: nat): Result<(seq<Record>, nat), NameError>
    decreases count
  {
    if count == 0 then Ok(([], at))
    else
      var (r, next) :- ReadRecord(m, at);
      var (rest, end) :- ReadRecords(m, next, count - 1);
      Ok(([r] + rest, end))
  }

  function ReadBody(m: seq<byte>): Result<Message, NameError>
    requires |m| >= 12
  {
    var (questions, q) :- ReadQuestions(m, 12, ReadU16(m, 4));
    var (answers, a) :- ReadRecords(m, q, ReadU16(m, 6));
    var (authority, n) :- ReadRecords(m, a, ReadU16(m, 8));
    var (additional, _) :- ReadRecords(m, n, ReadU16(m, 10));
    Ok(Message(ReadU16(m, 0), ReadU16(m, 2), questions, answers, authority, additional))
  }

  function ReadMessage(m: seq<byte>): Result<Message, ParseError> {
    if |m| < 12 then Err(TooShort(|m|))
    else
      match ReadBody(m)
      case Err(e) => Err(BadName(e))
      case Ok(message) => Ok(message)
  }

  method DecodeQuestion(message: seq<byte>, offset: nat) returns (r: Result<(Question, nat), NameError>)
    ensures r == ReadQuestion(message, offset)
  {
    var n := DecodeName(message, offset);
    if n.Err? {
      return Err(n.error);
    }
    var (name, next) := n.value;
    if next + 4 > |message| {
      return Err(Truncated);
    }
    var (class_, unicast) := UnpackClass(ReadU16(message, next + 2));
    return Ok((Question(name, ReadU16(message, next), class_, unicast), next + 4));
  }

  /** One record read at a mutable offset, as the decoder's inner loop does it. */
  method DecodeRecord(message: seq<byte>, offset: nat) returns (r: Result<(Record, nat), NameError>)
    ensures r == ReadRecord(message, offset)
  {
    var n := DecodeName(message, offset);
    if n.Err? {
      return Err(n.error);
    }
    var (name, next) := n.value;
    if next + 10 > |message| {
      return Err(Truncated);
    }
    var (class_, flush) := UnpackClass(ReadU16(message, next + 2));
    var rdlength := ReadU16(message, next + 8);
    var data := DecodeData(message, ReadU16(message, next), next + 10, rdlength);
    if data.Err? {
      return Err(data.error);
    }
    return Ok((Record(name, class_, ReadU32(message, next + 4), flush, data.value), next + 10 + rdlength));
  }

  /** Puts the elements already collected in front of what is still to be read. */
  ghost function Prefixed<T>(done: seq<T>, rest: Result<(seq<T>, nat), NameError>): Result<(seq<T>, nat), NameError> {
    match rest
    case Err(e) => Err(e)
    case Ok((more, end)) => Ok((done + more, end))
  }

  lemma {:induction false} PrefixedStep<T>(done: seq<T>, x: T, rest: Result<(seq<T>, nat), NameError>)
    ensures Prefixed(done, Prefixed([x], rest)) == Prefixed(done + [x], rest)
  {
    if rest.Ok? {
      assert done + ([x] + rest.value.0) == done + [x] + rest.value.0;
    }
  }

  lemma {:induction false} PrefixedEmpty<T>(rest: Result<(seq<T>, nat), NameError>)
    ensures Prefixed([], rest) == rest
  {
    if rest.Ok? {
      assert [] + rest.value.0 == rest.value.0;
    }
  }

  method DecodeQuestions(message: seq<byte>, start: nat, count: nat) returns (r: Result<(seq<Question>, nat),
          NameError>)
    ensures r == ReadQuestions(message, start, count)
  {
    hide ReadQuestion;
    var questions: seq<Question> := [];
    var offset: nat := start;
    var left: nat := count;
    PrefixedEmpty(ReadQuestions(message, start, count));
    while left > 0
      invariant Prefixed(questions, ReadQuestions(message, offset, left)) == ReadQuestions(message, start, count)
    {
      var one := DecodeQuestion(message, offset);
      if one.Err? {
        return Err(one.error);
      }
      PrefixedStep(questions, one.value.0, ReadQuestions(message, one.value.1, left - 1));
      questions := questions + [one.value.0];
      offset := one.value.1;
      left := left - 1;
    }
    assert questions + [] == questions;
    return Ok((questions, offset));
  }

  method DecodeRecords(message: seq<byte>, start: nat, count: nat) returns (r: Result<(seq<Record>, nat), NameError>)
    ensures r == ReadRecords(message, start, count)
  {
    hide ReadRecord;
    var records: seq<Record> := [];
    var offset: nat := start;
    var left: nat := count;
    PrefixedEmpty(ReadRecords(message, start, count));
    while left > 0
      invariant Prefixed(records, ReadRecords(message, offset, left)) == ReadRecords(message, start, count)
    {
      var one := DecodeRecord(message, offset);
      if one.Err? {
        return Err(one.error);
      }
      PrefixedStep(records, one.value.0, ReadRecords(message, one.value.1, left - 1));
      records := records + [one.value.0];
      offset := one.value.1;
      left := left - 1;
    }
    assert records + [] == records;
    return Ok((records, offset));
  }

  method Decode(message: seq<byte>) returns (r: Result<Message, ParseError>)
    ensures r == ReadMessage(message)
  {
    if |message| < 12 {
      return Err(TooShort(|message|));
    }
    var counts := [ReadU16(message, 6), ReadU16(message, 8), ReadU16(message, 10)];
    var questions := DecodeQuestions(message, 12, ReadU16(message, 4));
    if questions.Err? {
      return Err(BadName(questions.error));
    }
    var offset := questions.value.1;
    var answers := DecodeRecords(message, offset, counts[0]);
    if answers.Err? {
      return Err(BadName(answers.error));
    }
    offset := answers.value.1;
    var authority := DecodeRecords(message, offset, counts[1]);
    if authority.Err? {
      return Err(BadName(authority.error));
    }
    offset := authority.value.1;
    var additional := DecodeRecords(message, offset, counts[2]);
    if additional.Err? {
      return Err(BadName(additional.error));
    }
    return Ok(Message(ReadU16(message, 0), ReadU16(message, 2),
                      questions.value.0, answers.value.0, authority.value.0, additional.value.0));
  }

  // ---------------------------------------------------------------------
  // What is read is well-formed
  // ---------------------------------------------------------------------

  lemma {:induction false} ReadQuestionsSound(m: seq<byte>, at: nat, count: nat)
    requires ReadQuestions(m, at, count).Ok?
    ensures var qs := ReadQuestions(m, at, count).value.0;
            |qs| == count && forall i :: 0 <= i < |qs| ==> WellFormedQuestion(qs[i])
    decreases count
  {
    if count > 0 {
      ReadQuestionSound(m, at);
      ReadQuestionsSound(m, ReadQuestion(m, at).value.1, count - 1);
    }
  }

  lemma {:induction false} ReadRecordsSound(m: seq<byte>, at: nat, count: nat)
    requires ReadRecords(m, at, count).Ok?
    ensures var rs := ReadRecords(m, at, count).value.0;
            |rs| == count && forall i :: 0 <= i < |rs| ==> WellFormedRecord(rs[i])
    decreases count
  {
    if count > 0 {
      ReadRecordSound(m, at);
      ReadRecordsSound(m, ReadRecord(m, at).value.1, count - 1);
    }
  }

  /** Whatever bytes arrive, compressed or not: a message that is accepted is well-formed. */
  lemma {:induction false} DecodedIsWellFormed(m: seq<byte>)
    requires ReadMessage(m).Ok?
    ensures WellFormedMessage(ReadMessage(m).value)
  {
    var (_, q) := ReadQuestions(m, 12, ReadU16(m, 4)).value;
    ReadQuestionsSound(m, 12, ReadU16(m, 4));
    var (_, a) := ReadRecords(m, q, ReadU16(m, 6)).value;
    ReadRecordsSound(m, q, ReadU16(m, 6));
    var (_, n) := ReadRecords(m, a, ReadU16(m, 8)).value;
    ReadRecordsSound(m, a, ReadU16(m, 8));
    ReadRecordsSound(m, n, ReadU16(m, 10));
  }

  // ---------------------------------------------------------------------
  // Round trip
  // ---------------------------------------------------------------------

  lemma {:induction false} ReadBackQuestions(m: seq<byte>, at: nat, qs: seq<Question>)
    requires (forall i :: 0 <= i < |qs| ==> WellFormedQuestion(qs[i])) && At(m, at, QuestionsBytes(qs))
    ensures ReadQuestions(m, at, |qs|) == Ok((qs, at + |QuestionsBytes(qs)|))
    decreases |qs|
  {
    hide ReadQuestion, QuestionBytes;
    if qs != [] {
      AtSplit(m, at, QuestionBytes(qs[0]), QuestionsBytes(qs[1..]));
      ReadBackQuestion(m, at, qs[0]);
      ReadBackQuestions(m, at + |QuestionBytes(qs[0])|, qs[1..]);
      assert qs == [qs[0]] + qs[1..];
    }
  }

  lemma {:induction false} ReadBackRecords(m: seq<byte>, at: nat, rs: seq<Record>)
    requires (forall i :: 0 <= i < |rs| ==> SendableRecord(rs[i])) && At(m, at, RecordsBytes(rs))
    ensures ReadRecords(m, at, |rs|) == Ok((AllAsRead(rs), at + |RecordsBytes(rs)|))
    decreases |rs|
  {
    hide ReadRecord, RecordBytes, AsRead, SendableRecord, At;
    if rs != [] {
      AtSplit(m, at, RecordBytes(rs[0]), RecordsBytes(rs[1..]));
      ReadBackSendable(m, at, rs[0]);
      ReadBackRecords(m, at + |RecordBytes(rs[0])|, rs[1..]);
      assert AllAsRead(rs) == [AsRead(rs[0])] + AllAsRead(rs[1..]);
    }
  }

  lemma {:induction false} ReadBackNext(b: seq<byte>, at: nat, x: u16, rest: seq<byte>)
    requires At(b, at, U16(x) + rest)
    ensures at + 2 <= |b| && ReadU16(b, at) == x && At(b, at + 2, rest)
  {
    AtSplit(b, at, U16(x), rest);
    ReadBackU16(b, at, x);
  }

  lemma {:induction false} ReadBackWords(b: seq<byte>, i: u16, f: u16, q: u16, a: u16, n: u16, d: u16)
    requires At(b, 0, U16(i) + U16(f) + U16(q) + U16(a) + U16(n) + U16(d))
    ensures |b| >= 12
    ensures ReadU16(b, 0) == i && ReadU16(b, 2) == f && ReadU16(b, 4) == q
    ensures ReadU16(b, 6) == a && ReadU16(b, 8) == n && ReadU16(b, 10) == d
  {
    hide U16, ReadU16;
    var words := U16(i) + (U16(f) + (U16(q) + (U16(a) + (U16(n) + (U16(d) + [])))));
    assert U16(i) + U16(f) + U16(q) + U16(a) + U16(n) + U16(d) == words;
    assert At(b, 0, words);
    hide At;
    ReadBackNext(b, 0, i, U16(f) + (U16(q) + (U16(a) + (U16(n) + (U16(d) + [])))));
    ReadBackNext(b, 2, f, U16(q) + (U16(a) + (U16(n) + (U16(d) + []))));
    ReadBackNext(b, 4, q, U16(a) + (U16(n) + (U16(d) + [])));
    ReadBackNext(b, 6, a, U16(n) + (U16(d) + []));
    ReadBackNext(b, 8, n, U16(d) + []);
    ReadBackNext(b, 10, d, []);
  }

  lemma {:induction false} ReadBackHeader(b: seq<byte>, m: Message)
    requires SendableMessage(m) && At(b, 0, HeaderBytes(m))
    ensures |b| >= 12
    ensures ReadU16(b, 0) == m.id && ReadU16(b, 2) == m.flags
    ensures ReadU16(b, 4) == |m.questions| && ReadU16(b, 6) == |m.answers|
    ensures ReadU16(b, 8) == |m.authority| && ReadU16(b, 10) == |m.additional|
  {
    hide At, U16, ReadU16;
    ReadBackWords(b, m.id, m.flags, |m.questions|, |m.answers|, |m.authority|, |m.additional|);
  }

  lemma {:induction false} MessageLayout(m: Message)
    ensures var b := MessageBytes(m);
            var q := 12 + |QuestionsBytes(m.questions)|;
            var a := q + |RecordsBytes(m.answers)|;
            var n := a + |RecordsBytes(m.authority)|;
            && At(b, 0, HeaderBytes(m)) && At(b, 12, QuestionsBytes(m.questions)) && At(b, q, RecordsBytes(m.answers))
            && At(b, a, RecordsBytes(m.authority)) && At(b, n, RecordsBytes(m.additional))
  {
    var b := MessageBytes(m);
    var h, q := HeaderBytes(m), QuestionsBytes(m.questions);
    var r1, r2, r3 := RecordsBytes(m.answers), RecordsBytes(m.authority), RecordsBytes(m.additional);
    hide HeaderBytes, QuestionsBytes, RecordsBytes;
    assert At(b, 0, h + q + r1 + r2 + r3);
    hide At;
    AtSplit(b, 0, h + q + r1 + r2, r3);
    AtSplit(b, 0, h + q + r1, r2);
    AtSplit(b, 0, h + q, r1);
    AtSplit(b, 0, h, q);
  }

  /** What any message that can be sent is read as. */
  lemma {:induction false} SentIsReadAs(m: Message)
    requires SendableMessage(m)
    ensures ReadMessage(MessageBytes(m)) == Ok(MessageAsRead(m))
  {
    hide ReadQuestions, ReadRecords, QuestionsBytes, RecordsBytes, HeaderBytes, MessageBytes, AllAsRead;
    var b := MessageBytes(m);
    var q := 12 + |QuestionsBytes(m.questions)|;
    var a := q + |RecordsBytes(m.answers)|;
    var n := a + |RecordsBytes(m.authority)|;
    MessageLayout(m);
    ReadBackHeader(b, m);
    ReadBackQuestions(b, 12, m.questions);
    ReadBackRecords(b, q, m.answers);
    ReadBackRecords(b, a, m.authority);
    ReadBackRecords(b, n, m.additional);
  }

  lemma {:induction false} WellFormedSectionAsRead(rs: seq<Record>)
    requires WellFormedSection(rs)
    ensures SendableSection(rs) && AllAsRead(rs) == rs
  {
    hide AsRead, WellFormedRecord, SendableRecord;
    forall i | 0 <= i < |rs| ensures SendableRecord(rs[i]) && AsRead(rs[i]) == rs[i] {
      WellFormedAsRead(rs[i]);
    }
  }

  lemma {:induction false} WellFormedRoundTrips(m: Message)
    requires WellFormedMessage(m)
    ensures ReadMessage(MessageBytes(m)) == Ok(m)
  {
    hide ReadMessage, MessageBytes, AllAsRead, WellFormedSection, SendableSection;
    WellFormedSectionAsRead(m.answers);
    WellFormedSectionAsRead(m.authority);
    WellFormedSectionAsRead(m.additional);
    SentIsReadAs(m);
  }

  /** Well-formedness is not a convenience of the proof: it is exactly what survives the wire. */
  lemma {:induction false} RoundTripIff(m: Message)
    ensures ReadMessage(MessageBytes(m)) == Ok(m) <==> WellFormedMessage(m)
  {
    if WellFormedMessage(m) {
      WellFormedRoundTrips(m);
    }
    if ReadMessage(MessageBytes(m)) == Ok(m) {
      DecodedIsWellFormed(MessageBytes(m));
    }
  }

  /** Re-encoding whatever was accepted, compression and all, and reading it again changes nothing. */
  lemma {:induction false} Canonicalises(b: seq<byte>)
    requires ReadMessage(b).Ok?
    ensures ReadMessage(MessageBytes(ReadMessage(b).value)) == ReadMessage(b)
  {
    DecodedIsWellFormed(b);
    WellFormedRoundTrips(ReadMessage(b).value);
  }
}
