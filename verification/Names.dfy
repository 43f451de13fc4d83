/** Names as label sequences: their uncompressed encoding, and the pointer grammar that reading follows. */
module Names {
  import opened Wire
  import Sequences

  const MAX_LABEL := 63
  const MAX_NAME := 255
  const MAX_JUMPS := 16
  const JUMP_MARK := 0xC0

  type Label = seq<byte>

  datatype Name = Name(labels: seq<Label>)

  datatype NameError = LabelTooLong(octets: nat) | NameTooLong(octets: nat) | Truncated | PointerLoop

  const ROOT := Name([])

  // ---------------------------------------------------------------------
  // Lengths and well-formedness
  // ---------------------------------------------------------------------

  /** The labels with their length bytes, without the closing zero. */
  function WireLen(labels: seq<Label>): nat {
    if labels == [] then 0 else |labels[0]| + 1 + WireLen(labels[1..])
  }

  function EncodedLen(name: Name): nat {
    WireLen(name.labels) + 1
  }

  predicate LabelsFit(labels: seq<Label>) {
    forall i :: 0 <= i < |labels| ==> 1 <= |labels[i]| <= 63
  }

  /** Exactly the names a message can carry: the reader counts labels and length bytes, not the closing zero. */
  predicate WellFormed(name: Name) {
    LabelsFit(name.labels) && WireLen(name.labels) <= 255
  }

  // ---------------------------------------------------------------------
  // Comparison ignoring case
  // ---------------------------------------------------------------------

  function Lower(b: byte): byte {
    if 65 <= b <= 90 then b + 32 else b
  }

  predicate LabelsEqual(a: Label, b: Label) {
    |a| == |b| && forall i :: 0 <= i < |a| ==> Lower(a[i]) == Lower(b[i])
  }

  predicate EqIgnoreCase(a: Name, b: Name) {
    |a.labels| == |b.labels| && forall i :: 0 <= i < |a.labels| ==> LabelsEqual(a.labels[i], b.labels[i])
  }

  /** The same octet, or the small and the capital form of one ASCII letter. */
  predicate SameLetter(x: byte, y: byte) {
    x == y || (65 <= x <= 90 && y == x + 32) || (97 <= x <= 122 && y == x - 32)
  }

  /** What ignoring case means: nothing but the case of ASCII letters may differ. */
  lemma {:induction false} EqIgnoresCase(a: Name, b: Name)
    ensures EqIgnoreCase(a, b) <==>
            && |a.labels| == |b.labels|
            && forall i :: 0 <= i < |a.labels| ==>
                 && |a.labels[i]| == |b.labels[i]|
                 && forall j :: 0 <= j < |a.labels[i]| ==> SameLetter(a.labels[i][j], b.labels[i][j])
  {
    forall x: byte, y: byte ensures Lower(x) == Lower(y) <==> SameLetter(x, y) {
    }
    hide Lower, SameLetter;
  }

  function FoldLabel(l: Label): Label {
    seq(|l|, i requires 0 <= i < |l| => Lower(l[i]))
  }

  /** The representative of a name's case class. */
  function Fold(n: Name): Name {
    Name(seq(|n.labels|, i requires 0 <= i < |n.labels| => FoldLabel(n.labels[i])))
  }

  lemma {:induction false} EqIsFold(a: Name, b: Name)
    ensures EqIgnoreCase(a, b) <==> Fold(a) == Fold(b)
  {
    if Fold(a) == Fold(b) {
      assert |a.labels| == |Fold(a).labels| == |b.labels|;
      forall i | 0 <= i < |a.labels| ensures LabelsEqual(a.labels[i], b.labels[i]) {
        assert FoldLabel(a.labels[i]) == Fold(a).labels[i] == Fold(b).labels[i] == FoldLabel(b.labels[i]);
        assert |a.labels[i]| == |FoldLabel(a.labels[i])|;
        forall j | 0 <= j < |a.labels[i]| ensures Lower(a.labels[i][j]) == Lower(b.labels[i][j]) {
          assert FoldLabel(a.labels[i])[j] == FoldLabel(b.labels[i])[j];
        }
      }
    }
    if EqIgnoreCase(a, b) {
      forall i | 0 <= i < |a.labels| ensures FoldLabel(a.labels[i]) == FoldLabel(b.labels[i]) {
        assert LabelsEqual(a.labels[i], b.labels[i]);
      }
    }
  }

  // ---------------------------------------------------------------------
  // Writing
  // ---------------------------------------------------------------------

  /** `label.len() as u8` truncates, so an over-long label writes a wrong length byte. */
  function LabelBytes(l: Label): seq<byte> {
    [|l| % 0x100] + l
  }

  function LabelsBytes(labels: seq<Label>): (s: seq<byte>)
    ensures |s| == WireLen(labels)
  {
    if labels == [] then [] else LabelBytes(labels[0]) + LabelsBytes(labels[1..])
  }

  function NameBytes(name: Name): (s: seq<byte>)
    ensures |s| == EncodedLen(name)
  {
    LabelsBytes(name.labels) + [0]
  }

  method EncodeName(name: Name, out: Buffer)
    modifies out
    ensures out.bytes == old(out.bytes) + NameBytes(name)
  {
    hide LabelsBytes;
    LabelsCons([]);
    Sequences.Whole(name.labels);
    var i := 0;
    while i < |name.labels|
      invariant 0 <= i <= |name.labels|
      invariant out.bytes + LabelsBytes(name.labels[i..]) == old(out.bytes) + LabelsBytes(name.labels)
    {
      var l := name.labels[i];
      Sequences.DropTail(name.labels, i);
      LabelsCons(name.labels[i..]);
      ghost var before := out.bytes;
      out.Push(|l| % 0x100);
      out.Extend(l);
      assert out.bytes == before + LabelBytes(l);
      Sequences.Assoc(before, LabelBytes(l), LabelsBytes(name.labels[i + 1..]));
      i := i + 1;
    }
    Sequences.Empty(out.bytes);
    out.Push(0);
    Sequences.Assoc(old(out.bytes), LabelsBytes(name.labels), [0]);
  }

  // ---------------------------------------------------------------------
  // Reading
  // ---------------------------------------------------------------------

  function Target(m: seq<byte>, at: nat): nat
    requires at + 1 < |m| && m[at] >= JUMP_MARK
  {
    (m[at] - JUMP_MARK) * 0x100 + m[at + 1]
  }

  /**
   * What the reader does from `at`, having followed `jumps` pointers and counted `total` bytes. The two
   * budgets make it total; the labels and the continuation offset come back up the recursion.
   */
  function Expand(m: seq<byte>, at: nat, jumps: nat, total: nat): Result<(seq<Label>, nat), NameError>
    requires jumps <= MAX_JUMPS
    decreases MAX_JUMPS - jumps, |m| - at
  {
    if at >= |m| then Err(Truncated)
    else if m[at] == 0 then Ok(([], at + 1))
    else if m[at] >= JUMP_MARK then
      if at + 1 >= |m| then Err(Truncated)
      else if jumps == MAX_JUMPS then Err(PointerLoop)
      else if Target(m, at) >= |m| then Err(Truncated)
      else if Target(m, at) >= at then Err(PointerLoop)
      else
        var (labels, _) :- Expand(m, Target(m, at), jumps + 1, total);
        Ok((labels, at + 2))
    else if m[at] > MAX_LABEL then Err(LabelTooLong(m[at]))
    else
      var end := at + 1 + m[at];
      if end > |m| then Err(Truncated)
      else if total + m[at] + 1 > MAX_NAME then Err(NameTooLong(total + m[at] + 1))
      else
        var (labels, next) :- Expand(m, end, jumps, total + m[at] + 1);
        Ok(([m[at + 1..end]] + labels, next))
  }

  function ReadName(m: seq<byte>, start: nat): Result<(Name, nat), NameError> {
    var (labels, next) :- Expand(m, start, 0, 0);
    Ok((Name(labels), next))
  }

  /** Puts the loop's accumulated labels and remembered continuation around what is still to be read. */
  ghost function Graft(prefix: seq<Label>, next: Option<nat>, rest: Result<(seq<Label>, nat), NameError>)
    : Result<(Name, nat), NameError>
  {
    match rest
    case Err(e) => Err(e)
    case Ok((labels, after)) => Ok((Name(prefix + labels), if next.Some? then next.value else after))
  }

  lemma {:induction false} GraftPointer(m: seq<byte>, at: nat, jumps: nat, total: nat, prefix: seq<Label>,
                                        next: Option<nat>)
    requires jumps < MAX_JUMPS && at + 1 < |m| && m[at] >= JUMP_MARK && Target(m, at) < at
    ensures Graft(prefix, next, Expand(m, at, jumps, total))
         == Graft(prefix, if next.Some? then next else Some(at + 2), Expand(m, Target(m, at), jumps + 1, total))
  {
  }

  lemma {:induction false} GraftLabel(m: seq<byte>, at: nat, jumps: nat, total: nat, prefix: seq<Label>,
                                      next: Option<nat>)
    requires jumps <= MAX_JUMPS && at < |m| && 0 < m[at] <= MAX_LABEL && at + 1 + m[at] <= |m|
    requires total + m[at] + 1 <= MAX_NAME
    ensures var end := at + 1 + m[at];
            Graft(prefix, next, Expand(m, at, jumps, total))
            == Graft(prefix + [m[at + 1..end]], next, Expand(m, end, jumps, total + m[at] + 1))
  {
    var end := at + 1 + m[at];
    var rest := Expand(m, end, jumps, total + m[at] + 1);
    if rest.Ok? {
      Sequences.Assoc(prefix, [m[at + 1..end]], rest.value.0);
    }
  }

  lemma {:induction false} GraftNothing(rest: Result<(seq<Label>, nat), NameError>)
    ensures rest.Ok? ==> Graft([], None, rest) == Ok((Name(rest.value.0), rest.value.1))
    ensures rest.Err? ==> Graft([], None, rest) == Err(rest.error)
  {
    if rest.Ok? {
      Sequences.Empty(rest.value.0);
    }
  }

  method DecodeName(message: seq<byte>, start: nat) returns (r: Result<(Name, nat), NameError>)
    ensures r == ReadName(message, start)
  {
    var labels: seq<Label> := [];
    var offset: nat := start;
    var next: Option<nat> := None;
    var jumps: nat := 0;
    var total: nat := 0;
    GraftNothing(Expand(message, start, 0, 0));
    while true
      invariant jumps <= MAX_JUMPS
      invariant Graft(labels, next, Expand(message, offset, jumps, total)) == ReadName(message, start)
      decreases MAX_JUMPS - jumps, |message| - offset
    {
      if offset >= |message| {
        return Err(Truncated);
      }
      var length := message[offset];
      if length == 0 {
        Sequences.Empty(labels);
        return Ok((Name(labels), if next.Some? then next.value else offset + 1));
      }
      if length >= JUMP_MARK {
        if offset + 1 >= |message| {
          return Err(Truncated);
        }
        if jumps + 1 > MAX_JUMPS {
          return Err(PointerLoop);
        }
        jumps := jumps + 1;
        var target := (length - JUMP_MARK) * 0x100 + message[offset + 1];
        ghost var was := next;
        if next == None {
          next := Some(offset + 2);
        }
        if target >= |message| {
          return Err(Truncated);
        }
        if target >= offset {
          return Err(PointerLoop);
        }
        GraftPointer(message, offset, jumps - 1, total, labels, was);
        offset := target;
        continue;
      }
      if length > MAX_LABEL {
        return Err(LabelTooLong(length));
      }
      var end := offset + 1 + length;
      if end > |message| {
        return Err(Truncated);
      }
      if total + length + 1 > MAX_NAME {
        return Err(NameTooLong(total + length + 1));
      }
      GraftLabel(message, offset, jumps, total, labels, next);
      total := total + length + 1;
      labels := labels + [message[offset + 1..end]];
      offset := end;
    }
  }

  // ---------------------------------------------------------------------
  // What a name at an offset means (RFC 1035 section 4.1.4)
  // ---------------------------------------------------------------------

  /** Where the pointer whose two octets these are leads: the lower fourteen of their sixteen bits. */
  function PointsAt(high: byte, low: byte): int {
    (high as int * 0x100 + low) % 0x4000
  }

  /** Following exactly `hops` backward pointers, the bytes at `at` spell `labels` and then a zero. */
  ghost predicate Denotes(m: seq<byte>, at: nat, labels: seq<Label>, hops: nat)
    decreases hops, |labels|
  {
    && at < |m|
    && if m[at] == 0 then labels == [] && hops == 0
       else if m[at] >= 192 then
         && at + 1 < |m| && PointsAt(m[at], m[at + 1]) < at && hops > 0
         && Denotes(m, PointsAt(m[at], m[at + 1]), labels, hops - 1)
       else
         && m[at] <= 63
         && at + 1 + m[at] <= |m|
         && labels != [] && labels[0] == m[at + 1..at + 1 + m[at]]
         && Denotes(m, at + 1 + m[at], labels[1..], hops)
  }

  /** Where the in-place part of a name ends: past its zero, or past its first pointer. */
  ghost function After(m: seq<byte>, at: nat): nat
    decreases |m| - at
  {
    if at >= |m| then at
    else if m[at] == 0 then at + 1
    else if m[at] >= 192 then at + 2
    else After(m, at + 1 + m[at])
  }

  lemma {:induction false} TargetIsMeant(m: seq<byte>, at: nat)
    requires at + 1 < |m| && m[at] >= 192
    ensures Target(m, at) == PointsAt(m[at], m[at + 1])
  {
  }

  lemma {:induction false} ExpandDenotes(m: seq<byte>, at: nat, jumps: nat, total: nat) returns (hops: nat)
    requires jumps <= MAX_JUMPS && Expand(m, at, jumps, total).Ok?
    ensures var (labels, next) := Expand(m, at, jumps, total).value;
            && Denotes(m, at, labels, hops) && jumps + hops <= MAX_JUMPS
            && (labels != [] ==> total + WireLen(labels) <= MAX_NAME)
            && next == After(m, at) && at < next <= |m| && LabelsFit(labels)
    decreases MAX_JUMPS - jumps, |m| - at
  {
    if at + 1 < |m| && m[at] >= 192 {
      TargetIsMeant(m, at);
    }
    hide PointsAt, Target;
    if m[at] == 0 {
      hops := 0;
    } else if m[at] >= JUMP_MARK {
      var h := ExpandDenotes(m, Target(m, at), jumps + 1, total);
      hops := h + 1;
    } else {
      hops := ExpandDenotes(m, at + 1 + m[at], jumps, total + m[at] + 1);
      var labels := Expand(m, at, jumps, total).value.0;
      assert labels[1..] == Expand(m, at + 1 + m[at], jumps, total + m[at] + 1).value.0;
    }
  }

  lemma {:induction false} DenotedExpands(m: seq<byte>, at: nat, jumps: nat, total: nat, labels: seq<Label>, hops: nat)
    requires Denotes(m, at, labels, hops) && jumps + hops <= MAX_JUMPS
    requires labels == [] || total + WireLen(labels) <= MAX_NAME
    ensures Expand(m, at, jumps, total) == Ok((labels, After(m, at)))
    decreases hops, |labels|
  {
    if at + 1 < |m| && m[at] >= 192 {
      TargetIsMeant(m, at);
    }
    hide PointsAt, Target;
    if m[at] == 0 {
    } else if m[at] >= JUMP_MARK {
      DenotedExpands(m, Target(m, at), jumps + 1, total, labels, hops - 1);
    } else {
      DenotedExpands(m, at + 1 + m[at], jumps, total + m[at] + 1, labels[1..], hops);
      assert labels == [labels[0]] + labels[1..];
    }
  }

  ghost predicate Spells(m: seq<byte>, at: nat, labels: seq<Label>) {
    exists hops: nat :: hops <= 16 && Denotes(m, at, labels, hops)
  }

  /** The reader accepts exactly the names the pointer grammar spells within its two budgets. */
  lemma {:induction false} ReadNameExactly(m: seq<byte>, start: nat, name: Name, next: nat)
    ensures ReadName(m, start) == Ok((name, next)) <==>
            next == After(m, start) && WireLen(name.labels) <= 255 && Spells(m, start, name.labels)
  {
    if ReadName(m, start) == Ok((name, next)) {
      var hops := ExpandDenotes(m, start, 0, 0);
      assert Denotes(m, start, name.labels, hops);
    }
    if next == After(m, start) && WireLen(name.labels) <= MAX_NAME && Spells(m, start, name.labels) {
      var hops: nat :| hops <= MAX_JUMPS && Denotes(m, start, name.labels, hops);
      DenotedExpands(m, start, 0, 0, name.labels, hops);
    }
  }

  /** A name that was read is well-formed, and reading moved forward and stayed inside the message. */
  lemma {:induction false} ReadNameSound(m: seq<byte>, start: nat)
    requires ReadName(m, start).Ok?
    ensures WellFormed(ReadName(m, start).value.0)
    ensures start < ReadName(m, start).value.1 <= |m|
  {
    var hops := ExpandDenotes(m, start, 0, 0);
  }

  // ---------------------------------------------------------------------
  // Round trip
  // ---------------------------------------------------------------------

  lemma {:induction false} WrittenLabel(m: seq<byte>, at: nat, l: Label, rest: seq<byte>)
    requires |l| <= MAX_LABEL && At(m, at, LabelBytes(l) + rest)
    ensures at + 1 + |l| <= |m| && m[at] == |l| && m[at + 1..at + 1 + |l|] == l && At(m, at + 1 + |l|, rest)
  {
    AtSplit(m, at, LabelBytes(l), rest);
    AtSplit(m, at, [|l| % 0x100], l);
    assert m[at] == m[at..at + 1][0];
  }

  lemma {:induction false} LabelsCons(labels: seq<Label>)
    ensures LabelsBytes([]) == [] && WireLen([]) == 0
    ensures labels != [] ==> LabelsBytes(labels) == LabelBytes(labels[0]) + LabelsBytes(labels[1..])
    ensures labels != [] ==> WireLen(labels) == |labels[0]| + 1 + WireLen(labels[1..])
  {
  }

  lemma {:induction false} DenoteStep(m: seq<byte>, at: nat, labels: seq<Label>)
    requires labels != [] && at < |m| && 0 < m[at] <= MAX_LABEL && at + 1 + m[at] <= |m|
    requires labels[0] == m[at + 1..at + 1 + m[at]] && Denotes(m, at + 1 + m[at], labels[1..], 0)
    ensures Denotes(m, at, labels, 0) && After(m, at) == After(m, at + 1 + m[at])
  {
  }

  lemma {:induction false} RootDenotes(m: seq<byte>, at: nat)
    requires At(m, at, [0])
    ensures Denotes(m, at, [], 0) && After(m, at) == at + 1
  {
    assert m[at] == m[at..at + 1][0];
  }

  lemma {:induction false} WrittenLabelsDenote(m: seq<byte>, at: nat, labels: seq<Label>)
    requires LabelsFit(labels) && At(m, at, LabelsBytes(labels) + [0])
    ensures Denotes(m, at, labels, 0) && After(m, at) == at + WireLen(labels) + 1
    decreases |labels|
  {
    LabelsCons(labels);
    hide LabelsBytes, LabelBytes, WireLen, Denotes, After, At;
    if labels == [] {
      Sequences.Empty([0]);
      RootDenotes(m, at);
    } else {
      Sequences.Assoc(LabelBytes(labels[0]), LabelsBytes(labels[1..]), [0]);
      WrittenLabel(m, at, labels[0], LabelsBytes(labels[1..]) + [0]);
      WrittenLabelsDenote(m, at + 1 + |labels[0]|, labels[1..]);
      DenoteStep(m, at, labels);
    }
  }

  /** A well-formed name written anywhere in a message is read back whole. */
  lemma {:induction false} ReadBackName(m: seq<byte>, at: nat, name: Name)
    requires WellFormed(name) && At(m, at, NameBytes(name))
    ensures ReadName(m, at) == Ok((name, at + EncodedLen(name)))
  {
    WrittenLabelsDenote(m, at, name.labels);
    DenotedExpands(m, at, 0, 0, name.labels, 0);
  }

  /**
   * The limit the reader really applies. RFC 1035 section 2.3.4 and `Name::parse` stop at 255 encoded
   * octets; the reader leaves the root octet out of its count and so takes 256.
   */
  lemma {:induction false} NameRoundTripsIff(name: Name)
    requires LabelsFit(name.labels)
    ensures ReadName(NameBytes(name), 0) == Ok((name, EncodedLen(name))) <==> EncodedLen(name) <= 256
  {
    var m := NameBytes(name);
    assert At(m, 0, m);
    if WellFormed(name) {
      ReadBackName(m, 0, name);
    }
    if ReadName(m, 0) == Ok((name, EncodedLen(name))) {
      ReadNameSound(m, 0);
    }
  }

  // ---------------------------------------------------------------------
  // Compressed names (RFC 1035 section 4.1.4)
  // ---------------------------------------------------------------------

  lemma {:induction false} PointerDenotes(m: seq<byte>, at: nat, p: nat, labels: seq<Label>, hops: nat)
    requires p < at && p < 0x4000 && At(m, at, U16(0xC000 + p)) && Denotes(m, p, labels, hops)
    ensures Denotes(m, at, labels, hops + 1) && After(m, at) == at + 2
  {
    var two := m[at..at + 2];
    assert two[0] == m[at] && two[1] == m[at + 1];
    assert m[at] == 192 + p / 0x100 && m[at + 1] == p % 0x100;
    assert PointsAt(m[at], m[at + 1]) == p;
  }

  lemma {:induction false} LabelDenotes(m: seq<byte>, at: nat, l: Label, labels: seq<Label>, hops: nat)
    requires 1 <= |l| <= 63 && at + 1 + |l| <= |m| && m[at] == |l| && m[at + 1..at + 1 + |l|] == l
    requires Denotes(m, at + 1 + |l|, labels, hops)
    ensures Denotes(m, at, [l] + labels, hops) && After(m, at) == After(m, at + 1 + |l|)
  {
    assert ([l] + labels)[1..] == labels;
  }

  lemma {:induction false} FrontDenotes(m: seq<byte>, at: nat, front: seq<Label>, p: nat, labels: seq<Label>, hops: nat)
    requires LabelsFit(front) && p < at && p < 0x4000 && Denotes(m, p, labels, hops)
    requires At(m, at, LabelsBytes(front) + U16(0xC000 + p))
    ensures Denotes(m, at, front + labels, hops + 1) && After(m, at) == at + WireLen(front) + 2
    decreases |front|
  {
    LabelsCons(front);
    hide LabelsBytes, LabelBytes, WireLen, Denotes, After, At, U16;
    if front == [] {
      Sequences.Empty(U16(0xC000 + p));
      Sequences.Empty(labels);
      PointerDenotes(m, at, p, labels, hops);
    } else {
      var l, rest := front[0], front[1..];
      Sequences.Assoc(LabelBytes(l), LabelsBytes(rest), U16(0xC000 + p));
      WrittenLabel(m, at, l, LabelsBytes(rest) + U16(0xC000 + p));
      FrontDenotes(m, at + 1 + |l|, rest, p, labels, hops);
      LabelDenotes(m, at, l, rest + labels, hops + 1);
      Sequences.Assoc([l], rest, labels);
      assert [l] + rest == front;
    }
  }

  lemma {:induction false} WireLenConcat(a: seq<Label>, b: seq<Label>)
    ensures WireLen(a + b) == WireLen(a) + WireLen(b)
  {
    if a == [] {
      assert a + b == b;
    } else {
      assert (a + b)[1..] == a[1..] + b;
      WireLenConcat(a[1..], b);
    }
  }

  /** Labels in front of a pointer to a name written earlier are read as those labels and that name. */
  lemma {:induction false} ReadCompressedName(m: seq<byte>, at: nat, front: seq<Label>, p: nat, name: Name)
    requires p < at && p < 0x4000 && At(m, p, NameBytes(name)) && At(m, at, LabelsBytes(front) + U16(0xC000 + p))
    requires WellFormed(name) && WellFormed(Name(front + name.labels)) && LabelsFit(front)
    ensures ReadName(m, at) == Ok((Name(front + name.labels), at + WireLen(front) + 2))
  {
    WrittenLabelsDenote(m, p, name.labels);
    FrontDenotes(m, at, front, p, name.labels, 0);
    assert Spells(m, at, front + name.labels);
    hide Denotes, After, At, NameBytes;
    ReadNameExactly(m, at, Name(front + name.labels), at + WireLen(front) + 2);
  }

  /** A zero octet, and behind it `k` pointers, each to the one before it. */
  function Chain(k: nat): (m: seq<byte>)
    requires k < 0x2000
    ensures |m| == 1 + 2 * k
  {
    if k == 0 then [0] else Chain(k - 1) + U16(0xC000 + if k == 1 then 0 else 2 * k - 3)
  }

  lemma {:induction false} EndsWithPointer(m: seq<byte>, front: seq<byte>, last: seq<byte>)
    requires front + last <= m
    ensures front <= m && At(m, |front|, last)
  {
    var all := front + last;
    assert all == m[..|all|];
    assert m[|front|..|all|] == all[|front|..] == last;
  }

  lemma {:induction false} AtRoot(m: seq<byte>)
    requires [0] <= m
    ensures Denotes(m, 0, [], 0)
  {
  }

  lemma {:induction false} ChainDenotes(m: seq<byte>, k: nat)
    requires 0 < k < 0x2000 && Chain(k) <= m
    ensures Denotes(m, 2 * k - 1, [], k)
  {
    var last := U16(0xC000 + if k == 1 then 0 else 2 * k - 3);
    var front := Chain(k - 1);
    assert Chain(k) == front + last;
    EndsWithPointer(m, front, last);
    hide Denotes, U16;
    if k == 1 {
      assert front == [0];
      hide Chain;
      AtRoot(m);
      PointerDenotes(m, 1, 0, [], 0);
    } else {
      hide Chain;
      ChainDenotes(m, k - 1);
      PointerDenotes(m, 2 * k - 1, 2 * k - 3, [], k - 1);
    }
  }

  lemma {:induction false} OneDenotation(m: seq<byte>, at: nat, a: seq<Label>, g: nat, b: seq<Label>, h: nat)
    requires Denotes(m, at, a, g) && Denotes(m, at, b, h)
    ensures a == b && g == h
    decreases g, |a|
  {
    if m[at] == 0 {
    } else if m[at] >= 192 {
      OneDenotation(m, PointsAt(m[at], m[at + 1]), a, g - 1, b, h - 1);
    } else {
      OneDenotation(m, at + 1 + m[at], a[1..], g, b[1..], h);
      assert a == [a[0]] + a[1..] && b == [b[0]] + b[1..];
    }
  }

  /** Sixteen pointers are followed and no more. */
  lemma {:induction false} SixteenJumps(k: nat)
    requires 0 < k < 0x2000
    ensures ReadName(Chain(k), 2 * k - 1).Ok? <==> k <= 16
  {
    var m := Chain(k);
    ChainDenotes(m, k);
    hide Chain, Denotes, After, ReadName, WireLen;
    assert WireLen([]) == 0 by { LabelsCons([]); }
    if k <= 16 {
      assert Spells(m, 2 * k - 1, []);
      ReadNameExactly(m, 2 * k - 1, ROOT, After(m, 2 * k - 1));
    }
    if ReadName(m, 2 * k - 1).Ok? {
      var (name, next) := ReadName(m, 2 * k - 1).value;
      ReadNameExactly(m, 2 * k - 1, name, next);
      var hops: nat :| hops <= 16 && Denotes(m, 2 * k - 1, name.labels, hops);
      OneDenotation(m, 2 * k - 1, name.labels, hops, [], k);
    }
  }

  /** What stops reading at the first octet, and how it is reported. */
  lemma {:induction false} ReadingStops(m: seq<byte>, at: nat)
    ensures at >= |m| ==> ReadName(m, at) == Err(Truncated)
    ensures at < |m| && 64 <= m[at] <= 191 ==> ReadName(m, at) == Err(LabelTooLong(m[at]))
    ensures at < |m| && 1 <= m[at] <= 63 && at + 1 + m[at] > |m| ==> ReadName(m, at) == Err(Truncated)
    ensures at < |m| && m[at] >= 192 && at + 1 == |m| ==> ReadName(m, at) == Err(Truncated)
    ensures at + 1 < |m| && m[at] >= 192 && PointsAt(m[at], m[at + 1]) >= |m| ==> ReadName(m, at) == Err(Truncated)
    ensures at + 1 < |m| && m[at] >= 192 && at <= PointsAt(m[at], m[at + 1]) < |m| ==>
              ReadName(m, at) == Err(PointerLoop)
  {
  }
}
