/** The comparison two simultaneous probers run, RFC 6762 section 8.2. */
module TieBreaking {
  import opened Wire
  import opened Names
  import opened Records
  import Sequences

  datatype Ordering = Less | Equal | Greater

  function Reverse(o: Ordering): Ordering {
    match o
    case Less => Greater
    case Equal => Equal
    case Greater => Less
  }

  // ---------------------------------------------------------------------
  // Lexicographic comparison over any total order
  // ---------------------------------------------------------------------

  ghost predicate TotalOrder<T(!new)>(cmp: (T, T) -> Ordering) {
    && (forall a, b :: cmp(a, b) == Equal <==> a == b)
    && (forall a, b :: cmp(b, a) == Reverse(cmp(a, b)))
    && (forall a, b, c :: cmp(a, b) == Less && cmp(b, c) == Less ==> cmp(a, c) == Less)
  }

  function Lex<T>(cmp: (T, T) -> Ordering, a: seq<T>, b: seq<T>): Ordering {
    if a == [] then if b == [] then Equal else Less
    else if b == [] then Greater
    else if cmp(a[0], b[0]) != Equal then cmp(a[0], b[0])
    else Lex(cmp, a[1..], b[1..])
  }

  lemma {:induction false} LexEqual<T(!new)>(cmp: (T, T) -> Ordering, a: seq<T>, b: seq<T>)
    requires TotalOrder(cmp)
    ensures Lex(cmp, a, b) == Equal <==> a == b
    ensures Lex(cmp, b, a) == Reverse(Lex(cmp, a, b))
  {
    if a != [] && b != [] {
      LexEqual(cmp, a[1..], b[1..]);
      assert cmp(b[0], a[0]) == Reverse(cmp(a[0], b[0]));
      if a[0] == b[0] && a[1..] == b[1..] {
        assert a == [a[0]] + a[1..] && b == [b[0]] + b[1..];
      }
    }
  }

  lemma {:induction false} LexTransitive<T(!new)>(cmp: (T, T) -> Ordering, a: seq<T>, b: seq<T>, c: seq<T>)
    requires TotalOrder(cmp) && Lex(cmp, a, b) == Less && Lex(cmp, b, c) == Less
    ensures Lex(cmp, a, c) == Less
  {
    if a != [] {
      if cmp(a[0], b[0]) == Equal && cmp(b[0], c[0]) == Equal {
        LexTransitive(cmp, a[1..], b[1..], c[1..]);
      }
    }
  }

  lemma {:induction false} LexTotal<T(!new)>(cmp: (T, T) -> Ordering)
    requires TotalOrder(cmp)
    ensures TotalOrder((a: seq<T>, b: seq<T>) => Lex(cmp, a, b))
  {
    var lex := (a: seq<T>, b: seq<T>) => Lex(cmp, a, b);
    forall a, b ensures (lex(a, b) == Equal <==> a == b) && lex(b, a) == Reverse(lex(a, b)) {
      LexEqual(cmp, a, b);
    }
    forall a, b, c | lex(a, b) == Less && lex(b, c) == Less ensures lex(a, c) == Less {
      LexTransitive(cmp, a, b, c);
    }
  }

  // ---------------------------------------------------------------------
  // Byte strings, and lists of them
  // ---------------------------------------------------------------------

  type Bytes = seq<byte>

  function CompareByte(a: byte, b: byte): Ordering {
    if a < b then Less else if a == b then Equal else Greater
  }

  function CompareBytes(a: Bytes, b: Bytes): Ordering {
    Lex(CompareByte, a, b)
  }

  lemma {:induction false} BytesTotal()
    ensures TotalOrder(CompareBytes)
  {
    LexTotal(CompareByte);
    var lex := (a: Bytes, b: Bytes) => Lex(CompareByte, a, b);
    assert forall a: Bytes, b: Bytes :: CompareBytes(a, b) == lex(a, b);
  }

  ghost predicate Sorted(s: seq<Bytes>) {
    forall i, j :: 0 <= i < j < |s| ==> CompareBytes(s[i], s[j]) != Greater
  }

  function Insert(x: Bytes, s: seq<Bytes>): seq<Bytes> {
    if s == [] then [x]
    else if CompareBytes(x, s[0]) == Greater then [s[0]] + Insert(x, s[1..])
    else [x] + s
  }

  /** `Vec::sort` on byte strings; any sorting function agrees with it by `SortedUnique`. */
  function Sort(s: seq<Bytes>): seq<Bytes> {
    if s == [] then [] else Insert(s[0], Sort(s[1..]))
  }

  lemma {:induction false} InsertContents(x: Bytes, s: seq<Bytes>)
    ensures multiset(Insert(x, s)) == multiset{x} + multiset(s)
  {
    hide CompareBytes;
    if s != [] {
      assert s == [s[0]] + s[1..];
      InsertContents(x, s[1..]);
    }
  }

  /** Putting something no larger in front of a sorted list. */
  lemma {:induction false} ConsSorted(x: Bytes, s: seq<Bytes>)
    requires Sorted(s) && forall y :: y in s ==> CompareBytes(x, y) != Greater
    ensures Sorted([x] + s)
  {
    hide CompareBytes;
    var t := [x] + s;
    forall i, j | 0 <= i < j < |t| ensures CompareBytes(t[i], t[j]) != Greater {
      assert t[j] == s[j - 1];
      assert i > 0 ==> t[i] == s[i - 1];
    }
  }

  lemma {:induction false} InsertSorts(x: Bytes, s: seq<Bytes>)
    requires Sorted(s)
    ensures Sorted(Insert(x, s))
  {
    BytesTotal();
    hide CompareBytes;
    if s == [] {
    } else if CompareBytes(x, s[0]) == Greater {
      assert Sorted(s[1..]);
      InsertSorts(x, s[1..]);
      InsertContents(x, s[1..]);
      forall y | y in Insert(x, s[1..]) ensures CompareBytes(s[0], y) != Greater {
        assert y in multiset(Insert(x, s[1..]));
      }
      ConsSorted(s[0], Insert(x, s[1..]));
    } else {
      ConsSorted(x, s);
    }
  }

  lemma {:induction false} SortSorts(s: seq<Bytes>)
    ensures Sorted(Sort(s)) && multiset(Sort(s)) == multiset(s)
  {
    if s != [] {
      SortSorts(s[1..]);
      InsertSorts(s[0], Sort(s[1..]));
      InsertContents(s[0], Sort(s[1..]));
      assert s == [s[0]] + s[1..];
    }
  }

  lemma {:induction false} SortedHead(a: seq<Bytes>, b: seq<Bytes>)
    requires Sorted(a) && Sorted(b) && multiset(a) == multiset(b) && a != []
    ensures b != [] && a[0] == b[0]
  {
    BytesTotal();
    assert a[0] in multiset(b);
    assert b[0] in multiset(a);
    var i :| 0 <= i < |b| && b[i] == a[0];
    var j :| 0 <= j < |a| && a[j] == b[0];
    assert CompareBytes(b[0], a[0]) != Greater;
    assert CompareBytes(a[0], b[0]) != Greater;
  }

  lemma {:induction false} TailContents(a: seq<Bytes>)
    requires a != []
    ensures multiset(a[1..]) == multiset(a) - multiset{a[0]}
  {
    assert a == [a[0]] + a[1..];
  }

  /** A sorted list is determined by its contents. */
  lemma {:induction false} SortedUnique(a: seq<Bytes>, b: seq<Bytes>)
    requires Sorted(a) && Sorted(b) && multiset(a) == multiset(b)
    ensures a == b
  {
    if a == [] {
      assert |multiset(b)| == 0;
    } else {
      SortedHead(a, b);
      TailContents(a);
      TailContents(b);
      SortedTail(a);
      SortedTail(b);
      hide Sorted;
      SortedUnique(a[1..], b[1..]);
      assert a == [a[0]] + a[1..] && b == [b[0]] + b[1..];
    }
  }

  lemma {:induction false} SortedTail(a: seq<Bytes>)
    requires Sorted(a) && a != []
    ensures Sorted(a[1..])
  {
    hide CompareBytes;
    assert forall i :: 0 <= i < |a| - 1 ==> a[1..][i] == a[i + 1];
  }

  // ---------------------------------------------------------------------
  // The tie-break
  // ---------------------------------------------------------------------

  /** The octets that claims are compared by. */
  function SortKey(r: Record): Bytes {
    U16(r.class_) + U16(RType(r.data)) + DataBytes(r.data)
  }

  /** Writes the record under the root name and cuts the eleven bytes before its data off again. */
  method Sortable(r: Record) returns (out: Bytes)
    ensures out == SortKey(r)
  {
    out := U16(r.class_);
    out := out + U16(RType(r.data));
    var rdata := new Buffer();
    EncodeRecord(r.(name := ROOT), rdata);
    ghost var head := NameBytes(ROOT) + FixedBytes(r.(name := ROOT)) + U16(|DataBytes(r.data)| % 0x1_0000);
    assert |head| == 11 && rdata.bytes == head + DataBytes(r.data);
    out := out + rdata.bytes[11..];
  }

  function Keys(rs: seq<Record>): (ks: seq<Bytes>)
    ensures |ks| == |rs|
  {
    seq(|rs|, i requires 0 <= i < |rs| => SortKey(rs[i]))
  }

  function Verdict(ours: seq<Record>, theirs: seq<Record>): Ordering {
    Lex(CompareBytes, Sort(Keys(ours)), Sort(Keys(theirs)))
  }

  method SortableAll(rs: seq<Record>) returns (keys: seq<Bytes>)
    ensures keys == Keys(rs)
  {
    keys := [];
    for i := 0 to |rs|
      invariant |keys| == i && forall j :: 0 <= j < i ==> keys[j] == SortKey(rs[j])
    {
      var k := Sortable(rs[i]);
      keys := keys + [k];
    }
  }

  method TieBreak(ours: seq<Record>, theirs: seq<Record>) returns (o: Ordering)
    ensures o == Verdict(ours, theirs)
  {
    var a := SortableAll(ours);
    var b := SortableAll(theirs);
    a := Sort(a);
    b := Sort(b);
    var i := 0;
    while i < |a| && i < |b|
      invariant i <= |a| && i <= |b|
      invariant Lex(CompareBytes, a[i..], b[i..]) == Lex(CompareBytes, a, b)
    {
      assert a[i..][1..] == a[i + 1..] && b[i..][1..] == b[i + 1..];
      if CompareBytes(a[i], b[i]) != Equal {
        return CompareBytes(a[i], b[i]);
      }
      i := i + 1;
    }
    return if |a| < |b| then Less else if |a| == |b| then Equal else Greater;
  }

  /** The verdict depends only on the two multisets of keys, not on the order in which records are listed. */
  lemma {:induction false} VerdictOnMultisets(a: seq<Record>, a1: seq<Record>, b: seq<Record>, b1: seq<Record>)
    requires multiset(Keys(a)) == multiset(Keys(a1)) && multiset(Keys(b)) == multiset(Keys(b1))
    ensures Verdict(a, b) == Verdict(a1, b1)
  {
    SortSorts(Keys(a));
    SortSorts(Keys(a1));
    SortSorts(Keys(b));
    SortSorts(Keys(b1));
    SortedUnique(Sort(Keys(a)), Sort(Keys(a1)));
    SortedUnique(Sort(Keys(b)), Sort(Keys(b1)));
  }

  /** On those multisets it is a total order: equal exactly when they are, turning round when they swap, transitive. */
  lemma {:induction false} VerdictIsTotalOrder(a: seq<Record>, b: seq<Record>, c: seq<Record>)
    ensures Verdict(a, b) == Equal <==> multiset(Keys(a)) == multiset(Keys(b))
    ensures Verdict(b, a) == Reverse(Verdict(a, b))
    ensures Verdict(a, b) == Less && Verdict(b, c) == Less ==> Verdict(a, c) == Less
  {
    BytesTotal();
    var x, y, z := Sort(Keys(a)), Sort(Keys(b)), Sort(Keys(c));
    LexEqual(CompareBytes, x, y);
    if Verdict(a, b) == Less && Verdict(b, c) == Less {
      LexTransitive(CompareBytes, x, y, z);
    }
    SortSorts(Keys(a));
    SortSorts(Keys(b));
    if multiset(Keys(a)) == multiset(Keys(b)) {
      SortedUnique(x, y);
    }
  }

  // ---------------------------------------------------------------------
  // Which side loses
  // ---------------------------------------------------------------------

  /** `a` is the earlier string: at the first place where they differ it has ended or holds the smaller octet. */
  ghost predicate Before(a: Bytes, b: Bytes) {
    exists i :: 0 <= i <= |a| && i < |b| && a[..i] == b[..i] && (i < |a| ==> a[i] < b[i])
  }

  lemma {:induction false} BeforeStep(a: Bytes, b: Bytes)
    requires a != [] && b != []
    ensures Before(a, b) <==> a[0] < b[0] || (a[0] == b[0] && Before(a[1..], b[1..]))
  {
    if i :| 0 <= i <= |a| && i < |b| && a[..i] == b[..i] && (i < |a| ==> a[i] < b[i]) {
      if i > 0 {
        Sequences.PrefixTail(a, i);
        Sequences.PrefixTail(b, i);
        assert a[1..][..i - 1] == b[1..][..i - 1] && (i < |a| ==> a[1..][i - 1] < b[1..][i - 1]);
      }
    }
    if a[0] < b[0] {
      assert a[..0] == b[..0];
    }
    if a[0] == b[0] && Before(a[1..], b[1..]) {
      var i :| 0 <= i < |a| && i < |b| - 1 && a[1..][..i] == b[1..][..i] && (i < |a| - 1 ==> a[1..][i] < b[1..][i]);
      Sequences.PrefixTail(a, i + 1);
      Sequences.PrefixTail(b, i + 1);
      assert a[..i + 1] == [a[0]] + a[1..][..i] && b[..i + 1] == [b[0]] + b[1..][..i];
    }
  }

  lemma {:induction false} LessIsBefore(a: Bytes, b: Bytes)
    ensures CompareBytes(a, b) == Less <==> Before(a, b)
  {
    if a == [] && b != [] {
      assert a[..0] == b[..0];
    } else if a != [] && b != [] {
      BeforeStep(a, b);
      LessIsBefore(a[1..], b[1..]);
    }
  }

  ghost predicate Ascending(ks: seq<Bytes>) {
    forall i, j :: 0 <= i < j < |ks| ==> !Before(ks[j], ks[i])
  }

  /** At the first place where the two lists differ, `x` has ended or holds the earlier string. */
  ghost predicate ListBefore(x: seq<Bytes>, y: seq<Bytes>) {
    exists i :: 0 <= i <= |x| && i < |y| && x[..i] == y[..i] && (i < |x| ==> Before(x[i], y[i]))
  }

  lemma {:induction false} ListBeforeStep(x: seq<Bytes>, y: seq<Bytes>)
    requires x != [] && y != []
    ensures ListBefore(x, y) <==> Before(x[0], y[0]) || (x[0] == y[0] && ListBefore(x[1..], y[1..]))
  {
    hide Before;
    if i :| 0 <= i <= |x| && i < |y| && x[..i] == y[..i] && (i < |x| ==> Before(x[i], y[i])) {
      if i > 0 {
        Sequences.PrefixTail(x, i);
        Sequences.PrefixTail(y, i);
        assert x[1..][..i - 1] == y[1..][..i - 1] && (i < |x| ==> Before(x[1..][i - 1], y[1..][i - 1]));
      }
    }
    if Before(x[0], y[0]) {
      assert x[..0] == y[..0];
    }
    if x[0] == y[0] && ListBefore(x[1..], y[1..]) {
      var i :| 0 <= i < |x| && i < |y| - 1 && x[1..][..i] == y[1..][..i]
               && (i < |x| - 1 ==> Before(x[1..][i], y[1..][i]));
      Sequences.PrefixTail(x, i + 1);
      Sequences.PrefixTail(y, i + 1);
      assert x[..i + 1] == [x[0]] + x[1..][..i] && y[..i + 1] == [y[0]] + y[1..][..i];
    }
  }

  lemma {:induction false} LessIsListBefore(x: seq<Bytes>, y: seq<Bytes>)
    ensures Lex(CompareBytes, x, y) == Less <==> ListBefore(x, y)
  {
    if x == [] && y != [] {
      assert x[..0] == y[..0];
    } else if x != [] && y != [] {
      ListBeforeStep(x, y);
      LessIsListBefore(x[1..], y[1..]);
      LessIsBefore(x[0], y[0]);
      BytesTotal();
      hide CompareBytes, Before, ListBefore;
    }
  }

  lemma {:induction false} AscendingIsSorted(ks: seq<Bytes>)
    ensures Ascending(ks) <==> Sorted(ks)
  {
    BytesTotal();
    hide CompareBytes, Before;
    forall i, j | 0 <= i < j < |ks| ensures Before(ks[j], ks[i]) <==> CompareBytes(ks[i], ks[j]) == Greater {
      LessIsBefore(ks[j], ks[i]);
    }
  }

  /**
   * Section 8.2: with both claims in ascending order, octets taken as unsigned, the side whose list comes earlier at
   * the first difference loses.
   */
  lemma {:induction false} EarlierLoses(ours: seq<Record>, theirs: seq<Record>, x: seq<Bytes>, y: seq<Bytes>)
    requires Ascending(x) && multiset(x) == multiset(Keys(ours))
    requires Ascending(y) && multiset(y) == multiset(Keys(theirs))
    ensures Verdict(ours, theirs) == Less <==> ListBefore(x, y)
  {
    AscendingIsSorted(x);
    AscendingIsSorted(y);
    SortSorts(Keys(ours));
    SortSorts(Keys(theirs));
    hide Sorted, Ascending, Keys;
    SortedUnique(x, Sort(Keys(ours)));
    SortedUnique(y, Sort(Keys(theirs)));
    LessIsListBefore(x, y);
  }

  lemma {:induction false} SameContentsSameKeys(a: seq<Record>, b: seq<Record>)
    requires multiset(a) == multiset(b)
    ensures multiset(Keys(a)) == multiset(Keys(b))
  {
    hide SortKey;
    if a == [] {
      assert |multiset(b)| == 0;
    } else {
      assert a[0] in multiset(b);
      var i :| 0 <= i < |b| && b[i] == a[0];
      WithoutOne(a, 0);
      WithoutOne(b, i);
      assert a[..0] + a[1..] == a[1..];
      hide Keys;
      var rest := b[..i] + b[i + 1..];
      assert multiset(a[1..]) == multiset(a) - multiset{a[0]};
      assert multiset(rest) == multiset(b) - multiset{a[0]};
      SameContentsSameKeys(a[1..], rest);
    }
  }

  lemma {:induction false} WithoutOne(rs: seq<Record>, i: nat)
    requires i < |rs|
    ensures var rest := rs[..i] + rs[i + 1..];
            && multiset(rs) == multiset(rest) + multiset{rs[i]}
            && multiset(Keys(rs)) == multiset(Keys(rest)) + multiset{SortKey(rs[i])}
  {
    hide SortKey;
    var before, behind := rs[..i], rs[i + 1..];
    Sequences.Cut(rs, i);
    assert Keys(before + behind) == Keys(before) + Keys(behind);
    assert Keys(rs) == Keys(before) + [SortKey(rs[i])] + Keys(behind);
  }
}
