/** The names a responder tries, one per attempt. */
module Renaming {
  import opened Wire
  import opened Decimals
  import opened Names
  import opened Services

  const HYPHEN: byte := 45

  /** `original` itself, and from attempt two on with a hyphen and the attempt's number behind it. */
  function LabelForAttempt(original: Label, attempt: nat): Label {
    if attempt <= 1 then original else original + [HYPHEN] + Decimal(attempt)
  }

  /** The records of attempt `k`, built from the labels the caller gave and never from an earlier attempt. */
  function Attempt(original: Service, k: nat): Service
    requires original.instance.labels != [] && original.host.labels != []
  {
    if k <= 1 then original
    else original.Renamed(LabelForAttempt(original.instance.labels[0], k), LabelForAttempt(original.host.labels[0], k))
  }

  lemma {:induction false} FoldDigits(s: seq<byte>)
    requires forall i :: 0 <= i < |s| ==> s[i] == HYPHEN || 48 <= s[i] <= 57
    ensures FoldLabel(s) == s
  {
  }

  lemma {:induction false} FoldConcat(a: Label, b: Label)
    ensures FoldLabel(a + b) == FoldLabel(a) + FoldLabel(b)
  {
    var l, r := FoldLabel(a + b), FoldLabel(a) + FoldLabel(b);
    forall i | 0 <= i < |l| ensures l[i] == r[i] {
      assert (a + b)[i] == if i < |a| then a[i] else b[i - |a|];
    }
  }

  /** No two attempts share a label, even ignoring case. */
  lemma {:induction false} LabelsNeverRepeat(original: Label, j: nat, k: nat)
    requires 1 <= j < k
    ensures !LabelsEqual(LabelForAttempt(original, j), LabelForAttempt(original, k))
  {
    var a, b := LabelForAttempt(original, j), LabelForAttempt(original, k);
    hide Decimal, Value;
    if LabelsEqual(a, b) {
      assert FoldLabel(a) == FoldLabel(b);
      hide FoldLabel, LabelsEqual;
      FoldConcat(original, [HYPHEN] + Decimal(k));
      FoldDigits([HYPHEN] + Decimal(k));
      assert b == original + ([HYPHEN] + Decimal(k));
      if j > 1 {
        FoldConcat(original, [HYPHEN] + Decimal(j));
        FoldDigits([HYPHEN] + Decimal(j));
        assert a == original + ([HYPHEN] + Decimal(j));
        assert FoldLabel(a)[|original| + 1..] == Decimal(j) && FoldLabel(b)[|original| + 1..] == Decimal(k);
        ValueOfDecimal(j);
        ValueOfDecimal(k);
      }
    }
  }

  ghost predicate BuiltFromParts(s: Service) {
    && s.instance.labels != [] && s.host.labels != []
    && s.serviceType.labels == s.instance.labels[1..]
  }

  lemma {:induction false} AttemptNames(original: Service, k: nat)
    requires BuiltFromParts(original) && k >= 1
    ensures Attempt(original, k).instance
         == Name([LabelForAttempt(original.instance.labels[0], k)] + original.instance.labels[1..])
    ensures Attempt(original, k).host
         == Name([LabelForAttempt(original.host.labels[0], k)] + original.host.labels[1..])
  {
    assert original.instance.labels == [original.instance.labels[0]] + original.instance.labels[1..];
    assert original.host.labels == [original.host.labels[0]] + original.host.labels[1..];
  }

  lemma {:induction false} LabelIsWritten(l: Label, k: nat)
    requires 1 <= k < 100
    ensures LabelForAttempt(l, k)
         == l + if k == 1 then [] else if k < 10 then [45, 48 + k] else [45, 48 + k / 10, 48 + k % 10]
  {
    if k >= 10 {
      assert Decimal(k) == Decimal(k / 10) + [48 + k % 10] == [48 + k / 10, 48 + k % 10];
    }
  }

  /** Attempt 2 puts `-2` behind both first labels, attempt 21 `-21`; nothing else of the service changes. */
  lemma {:induction false} AttemptIsWritten(original: Service, k: nat)
    requires BuiltFromParts(original) && 1 <= k < 100
    ensures var suffix := if k == 1 then [] else if k < 10 then [45, 48 + k] else [45, 48 + k / 10, 48 + k % 10];
            Attempt(original, k) == original.(
              instance := Name([original.instance.labels[0] + suffix] + original.instance.labels[1..]),
              host := Name([original.host.labels[0] + suffix] + original.host.labels[1..]))
  {
    AttemptNames(original, k);
    LabelIsWritten(original.instance.labels[0], k);
    LabelIsWritten(original.host.labels[0], k);
    hide LabelForAttempt;
  }

  /** Different attempts never share an instance name or a host name. */
  lemma {:induction false} AttemptsNeverShareNames(original: Service, j: nat, k: nat)
    requires BuiltFromParts(original) && 1 <= j < k
    ensures !EqIgnoreCase(Attempt(original, j).instance, Attempt(original, k).instance)
    ensures !EqIgnoreCase(Attempt(original, j).host, Attempt(original, k).host)
  {
    AttemptNames(original, j);
    AttemptNames(original, k);
    LabelsNeverRepeat(original.instance.labels[0], j, k);
    LabelsNeverRepeat(original.host.labels[0], j, k);
    assert LabelForAttempt(original.instance.labels[0], j) == Attempt(original, j).instance.labels[0];
    assert LabelForAttempt(original.host.labels[0], j) == Attempt(original, j).host.labels[0];
  }

  /** Renaming an already renamed service gives the attempt built from the original, never `-2-3`. */
  lemma {:induction false} RenamingAgain(original: Service, j: nat, k: nat)
    requires BuiltFromParts(original) && j >= 1 && k >= 2
    ensures Attempt(original, j).Renamed(LabelForAttempt(original.instance.labels[0], k),
                                         LabelForAttempt(original.host.labels[0], k)) == Attempt(original, k)
  {
    AttemptNames(original, j);
    assert Attempt(original, j).host.labels[1..] == original.host.labels[1..];
  }

  lemma {:induction false} WireLenHead(l: Label, rest: seq<Label>)
    ensures WireLen([l] + rest) == |l| + 1 + WireLen(rest)
  {
    assert ([l] + rest)[1..] == rest;
  }

  /** Digits a counter adds: nothing for the first attempt, a hyphen and the number after that. */
  function SuffixLength(k: nat): nat {
    if k <= 1 then 0 else 1 + |Decimal(k)|
  }

  predicate SuffixFits(name: Name, k: nat)
    requires name.labels != []
  {
    |name.labels[0]| + SuffixLength(k) <= 63 && WireLen(name.labels) + SuffixLength(k) <= 255
  }

  /** Renaming does not re-check the limits; the new name can still be sent exactly when the suffix fits. */
  lemma {:induction false} RenamedFitsIff(name: Name, k: nat)
    requires name.labels != [] && WellFormed(name)
    ensures WellFormed(Name([LabelForAttempt(name.labels[0], k)] + name.labels[1..])) <==> SuffixFits(name, k)
  {
    var l := LabelForAttempt(name.labels[0], k);
    WireLenHead(l, name.labels[1..]);
    WireLenHead(name.labels[0], name.labels[1..]);
    assert name.labels == [name.labels[0]] + name.labels[1..];
    var labels := [l] + name.labels[1..];
    if |l| <= MAX_LABEL {
      forall i | 0 <= i < |labels| ensures 1 <= |labels[i]| <= MAX_LABEL {
        assert i > 0 ==> labels[i] == name.labels[i];
      }
    } else {
      assert labels[0] == l;
    }
  }
}
