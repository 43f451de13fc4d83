/** What holds of invites over every run of the engine, whatever the clock and the disk do. */
module InviteRuns {
  import opened Wire
  import opened Invites
  import Sequences

  /** The office after a run and everything that happened to invites in it. */
  datatype Run = Run(office: Office, log: seq<Event>)

  function Continue(start: Office, ops: seq<Op>): Run {
    if ops == [] then Run(start, [])
    else
      var before := Continue(start, ops[..|ops| - 1]);
      var out := Perform(before.office, ops[|ops| - 1]);
      Run(out.office, before.log + out.events)
  }

  const NEW_STORE := Office(false, false, [])

  function After(ops: seq<Op>): Run {
    Continue(NEW_STORE, ops)
  }

  // ---------------------------------------------------------------------
  // Counting
  // ---------------------------------------------------------------------

  datatype Kind = Mints | Prunings | Redemptions | Spoilings | Certificates

  /** One digest, or all of them. */
  predicate Selected(which: Option<Digest>, d: Digest) {
    which.None? || which.value == d
  }

  predicate Concerns(e: Event, kind: Kind, which: Option<Digest>) {
    match e
    case Minted(i) => kind == Mints && Selected(which, i.digest)
    case Pruned(i) => kind == Prunings && Selected(which, i.digest)
    case Redeemed(i, _) => kind == Redemptions && Selected(which, i.digest)
    case Spoiled(i, _) => kind == Spoilings && Selected(which, i.digest)
    case Certified(d) => kind == Certificates && Selected(which, d)
  }

  function Tally(log: seq<Event>, kind: Kind, which: Option<Digest>): nat {
    if log == [] then 0
    else
      var k := |log| - 1;
      Tally(log[..k], kind, which) + if Concerns(log[k], kind, which) then 1 else 0
  }

  function Unburnt(entries: seq<InviteRecord>, which: Option<Digest>): nat {
    if entries == [] then 0
    else
      var k := |entries| - 1;
      Unburnt(entries[..k], which)
      + if entries[k].burntAt.None? && Selected(which, entries[k].digest) then 1 else 0
  }

  lemma {:induction false} TallyConcat(a: seq<Event>, b: seq<Event>, kind: Kind, which: Option<Digest>)
    ensures Tally(a + b, kind, which) == Tally(a, kind, which) + Tally(b, kind, which)
  {
    if b == [] {
      assert a + b == a;
    } else {
      var k := |b| - 1;
      assert (a + b)[..|a + b| - 1] == a + b[..k];
      TallyConcat(a, b[..k], kind, which);
    }
  }

  lemma {:induction false} UnburntConcat(a: seq<InviteRecord>, b: seq<InviteRecord>, which: Option<Digest>)
    ensures Unburnt(a + b, which) == Unburnt(a, which) + Unburnt(b, which)
  {
    if b == [] {
      assert a + b == a;
    } else {
      var k := |b| - 1;
      assert (a + b)[..|a + b| - 1] == a + b[..k];
      UnburntConcat(a, b[..k], which);
    }
  }

  /** Mints not accounted for: nothing when every one is redeemed, spoiled, forgotten or still in the list. */
  function Balance(log: seq<Event>, which: Option<Digest>): int {
    Tally(log, Mints, which) - Tally(log, Redemptions, which)
    - Tally(log, Spoilings, which) - Tally(log, Prunings, which)
  }

  lemma {:induction false} BalanceConcat(a: seq<Event>, b: seq<Event>, which: Option<Digest>)
    ensures Balance(a + b, which) == Balance(a, which) + Balance(b, which)
  {
    TallyConcat(a, b, Mints, which);
    TallyConcat(a, b, Redemptions, which);
    TallyConcat(a, b, Spoilings, which);
    TallyConcat(a, b, Prunings, which);
  }

  lemma {:induction false} TallyOne(e: Event, kind: Kind, which: Option<Digest>)
    ensures Tally([e], kind, which) == if Concerns(e, kind, which) then 1 else 0
  {
    assert [e][..0] == [];
  }

  lemma {:induction false} BalanceOfOne(e: Event, which: Option<Digest>)
    ensures Balance([e], which)
         == (if Concerns(e, Mints, which) then 1 else 0) - (if Concerns(e, Redemptions, which) then 1 else 0)
            - (if Concerns(e, Spoilings, which) then 1 else 0) - (if Concerns(e, Prunings, which) then 1 else 0)
  {
    TallyOne(e, Mints, which);
    TallyOne(e, Redemptions, which);
    TallyOne(e, Spoilings, which);
    TallyOne(e, Prunings, which);
  }

  lemma {:induction false} PruningBalances(entries: seq<InviteRecord>, now: i64, which: Option<Digest>)
    ensures Unburnt(Kept(entries, now), which) == Unburnt(entries, which) + Balance(Forgotten(entries, now), which)
    ensures Tally(Forgotten(entries, now), Certificates, which) == 0
    ensures Tally(Forgotten(entries, now), Redemptions, which) == 0
  {
    if entries != [] {
      var k := |entries| - 1;
      var e := entries[k];
      PruningBalances(entries[..k], now, which);
      var kept := if WorthKeeping(e, now) then [e] else [];
      var gone := if e.burntAt.None? && !WorthKeeping(e, now) then [Pruned(e)] else [];
      UnburntConcat(Kept(entries[..k], now), kept, which);
      BalanceConcat(Forgotten(entries[..k], now), gone, which);
      TallyConcat(Forgotten(entries[..k], now), gone, Certificates, which);
      TallyConcat(Forgotten(entries[..k], now), gone, Redemptions, which);
      BalanceOfOne(Pruned(e), which);
      TallyOne(Pruned(e), Certificates, which);
      TallyOne(Pruned(e), Redemptions, which);
      UnburntOne(e, which);
      NothingHappened(which);
      hide Balance, Tally;
    }
  }

  lemma {:induction false} UnburntOne(e: InviteRecord, which: Option<Digest>)
    ensures Unburnt([e], which) == if e.burntAt.None? && Selected(which, e.digest) then 1 else 0
    ensures Unburnt([], which) == 0
  {
    assert [e][..0] == [];
  }

  lemma {:induction false} BurningBalances(entries: seq<InviteRecord>, i: nat, now: i64, which: Option<Digest>)
    requires i < |entries| && entries[i].burntAt.None?
    ensures Unburnt(entries[i := entries[i].(burntAt := Some(now))], which)
         == Unburnt(entries, which) - if Selected(which, entries[i].digest) then 1 else 0
  {
    var k := |entries| - 1;
    var burnt := entries[i := entries[i].(burntAt := Some(now))];
    if i == k {
      assert burnt[..k] == entries[..k];
    } else {
      assert burnt[..k] == entries[..k][i := entries[i].(burntAt := Some(now))];
      BurningBalances(entries[..k], i, now, which);
    }
  }

  lemma {:induction false} MintBalances(o: Office, now: i64, ttl: Option<i64>, random: Option<seq<byte>>, disk: Disk,
          which: Option<Digest>)
    ensures var m := Mint(o, now, ttl, random, disk);
            && Unburnt(m.entries, which) == Unburnt(o.entries, which) + Balance(m.events, which)
            && Tally(m.events, Certificates, which) == 0 == Tally(m.events, Redemptions, which)
  {
    var m := Mint(o, now, ttl, random, disk);
    if m.result.Ok? {
      var record := m.entries[|m.entries| - 1];
      PruningBalances(o.entries, now, which);
      UnburntConcat(Kept(o.entries, now), [record], which);
      BalanceConcat(Forgotten(o.entries, now), [Minted(record)], which);
      TallyConcat(Forgotten(o.entries, now), [Minted(record)], Certificates, which);
      TallyConcat(Forgotten(o.entries, now), [Minted(record)], Redemptions, which);
      BalanceOfOne(Minted(record), which);
      TallyOne(Minted(record), Certificates, which);
      TallyOne(Minted(record), Redemptions, which);
      UnburntOne(record, which);
      hide Unburnt, Balance, Tally;
    }
  }

  lemma {:induction false} BurnBalances(e: InviteRecord, now: i64, which: Option<Digest>)
    ensures Balance([Redeemed(e, now)], which) == -(if Selected(which, e.digest) then 1 else 0)
    ensures Balance([Spoiled(e, now)], which) == -(if Selected(which, e.digest) then 1 else 0)
  {
    BalanceOfOne(Redeemed(e, now), which);
    BalanceOfOne(Spoiled(e, now), which);
  }

  lemma {:induction false} RedeemBalances(entries: seq<InviteRecord>, invite: string, now: i64, disk: Disk,
          which: Option<Digest>)
    ensures var r := Redeem(entries, invite, now, disk);
            && Unburnt(r.entries, which) == Unburnt(entries, which) + Balance(r.events, which)
            && Tally(r.events, Certificates, which) == 0
            && Tally(r.events, Redemptions, which)
               == if r.result.None? && Selected(which, Normalise(invite)) then 1 else 0
  {
    var r := Redeem(entries, invite, now, disk);
    NothingHappened(which);
    hide Unburnt, Balance, Tally, Normalise, Selected;
    if r.events != [] {
      var i := Find(entries, Normalise(invite));
      var e := entries[i];
      BurningBalances(entries, i, now, which);
      BurnBalances(e, now, which);
      TallyOne(Redeemed(e, now), Certificates, which);
      TallyOne(Redeemed(e, now), Redemptions, which);
      TallyOne(Spoiled(e, now), Certificates, which);
      TallyOne(Spoiled(e, now), Redemptions, which);
    }
  }

  /** One call keeps the books: an unburnt invite leaves the list redeemed, spoiled or forgotten, never otherwise. */
  lemma {:induction false} CallBalances(o: Office, op: Op, which: Option<Digest>)
    ensures var out := Perform(o, op);
            && Unburnt(out.office.entries, which) == Unburnt(o.entries, which) + Balance(out.events, which)
            && Tally(out.events, Certificates, which) <= Tally(out.events, Redemptions, which)
  {
    hide Mint, Redeem, Unburnt, Balance, Tally, Normalise;
    match op {
      case Init(_) => NothingHappened(which);
      case Create(now, ttl, random, disk) => MintBalances(o, now, ttl, random, disk, which);
      case Issue(invite, now, parsed, signable, disk) =>
        NothingHappened(which);
        SpendingBalances(o, invite, now, signable, true, disk, which);
      case Enroll(invite, now, parsed, requestable, signable, installable, disk) =>
        NothingHappened(which);
        SpendingBalances(o, invite, now, signable, installable, disk, which);
    }
  }

  lemma {:induction false} NothingHappened(which: Option<Digest>)
    ensures Balance([], which) == 0 && Tally([], Certificates, which) == 0 == Tally([], Redemptions, which)
  {
  }

  lemma {:induction false} SpendingBalances(o: Office, invite: string, now: i64, signable: bool, installable: bool,
          disk: Disk, which: Option<Digest>)
    ensures var out := Certify(o, Redeem(o.entries, invite, now, disk), invite, signable, installable);
            && Unburnt(out.office.entries, which) == Unburnt(o.entries, which) + Balance(out.events, which)
            && Tally(out.events, Certificates, which) <= Tally(out.events, Redemptions, which)
  {
    var r := Redeem(o.entries, invite, now, disk);
    var paper := Certified(Normalise(invite));
    RedeemBalances(o.entries, invite, now, disk, which);
    BalanceConcat(r.events, [paper], which);
    TallyConcat(r.events, [paper], Certificates, which);
    TallyConcat(r.events, [paper], Redemptions, which);
    BalanceOfOne(paper, which);
    TallyOne(paper, Certificates, which);
    TallyOne(paper, Redemptions, which);
    hide Redeem, Unburnt, Balance, Tally, Normalise;
  }

  // ---------------------------------------------------------------------
  // Over whole runs
  // ---------------------------------------------------------------------

  /**
   * Conservation: after any run, every mint of an invite has been redeemed, spoiled by being presented too late,
   * forgotten by pruning, or is still there to be presented, exactly once.
   */
  lemma {:induction false} EveryMintIsAccountedFor(ops: seq<Op>, which: Option<Digest>)
    ensures var run := After(ops);
            Tally(run.log, Mints, which) == Tally(run.log, Redemptions, which)
            + Tally(run.log, Spoilings, which) + Tally(run.log, Prunings, which) + Unburnt(run.office.entries, which)
  {
    if ops != [] {
      var k := |ops| - 1;
      var before := After(ops[..k]);
      var out := Perform(before.office, ops[k]);
      EveryMintIsAccountedFor(ops[..k], which);
      CallBalances(before.office, ops[k], which);
      BalanceConcat(before.log, out.events, which);
      hide Perform, Tally, Unburnt;
    }
  }

  /** An invite is spent at most once per mint, and presenting it too late spends it as well. */
  lemma {:induction false} SpentAtMostOncePerMint(ops: seq<Op>, d: Digest)
    ensures var log := After(ops).log;
            Tally(log, Redemptions, Some(d)) + Tally(log, Spoilings, Some(d)) <= Tally(log, Mints, Some(d))
  {
    EveryMintIsAccountedFor(ops, Some(d));
  }

  lemma {:induction false} CertificatesCostInvites(ops: seq<Op>, which: Option<Digest>)
    ensures Tally(After(ops).log, Certificates, which) <= Tally(After(ops).log, Redemptions, which)
  {
    if ops != [] {
      var k := |ops| - 1;
      var before := After(ops[..k]);
      var out := Perform(before.office, ops[k]);
      CertificatesCostInvites(ops[..k], which);
      CallBalances(before.office, ops[k], which);
      TallyConcat(before.log, out.events, Certificates, which);
      TallyConcat(before.log, out.events, Redemptions, which);
      hide Perform, Tally, Unburnt;
    }
  }

  /** For one invite and for all of them: never more certificates than mints that did not spoil. */
  lemma {:induction false} CertificatesNeverExceedMints(ops: seq<Op>, which: Option<Digest>)
    ensures var log := After(ops).log;
            Tally(log, Certificates, which) + Tally(log, Spoilings, which) <= Tally(log, Mints, which)
  {
    EveryMintIsAccountedFor(ops, which);
    CertificatesCostInvites(ops, which);
  }

  // ---------------------------------------------------------------------
  // Only in date, only once
  // ---------------------------------------------------------------------

  predicate LivesFor(e: InviteRecord, ttl: int) {
    1 <= ttl <= 86400 && e.expiresAt == Wrapped(e.createdAt + ttl)
  }

  ghost predicate FromAMint(e: InviteRecord) {
    e.burntAt.None? && exists ttl :: LivesFor(e, ttl)
  }

  /** Every unburnt record was minted, and every redemption is of a record minted before it, in date. */
  ghost predicate Sound(run: Run) {
    && (forall e :: e in run.office.entries && e.burntAt.None? ==> Minted(e) in run.log)
    && (forall i :: 0 <= i < |run.log| && run.log[i].Minted? ==> FromAMint(run.log[i].invite))
    && (forall i :: 0 <= i < |run.log| && run.log[i].Redeemed? ==>
          run.log[i].at <= run.log[i].invite.expiresAt && Minted(run.log[i].invite) in run.log[..i])
    && (forall i :: 0 <= i < |run.log| && run.log[i].Spoiled? ==>
          run.log[i].at > run.log[i].invite.expiresAt && Minted(run.log[i].invite) in run.log[..i])
  }

  lemma {:induction false} KeptIff(entries: seq<InviteRecord>, now: i64, e: InviteRecord)
    ensures e in Kept(entries, now) <==> e in entries && WorthKeeping(e, now)
  {
    if entries != [] {
      var k := |entries| - 1;
      KeptIff(entries[..k], now, e);
      assert entries == entries[..k] + [entries[k]];
    }
  }

  lemma {:induction false} ForgottenArePrunings(entries: seq<InviteRecord>, now: i64)
    ensures forall i :: 0 <= i < |Forgotten(entries, now)| ==> Forgotten(entries, now)[i].Pruned?
  {
    if entries != [] {
      ForgottenArePrunings(entries[..|entries| - 1], now);
    }
  }

  /** The events of one call, seen from the records it started with. */
  ghost predicate Honest(entries: seq<InviteRecord>, events: seq<Event>, after: seq<InviteRecord>) {
    && (forall e :: e in after && e.burntAt.None? ==> e in entries || Minted(e) in events)
    && (forall i :: 0 <= i < |events| && events[i].Minted? ==> FromAMint(events[i].invite))
    && (forall i :: 0 <= i < |events| && events[i].Redeemed? ==>
          events[i].at <= events[i].invite.expiresAt && events[i].invite.burntAt.None? && events[i].invite in entries)
    && (forall i :: 0 <= i < |events| && events[i].Spoiled? ==>
          events[i].at > events[i].invite.expiresAt && events[i].invite.burntAt.None? && events[i].invite in entries)
  }

  lemma {:induction false} MintIsFaithful(o: Office, now: i64, ttl: Option<i64>, random: Option<seq<byte>>, disk: Disk)
    ensures var m := Mint(o, now, ttl, random, disk); Honest(o.entries, m.events, m.entries)
  {
    var m := Mint(o, now, ttl, random, disk);
    if m.result.Ok? {
      var record := m.entries[|m.entries| - 1];
      var lifetime := if ttl.Some? then ttl.value else DEFAULT_TTL;
      assert FromAMint(record) by {
        assert LivesFor(record, lifetime);
      }
      ForgottenArePrunings(o.entries, now);
      assert m.events[|m.events| - 1] == Minted(record);
      forall e | e in m.entries && e.burntAt.None? ensures e in o.entries || Minted(e) in m.events {
        KeptIff(o.entries, now, e);
      }
    }
  }

  lemma {:induction false} RedeemIsFaithful(entries: seq<InviteRecord>, invite: string, now: i64, disk: Disk)
    ensures var r := Redeem(entries, invite, now, disk); Honest(entries, r.events, r.entries)
  {
  }

  lemma {:induction false} CallIsFaithful(o: Office, op: Op)
    ensures var out := Perform(o, op); Honest(o.entries, out.events, out.office.entries)
  {
    match op {
      case Init(_) =>
      case Create(now, ttl, random, disk) => MintIsFaithful(o, now, ttl, random, disk);
      case Issue(invite, now, _, _, disk) => RedeemIsFaithful(o.entries, invite, now, disk);
      case Enroll(invite, now, _, _, _, _, disk) => RedeemIsFaithful(o.entries, invite, now, disk);
    }
    hide Mint, Redeem;
  }

  lemma {:induction false} SoundStep(before: Run, events: seq<Event>, office: Office)
    requires Sound(before) && Honest(before.office.entries, events, office.entries)
    ensures Sound(Run(office, before.log + events))
  {
    var log := before.log + events;
    forall i | 0 <= i < |log| && (log[i].Redeemed? || log[i].Spoiled?)
      ensures Minted(log[i].invite) in log[..i]
    {
      Sequences.PrefixConcat(before.log, events, i);
      if i < |before.log| {
        assert log[i] == before.log[i];
      } else {
        assert log[i] == events[i - |before.log|];
      }
    }
  }

  /**
   * Whatever the clock did: a redemption is of a record minted earlier in the run, not after it expired, and a record
   * expires at most a day after its mint.
   */
  lemma {:induction false} SuccessIsInDate(ops: seq<Op>)
    ensures Sound(After(ops))
  {
    if ops != [] {
      var k := |ops| - 1;
      var before := After(ops[..k]);
      var out := Perform(before.office, ops[k]);
      SuccessIsInDate(ops[..k]);
      CallIsFaithful(before.office, ops[k]);
      hide Sound, Honest, Perform;
      SoundStep(before, out.events, out.office);
    }
  }

  predicate Mentions(op: Op, d: Digest) {
    match op
    case Init(_) => false
    case Create(_, _, random, _) => MintsDigest(op, d)
    case Issue(invite, _, _, _, _) => Normalise(invite) == d
    case Enroll(invite, _, _, _, _, _, _) => Normalise(invite) == d
  }

  predicate MintsDigest(op: Op, d: Digest) {
    op.Create? && op.random.Some? && Normalise(Grouped(Hex(op.random.value))) == d
  }

  predicate NoneLeft(entries: seq<InviteRecord>, d: Digest) {
    forall i :: 0 <= i < |entries| ==> !Redeemable(entries[i], d)
  }

  /** No unburnt record with this digest is in the list, and no redemption of one is among the events. */
  predicate NoneSpent(events: seq<Event>, entries: seq<InviteRecord>, d: Digest) {
    NoneLeft(entries, d) && forall i :: 0 <= i < |events| && events[i].Redeemed? ==> events[i].invite.digest != d
  }

  lemma {:induction false} NoneLeftMint(o: Office, op: Op, d: Digest)
    requires NoneLeft(o.entries, d) && op.Create? && !MintsDigest(op, d)
    ensures var m := Mint(o, op.now, op.ttl, op.random, op.disk); NoneSpent(m.events, m.entries, d)
  {
    hide Normalise, Grouped, Hex, WorthKeeping;
    var after := Mint(o, op.now, op.ttl, op.random, op.disk).entries;
    forall k | 0 <= k < |after| ensures !Redeemable(after[k], d) {
      KeptIff(o.entries, op.now, after[k]);
    }
    ForgottenArePrunings(o.entries, op.now);
  }

  lemma {:induction false} NoneLeftRedeem(entries: seq<InviteRecord>, invite: string, now: i64, disk: Disk, d: Digest)
    requires NoneLeft(entries, d)
    ensures var r := Redeem(entries, invite, now, disk); NoneSpent(r.events, r.entries, d)
  {
    hide Normalise;
  }

  lemma {:induction false} NoneLeftStep(o: Office, op: Op, d: Digest)
    requires NoneLeft(o.entries, d) && !MintsDigest(op, d)
    ensures var out := Perform(o, op); NoneSpent(out.events, out.office.entries, d)
  {
    hide Mint, Redeem, NoneLeft, Normalise;
    match op {
      case Init(_) =>
      case Create(_, _, _, _) => NoneLeftMint(o, op, d);
      case Issue(invite, now, _, _, disk) => NoneLeftRedeem(o.entries, invite, now, disk, d);
      case Enroll(invite, now, _, _, _, _, disk) => NoneLeftRedeem(o.entries, invite, now, disk, d);
    }
  }

  /** Once no unburnt record of it is left, an invite stays unusable until it is minted again. */
  lemma {:induction false} SpentStaysSpent(o: Office, ops: seq<Op>, d: Digest)
    requires NoneLeft(o.entries, d) && forall i :: 0 <= i < |ops| ==> !MintsDigest(ops[i], d)
    ensures NoneLeft(Continue(o, ops).office.entries, d)
    ensures forall i :: 0 <= i < |Continue(o, ops).log| && Continue(o, ops).log[i].Redeemed? ==>
              Continue(o, ops).log[i].invite.digest != d
  {
    if ops != [] {
      var k := |ops| - 1;
      var before := Continue(o, ops[..k]);
      SpentStaysSpent(o, ops[..k], d);
      hide Perform, MintsDigest, NoneLeft;
      NoneLeftStep(before.office, ops[k], d);
    }
  }

  /** Only `e` stands for its digest. */
  predicate OnlyUnburnt(entries: seq<InviteRecord>, e: InviteRecord) {
    && e.burntAt.None?
    && (exists i :: 0 <= i < |entries| && entries[i] == e)
    && (forall i, j :: 0 <= i < j < |entries| ==>
          !Redeemable(entries[i], e.digest) || !Redeemable(entries[j], e.digest))
  }

  /** Presented once, in date or not, an invite is refused from then on, whatever follows short of a new mint. */
  lemma {:induction false} PresentedOnce(o: Office, e: InviteRecord, invite: string, now: i64, disk: Disk,
          ops: seq<Op>, again: i64, later: Disk)
    requires OnlyUnburnt(o.entries, e) && Normalise(invite) == e.digest && disk.loads && disk.saves && later.loads
    requires forall i :: 0 <= i < |ops| ==> !MintsDigest(ops[i], e.digest)
    ensures var r := Redeem(o.entries, invite, now, disk);
            && r.result == (if now > e.expiresAt then Some(InviteExpired(e.expiresAt)) else None)
            && var left := Continue(o.(entries := r.entries), ops).office.entries;
            Redeem(left, invite, again, later).result == Some(InviteInvalid)
  {
    var r := Redeem(o.entries, invite, now, disk);
    assert NoneLeft(r.entries, e.digest);
    SpentStaysSpent(o.(entries := r.entries), ops, e.digest);
    hide Continue, MintsDigest;
  }

  // ---------------------------------------------------------------------
  // Pruning, and an invite that waits
  // ---------------------------------------------------------------------

  /**
   * Pruning forgets an unburnt invite that is still in date exactly when the clock is within a day of the smallest
   * instant: a day earlier then wraps around to the far future.
   */
  lemma {:induction false} PruningDropsInDateIff(entries: seq<InviteRecord>, now: i64, e: InviteRecord)
    requires e in entries && e.burntAt.None? && now <= e.expiresAt
    ensures e !in Kept(entries, now)
       <==> now - 86400 < -0x8000_0000_0000_0000 && e.expiresAt <= now - 86400 + 0x1_0000_0000_0000_0000
  {
    KeptIff(entries, now, e);
  }

  /** Founding that goes through, and a disk that works. */
  const FOUNDED := Init(Founding(true, true, true, true, true, true))
  const WORKING := Disk(true, true, true)

  function MintAt(now: i64, bytes: seq<byte>): Op {
    Create(now, None, Some(bytes), WORKING)
  }

  /**
   * It does happen to what a run mints: with the clock at the smallest instant the second mint forgets the invite the
   * first one made, half an hour before it expires.
   */
  lemma {:induction false} PrunedInDate(first: seq<byte>, second: seq<byte>)
    ensures var before, after := After([FOUNDED, MintAt(MIN_I64, first)]),
                                 After([FOUNDED, MintAt(MIN_I64, first), MintAt(MIN_I64, second)]);
            && |before.office.entries| == 1 && before.office.entries[0].expiresAt == MIN_I64 + DEFAULT_TTL
            && Pruned(before.office.entries[0]) in after.log
            && Tally(after.log, Prunings, None) == 1
  {
    var a, b, c := FOUNDED, MintAt(MIN_I64, first), MintAt(MIN_I64, second);
    hide Normalise, Grouped, Hex, Continue, Mint;
    var e := InviteRecord(Normalise(Grouped(Hex(first))), MIN_I64, MIN_I64 + DEFAULT_TTL, None);
    Sequences.Displays(a, b, c);
    AfterNothing();
    AfterSnoc([], a);
    AfterSnoc([a], b);
    AfterSnoc([a, b], c);
    OneMint(After([a]).office, MIN_I64, first, e);
    var before := After([a, b]);
    NextMintForgets(before.office, second, e);
    var events := Mint(before.office, MIN_I64, None, Some(second), WORKING).events;
    assert before.log == [Minted(e)] && After([a, b, c]).log == [Minted(e)] + events;
    TallyConcat([Minted(e)], events, Prunings, None);
    TallyOne(Minted(e), Prunings, None);
  }

  lemma {:induction false} AfterNothing()
    ensures After([]) == Run(NEW_STORE, [])
  {
  }

  lemma {:induction false} AfterSnoc(ops: seq<Op>, op: Op)
    ensures var out := Perform(After(ops).office, op); After(ops + [op]) == Run(out.office, After(ops).log + out.events)
  {
    assert (ops + [op])[..|ops|] == ops;
  }

  lemma {:induction false} OneMint(o: Office, now: i64, bytes: seq<byte>, e: InviteRecord)
    requires o == Office(true, true, []) && now == MIN_I64
    requires e == InviteRecord(Normalise(Grouped(Hex(bytes))), now, now + DEFAULT_TTL, None)
    ensures var m := Mint(o, now, None, Some(bytes), WORKING);
            m.entries == [e] && m.events == [Minted(e)]
  {
    hide Normalise, Grouped, Hex;
  }

  lemma {:induction false} NextMintForgets(o: Office, bytes: seq<byte>, e: InviteRecord)
    requires o == Office(true, true, [e]) && e.burntAt.None? && e.expiresAt == MIN_I64 + DEFAULT_TTL
    ensures var events := Mint(o, MIN_I64, None, Some(bytes), WORKING).events;
            Pruned(e) in events && Tally(events, Prunings, None) == 1
  {
    hide Normalise, Grouped, Hex;
    assert !WorthKeeping(e, MIN_I64);
    assert [e][..0] == [];
    assert Forgotten([e], MIN_I64) == [Pruned(e)];
    var record := InviteRecord(Normalise(Grouped(Hex(bytes))), MIN_I64, MIN_I64 + DEFAULT_TTL, None);
    assert Mint(o, MIN_I64, None, Some(bytes), WORKING).events == [Pruned(e)] + [Minted(record)];
    TallyConcat([Pruned(e)], [Minted(record)], Prunings, None);
    TallyOne(Pruned(e), Prunings, None);
    TallyOne(Minted(record), Prunings, None);
  }

  /** What the others may do while an invite waits: anything but mention it or let a clock a day late prune it. */
  predicate Patient(op: Op, e: InviteRecord) {
    !Mentions(op, e.digest) && (op.Create? ==> WorthKeeping(e, op.now))
  }

  predicate Waiting(entries: seq<InviteRecord>, e: InviteRecord) {
    && e in entries && e.burntAt.None?
    && forall k :: 0 <= k < |entries| && Redeemable(entries[k], e.digest) ==> entries[k] == e
  }

  lemma {:induction false} OtherMinted(o: Office, op: Op, e: InviteRecord)
    requires Waiting(o.entries, e) && Patient(op, e) && op.Create?
    ensures Waiting(Mint(o, op.now, op.ttl, op.random, op.disk).entries, e)
  {
    var after := Mint(o, op.now, op.ttl, op.random, op.disk).entries;
    hide Normalise, Grouped, Hex, WorthKeeping;
    KeptIff(o.entries, op.now, e);
    forall k | 0 <= k < |after| && Redeemable(after[k], e.digest) ensures after[k] == e {
      KeptIff(o.entries, op.now, after[k]);
    }
  }

  lemma {:induction false} WaitingStep(o: Office, op: Op, e: InviteRecord)
    requires Waiting(o.entries, e) && Patient(op, e)
    ensures Waiting(Perform(o, op).office.entries, e)
  {
    hide Mint, Redeem, Waiting;
    match op {
      case Init(_) =>
      case Create(_, _, _, _) => OtherMinted(o, op, e);
      case Issue(invite, now, _, _, disk) => OtherRedeemed(o.entries, invite, now, disk, e);
      case Enroll(invite, now, _, _, _, _, disk) => OtherRedeemed(o.entries, invite, now, disk, e);
    }
  }

  lemma {:induction false} OtherRedeemed(entries: seq<InviteRecord>, invite: string, now: i64, disk: Disk,
          e: InviteRecord)
    requires Waiting(entries, e) && Normalise(invite) != e.digest
    ensures Waiting(Redeem(entries, invite, now, disk).entries, e)
  {
    var i :| 0 <= i < |entries| && entries[i] == e;
    var after := Redeem(entries, invite, now, disk).entries;
    assert after[i] == e;
  }

  lemma {:induction false} WaitingThrough(o: Office, ops: seq<Op>, e: InviteRecord)
    requires Waiting(o.entries, e) && forall i :: 0 <= i < |ops| ==> Patient(ops[i], e)
    ensures Waiting(Continue(o, ops).office.entries, e)
  {
    if ops != [] {
      var k := |ops| - 1;
      WaitingThrough(o, ops[..k], e);
      hide Perform, Waiting, Patient;
      WaitingStep(Continue(o, ops[..k]).office, ops[k], e);
    }
  }

  /** The lifetime an invite is given: what was asked for, a day at most, and half an hour when nothing was. */
  lemma {:induction false} MintedLifetime(o: Office, now: i64, ttl: Option<i64>, random: Option<seq<byte>>, disk: Disk)
    requires Mint(o, now, ttl, random, disk).result.Ok?
    ensures var m := Mint(o, now, ttl, random, disk); var lifetime := if ttl.Some? then ttl.value else 1800;
            && m.entries != [] && m.entries[|m.entries| - 1].expiresAt == m.result.value.expiresAt
            && m.entries[|m.entries| - 1].digest == Normalise(m.result.value.text)
            && 1 <= lifetime <= 86400
            && (now + lifetime < 0x8000_0000_0000_0000 ==> m.result.value.expiresAt == now + lifetime)
  {
    hide Kept, Forgotten, Grouped, Hex, Normalise;
  }

  lemma {:induction false} MintedWaits(o: Office, now: i64, ttl: Option<i64>, random: Option<seq<byte>>, disk: Disk)
    requires var m := Mint(o, now, ttl, random, disk);
             m.result.Ok? && m.entries != [] && NoneLeft(o.entries, m.entries[|m.entries| - 1].digest)
    ensures var m := Mint(o, now, ttl, random, disk); Waiting(m.entries, m.entries[|m.entries| - 1])
  {
    hide Grouped, Hex, Normalise, WorthKeeping;
    var m := Mint(o, now, ttl, random, disk);
    var e := m.entries[|m.entries| - 1];
    forall k | 0 <= k < |m.entries| && Redeemable(m.entries[k], e.digest) ensures m.entries[k] == e {
      if k < |m.entries| - 1 {
        KeptIff(o.entries, now, m.entries[k]);
      }
    }
  }

  /**
   * A minted invite, typed back in any case and grouping, redeems at an instant exactly when the lifetime asked for is
   * not over, whatever happens in between. After that it is spent and refused as expired.
   */
  lemma {:induction false} MintedRedeemsIff(o: Office, create: Op, ops: seq<Op>, typed: string, at: i64, disk: Disk)
    requires create.Create? && Mint(o, create.now, create.ttl, create.random, create.disk).result.Ok?
    requires var m := Mint(o, create.now, create.ttl, create.random, create.disk);
             && m.entries != [] && NoneLeft(o.entries, m.entries[|m.entries| - 1].digest)
             && Normalise(typed) == Normalise(m.result.value.text)
             && forall i :: 0 <= i < |ops| ==> Patient(ops[i], m.entries[|m.entries| - 1])
    requires disk.loads && disk.saves
    ensures var m := Mint(o, create.now, create.ttl, create.random, create.disk);
            var result := Redeem(Continue(o.(entries := m.entries), ops).office.entries, typed, at, disk).result;
            var lifetime, expiry := if create.ttl.Some? then create.ttl.value else 1800, m.result.value.expiresAt;
            && result == (if at <= expiry then None else Some(InviteExpired(expiry)))
            && 1 <= lifetime <= 86400
            && (create.now + lifetime < 0x8000_0000_0000_0000 ==> expiry == create.now + lifetime)
  {
    var m := Mint(o, create.now, create.ttl, create.random, create.disk);
    var e := m.entries[|m.entries| - 1];
    hide Mint, Continue, Normalise, Patient, Waiting, NoneLeft, Redeem;
    MintedLifetime(o, create.now, create.ttl, create.random, create.disk);
    MintedWaits(o, create.now, create.ttl, create.random, create.disk);
    WaitingThrough(o.(entries := m.entries), ops, e);
    WaitingIsFound(Continue(o.(entries := m.entries), ops).office.entries, typed, at, disk, e);
  }

  lemma {:induction false} WaitingIsFound(entries: seq<InviteRecord>, typed: string, at: i64, disk: Disk,
          e: InviteRecord)
    requires Waiting(entries, e) && Normalise(typed) == e.digest && disk.loads && disk.saves
    ensures Redeem(entries, typed, at, disk).result
         == if at <= e.expiresAt then None else Some(InviteExpired(e.expiresAt))
  {
    hide Normalise;
    var i :| 0 <= i < |entries| && entries[i] == e;
    assert Redeemable(entries[i], e.digest);
  }

  /** When an invite is minted at all. */
  lemma {:induction false} MintsIff(o: Office, now: i64, ttl: Option<i64>, random: Option<seq<byte>>, disk: Disk)
    ensures Mint(o, now, ttl, random, disk).result.Ok?
       <==> && o.here && disk.keyReads && disk.loads && disk.saves && random.Some?
            && (ttl.Some? ==> 1 <= ttl.value <= 86400)
    ensures Mint(o, now, ttl, random, disk).result.Ok? ==>
              var m := Mint(o, now, ttl, random, disk);
              m.result.value.text == Grouped(Hex(random.value)) && m.entries[|m.entries| - 1].createdAt == now
  {
    hide Kept, Forgotten, Grouped, Hex, Normalise;
  }

  /** Minting keeps of the others what is unburnt and expired no more than a day ago. */
  lemma {:induction false} PruningKeepsIff(entries: seq<InviteRecord>, now: i64, e: InviteRecord)
    requires now - 86400 >= -0x8000_0000_0000_0000
    ensures e in Kept(entries, now) <==> e in entries && e.burntAt == None && e.expiresAt + 86400 > now
  {
    KeptIff(entries, now, e);
  }

  // ---------------------------------------------------------------------
  // What comes first
  // ---------------------------------------------------------------------

  /** Issuing spends the invite, whatever becomes of the signing. */
  lemma {:induction false} IssueSpendsFirst(o: Office, invite: string, now: i64, parsed: bool, signable: bool,
          disk: Disk)
    ensures var out, r := Perform(o, Issue(invite, now, parsed, signable, disk)), Redeem(o.entries, invite, now, disk);
            && out.office == (if parsed then o.(entries := r.entries) else o)
            && (out.answer == Certificate <==> parsed && r.result == None && o.here && o.rooted && signable)
            && (out.answer == Refused(InviteInvalid) <==> parsed && r.result == Some(InviteInvalid))
  {
    hide Redeem;
  }

  /** Enrolling spends it only once the authority is found here and the request is made. */
  lemma {:induction false} EnrolSpendsLate(o: Office, invite: string, now: i64, parsed: bool, requestable: bool,
          signable: bool, installable: bool, disk: Disk)
    ensures var out := Perform(o, Enroll(invite, now, parsed, requestable, signable, installable, disk));
            var r, reached := Redeem(o.entries, invite, now, disk), parsed && disk.keyReads && o.here && requestable;
            && out.office == (if reached then o.(entries := r.entries) else o)
            && (out.answer == Certificate <==> reached && r.result == None && o.rooted && signable && installable)
  {
    hide Redeem;
  }

  /** An authority is founded once: what is there already is kept, and nothing else is touched. */
  lemma {:induction false} FoundingIff(o: Office, f: Founding)
    ensures var out := Perform(o, Init(f));
            && out.office.entries == o.entries && out.events == []
            && (out.answer == Done
                <==> f.valid && f.certReads && if o.rooted then f.parses else f.makes && f.keySaves && f.certSaves)
            && (out.office.rooted <==> o.rooted || out.answer == Done)
            && (out.office.here <==> o.here || (f.valid && f.certReads && !o.rooted && f.makes && f.keySaves))
  {
  }
}
