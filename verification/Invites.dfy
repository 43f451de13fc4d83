/** One-time enrolment invites: minted by the authority, burnt when presented, pruned when they are past use. */
module Invites {
  import opened Wire

  const DAY := 24 * 60 * 60
  const DEFAULT_TTL: i64 := 30 * 60
  const MIN_I64: int := -0x8000_0000_0000_0000
  const WORD := 0x1_0000_0000_0000_0000

  /** What is stored stands for the text: its fingerprint is taken to be injective on normalised text. */
  type Digest = string

  datatype InviteRecord = InviteRecord(digest: Digest, createdAt: i64, expiresAt: i64, burntAt: Option<i64>)

  datatype Invite = Invite(text: string, expiresAt: i64)

  datatype PkiError =
    | CaNotHere | BadRequest | Native | Keystore | InviteInvalid | InviteExpired(expiredAt: i64)
    | CertificateNotFound | Rejected

  /** Whether the authority's key file and the file with the invites can be read, and the latter written. */
  datatype Disk = Disk(keyReads: bool, loads: bool, saves: bool)

  /** 64-bit arithmetic of a release build. */
  function Wrapped(x: int): i64 {
    (x - MIN_I64) % WORD + MIN_I64
  }

  // ---------------------------------------------------------------------
  // The text of an invite
  // ---------------------------------------------------------------------

  predicate Alphanumeric(c: char) {
    '0' <= c <= '9' || 'A' <= c <= 'Z' || 'a' <= c <= 'z'
  }

  function Upper(c: char): char {
    if 'a' <= c <= 'z' then c - 'a' + 'A' else c
  }

  /** Letters and digits only, in upper case. */
  function Normalise(text: string): string {
    if text == "" then ""
    else (if Alphanumeric(text[0]) then [Upper(text[0])] else "") + Normalise(text[1..])
  }

  function HexDigit(n: nat): char
    requires n < 16
  {
    if n < 10 then '0' + n as char else 'A' + (n - 10) as char
  }

  function Hex(bytes: seq<byte>): string {
    if bytes == [] then "" else [HexDigit(bytes[0] / 16), HexDigit(bytes[0] % 16)] + Hex(bytes[1..])
  }

  /** In groups of five. */
  function Grouped(s: string): string {
    if |s| <= 5 then s else s[..5] + "-" + Grouped(s[5..])
  }

  // ---------------------------------------------------------------------
  // Minting and redeeming
  // ---------------------------------------------------------------------

  /** What an operation did to invites, oldest first. */
  datatype Event =
    | Minted(invite: InviteRecord)
    | Pruned(invite: InviteRecord)
    | Redeemed(invite: InviteRecord, at: i64)
    | Spoiled(invite: InviteRecord, at: i64)
    | Certified(digest: Digest)

  /** Whether the authority's key and its certificate are in the store, and the invites. */
  datatype Office = Office(here: bool, rooted: bool, entries: seq<InviteRecord>)

  datatype Minting = Minting(entries: seq<InviteRecord>, events: seq<Event>, result: Result<Invite, PkiError>)

  datatype Redemption = Redemption(entries: seq<InviteRecord>, events: seq<Event>, result: Option<PkiError>)

  predicate WorthKeeping(e: InviteRecord, now: i64) {
    e.burntAt.None? && e.expiresAt > Wrapped(now - DAY)
  }

  function Kept(entries: seq<InviteRecord>, now: i64): seq<InviteRecord> {
    if entries == [] then []
    else
      var k := |entries| - 1;
      Kept(entries[..k], now) + if WorthKeeping(entries[k], now) then [entries[k]] else []
  }

  /** The unburnt invites pruning forgets. */
  function Forgotten(entries: seq<InviteRecord>, now: i64): seq<Event> {
    if entries == [] then []
    else
      var k := |entries| - 1;
      var e := entries[k];
      Forgotten(entries[..k], now) + if e.burntAt.None? && !WorthKeeping(e, now) then [Pruned(e)] else []
  }

  function Mint(o: Office, now: i64, ttl: Option<i64>, random: Option<seq<byte>>, disk: Disk): Minting {
    var lifetime := if ttl.Some? then ttl.value else DEFAULT_TTL;
    if !disk.keyReads then Minting(o.entries, [], Err(Keystore))
    else if !o.here then Minting(o.entries, [], Err(CaNotHere))
    else if lifetime <= 0 || lifetime > DAY then Minting(o.entries, [], Err(BadRequest))
    else if random.None? then Minting(o.entries, [], Err(Native))
    else if !disk.loads || !disk.saves then Minting(o.entries, [], Err(Keystore))
    else
      var text := Grouped(Hex(random.value));
      var record := InviteRecord(Normalise(text), now, Wrapped(now + lifetime), None);
      Minting(Kept(o.entries, now) + [record], Forgotten(o.entries, now) + [Minted(record)],
              Ok(Invite(text, record.expiresAt)))
  }

  predicate Redeemable(e: InviteRecord, digest: Digest) {
    e.digest == digest && e.burntAt.None?
  }

  /** The position of the first unburnt record with this digest, or the length. */
  function Find(entries: seq<InviteRecord>, digest: Digest): (i: nat)
    ensures i <= |entries|
    ensures i < |entries| ==> Redeemable(entries[i], digest)
    ensures forall k :: 0 <= k < i ==> !Redeemable(entries[k], digest)
  {
    if entries == [] || Redeemable(entries[0], digest) then 0 else 1 + Find(entries[1..], digest)
  }

  /** Burnt first, judged afterwards. */
  function Redeem(entries: seq<InviteRecord>, invite: string, now: i64, disk: Disk): Redemption {
    var digest := Normalise(invite);
    var i := Find(entries, digest);
    if !disk.loads then Redemption(entries, [], Some(Keystore))
    else if i == |entries| then Redemption(entries, [], Some(InviteInvalid))
    else if !disk.saves then Redemption(entries, [], Some(Keystore))
    else
      var e := entries[i];
      var burnt := entries[i := e.(burntAt := Some(now))];
      if now > e.expiresAt then Redemption(burnt, [Spoiled(e, now)], Some(InviteExpired(e.expiresAt)))
      else Redemption(burnt, [Redeemed(e, now)], None)
  }

  // ---------------------------------------------------------------------
  // The operations of the engine
  // ---------------------------------------------------------------------

  /**
   * What decides how founding the authority goes: whether the installation's identifier is valid, the certificate file
   * can be read and what is in it parses, a key can be made and signed for, and the two files can be written.
   */
  datatype Founding =
    Founding(valid: bool, certReads: bool, parses: bool, makes: bool, keySaves: bool, certSaves: bool)

  /** An authority that exists is kept; a new one writes its key first, and may get no further. */
  function Found(o: Office, f: Founding): (Office, Option<PkiError>) {
    if !f.valid then (o, Some(BadRequest))
    else if !f.certReads then (o, Some(Keystore))
    else if o.rooted then (o, if f.parses then None else Some(Rejected))
    else if !f.makes then (o, Some(Native))
    else if !f.keySaves then (o, Some(Keystore))
    else if !f.certSaves then (o.(here := true), Some(Keystore))
    else (o.(here := true, rooted := true), None)
  }

  /**
   * One call, with everything the environment decides: the clock, the random bytes, the disk, whether the request
   * could be parsed, whether a signing request could be built, signed and its certificate installed.
   */
  datatype Op =
    | Init(request: Founding)
    | Create(now: i64, ttl: Option<i64>, random: Option<seq<byte>>, disk: Disk)
    | Issue(invite: string, now: i64, parsed: bool, signable: bool, disk: Disk)
    | Enroll(invite: string, now: i64, parsed: bool, requestable: bool, signable: bool, installable: bool, disk: Disk)

  datatype Answer = Done | NewInvite(invite: Invite) | Certificate | Refused(error: PkiError)

  datatype Outcome = Outcome(office: Office, events: seq<Event>, answer: Answer)

  /** Signing with a redeemed invite: only the machine with the authority's key can. */
  function Certify(o: Office, r: Redemption, invite: string, signable: bool, installable: bool): Outcome {
    var office := o.(entries := r.entries);
    if r.result.Some? then Outcome(office, r.events, Refused(r.result.value))
    else if !o.here then Outcome(office, r.events, Refused(CaNotHere))
    else if !o.rooted then Outcome(office, r.events, Refused(CertificateNotFound))
    else if !signable then Outcome(office, r.events, Refused(Rejected))
    else
      Outcome(office, r.events + [Certified(Normalise(invite))], if installable then Certificate else Refused(Rejected))
  }

  function Perform(o: Office, op: Op): Outcome {
    match op
    case Init(f) =>
      var (office, failure) := Found(o, f);
      Outcome(office, [], match failure case None => Done case Some(e) => Refused(e))
    case Create(now, ttl, random, disk) =>
      var m := Mint(o, now, ttl, random, disk);
      Outcome(o.(entries := m.entries), m.events,
              match m.result case Ok(invite) => NewInvite(invite) case Err(e) => Refused(e))
    case Issue(invite, now, parsed, signable, disk) =>
      if !parsed then Outcome(o, [], Refused(BadRequest))
      else Certify(o, Redeem(o.entries, invite, now, disk), invite, signable, true)
    case Enroll(invite, now, parsed, requestable, signable, installable, disk) =>
      if !parsed then Outcome(o, [], Refused(BadRequest))
      else if !disk.keyReads then Outcome(o, [], Refused(Keystore))
      else if !o.here then Outcome(o, [], Refused(CaNotHere))
      else if !requestable then Outcome(o, [], Refused(Rejected))
      else Certify(o, Redeem(o.entries, invite, now, disk), invite, signable, installable)
  }

  class Authority {
    var here: bool
    var rooted: bool
    var entries: seq<InviteRecord>

    constructor ()
      ensures State() == Office(false, false, [])
    {
      here := false;
      rooted := false;
      entries := [];
    }

    ghost function State(): Office
      reads this
    {
      Office(here, rooted, entries)
    }

    method Initialise(f: Founding) returns (answer: Answer)
      modifies this
      ensures var out := Perform(old(State()), Init(f)); State() == out.office && answer == out.answer
    {
      if !f.valid {
        return Refused(BadRequest);
      }
      if !f.certReads {
        return Refused(Keystore);
      }
      if rooted {
        return if f.parses then Done else Refused(Rejected);
      }
      if !f.makes {
        return Refused(Native);
      }
      if !f.keySaves {
        return Refused(Keystore);
      }
      here := true;
      if !f.certSaves {
        return Refused(Keystore);
      }
      rooted := true;
      return Done;
    }

    /** Leaves the records that are `WorthKeeping` at `now`, in their order. */
    method Retain(now: i64)
      modifies this
      ensures here == old(here) && rooted == old(rooted) && entries == Kept(old(entries), now)
    {
      var kept := [];
      for i := 0 to |entries|
        invariant kept == Kept(entries[..i], now) && State() == old(State())
      {
        assert entries[..i + 1][..i] == entries[..i];
        if WorthKeeping(entries[i], now) {
          kept := kept + [entries[i]];
        }
      }
      assert entries[..|entries|] == entries;
      entries := kept;
    }

    method CreateInvite(now: i64, ttl: Option<i64>, random: Option<seq<byte>>, disk: Disk)
      returns (result: Result<Invite, PkiError>)
      modifies this
      ensures var m := Mint(old(State()), now, ttl, random, disk);
              here == old(here) && rooted == old(rooted) && entries == m.entries && result == m.result
    {
      if !disk.keyReads {
        return Err(Keystore);
      }
      if !here {
        return Err(CaNotHere);
      }
      var lifetime := if ttl.Some? then ttl.value else DEFAULT_TTL;
      if lifetime <= 0 || lifetime > DAY {
        return Err(BadRequest);
      }
      if random.None? {
        return Err(Native);
      }
      var text := Grouped(Hex(random.value));
      var expiresAt := Wrapped(now + lifetime);
      if !disk.loads || !disk.saves {
        return Err(Keystore);
      }
      Retain(now);
      entries := entries + [InviteRecord(Normalise(text), now, expiresAt, None)];
      return Ok(Invite(text, expiresAt));
    }

    /** `None` is success. */
    method RedeemInvite(invite: string, now: i64, disk: Disk) returns (failure: Option<PkiError>)
      modifies this
      ensures var r := Redeem(old(entries), invite, now, disk);
              here == old(here) && rooted == old(rooted) && entries == r.entries && failure == r.result
    {
      var digest := Normalise(invite);
      if !disk.loads {
        return Some(Keystore);
      }
      var i := 0;
      while i < |entries| && !Redeemable(entries[i], digest)
        invariant i <= |entries| && forall k :: 0 <= k < i ==> !Redeemable(entries[k], digest)
      {
        i := i + 1;
      }
      if i == |entries| {
        return Some(InviteInvalid);
      }
      var expiresAt := entries[i].expiresAt;
      if !disk.saves {
        return Some(Keystore);
      }
      entries := entries[i := entries[i].(burntAt := Some(now))];
      return if now > expiresAt then Some(InviteExpired(expiresAt)) else None;
    }

    method CaIssue(invite: string, now: i64, parsed: bool, signable: bool, disk: Disk) returns (answer: Answer)
      modifies this
      ensures var out := Perform(old(State()), Issue(invite, now, parsed, signable, disk));
              State() == out.office && answer == out.answer
    {
      if !parsed {
        return Refused(BadRequest);
      }
      var failure := RedeemInvite(invite, now, disk);
      if failure.Some? {
        return Refused(failure.value);
      }
      if !here {
        return Refused(CaNotHere);
      }
      if !rooted {
        return Refused(CertificateNotFound);
      }
      return if signable then Certificate else Refused(Rejected);
    }

    method IdentityEnroll(invite: string, now: i64, parsed: bool, requestable: bool, signable: bool,
                          installable: bool, disk: Disk)
      returns (answer: Answer)
      modifies this
      ensures var out := Perform(old(State()), Enroll(invite, now, parsed, requestable, signable, installable, disk));
              State() == out.office && answer == out.answer
    {
      if !parsed {
        return Refused(BadRequest);
      }
      if !disk.keyReads {
        return Refused(Keystore);
      }
      if !here {
        return Refused(CaNotHere);
      }
      if !requestable {
        return Refused(Rejected);
      }
      var failure := RedeemInvite(invite, now, disk);
      if failure.Some? {
        return Refused(failure.value);
      }
      if !rooted {
        return Refused(CertificateNotFound);
      }
      if !signable {
        return Refused(Rejected);
      }
      return if installable then Certificate else Refused(Rejected);
    }
  }
}
