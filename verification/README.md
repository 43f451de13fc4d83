# A model of the networking, weighing and enrolment cores

This project models four self-contained parts of the repository and proves what they promise.

* **Multicast DNS and service discovery** (`packages/rk_mdns`): the wire codec (`Wire`, `Names`, `NameText`, `Records`,
  `Messages`) and what stands on the wire octet by octet (`WireFormat`), the cache (`Caching`), what a responder answers
  (`Services`, `Suppression`), renaming and tie-breaking (`Decimals`, `Renaming`, `TieBreaking`), the responder and
  its probing machine (`Responders`, `ResponderEngines`), probers whose names coincide in part (`PartialClash`,
  `HostClash`), contests of two hosts from end to end (`Contests`), the browser (`Browsing`, `BrowserRuns`,
  `CacheReadings`) and when its list is its cache (`Listings`), and the path from one host to another: by announcement
  (`Discovery`), by a changed announcement (`Updates`), by question and reply (`Lookups`) and out again (`Farewells`).
  `Sequences` holds facts about slices.
* **Streaming SHA-256** (`packages/rk_infer`): `Words`, `Sha256`, and its constants and a known digest against FIPS
  180-4 (`Sha256Standard`).
* **The scale protocol** (`packages/rk_devices`): framing, the three dialects and the exact number scanner (`Utf8`,
  `Scales`, `ScaleLines`), independence from how the reads fall (`ScaleStreams`), writing and reading weights
  (`ScaleWeights`), the settling rule (`Settling`) and all of them in a row (`Weighing`).
* **One-time invites** (`packages/rk_pki`): `Invites`, `InviteRuns`, `InviteTexts`.

`dafny verify dfyconfig.toml` checks the whole project.

## How the model is built

Code that the source writes as loops over mutable state is a method or a class with the same fields, the same branches
and the same errors. Each such method is proved equal to a recursive function (`ReadMessage`, `PutEntry`, `Scanned`,
`Perform`, ...), and the theorems are lemmas about those functions or, for the engine and the hasher, postconditions.
Where a function of the source is long, one part of it may be a method of its own (`EncodeSection`, `ProbeRound`,
`Fill`, `Tail`, ...).

Choices a reader should know:

* Octets are integers below 256; `u16`, `u32` and `i64` are bounded integers and every wrap-around is written out as a
  release build performs it. The bits of header flags, classes and pointers are taken apart with division and
  remainder. Words of the hash are 32-bit vectors.
* A constant of the source is a named constant here, and what it does is stated once more with its number, so that no
  theorem rests on the name alone: octets in `WireFormat`, `Names` and `ScaleLines`, milliseconds in `Caching`, seconds
  in `InviteRuns`, probes and renames in `ResponderEngines`, words in `Sha256Standard`.
* Instants are milliseconds on one clock, handed in by the caller. A browser's `absorb` and `expire` each get their own.
* The sockets, the receive timeouts and the stop flag are an `Air`: what arrives after the n-th probe, and what the stop
  flag says the n-th time it is looked at. Every statement is for all of them. Where two hosts contend (`Contests`), a
  hypothesis says that what one sends reaches the other in the window that is open then.
* The fingerprint that decides whether a service is reported again is the details themselves.
* `Vec::sort` is an insertion sort; only the sortedness and the contents of its result are used.
* White space (Unicode's White_Space) and UTF-8 are modelled exactly, on the bytes.
* A printed weight is written from the integer, like the printer in the scale tests, with the freedom the dialects leave:
  separator, plus sign, padding between sign and digits, unit, measure.
* A stored digest stands for the normalised text: the fingerprint is taken to be injective. Whether a request parses,
  can be signed and can be installed, and whether files can be read and written, are inputs of the operation.

## Where the code is narrower than its documentation

The model follows the code, and each of these is stated by the member named:

* A decoded name may take 256 octets, one more than RFC 1035 allows (`Names.NameRoundTripsIff`).
* `Display` writes `\DDD`, `parse` does not read it (`NameText.ParseInvertsDisplayIff`).
* The cache-flush bit is not looked at on a refresh, nor for addresses (`Caching.FlushClearsIff`).
* Known-answer suppression doubles a 32-bit lifetime (`Suppression.LeftOutIff`).
* Renaming does not check the 63 and 255 octet limits again (`Renaming.RenamedFitsIff`).
* A responder whose TXT holds an empty or over-long string, or whose host or instance is named like what it shares,
  takes its own announcement for another host's and renames (`Responders.NoSelfConflictIff`); starting one checks
  neither.
* When two hosts share only the instance name, both may back off (`PartialClash.WhoYields`); when they share only the
  host name, both or neither may (`HostClash.SharedHost`).
* Two tills named alike on different hosts rename in step and never settle (`Contests.NeitherSettles`).
* A host that claims nothing a later prober does not propose as well does not keep it from the same names
  (`Contests.BothMayClaim`).
* An address that a service withdraws stays in its details until it expires, since addresses are never flushed
  (`Updates.ReannouncedIff`).
* A pointer that is suppressed as known and runs out before the reply arrives leaves its instance unresolved
  (`Lookups.PointerRunsOutMeanwhile`).
* A new cache-flush pointer makes other instances vanish from the cache without a `ServiceLost`
  (`Listings.FlushingPointerDropsSilently`), and two pointers to one instance in different classes have it reported lost
  while it is still cached (`Listings.ClassesSplit`); nothing else parts list and cache
  (`Listings.ListedExactlyWhileCachedIff`).
* A conflict after claiming re-announces under the next name without probing for it
  (`ResponderEngines.Engine.Handle`).
* Answering is a filter only while the four names differ (`Services.AnswerIsFilterIff`).
* The settling counter wraps after 2^32 equal readings (`Settling.CounterWraps`, and exactly when it matters
  `Settling.PromiseKeptIff`).
* Pruning with a clock near the smallest 64-bit instant forgets invites in date (`InviteRuns.PruningDropsInDateIff`,
  `InviteRuns.PrunedInDate`).

## Model

| member | source | states |
|---|---|---|
| Names.EqIsFold | packages/rk_mdns/rust/src/name.rs:107-116 | Comparison ignoring ASCII case is an equivalence: two names are equal exactly when their folded forms are the same, which is what lets caches and tables key on the folded name. What ignoring case means is `Names.EqIgnoresCase`. |
| Names.EqIgnoresCase | packages/rk_mdns/rust/src/name.rs:107-116 | In octets: two names are the same if and only if they have as many labels, each as long, and every two octets in the same place are equal or are one of 65 to 90 and the one 32 above it. |
| Names.EncodeName | packages/rk_mdns/rust/src/name.rs:155-161 | Writing appends the uncompressed wire form and touches nothing already in the buffer. |
| Names.DecodeName | packages/rk_mdns/rust/src/name.rs:167-220 | The loop with its jump budget, its running total and its mutable offset computes the same name, the same continuation and the same error as the recursive expansion, and terminates on every byte string. Where a pointer leads and when reading stops is stated in octets by `Names.ReadCompressedName`, `Names.SixteenJumps` and `Names.ReadingStops`. |
| Names.ReadNameExactly | packages/rk_mdns/rust/src/name.rs:167-220 | Reading at a position answers a name and a continuation if and only if the pointer grammar of section 4.1.4 of RFC 1035 spells that name there within 16 jumps, the labels with their length bytes total at most 255, and the continuation is just past the first pointer or the closing zero. The grammar is in octets: 192 and above is a pointer whose lower 14 bits are the place. |
| Names.ReadNameSound | packages/rk_mdns/rust/src/name.rs:167-220 | Whatever is read is well-formed (labels of 1 to 63 octets), and reading moves strictly forward and stays inside the message. |
| Names.ExpandDenotes | packages/rk_mdns/rust/src/name.rs:167-220 | Every successful expansion is a derivation in the pointer grammar, written in octets, that uses no more than the jumps left, with the total still inside the limit. |
| Names.DenotedExpands | packages/rk_mdns/rust/src/name.rs:167-220 | Conversely every derivation in that grammar within the two budgets is found by the expansion, so no acceptable name is refused. |
| Names.ReadBackName | packages/rk_mdns/rust/src/name.rs:155-220 | A well-formed name written anywhere in a message, with anything around it, is read back whole and reading continues right behind it. |
| Names.ReadCompressedName | packages/rk_mdns/rust/src/name.rs:180-216 | A compressed name, for every place below 16384 and every message around it: labels followed by the two octets of 49152 + `p` are read as those labels and the name written at `p`, and reading continues behind the pointer. |
| Names.SixteenJumps | packages/rk_mdns/rust/src/name.rs:185-188 | In a chain of `k` pointers, each to the one before it and the first to a zero octet, the last one is read if and only if `k` is at most 16. |
| Names.ReadingStops | packages/rk_mdns/rust/src/name.rs:175-216 | What stops reading at the first octet and how it is reported: the end of the message, a length from 64 to 191, a label or pointer cut off, a pointer past the end, a pointer that does not lead backwards. |
| Names.NameRoundTripsIff | packages/rk_mdns/rust/src/name.rs:213-216 | The limit the reader really applies: a name with legal labels survives the wire exactly when it encodes to at most 256 octets, one more than section 2.3.4 of RFC 1035 and than parsing text allow. |
| NameText.Format | packages/rk_mdns/rust/src/name.rs:223-244 | The printing loop writes the escaped text of the name. |
| NameText.EscapeOctets | packages/rk_mdns/rust/src/name.rs:226-240 | Octet 46 or 92 is printed behind a backslash, 32 to 126 as it is, any other as a backslash and three digits whose decimal value it is. |
| NameText.DisplayDots | packages/rk_mdns/rust/src/name.rs:223-244 | Printing two lists of labels in a row puts one dot between them and nothing else. |
| NameText.Parse | packages/rk_mdns/rust/src/name.rs:51-87 | The parsing loop with its label under construction computes the split of the text and the two length checks, errors included. |
| NameText.ParsedIsWellFormed | packages/rk_mdns/rust/src/name.rs:51-87 | A parsed name can be sent: its labels are 1 to 63 octets and it is at most 255 octets long. |
| NameText.SplitSteps | packages/rk_mdns/rust/src/name.rs:51-75 | Any text, octet by octet: 46 ends a label unless it is empty, 92 takes the next octet as it is and stands for itself at the end. |
| NameText.ParseOutcome | packages/rk_mdns/rust/src/name.rs:76-87 | What is answered once the text is split: the length of the first label over 63 octets, else that of the name over 255, else the name. |
| NameText.SplitOfDisplay | packages/rk_mdns/rust/src/name.rs:51-87 | Parsing a printed name gives its labels back with every unprintable octet spelled out as three digits. |
| NameText.ParseInvertsDisplayIff | packages/rk_mdns/rust/src/name.rs:51-87 | Within the length limits the text form survives a round trip if and only if every octet prints: `\DDD` is written but not read back. Dots and backslashes inside labels are no obstacle. |
| NameText.DisplayInjective | packages/rk_mdns/rust/src/name.rs:223-244 | Two names with non-empty labels that print alike are the same name, whatever octets they hold, so a table keyed by the text never merges two instances. |
| Records.EncodeData | packages/rk_mdns/rust/src/record.rs:104-136 | Each payload is appended in its wire form: an empty TXT as one zero octet, a long TXT string clipped to 255. |
| Records.EncodeRecord | packages/rk_mdns/rust/src/record.rs:200-219 | Reserving two bytes and patching the length in afterwards leaves exactly the record's wire form behind what was there. |
| Records.EncodeQuestion | packages/rk_mdns/rust/src/message.rs:90-99 | A question is appended with the QU bit packed into the class. |
| Records.DecodeTxt | packages/rk_mdns/rust/src/record.rs:258-274 | The TXT loop collects the strings that are not empty and stops at one that runs out of the body. |
| Records.DecodeData | packages/rk_mdns/rust/src/record.rs:224-280 | Every type is read from its slice with the length it needs; a payload that does not fit its type is kept as raw octets, and one that leaves the message is an error. |
| Records.ReadTxtSound | packages/rk_mdns/rust/src/record.rs:258-274 | Whatever TXT body arrives, the strings read from it are 1 to 255 octets each and no longer in total than the body. |
| Records.ReadBackTxt | packages/rk_mdns/rust/src/record.rs:128-136 | Whatever strings were written, reading finds them in order, without the empty ones and with the long ones cut at 255 octets. |
| Records.ReadableIffCanonical | packages/rk_mdns/rust/src/record.rs:128-274 | A TXT list survives the wire exactly when none of its strings is empty or over 255 octets. |
| Records.ReadRecordSound | packages/rk_mdns/rust/src/record.rs:224-280 | A record that was read is well-formed - so it can be written again without loss - and lies inside the message. |
| Records.ReadBackRecord | packages/rk_mdns/rust/src/record.rs:200-280 | A well-formed record of any type, written anywhere in a message, is read back whole: name, type, class without its top bit, flush bit, lifetime and payload. |
| Records.ReadBackSendable | packages/rk_mdns/rust/src/record.rs:200-280 | So is every other record whose payload fits its length field, except that a TXT comes back as the strings a reader can see. |
| Records.ReadBackQuestion | packages/rk_mdns/rust/src/message.rs:90-137 | A well-formed question written anywhere in a message is read back whole, the QU bit out of the class. |
| WireFormat.QuestionOctets | packages/rk_mdns/rust/src/message.rs:90-99 | What is written of a question: its name, two octets of type, two of class with 32768 for a unicast response. |
| WireFormat.ReadQuestionOctets | packages/rk_mdns/rust/src/message.rs:122-137 | What is read of one, from the octets behind its name. |
| WireFormat.RecordOctets | packages/rk_mdns/rust/src/record.rs:200-219 | What is written of a record, octet by octet: its name, the number of its type (1, 12, 16, 28, 33), its class with 32768 for flushing, its lifetime in four octets and its length in two, the higher octet first, and its payload. |
| WireFormat.ReadRecordOctets | packages/rk_mdns/rust/src/message.rs:139-168 | What is read of one, from the octets behind its name: lifetime, class without the top bit, flushing exactly when the first octet of the class is at least 128, length, and the payload of the type so numbered. |
| WireFormat.ReadDataKind | packages/rk_mdns/rust/src/record.rs:224-280 | By number of type and of octets what a payload is taken for: 1 with four octets, 28 with sixteen, 12, 33 with at least seven, 16, and everything else as raw octets; SRV fields stand at octets 0, 2, 4 and 6. |
| WireFormat.SrvOctets | packages/rk_mdns/rust/src/record.rs:111-124 | Priority, weight and port of an SRV in two octets each, then its target. |
| WireFormat.OtherOctets | packages/rk_mdns/rust/src/record.rs:104-136 | Addresses and names stand alone; a TXT is its strings with a length octet before each, one zero when there are none, 255 octets of a longer one. |
| WireFormat.ReadTxtStands | packages/rk_mdns/rust/src/record.rs:258-274 | Reading a TXT string by string: an empty one is passed over, one that does not fit ends the list. |
| WireFormat.NameOctets | packages/rk_mdns/rust/src/name.rs:155-161 | A name on the wire, label by label: the length of each in front of it, and a zero at the end. |
| Messages.Encode | packages/rk_mdns/rust/src/message.rs:81-107 | Header, questions and the three record sections are written in order into one buffer. |
| Messages.DecodeQuestions | packages/rk_mdns/rust/src/message.rs:122-137 | The question loop at a moving offset equals the recursive reader, first error included. |
| Messages.DecodeRecords | packages/rk_mdns/rust/src/message.rs:139-168 | The record loop at a moving offset equals the recursive reader, first error included. |
| Messages.Decode | packages/rk_mdns/rust/src/message.rs:109-179 | The nested loops over the four sections compute the reader's message or its first error; a datagram below twelve octets is refused as too short. |
| Messages.DecodedIsWellFormed | packages/rk_mdns/rust/src/message.rs:109-179 | Every message that is accepted, compressed or not, is well-formed. |
| Messages.WellFormedRoundTrips | packages/rk_mdns/rust/src/message.rs:81-179 | Decoding the encoding of a well-formed message gives the message back: all sections, every record type, the QU and flush bits separated from the class. |
| Messages.RoundTripIff | packages/rk_mdns/rust/src/message.rs:81-179 | Well-formedness is exactly what survives the wire: a message comes back from its encoding if and only if it is well-formed. |
| Messages.SentIsReadAs | packages/rk_mdns/rust/src/message.rs:81-179 | A message whose sizes fit their fields is always accepted on the other side, and is read as itself with each TXT reduced to what a reader can see. |
| Messages.Canonicalises | packages/rk_mdns/rust/src/message.rs:81-179 | For every byte string that is accepted, encoding what was read and reading it again changes nothing. |
| WireFormat.HeaderOctets | packages/rk_mdns/rust/src/message.rs:81-107 | The twelve octets of a header are identifier, flags and the four counts modulo 65536, the higher octet first, and the four sections follow. |
| WireFormat.ReadHeaderOctets | packages/rk_mdns/rust/src/message.rs:39-122 | From the octets of an accepted datagram: identifier, flags, and as many entries of each section as its count says; a response is one with octet 2 at least 128, an authoritative one with 4 in it. |
| WireFormat.SentFlags | packages/rk_mdns/rust/src/message.rs:54-77 | A response starts with the octets 0, 0, 132, 0 and a query with four zeros. |
| Caching.Cache.Put | packages/rk_mdns/rust/src/cache.rs:66-128 | The entry vector and the reported change after taking a record in, for goodbyes, refreshes, flushing and joining records alike. |
| Caching.Cache.Goodbye | packages/rk_mdns/rust/src/cache.rs:68-86 | A goodbye pulls the deadline of the matching answers to at most a second away and leaves all else as it was. |
| Caching.Cache.Expire | packages/rk_mdns/rust/src/cache.rs:132-143 | What has run out is removed and handed back, in order; the rest stays in order. |
| Caching.PutRefines | packages/rk_mdns/rust/src/cache.rs:66-128 | One `put` on the vector is one update of a map from answers (name ignoring case, class, payload) to deadlines, no answer ever stands twice, and the change it reports is determined by the map. |
| Caching.ExpireRefines | packages/rk_mdns/rust/src/cache.rs:132-143 | Expiry keeps exactly the answers still alive and hands back exactly the answers it drops. |
| Caching.PutMeans | packages/rk_mdns/rust/src/cache.rs:66-128 | One `put`, key by key and in milliseconds: the answer itself runs out 1000 for each second of its lifetime from now, one said goodbye to at most 1000 from now, and any other answer is lost exactly when a flushing record of the same name and type, no address and not held yet, arrives alive; else it keeps its deadline. |
| Caching.PutInPlace | packages/rk_mdns/rust/src/cache.rs:88-128 | On the vector: what is held is refreshed where it stands, with the lifetime of the record; what is new goes to the end, behind all that was held, or behind what a flushing record leaves. |
| Caching.LivesItsLifetime | packages/rk_mdns/rust/src/cache.rs:66-143 | Put into any cache, an answer of lifetime `t` seconds is alive at an instant if and only if that is before `now + 1000 t`. |
| Caching.RunRefines | packages/rk_mdns/rust/src/cache.rs:66-143 | Over every run of puts and expiries the vector implements the map the same run produces. |
| Caching.GoodbyeTakesEffect | packages/rk_mdns/rust/src/cache.rs:67-86 | After any run, a goodbye, and anything else but a new announcement of that answer, the first expiry a second later leaves no entry with that answer. |
| Caching.GoodbyeOnlyLowers | packages/rk_mdns/rust/src/cache.rs:67-86 | Seen through expiry at any later instant: until a second has passed the same answers are alive in the same order as without the goodbye, and from then on the one said goodbye to is missing and no other. |
| Caching.FlushedNeverHoldsTwo | packages/rk_mdns/rust/src/cache.rs:109-128 | A name and non-address type fed only by cache-flush records never holds two answers, over any run. |
| Caching.FlushClearsIff | packages/rk_mdns/rust/src/cache.rs:89-128 | What section 10.2 of RFC 6762 promises of the cache-flush bit holds of a `put` exactly when the record is no address and its answer is not yet held, or when there was nothing to replace: a refresh returns before the bit is looked at. |
| Services.AnswerQuestion | packages/rk_mdns/rust/src/records.rs:150-210 | The branches, the pushes and the suppression of known answers compute the answer the specification describes; names compare ignoring case as `Names.EqIgnoresCase` says. |
| Services.AnswerIsFilterIff | packages/rk_mdns/rust/src/records.rs:150-210 | For every question, answering is filtering the announcement by name and type, in order, if and only if service type, enumeration name, instance and - when the service has addresses - host are pairwise different ignoring case. |
| Services.AnswerIsUnsuppressedFilter | packages/rk_mdns/rust/src/records.rs:150-210 | With known answers the answer section is that filter without the records a known answer suppresses. |
| Services.AdditionalIffAnswered | packages/rk_mdns/rust/src/records.rs:155-207 | What rides along, while the four names differ: SRV, TXT and addresses exactly with the service pointer, the addresses exactly with SRV or TXT, nothing otherwise. |
| Services.AnswerWithinOwnRecords | packages/rk_mdns/rust/src/records.rs:150-210 | Whatever the names: every answer is announced and unsuppressed, everything additional is claimed, and nothing is additional when nothing is answered. |
| WireFormat.OwnPointerOctets | packages/rk_mdns/rust/src/records.rs:48-64 | The two shared pointers of a service on the wire, octet by octet: type 12, class 1, the service lifetime. |
| WireFormat.OwnSrvOctets | packages/rk_mdns/rust/src/records.rs:67-78 | The SRV: type 33, class 1 with the flush bit, the host lifetime, priority and weight zero, port and host. |
| WireFormat.OwnTxtOctets | packages/rk_mdns/rust/src/records.rs:81-87 | The TXT: type 16, class 1 with the flush bit, the service lifetime, its strings. |
| WireFormat.OwnAddressOctets | packages/rk_mdns/rust/src/records.rs:90-101 | An address: type 1 or 28 under the host name, class 1 with the flush bit, the host lifetime, four or sixteen octets. |
| WireFormat.OwnSections | packages/rk_mdns/rust/src/records.rs:104-131 | Announced are enumeration pointer, pointer, SRV, TXT and addresses in this order, claimed the same without the pointers, taken back the same with lifetime zero. |
| WireFormat.EnumerationIsSpelled | packages/rk_mdns/rust/src/records.rs:19 | The enumeration name is spelled `_services`, `_dns-sd`, `_udp`, `local`. |
| Suppression.LeftOutIff | packages/rk_mdns/rust/src/records.rs:196-200 | Across both halves of known-answer suppression, through the wire: an answer the querier holds is left out exactly when at least half of the responder's lifetime, rounded up, is left of the copy in whole seconds (and less than 2^31 seconds, where the doubling wraps). |
| Suppression.OfferCarriesTheRest | packages/rk_mdns/rust/src/cache.rs:164-178 | The copy a querier offers for an answer it holds carries what is left of it, rounded down to seconds. |
| Renaming.LabelsNeverRepeat | packages/rk_mdns/rust/src/records.rs:259-266 | Labels of two attempts differ even ignoring case: decimal printing never collides. |
| Renaming.AttemptsNeverShareNames | packages/rk_mdns/rust/src/records.rs:217-223 | No two attempts share an instance or a host name. |
| Renaming.RenamingAgain | packages/rk_mdns/rust/src/records.rs:217-223 | Renaming from any attempt gives the attempt built from the original labels; suffixes do not pile up. |
| Renaming.AttemptIsWritten | packages/rk_mdns/rust/src/records.rs:217-266 | Attempt `k` is the configured service with a hyphen (45) and the digits of `k` behind the first labels of instance and host, for 2 to 99; nothing else changes. |
| Renaming.RenamedFitsIff | packages/rk_mdns/rust/src/name.rs:132-137 | A renamed name is still legal exactly when the suffix fits into the 63 octets of the label and the 255 of the name, which renaming does not check. |
| TieBreaking.Sortable | packages/rk_mdns/rust/src/records.rs:291-306 | Writing the record under the root name and cutting its head off gives class, type and payload as one comparable key. |
| TieBreaking.TieBreak | packages/rk_mdns/rust/src/records.rs:275-287 | Sorting both sides and comparing them pairwise computes the verdict. |
| TieBreaking.SortedUnique | packages/rk_mdns/rust/src/records.rs:275-279 | A sorted key list is determined by its contents, so the order in which records were listed cannot matter. |
| TieBreaking.VerdictOnMultisets | packages/rk_mdns/rust/src/records.rs:275-287 | The verdict depends only on the two multisets of keys. |
| TieBreaking.VerdictIsTotalOrder | packages/rk_mdns/rust/src/records.rs:275-287 | It is equal exactly when the multisets are, turns round when the sides swap, and is transitive: a total order, as section 8.2 of RFC 6762 needs. |
| TieBreaking.EarlierLoses | packages/rk_mdns/rust/src/records.rs:275-306 | Which side loses, for any listing of the keys in ascending order of unsigned octets: ours does if and only if, at the first place where the lists differ, ours has ended or holds the earlier string, which at the first octet where the strings differ has ended or holds the smaller one. |
| TieBreaking.LessIsBefore | packages/rk_mdns/rust/src/records.rs:275-287 | Octet strings compare by their first difference, unsigned, and a prefix comes first. |
| WireFormat.KeyOctets | packages/rk_mdns/rust/src/records.rs:291-306 | A claim is compared by two octets of class, two of type and its data. |
| Responders.DetectConflict | packages/rk_mdns/rust/src/responder.rs:641-693 | The loops over a response's records and a probe's authority section find the first foreign record or the lost tie-break. |
| Responders.ResponseConflictIff | packages/rk_mdns/rust/src/responder.rs:645-664 | Heard off the wire, a response is a conflict exactly when one of its answers or additional records, as it is read there, is no goodbye, stands under a name we own and says something we do not. |
| Responders.QueryConflictIff | packages/rk_mdns/rust/src/responder.rs:668-693 | Heard off the wire, a query is a conflict exactly when it asks for one of our two names and what it claims under them, in whatever order, beats what we claim. |
| Responders.FirstIsReported | packages/rk_mdns/rust/src/responder.rs:645-664 | The conflict a response is reported as is its first record that speaks against us, by name and type. |
| Responders.CollectAnswers | packages/rk_mdns/rust/src/responder.rs:735-757 | The loop over the questions collects answers and additional records once each and notes whether a unicast reply was asked for. |
| Responders.CollectedIff | packages/rk_mdns/rust/src/responder.rs:735-757 | Something is collected exactly when some question has an answer not yet known, and the reply is unicast exactly when such a question asked for that. |
| Responders.AnnouncementWellFormed | packages/rk_mdns/rust/src/records.rs:104-131 | Every record a well-formed service announces, claims or withdraws survives the wire. |
| WireFormat.ProbeOctets | packages/rk_mdns/rust/src/responder.rs:617-639 | A probe on the wire: identifier and flags zero, two questions of type 255 with class octets 128 and 1 for instance and host, and the claims in the authority section. |
| Responders.ProbeVerdict | packages/rk_mdns/rust/src/responder.rs:668-693 | A probe for the same two names, received as bytes, is a conflict exactly when our claims sort below the other's. |
| Responders.ExactlyOneBacksOff | packages/rk_mdns/rust/src/responder.rs:668-693 | Two hosts probing for the same instance and host: reading each other's datagrams, exactly one backs off when their claims differ as multisets and neither does when they agree. |
| Responders.ReplyWithin | packages/rk_mdns/rust/src/responder.rs:726-770 | Every record of a reply is one we announce, and the reply survives the wire. |
| Responders.OwnResponseIsQuiet | packages/rk_mdns/rust/src/responder.rs:645-664 | A response made only of our own records and of goodbyes is no conflict once read back from the wire. |
| Responders.OwnAnnouncementQuietIff | packages/rk_mdns/rust/src/responder.rs:641-705 | A responder that hears its own announcement takes it for a conflict exactly when, its service lifetime being positive, a TXT string is empty or over 255 octets or one of its own names heads a record shared with others. |
| Responders.NoSelfConflictIff | packages/rk_mdns/rust/src/responder.rs:641-705 | Nothing the engine sends for its current names - probe, announcement, goodbye, reply to any query - counts as a conflict when it hears it back, if and only if those names are apart and the TXT strings are all of 1 to 255 octets. |
| Responders.HeldNameIsDefended | packages/rk_mdns/rust/src/responder.rs:726-770 | A probe for held names always draws a reply, and the prober, reading it off the wire, sees a conflict exactly when the holder has a record it does not propose itself. |
| PartialClash.WhoYields | packages/rk_mdns/rust/src/responder.rs:668-693 | Two probers that share only the instance name: at least one always backs off, and both do unless the side with the larger TXT has no IPv4 address, which is weaker than the one loser section 8.2 of RFC 6762 asks for. |
| PartialClash.BothTillsBackOff | packages/rk_mdns/rust/src/responder.rs:668-693 | A concrete pair: two tills with one IPv4 address each, the same instance name and different hosts; both are told they lost. |
| HostClash.WhoBacksOff | packages/rk_mdns/rust/src/responder.rs:668-693 | However the names of two probers coincide - both, the instance only, the host only, crosswise, not at all - it is stated when a host with an address backs off before the other's probe. |
| HostClash.SharedHost | packages/rk_mdns/rust/src/responder.rs:668-693 | Two probers that share only the host name: both back off exactly when their IPv4 addresses are the same and both have IPv6 addresses; neither does exactly when the IPv4 addresses of one begin the other's and it has no IPv6 address, nor the other if they are the same. |
| HostClash.NeitherBacksOff | packages/rk_mdns/rust/src/responder.rs:668-693 | A concrete pair: two well-formed tills behind one host name and one IPv4 address, on different ports; their claims differ and neither is told that it lost. |
| ResponderEngines.Engine.constructor | packages/rk_mdns/rust/src/responder.rs:398-408 | The engine starts at attempt one with the configured records. |
| ResponderEngines.Engine.Rename | packages/rk_mdns/rust/src/responder.rs:498-506 | The next attempt's names replace both names, built from the original labels, and the name left behind is returned. |
| ResponderEngines.Engine.SendProbe | packages/rk_mdns/rust/src/responder.rs:617-639 | One probe for the current names goes to the group. |
| ResponderEngines.Engine.Listen | packages/rk_mdns/rust/src/responder.rs:579-588 | A window is read up to and including its first conflict, or to its end when there is none. |
| ResponderEngines.Engine.ProbeRound | packages/rk_mdns/rust/src/responder.rs:564-592 | Up to 3 probes under the current names: claimed means exactly 3 windows and nothing heard against us in any of them, contested means the last one was broken by a conflict, stopped means the stop flag was seen and nothing was heard against us. |
| ResponderEngines.Engine.ProbeUntilClaimed | packages/rk_mdns/rust/src/responder.rs:550-615 | Against every sequence of datagrams, in numbers: true only after at least 3 datagrams of which the last 3 are the probe for the final names, with nothing in the three arrivals behind them that conflicts with those names; a conflict behind one of the first 3 denies the configured names; at most 20 renames, 21 rounds and 63 probes; attempt k always uses the names of attempt k; false only when stopped or after the twenty-first contested round; where nothing speaks against the configured names, those are claimed. |
| ResponderEngines.TraceGrows | packages/rk_mdns/rust/src/responder.rs:564-615 | A contested round extends the trace of attempts by one and keeps the bound on what was sent. |
| ResponderEngines.Engine.Handle | packages/rk_mdns/rust/src/responder.rs:707-811 | After claiming: an authoritative conflicting response renames once and re-announces without probing, any other response does nothing, and a query sends exactly the deliveries its reply calls for. |
| ResponderEngines.DeliveredWhere | packages/rk_mdns/rust/src/responder.rs:726-803 | Where a reply goes: to the sender exactly when a question that is answered asked for that, to the group exactly when none did or the query is a probe; it has the response flags, and the identifier of the query only when a unicast reply was asked for, else zero. |
| ResponderEngines.Engine.Announce | packages/rk_mdns/rust/src/responder.rs:697-705 | The announcement of the current names goes to the group. |
| ResponderEngines.DefenceReachesTheGroup | packages/rk_mdns/rust/src/responder.rs:772-803 | The defence of a held name goes to the whole group, not only to the address the probe came from, and whoever proposed something else sees the conflict in it. |
| ResponderEngines.DefenceDeniesTheClaim | packages/rk_mdns/rust/src/responder.rs:564-592 | If the defence by a holder of both names with another record arrives in one of the three windows, those windows are not what a claim of these names needs. |
| ResponderEngines.WinnerDeniesTheClaim | packages/rk_mdns/rust/src/responder.rs:564-592 | Nor are they if the probe of a winner of the tie-break arrives in one: two probers for the same names that hear each other do not both claim them. |
| Contests.NotBothClaim | packages/rk_mdns/rust/src/responder.rs:550-803 | Two hosts that probe for the same names, each with a record the other does not propose, never both come through their three probes, whenever each of them begins: probes that overlap are decided by the tie-break, and a later probe is answered by the defence. |
| Contests.BothMayClaim | packages/rk_mdns/rust/src/responder.rs:550-803 | Where one of them claims nothing the other does not propose, there are two bids in which both come through. |
| Contests.BothProbe | packages/rk_mdns/rust/src/responder.rs:550-615 | The same of two engines: not both return true under their configured names. |
| Contests.NeitherSettles | packages/rk_mdns/rust/src/responder.rs:550-615 | Two tills with the same instance name on different hosts, each with an IPv4 address: while in every round each hears the other's probe for the attempt of the same number, neither ever claims a name, and without a stop each gives up after twenty-one rounds. |
| Browsing.SplitPairs | packages/rk_mdns/rust/src/record.rs:292-305 | TXT strings that are UTF-8 become key and value at the first `=`; others are dropped. |
| Browsing.TxtPairsAre | packages/rk_mdns/rust/src/record.rs:292-305 | The pairs are those of the UTF-8 entries and of no others, in order. |
| Browsing.Pair | packages/rk_mdns/rust/src/record.rs:297-302 | A key holds no octet 61; with one in the entry, key, 61 and value make up the entry, without one the key is the entry and the value empty. |
| Browsing.BrowseEngine.DetailsFor | packages/rk_mdns/rust/src/browser.rs:552-588 | Host and port of the first SRV, all addresses of its target in order, the TXT pairs, or nothing while there is no SRV or no address. |
| CacheReadings.DetailsAre | packages/rk_mdns/rust/src/browser.rs:552-588 | Read off the cache entry by entry: with a first SRV under the name, nothing exactly while no address stands under its target; else its target and port, all those addresses in ascending order, and the pairs of the first TXT under the name. |
| CacheReadings.NoDetails | packages/rk_mdns/rust/src/browser.rs:552-563 | Without an SRV under the name there are no details. |
| Browsing.DetailsHaveAddresses | packages/rk_mdns/rust/src/browser.rs:566-568 | Whatever is reported has somewhere to connect to. |
| Browsing.BrowseEngine.ReportNews | packages/rk_mdns/rust/src/browser.rs:500-543 | Found is sent once, resolved whenever the details changed, and the table is left up to date. |
| Browsing.BrowseEngine.Absorb | packages/rk_mdns/rust/src/browser.rs:477-497 | A response's answers and additional records go into the cache and the news is reported; anything else is ignored. |
| CacheReadings.AbsorbIsRun | packages/rk_mdns/rust/src/browser.rs:477-497 | What a datagram does to the cache is one run of puts, a response's answers first and then its additional records; any other datagram does nothing. |
| Browsing.BrowseEngine.Tick | packages/rk_mdns/rust/src/browser.rs:418-421 | What has run out is dropped and its instances are reported lost. |
| Browsing.BrowseEngine.Retire | packages/rk_mdns/rust/src/browser.rs:591-604 | A pointer of the service type that expired takes its instance off the table with one event. |
| BrowserRuns.EventsFollowTheGrammar | packages/rk_mdns/rust/src/browser.rs:477-604 | Over every run of datagrams and expiries the events of each instance form (Found Resolved* Lost)* with an unfinished tail, each Resolved has an address, and two Resolved in one life carry different details. |
| BrowserRuns.ReportIsCurrent | packages/rk_mdns/rust/src/browser.rs:500-543 | After a report every instance pointed to stands in the table with its current details. |
| BrowserRuns.RunSane | packages/rk_mdns/rust/src/browser.rs:418-497 | Over every run the cache holds no answer twice and nothing that could not have come off the wire. |
| Listings.PutAllCached | packages/rk_mdns/rust/src/browser.rs:477-497 | Of the instances pointed to before a datagram, exactly those are not pointed to after it that a new cache-flush pointer in it sweeps away and no later record brings back. |
| Listings.FaithfulStepIff | packages/rk_mdns/rust/src/browser.rs:418-604 | A datagram or expiry keeps the table listing exactly what the cache points to if and only if it sweeps no listed instance away and splits none, that is, ends one of two pointers to it that differ in class. |
| Listings.ListedExactlyWhileCachedIff | packages/rk_mdns/rust/src/browser.rs:418-604 | Over every run: an instance is listed exactly while the cache holds a pointer to it, at every moment, if and only if no step of the run sweeps or splits. |
| Listings.OneRecordIff | packages/rk_mdns/rust/src/browser.rs:477-543 | For a response of one record the condition is that record: a pointer of the type with the cache-flush bit, not held yet, while another instance is cached. |
| Listings.GentleRunsAreFaithful | packages/rk_mdns/rust/src/browser.rs:418-604 | Over every run whose pointers are of class IN and in which no record evicts when it is put, listed is cached at every moment; first pointers and refreshes with the cache-flush bit are allowed. |
| Listings.FlushingPointerDropsSilently | packages/rk_mdns/rust/src/browser.rs:500-604 | From a fresh browser: after a shared pointer to one instance and a cache-flush pointer to another, the first has left the cache, is still listed, and no loss was ever reported. |
| Listings.ClassesSplit | packages/rk_mdns/rust/src/browser.rs:591-604 | From a fresh browser: two shared pointers to one instance in classes 1 and 3 with different lifetimes; the first expiry reports the instance lost while it is still cached. |
| Discovery.LearnedDetails | packages/rk_mdns/rust/src/browser.rs:552-588 | From a cache that learned an announcement, the details are exactly its host, port, address set and TXT pairs. |
| Discovery.AnnouncedJoin | packages/rk_mdns/rust/src/cache.rs:66-128 | Records of one announcement join the cache in any order and any number of times, and none of them throws out another. |
| Discovery.ToldIsLearned | packages/rk_mdns/rust/src/cache.rs:66-128 | Whatever of an announcement arrives, in whatever order: once all that is claimed has been told, the cache holds its SRV and TXT alone and exactly its addresses. |
| Discovery.TellingResolvesIff | packages/rk_mdns/rust/src/browser.rs:477-588 | After any run that left nothing of the instance and its host in the cache, a datagram with records of the announcement in any order and section that tells all the service claims leaves the instance resolved with exactly the announced details if and only if the pointer is among the records, or the cache points to the instance already, or it stood resolved so before. |
| Discovery.AnnouncementResolves | packages/rk_mdns/rust/src/browser.rs:477-588 | End to end, after any such run: a well-formed service's announcement, encoded, decoded and absorbed, lists the instance with exactly the announced host, port, addresses and TXT pairs. |
| Updates.AnnouncementUpdatesIff | packages/rk_mdns/rust/src/cache.rs:89-128 | After any run, whatever was heard before: a service's announcement makes a browser show exactly what is announced if and only if its SRV is news or agrees with the first one held, its TXT likewise, and every address held under the host name is announced. |
| Updates.AnnouncementIsLearned | packages/rk_mdns/rust/src/browser.rs:477-497 | A first announcement leaves the cache with the service's SRV and TXT alone and exactly its addresses. |
| Updates.ReannouncedIff | packages/rk_mdns/rust/src/cache.rs:89-128 | A browser that has learned a service and hears it announced again with another port, TXT or addresses shows exactly the new details if and only if no address was withdrawn. |
| Farewells.GoodbyeTakesItOff | packages/rk_mdns/rust/src/browser.rs:414-604 | The way out, end to end: after any run that left the instance listed, its pointer cached and no pointer to it of another class, the goodbye off the wire; then expiries at any instants and datagrams that neither point to the instance nor sweep. From the first expiry a second after the goodbye on, the instance is off the table and out of the cache, with exactly one loss reported for it more than before. |
| Farewells.FirstTickTakesItOff | packages/rk_mdns/rust/src/browser.rs:418-604 | With pointers to the instance in whatever classes: if no expiry comes before the first one a second after the goodbye, that one takes the instance off the table with one loss. |
| Farewells.LostOnce | packages/rk_mdns/rust/src/browser.rs:591-604 | An expiry reports an instance lost once, however many pointers to it ran out, and only if it was listed. |
| Browsing.BrowseEngine.SendQuery | packages/rk_mdns/rust/src/browser.rs:425-460 | The query asks for the service type and for SRV and TXT of every known instance lacking one of them, and offers the pointers held as known. |
| Browsing.BrowseEngine.InstancesNeedingDetail | packages/rk_mdns/rust/src/browser.rs:462-475 | Exactly the instances pointed to whose SRV or TXT is not held, in order. |
| CacheReadings.QueryAsks | packages/rk_mdns/rust/src/browser.rs:425-475 | A query asks first for type 12 of the service type and besides exactly for types 33 and 16, in class 1, of every instance pointed to for which one of the two is not held. |
| CacheReadings.QueryOffers | packages/rk_mdns/rust/src/cache.rs:164-178 | It offers exactly the pointers of the service type still alive, each with the whole seconds it has left modulo 2^32. |
| Lookups.QueryWellFormedIff | packages/rk_mdns/rust/src/browser.rs:425-475 | The query a browser sends survives the wire exactly when the 16-bit counts can hold its questions and its known answers, as they always can for fewer than 32767 cached records. |
| Lookups.ReplyTellsAll | packages/rk_mdns/rust/src/records.rs:150-210 | Whatever the browser knew, the reply to its query tells all the service claims, and the pointer unless the browser holds it: a suppressed pointer is made up for by the questions about its instance. |
| Lookups.AskingResolvesIff | packages/rk_mdns/rust/src/browser.rs:425-588 | A query off a browser that holds no details, the responder's reply to the group, and its arrival after any datagrams and expiries in between that bring nothing of the instance and its host: the instance is then listed with exactly its host, port, addresses and TXT pairs if and only if the known answers did not hold the pointer back, or the cache still points to the instance, or it stood resolved so before. |
| Lookups.AskingResolves | packages/rk_mdns/rust/src/browser.rs:425-588 | So one round trip resolves the instance, whether or not the pointer was known before and whatever happens in between, unless a pointer that was held is no longer held when the reply arrives. |
| Lookups.PointerRunsOutMeanwhile | packages/rk_mdns/rust/src/browser.rs:425-588 | How it fails, from a fresh browser and for every service: the pointer arrives alone, is offered as known and so left out of the reply, and runs out before the reply is there. |
| Lookups.DatagramCountsFit | packages/rk_mdns/rust/src/message.rs:81-107 | A query whose counts do not fit 16 bits is longer than any datagram. |
| Sha256.Hasher.Expand | packages/rk_infer/rust/src/sha256.rs:111-128 | The sixty-four schedule words are those of section 6.2.2 of FIPS 180-4. |
| Sha256.ScheduleStep | packages/rk_infer/rust/src/sha256.rs:120-128 | Adding the schedule terms in the order the code uses gives the word the standard defines. |
| Sha256.Hasher.CompressBlock | packages/rk_infer/rust/src/sha256.rs:110-156 | Sixty-four rounds over eight working variables and the final addition advance the state by exactly one block. |
| Sha256.Hasher.Mix | packages/rk_infer/rust/src/sha256.rs:130-146 | The round loop moves the eight working variables as section 6.2.2 does, sixty-four times. |
| Sha256.Hasher.Update | packages/rk_infer/rust/src/sha256.rs:53-81 | Whatever lengths came before: the state is the fold of compression over the complete blocks, the buffer holds the remainder below 64, and together they have absorbed the old input followed by the new. |
| Sha256.Hasher.Fill | packages/rk_infer/rust/src/sha256.rs:57-69 | Topping up a partly filled buffer compresses it exactly when it becomes full and hands on the rest. |
| Sha256.Hasher.TakeBlocks | packages/rk_infer/rust/src/sha256.rs:71-80 | With an empty buffer the complete blocks are compressed and the remainder is kept. |
| Sha256.Hasher.Tail | packages/rk_infer/rust/src/sha256.rs:86-96 | The padding buffer is the padding of section 5.1.1 of FIPS 180-4 for every message length that leaves this remainder. |
| Sha256.Hasher.Finish | packages/rk_infer/rust/src/sha256.rs:83-108 | The digest is the standard's, of everything absorbed, with the bit count taken modulo 2^64. That the constants and the digest are the standard's is `Sha256Standard`. |
| Sha256.PaddedLength | packages/rk_infer/rust/src/sha256.rs:86-101 | Padding always lands on a block boundary. |
| Sha256.DigestedConcat | packages/rk_infer/rust/src/sha256.rs:53-81 | Folding over a concatenation at a block boundary is folding over the parts in turn. |
| Sha256.HashReads | packages/rk_infer/rust/src/sha256.rs:177-191 | For every way the reads fall, hashing them one by one up to the first empty read gives the FIPS 180-4 digest and the length of their concatenation (below 2^61 octets); constants, rotations and a known digest are pinned by `Sha256Standard` and `Words`. |
| Sha256Standard.InitialAreSquareRoots | packages/rk_infer/rust/src/sha256.rs:41-50 | Section 5.3.3 of FIPS 180-4: each initial word is the first 32 bits of the fraction of the square root of one of the first eight primes, in order. |
| Sha256Standard.ConstantsAreCubeRoots | packages/rk_infer/rust/src/sha256.rs:17-26 | Section 4.2.2: each round constant is the first 32 bits of the fraction of the cube root of one of the first sixty-four primes, in order. |
| Sha256Standard.DigestOfAbc | packages/rk_infer/rust/src/sha256.rs:199-219 | The digest of the three octets of `abc` is the one the standard's examples give, all 32 octets. |
| Words.RotrTurns | packages/rk_infer/rust/src/sha256.rs:120-138 | Each rotation and shift the hash uses, as arithmetic: what falls out at the bottom comes back at the top. |
| Scales.Parse | packages/rk_devices/rust/src/scale.rs:188-213 | One frame: the line up to the first terminator and every terminator byte right behind it; incomplete exactly when there is no terminator, and only then nothing is consumed. |
| Scales.ParseFrame | packages/rk_devices/rust/src/scale.rs:188-213 | A complete frame consumes at least one byte and an incomplete one none, so draining comes to an end. |
| Scales.ParseLine | packages/rk_devices/rust/src/scale.rs:215-226 | UTF-8 and white space are judged exactly, then the dialect decides. |
| Utf8.IsUtf8Iff | packages/rk_devices/rust/src/scale.rs:215-218 | What is taken for UTF-8 is exactly what encodes a string of Unicode scalar values, written out in arithmetic. |
| ScaleLines.SpaceCharIff | packages/rk_devices/rust/src/scale.rs:215-220 | The characters trimmed are exactly the code points with the property White_Space, listed by number. |
| ScaleLines.TrimIs | packages/rk_devices/rust/src/scale.rs:215-220 | Trimming takes white space from both ends and leaves a text that neither starts nor ends with any. |
| ScaleLines.NoReading | packages/rk_devices/rust/src/scale.rs:215-322 | A line that is not UTF-8 or holds only white space is no reading, nor is one of the comma-separated dialect that is on the scale and has no third field. |
| Scales.ParseGeneric | packages/rk_devices/rust/src/scale.rs:228-268 | The bare-line dialect: overload first, then the number with a required fraction, unit behind it, motion by marker. |
| Scales.ParseCas | packages/rk_devices/rust/src/scale.rs:270-322 | Three fields at most; overload and underload before the value is looked at; the weight slot keeps its commas. |
| Scales.ParseMassaK | packages/rk_devices/rust/src/scale.rs:324-345 | A line that begins with a dollar sign is settled and loses that sign; any other is unsettled and loses no digit of its weight. |
| Scales.ScanNumber | packages/rk_devices/rust/src/scale.rs:422-479 | Whatever the text: the scanner answers the digits at the leftmost place where a number stands, signed, with their exponent, or nothing when there is none or it does not fit 64 bits. |
| ScaleLines.MatchIff | packages/rk_devices/rust/src/scale.rs:422-479 | A whole line has a number exactly when somewhere a point or comma stands between two digits, a field exactly when it has a digit. |
| ScaleLines.TooLargeIsNone | packages/rk_devices/rust/src/scale.rs:466-478 | A number found is refused exactly when it lies outside the 64-bit range, and no other is looked for. |
| Scales.NothingSkipped | packages/rk_devices/rust/src/scale.rs:453-456 | After a bare integer on a whole line the scanner jumps past it, and nothing it jumps over could have been a number. |
| Scales.ScanUnitAfter | packages/rk_devices/rust/src/scale.rs:489-504 | The letters right behind the number decide the unit. |
| ScaleLines.UnitIs | packages/rk_devices/rust/src/scale.rs:489-504 | Behind any blanks, `g` and `gs` in either case mean grams, `lb` and `lbs` pounds, other letters or none kilograms. |
| Scales.StabilityIffMarked | packages/rk_devices/rust/src/scale.rs:228-345 | A reading is settled exactly when its line marks it so and off the scale exactly when its line says so, underload told from overload; an off-scale line always makes a reading and its digits never become a weight. The marks are octets: `OL` standing alone, 126 and 77; `ST`, `OL` and `UL` in either case; 36 at the start. |
| ScaleLines.MeasureIffMarked | packages/rk_devices/rust/src/scale.rs:283-292 | Gross or net is said by `GS` or `NT` in the second field of the comma-separated dialect, and by nothing else. |
| ScaleLines.FewFields | packages/rk_devices/rust/src/scale.rs:270-282 | Fewer than two commas leave one field or two. |
| Scales.FindWord | packages/rk_devices/rust/src/scale.rs:366-386 | A word is found if and only if it stands somewhere touching no letter, digit or underscore. |
| ScaleStreams.ChunkingDoesNotMatter | packages/rk_devices/rust/src/scale.rs:188-213 | However a byte stream is cut into reads, appending each read and draining yields the same readings, the same unreadable lines and the same bytes left over. |
| ScaleStreams.DrainIsLines | packages/rk_devices/rust/src/scale.rs:188-213 | Draining yields the non-empty lines in order and keeps the unfinished one. |
| ScaleWeights.WeightsPrintAndParse | packages/rk_devices/rust/src/scale.rs:188-344 | For every 64-bit value, number of decimals (at least one on a bare line), padding, separator, sign, unit, measure and stability, in all three dialects, written in octets: what a scale writes is the first frame of the stream and comes back exactly. |
| ScaleWeights.ScanLayout | packages/rk_devices/rust/src/scale.rs:422-479 | A number embedded in a text - with blanks between sign and digits, point or comma - is found at its sign and read digit for digit. |
| ScaleWeights.TrimSlot | packages/rk_devices/rust/src/scale.rs:215-220 | Trimming a slot leaves the number, whatever blanks were around it. |
| Settling.Stabilizer.constructor | packages/rk_devices/rust/src/scale.rs:600-610 | A fresh rule stands for the empty history; zero repeats count as one. |
| Settling.Stabilizer.Offer | packages/rk_devices/rust/src/scale.rs:620-668 | Each answer is the verdict on the whole history so far, and the fields keep saying so. |
| Settling.Poll | packages/rk_devices/rust/src/scale.rs:596-668 | For every run of offers, every answer is the verdict on the offers up to it. |
| Settling.ReadingsAre | packages/rk_devices/rust/src/scale.rs:627-656 | The readings of a history are those of its offers that are readings, in order. |
| Settling.RunLengthIsLongest | packages/rk_devices/rust/src/scale.rs:634-647 | The counted run is the longest run of equal stable readings the history ends with. |
| Settling.PromiseKeptIff | packages/rk_devices/rust/src/scale.rs:620-668 | On every history whatever its length the rule answers what it promises - settled after as many equal stable readings in a row as asked for, then silence, expiry or patience by the clock - except exactly where this offer is a stable reading whose run is long enough and its length modulo 2^32 is not. |
| Settling.SettledIff | packages/rk_devices/rust/src/scale.rs:620-668 | Settled means that this offer is a stable reading ending a run of as many equal stable readings as asked for, if and only if the 32-bit counter does not hide the run; below 2^32 offers it never does. |
| Settling.UnsettledVerdict | packages/rk_devices/rust/src/scale.rs:657-667 | Short of such a run, on every history: once the budget is reached no answer if and only if every offer was silence, else expired; before that, not yet. |
| Settling.FaultIff | packages/rk_devices/rust/src/scale.rs:627-633 | The caller is at fault exactly when it announces a reading and hands none over. |
| Settling.InterludesDoNotMatter | packages/rk_devices/rust/src/scale.rs:627-656 | Noise and silence between readings neither help a weight settle nor keep it from settling. |
| Settling.CounterWraps | packages/rk_devices/rust/src/scale.rs:639-640 | The counter does hide runs: after 2^32 equal readings it is zero and a settled weight is refused once. |
| Weighing.StreamOfOneWeight | packages/rk_devices/rust/src/scale.rs:188-344 | A scale sending one weight over and over is read as that weight over and over, however the reads fell. |
| Weighing.WeightSettlesIff | packages/rk_devices/rust/src/scale.rs:188-668 | End to end, for any number of lines: the verdict on the last line is settled, on exactly that weight, if and only if the scale marks the weight settled and the number of lines modulo 2^32 reaches what was asked for. |
| Invites.Authority.constructor | packages/rk_pki/rust/src/store.rs:163-170 | A new store holds no authority and no invites. |
| Invites.Authority.Initialise | packages/rk_pki/rust/src/ca.rs:80-117 | Founding in the order of the code: a certificate that is there decides alone and no key is made; otherwise key and certificate are made and stored in turn, and a certificate that cannot be stored leaves the key behind. |
| Invites.Authority.Retain | packages/rk_pki/rust/src/ca.rs:208-212 | Burnt and long-expired records are dropped, the others stay in order. |
| Invites.Authority.CreateInvite | packages/rk_pki/rust/src/ca.rs:184-222 | Minting checks authority, lifetime, randomness and storage in that order, prunes, and appends one unburnt record; what lifetime it gets and until when it redeems is `InviteRuns.MintedRedeemsIff`. |
| Invites.Authority.RedeemInvite | packages/rk_pki/rust/src/ca.rs:227-247 | The first unburnt record with the digest is burnt before its expiry is judged; no record, an expired one and storage failures are told apart. |
| Invites.Authority.CaIssue | packages/rk_pki/rust/src/engine.rs:143-176 | Issuing spends the invite before the request is signed. |
| Invites.Authority.IdentityEnroll | packages/rk_pki/rust/src/engine.rs:196-232 | Enrolling builds the request before the invite is spent, then signs and installs. |
| InviteRuns.CallBalances | packages/rk_pki/rust/src/ca.rs:184-247 | One call keeps the books: what leaves the list of unburnt invites was redeemed, spoiled or forgotten, and a certificate costs a redemption. |
| InviteRuns.EveryMintIsAccountedFor | packages/rk_pki/rust/src/ca.rs:184-247 | Conservation over every run, any clock and any storage failure, for one digest or all: mints equal redemptions plus invites presented too late plus invites forgotten by pruning plus invites still unburnt. |
| InviteRuns.SpentAtMostOncePerMint | packages/rk_pki/rust/src/ca.rs:224-247 | Successful redemptions and late presentations of an invite together never exceed its mints. |
| InviteRuns.CertificatesNeverExceedMints | packages/rk_pki/rust/src/engine.rs:143-232 | Certificates issued through `ca.issue` and `identity.enroll` never exceed the invites minted, less those that spoiled. |
| InviteRuns.SuccessIsInDate | packages/rk_pki/rust/src/ca.rs:227-247 | Every redemption in a run is of a record minted earlier in it, at an instant not after the record expires, which is within a day of its mint. |
| InviteRuns.PresentedOnce | packages/rk_pki/rust/src/ca.rs:224-247 | An invite presented once, in date or not, is refused from then on whatever follows, short of being minted again. |
| InviteRuns.SpentStaysSpent | packages/rk_pki/rust/src/ca.rs:227-236 | While no unburnt record of it is left and it is not minted again, an invite is never redeemed. |
| InviteRuns.PruningDropsInDateIff | packages/rk_pki/rust/src/ca.rs:208-212 | Pruning forgets an unburnt invite still in date exactly when the clock is within a day of the smallest 64-bit instant, where subtracting a day wraps around, and the invite expires no later than the instant it wraps to. |
| InviteRuns.PrunedInDate | packages/rk_pki/rust/src/ca.rs:184-222 | A concrete run: with the clock at the smallest instant, the second mint forgets the invite the first one made, half an hour before it expires. |
| InviteRuns.MintedRedeemsIff | packages/rk_pki/rust/src/ca.rs:184-247 | Over any run that is patient with it: an invite minted for `t` seconds, 1 to 86400, or for none, which is 1800, is redeemed when presented at an instant up to `now + t` and refused as expired after it, in whatever case and grouping it is typed. |
| InviteRuns.MintsIff | packages/rk_pki/rust/src/ca.rs:184-222 | An invite is minted if and only if the authority is here, its key and the invites can be read and written, random octets were had, and the lifetime asked for is none or 1 to 86400 seconds. |
| InviteRuns.PruningKeepsIff | packages/rk_pki/rust/src/ca.rs:208-212 | Of the others minting keeps exactly the unburnt ones that expired less than 86400 seconds ago, if at all. |
| InviteRuns.IssueSpendsFirst | packages/rk_pki/rust/src/engine.rs:143-176 | Issuing leaves the list as redeeming does whatever becomes of the signing, and gives a certificate exactly when the invite redeems, authority and root are here and the request can be signed. |
| InviteRuns.EnrolSpendsLate | packages/rk_pki/rust/src/engine.rs:196-232 | Enrolling touches no invite unless the request is read and built and the authority is here; then it does as redeeming does. |
| InviteRuns.FoundingIff | packages/rk_pki/rust/src/ca.rs:80-117 | Exactly when founding succeeds, what it leaves behind when it does not, and that it touches no invite. |
| InviteTexts.InvitesAreDistinct | packages/rk_pki/rust/src/ca.rs:197-204 | Different random bytes never make the same invite, and grouping an invite does not change what it stands for. |
| InviteTexts.SameInviteIff | packages/rk_pki/rust/src/ca.rs:169-175 | Two typed texts are the same invite if and only if their letters and digits agree, whatever their case and what is between. |
| InviteTexts.InviteLooks | packages/rk_pki/rust/src/ca.rs:197-204 | Ten random octets make 23 characters: hexadecimal digits, the higher of each octet first, with a hyphen in every sixth place. |
| Decimals.ValueOfDecimal | packages/rk_mdns/rust/src/records.rs:259-266 | Decimal printing can be read back, which is why no two attempt counters print alike. |

## Left out

- Sockets, interface enumeration, threads, channels, sleeps and the random delay before probing: operating system I/O.
- `Responder::start` and its configuration: the names are taken as already split (an instance label in front of the
  service type, a host label in front of a domain).
- The engine's `run` loop with its three spaced announcements and the goodbye at the end: each is one `Announce` or one
  datagram; `Responders.NoSelfConflictIff` says when the engine stays quiet about hearing them.
- The attempt counter of the engine is unbounded; the source's 32-bit counter would need 2^32 conflicts to wrap.
- The browser's doubling query interval, and `resolve_host`, a one-off loop over the same codec.
- Lookups.AskingResolves: like `AskingResolvesIff` for queries whose counts fit their 16 bits, as those of every cache
  below 32767 records and of every query that fits a datagram do (`Lookups.DatagramCountsFit`); what a reader would make
  of wrapped counts is not modelled.
- Browsing.BrowseEngine.DetailsFor: lists the addresses sorted by their octets where the source sorts their text; the
  text form of an address is the standard library's and not part of this model. The set of addresses is the same.
- `Name::ends_with`, `without_first_label` and the accessors: one expression each.
- Event payload wording, counts of sockets that carried a datagram, `Debug` and error texts.
- `hex` and `hex_of`: rendering 32 octets in lower case; opening the file and read errors of `hex_of_file`.
- Sha256.HashReads: states the FIPS digest below 2^61 octets, the standard's own limit; beyond it the bit count wraps.
- Scale name tables, request bytes and the C boundary; the settling rule's magic word is a field but memory that never
  held a rule is not modelled.
- ScaleWeights.WeightsPrintAndParse: overload lines carry no weight and are not part of the printed weights.
- X.509 building, signing, chain verification, revocation and renewal: certificates count only as issued by the two
  operations that spend an invite; renewal needs none.
- JSON configuration and requests, the store's file format, locks.
- `rk_nats`, the inference engine's loading of foreign libraries, and the small codecs for displays, drawers and vending
  buses: other packages or easy next to what is here.
