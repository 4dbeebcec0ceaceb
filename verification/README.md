# Miakapp models

This project models the parts of Miakapp whose correctness rests on state and on several functions
working together, and proves what those parts promise. There are four groups.

**The wire protocol** (`wire`, `utf8`, `names`, `binary64`, `items`, `encoder`, `scanner`,
`canonical`, `decoder`, `codec`, `shapes`, `frames`, `frame_registry`). `items` states the wire data
model, its canonical encoding and its limits without any streaming state. `encoder` and `scanner`
hold the two Go routines, each with the shared counters it updates and proved equal to a
specification of every success, every failure and every counter. `canonical` shows that the
recogniser accepts exactly the encoder's image. `decoder` reads MessagePack by its formats alone,
and `codec` and `frames` put the pieces together into the bijection and the two round trips;
`frame_registry` states the payload rules a second time, as one table of layouts, and proves that
the rules are that table. Floats are their 64-bit patterns; integers keep the ranges of int64 and
uint64; strings are bytes with the well-formedness rule of RFC 3629 section 4.

**The transactional registries** (`admission*`, `push*`, `home_keys`, `key_*`, `control_store`,
`component*`, `retention`). Every Firestore transaction is one step on a value that holds the
documents; every class method is one transaction, or one whole call, proved to make that step. A
step is given the clock its call sampled and the identifiers it generated. Runs are arbitrary
sequences of steps, which covers every interleaving of calls and every re-execution of a transaction
whose acknowledgement was lost. `component_calls` goes further: a delivery or a finalization is a
process of several steps that may stop between any two, and a committed step that was not
acknowledged leaves its process where it was. HMAC and SHA-256 are unknown functions.

**The component runtime** (`capabilities`, `ui_*`, `structured`, `broker*`, `runtime_broker`). Guest
values live in a heap of objects that may be shared or cyclic. The two explicit-stack loops are
proved against definitions that have no stack. The broker is an object whose fields every message
updates, proved equal to a step function over a state that also records what was forwarded; the
protocol results are about every sequence of messages.

**Smaller cores.** `crc32c` on 32-bit registers, with `crc_division`; `release_ledger`; `secrets`.

A method is proved equal to a specification function, which by itself would only restate it. So what
each operation writes and answers is said a second time without that function, and the two are proved
to agree: fields before and after, who may do it, and which refusal comes first (`admission_effects`,
`push_effects`, `key_effects`, `component_effects`); which message may appear in a log and why, and
what every message leads to (`broker_causes`, `broker_answers`, `broker_ledger`); which tree and which
properties an input stands for (`ui_exact`, `ui_properties`), and what a payload measures
(`structured_exact`).

## Findings

Facts about the code as it is: first where it falls short, each with the exact condition under which
it does what it should, then checks that can never fail.

* An admitted `consume`, or a `finish` that takes effect, outside its audit record's life writes a
  record that fails the code's own checks, and so does a `finish` whose actor kind does not match
  whether an actor was identified. `AdmissionTickets.RecordsStayValid` says that over every run no
  record fails its checks if and only if none of these happens. Such a record is never rewritten: every
  later call and finish on it is refused, and when the ring's head reaches it no ticket is issued until
  something other than this code removes it (`SpoiledRefuses`, `SpoiledForever`). `LateConsumeSpoils`
  and `LateFinishSpoils` are runs of two calls that get there.
* Marking an upload delivered, or finalizing it, with a clock behind the stamp it follows writes a
  record that fails the code's own checks, and every later read of that upload is refused.
  `ComponentClocks.UploadsStayValid` says that over every run every record passes its checks if and
  only if this never happens; `DeliveryKeepsRecordValid` and `FinalizationKeepsRecordValid` give the
  condition for one step.
* A part of a message that the broker has measured cannot fail when it is measured again
  (`Structured.MemberMeasured`), and neither can the record of state values that the broker rebuilds
  field by field before it measures it (`Structured.RebuiltMeasured`); except in the load message, which
  is first measured against a larger byte limit.
* A wildcard pattern of 257 or 258 bytes is accepted although no name can lie below it, so there
  covering and admitting differ (`Capabilities.CoverageDecides`).
* The `limit_exceeded` branch of push-grant creation cannot be reached (`PushRegistry.CreationNeverFull`),
  nor can the closing self-check of `EncodeFrame` fail (`Frames.PreflightNeverRejects`).

## Model

| member | source | states |
|---|---|---|
| Encoder.AccountEncodedBytes | protocol/go/profile.go:71-77 | charges a piece of output before it is used, and refuses exactly when the total passes 262143 bytes |
| Encoder.EncodedAtom | protocol/go/profile.go:79-84 | an atom is charged its own length or refused as too large |
| Encoder.EncodeValue | protocol/go/profile.go:529-652 | the budgeted, streaming encoder does on any Go value what its specification does on that value's data model, with the same counters on success and on failure |
| Encoder.EncodeMap | protocol/go/profile.go:613-652 | keys collected in any enumeration order, checked, sorted and encoded give the members in strictly increasing key order |
| Encoder.EncodeMembers | protocol/go/profile.go:637-650 | the loop over the sorted keys: every key charged and counted as a value of its own |
| Encoder.EncodeArray | protocol/go/profile.go:596-612 | arrays: item limit, head, then the items left to right |
| Encoder.EncodeElements | protocol/go/profile.go:604-611 | the loop over the items stops at the first failure with the counters reached |
| Encoder.CollectKeys | protocol/go/profile.go:617-629 | succeeds exactly when every key is valid UTF-8 and within its limit, whatever order the map is enumerated in |
| Encoder.SortStrings | protocol/go/profile.go:630-632 | sorting the keys gives the one increasing listing of them |
| Encoder.FloatLowered | protocol/go/profile.go:654-665 | a float with a safe integral value is encoded as that integer, other finite floats as binary64, and nothing else is encoded |
| Encoder.EncodeExact | protocol/go/profile.go:529-652 | the encoder succeeds exactly on values within every declarative limit whose complete encoding fits the byte budget; counters rise by output length and value count; within the other limits only the byte budget can fail |
| Scanner.ScanValue | protocol/go/profile.go:204-441 | the cursor-moving recogniser follows its specification, including which error is reported and the value count reached |
| Scanner.ScanArray | protocol/go/profile.go:150-163 | the item loop, depth and count threaded through it |
| Scanner.ScanMap | protocol/go/profile.go:165-202 | keys are strings and strictly increase; entry loop with depth and count threaded through it |
| Scanner.IntegerHead | protocol/go/profile.go:455-488 | every shortest integer form is recognised, wherever it stands |
| Scanner.IntegerFromHead | protocol/go/profile.go:204-360 | every integer form the recogniser accepts is the shortest encoding of a safe integer |
| Scanner.FamilyFromHead | protocol/go/profile.go:204-441 | every accepted string, binary, array or map head is the shortest head for that length |
| Canonicity.ScanAccepts | protocol/go/profile.go:204-441 | completeness: wherever an encoding stands in an input the scan consumes exactly its bytes and counts exactly its values |
| Canonicity.ScanRecognises | protocol/go/profile.go:204-441 | soundness: whatever is accepted, at any offset, depth and count, is the encoding of some value within the limits |
| Canonicity.ScanEntriesRecognise | protocol/go/profile.go:165-202 | accepted map entries are encodings with unique, strictly increasing keys |
| Canonicity.ScanLocal | protocol/go/profile.go:204-441 | the scan of an encoding does not depend on the bytes around it |
| Binary64.IntegralMeaning | protocol/go/profile.go:654-665 | the exponent-and-fraction test decides integrality of the real number itself, and yields that number |
| Wire.SortedUnique | protocol/go/profile.go:630-632 | a set of keys has one increasing listing |
| Wire.LessExactly | protocol/go/profile.go:630-632 | the order of keys is lexicographic on unsigned bytes: at the first place where two strings differ the one that ends or has the smaller byte comes first |
| Wire.BigEndian | protocol/go/profile.go:443-453 | bytes written first weigh most: what stands before n more bytes is worth 256 to the n |
| Codec.EncodedKeysInOrder | protocol/go/profile.go:613-652 | the members of a Go map are listed each once, with its own value, in lexicographic byte order of keys |
| Codec.CanonicalKeysInOrder | protocol/go/profile.go:165-202 | an accepted map is exactly one whose keys stand in lexicographic byte order, so that none is repeated |
| Codec.KeyAfterKey | protocol/go/profile.go:184-195 | a key that repeats the one before it is an invalid value, one that precedes it in byte order is not canonical, and any other is accepted |
| Utf8Text.ValidExactly | protocol/go/profile.go:129-131 | a byte string is accepted as text exactly when it is the UTF-8 of some sequence of code points: nothing overlong, no surrogate, nothing above U+10FFFF |
| Utf8Text.TextInjective | protocol/go/profile.go:129-131 | a string is the UTF-8 of one sequence of code points only |
| Utf8Text.ControlsExactly | protocol/go/frames.go:282-289 | looking for control characters by bytes finds exactly the control code points |
| Decoder.EncodingDenotes | protocol/go/profile.go:667-728 | reading an encoding by the plain MessagePack formats and normalising integers gives back the encoded value |
| Codec.EncodedIsAccepted | protocol/go/profile.go:529-728 | what the encoder produces is accepted to its end and decodes to the value, numbers normalised |
| Codec.AcceptedIsEncoded | protocol/go/profile.go:204-441 | what is accepted to its end decodes completely, and re-encoding the result gives the same bytes |
| Codec.AcceptedExactlyWhenCanonical | protocol/go/profile.go:204-728 | the canonical bijection: a byte string is accepted to its very end exactly when it is the encoding of the value it denotes |
| Codec.EncodingInjective | protocol/go/profile.go:529-652 | values that share an encoding are equal up to number representation |
| Codec.PrefixFree | protocol/go/profile.go:204-441 | no accepted encoding is a proper prefix of another |
| Codec.RaiseLower | protocol/go/profile.go:697-728 | lowering to the data model and raising again is exactly the documented number normalisation |
| Codec.NormaliseStable | protocol/go/profile.go:697-728 | a second trip over the wire changes nothing |
| Codec.StreamingByteAccounting | protocol/go/profile.go:66-84 | among values within the other limits early rejection hits exactly those whose complete encoding passes 262143 bytes; otherwise the bytes charged are the output's and the values counted are the scanner's |
| Frames.ValidateUniqueStrings | protocol/go/frames.go:339-352 | accepts exactly the lists of well-formed, pairwise different names |
| Frames.ValidateUniqueIds | protocol/go/frames.go:354-367 | accepts exactly the lists of pairwise different positive identifiers, whatever Go number type carries them |
| Frames.ValidateEntries | protocol/go/frames.go:373-463 | coordinators, dictionaries and mutations: every entry well formed, no key twice, no dictionary name twice |
| Frames.VerdictStable | protocol/go/frames.go:531-993 | a frame and its normalisation are judged alike for every opcode |
| FrameRegistry.RegistryExactly | protocol/go/frames.go:531-993 | a payload passes the rules of its opcode if and only if it fits that opcode's row of one table of layouts: number of places, what may stand in each, list limits and keys that must differ; two rules relate places |
| FrameRegistry.VerdictExactly | protocol/go/frames.go:531-993 | the verdict on any frame, from the table alone: extension opcodes pass, opcodes outside the listed 40 are unknown, and the rest are judged by their row |
| FrameRegistry.NumberExactly | protocol/go/frames.go:150-195 | a place for numbers sees an integer of any width, or a float whose real value is that safe integer, negative zero excepted |
| Frames.Preflight | protocol/go/frames.go:1164-1182 | opcode, size and canonical-payload checks in the order of the code |
| Frames.EncodeFrame | protocol/go/frames.go:1184-1199 | succeeds exactly on a valid frame whose payload encodes; otherwise the error is that of the first failing check |
| Frames.PreflightNeverRejects | protocol/go/frames.go:1184-1199 | the closing self-check of EncodeFrame cannot fail |
| Frames.DecodeAfterEncode | protocol/go/frames.go:1184-1222 | decoding what EncodeFrame returns gives the frame with its numbers normalised |
| Frames.EncodeAfterDecode | protocol/go/frames.go:1201-1222 | re-encoding what DecodeFrame returns gives exactly the bytes decoded |
| Frames.DecodableExactlyWhenEncoded | protocol/go/frames.go:1184-1222 | the decodable byte strings are exactly those the encoder produces |
| FrameRegistry.DecodeExactly | protocol/go/frames.go:1201-1222 | what decoding answers for a canonical payload behind any opcode, from the table of layouts alone |
| AdmissionControllers.AdmissionController.NormalizeCharges | control-plane/src/admission.ts:457-490 | the consolidating loop: charges of one key merged, in first-seen order, refused as a whole if one is bad |
| AdmissionControllers.AdmissionController.EvaluateCharges | control-plane/src/admission.ts:492-526 | every charge against its own document, or all denied when two subjects meet in one |
| AdmissionControllers.AdmissionController.FindConflict | control-plane/src/admission.ts:492-526 | whether two charges of one call share a document |
| AdmissionControllers.AdmissionController.MarkSaturation | control-plane/src/admission.ts:347-387 | marks the documents that denied and finds the longest wait |
| AdmissionControllers.AdmissionController.WriteAllowed | control-plane/src/admission.ts:635-645 | charges every document of the call |
| AdmissionControllers.AdmissionController.Open | control-plane/src/admission.ts:282-345 | the whole transaction: state after it and reply |
| AdmissionControllers.AdmissionController.Consume | control-plane/src/admission.ts:347-387 | the whole transaction: state after it and reply |
| AdmissionControllers.AdmissionController.Finish | control-plane/src/admission.ts:389-439 | the whole transaction: state after it and reply |
| AdmissionControllers.AdmissionTicket.IdentifyActor | control-plane/src/admission.ts:748-752 | the kind is stored before the identifier is checked, so a refused identifier still changes the kind |
| AdmissionControllers.AdmissionTicket.IdentifyHome | control-plane/src/admission.ts:754-758 | a home identifier of the required form is stored, and anything else changes nothing |
| AdmissionControllers.AdmissionTicket.IdentifySubject | control-plane/src/admission.ts:760-763 | stores a bounded identifier, and nothing otherwise |
| AdmissionControllers.AdmissionTicket.Consume | control-plane/src/admission.ts:765-782 | the charges of the call, with source budgets resolved to the ticket's own source |
| AdmissionControllers.AdmissionTicket.Finish | control-plane/src/admission.ts:784-804 | a ticket is spent when its record was finished, and only then |
| AdmissionCap.SlotsPartitioned | control-plane/src/admission.ts:457-490 | budgets never share a document |
| AdmissionCap.NormalizeSound | control-plane/src/admission.ts:457-490 | merging changes no total: each key is charged once, the sum its caller asked for |
| AdmissionCap.EvaluatedBucket | control-plane/src/admission.ts:528-633 | an allowed charge is evaluated against the bucket of the current window, which counts that window, and fits under the maximum |
| AdmissionCap.DeniedConsumeChargesNothing | control-plane/src/admission.ts:347-387 | a consume that is not admitted leaves every count, key, window and audit record as it was |
| AdmissionCap.RunSound | control-plane/src/admission.ts:282-387 | over every interleaving a bucket counts exactly what its key was admitted in its window |
| AdmissionCap.CapHolds | control-plane/src/admission.ts:282-387 | over every interleaving, with any clocks and any collisions, the units admitted for one budget, subject and window never exceed the maximum |
| AdmissionCap.DeniedExactly | control-plane/src/admission.ts:528-633 | in every reachable state a charge is denied if and only if its history and units exceed the maximum or another subject holds its document, and fails outright if and only if its own document belongs to a window the clock has not reached |
| AdmissionCap.CollidingSubjectsExclude | control-plane/src/admission.ts:528-633 | subjects that collide in a document are never both admitted in one window |
| AdmissionRing.RunBounded | control-plane/src/admission.ts:647-680 | audit records allocated in a window are the units charged for them, and one more once the window is saturated |
| AdmissionRing.AuditAllocationCap | control-plane/src/admission.ts:647-680 | each window of audit.events stores at most its maximum plus one record |
| AdmissionTickets.StepHolds | control-plane/src/admission.ts:647-680 | no step of anyone overwrites the record of an unexpired ticket, or changes its event, until the ticket is finished |
| AdmissionTickets.RecordHeld | control-plane/src/admission.ts:282-439 | over every run with non-decreasing clocks an unfinished, unexpired ticket's record is pending under its own event |
| AdmissionTickets.FinishTakesEffect | control-plane/src/admission.ts:389-439 | finishing such a ticket succeeds and writes exactly the finished record, unless that record would be too long |
| AdmissionEffects.FinishWrites | control-plane/src/admission.ts:389-439 | a finish that takes effect stores the outcome, code, home and actor kind it was told, the first half of each keyed digest exactly where there is an identifier, and the time; all else in the record and the store stays |
| AdmissionEffects.FinishRepeats | control-plane/src/admission.ts:389-439 | the identical finish again is answered as done and changes nothing, as long as the stored record passes its checks |
| AdmissionEffects.FinishAnswers | control-plane/src/admission.ts:389-439 | every answer a finish gives: misuse, unavailable or finished, each under exactly its condition |
| AdmissionEffects.SlotTaken | control-plane/src/admission.ts:647-682 | the head of the ring is taken exactly when its slot was never used or holds a record that passes its checks and is finished or expired |
| AdmissionEffects.OpenRecorded | control-plane/src/admission.ts:282-345 | a ticket's record stands at the head of the ring, written in full, and the head moves on by one; a call that records nothing leaves records and ring alone |
| AdmissionEffects.NormalizeExactly | control-plane/src/admission.ts:457-490 | charges are evaluated exactly when there are 1 to 29, each well formed, and no key is asked for more than its maximum in all; each key is then charged once, with the sum asked for |
| AdmissionEffects.ConsumeWrites | control-plane/src/admission.ts:347-387 | an admitted call adds its budgets to its record and stamps it, and changes nothing else in any record |
| AdmissionEffects.ConsumeMarks | control-plane/src/admission.ts:347-387 | a rate-limited call changes no record and no bucket but the mark on the buckets of its own keys that denied it for the first time |
| AdmissionEffects.RetryIsLeast | control-plane/src/admission.ts:219-221 | the wait told is the least whole number of seconds that reaches the boundary, at least one and at most the maximum |
| AdmissionEffects.WaitSuffices | control-plane/src/admission.ts:347-387 | after the wait a rate-limited call is told, if below the most that is told, every bucket that denied it has ended, and a second less would be too early for one |
| AdmissionTickets.FinishKeepsRecord | control-plane/src/admission.ts:389-439 | the record a finish leaves passes its own checks if and only if the finish came within the record's life with an actor kind that matches its actor |
| AdmissionTickets.ConsumeKeepsRecord | control-plane/src/admission.ts:347-387 | the record an admitted consume leaves passes its own checks if and only if the consume came within the record's life |
| AdmissionTickets.RecordsStayValid | control-plane/src/admission.ts:229-439 | over every run no stored audit record fails its own checks if and only if every admitted consume and every finish that takes effect comes within its record's life, and the finish names its actor consistently |
| AdmissionTickets.SpoiledRefuses | control-plane/src/admission.ts:347-439 | on a record that fails its checks no consume is admitted and every well-formed finish is refused |
| AdmissionTickets.SpoiledForever | control-plane/src/admission.ts:647-680 | a record that fails its own checks is never rewritten, and a ring that stands at it never moves again |
| AdmissionTickets.LateFinishSpoils | control-plane/src/admission.ts:389-439 | such a record is reachable: one ticket finished exactly when its record expires |
| AdmissionTickets.LateConsumeSpoils | control-plane/src/admission.ts:347-387 | and without any late finish: one ticket that consumes exactly when its record expires |
| Retention.FindOldest | control-plane/src/push-store.ts:379-385 | the first of the sorted records is the one created earliest, ties broken by identifier |
| Retention.OldestExactly | control-plane/src/push-store.ts:379-385 | the oldest is the record with the least creation time, and among those of one time the identifier that comes first byte by byte |
| PushStores.PushStore.ReconcileGrants | control-plane/src/push-store.ts:338-357 | accepts exactly the registries with a correct counter, well-formed records and at most one active grant per destination |
| PushStores.PushStore.FindCompacted | control-plane/src/push-store.ts:736-746 | the oldest grant that is revoked, expired or without a destination |
| PushStores.PushStore.FindPrevious | control-plane/src/push-store.ts:733-735 | the active grant of the destination, if there is one |
| PushStores.PushStore.CreateGrantTransaction | control-plane/src/push-store.ts:674-807 | the whole transaction: documents after it and reply |
| PushStores.PushStore.CreateGrant | control-plane/src/push-store.ts:657-672 | up to three identifiers; only a collision moves on to the next |
| PushStores.PushStore.RevokeGrant | control-plane/src/push-store.ts:823-841 | the whole transaction: documents after it and reply |
| PushStores.PushStore.IssueChallenge | control-plane/src/push-store.ts:429-513 | the whole transaction: documents after it and reply |
| PushStores.PushStore.CompleteChallenge | control-plane/src/push-store.ts:542-614 | the whole transaction: documents after it and reply |
| PushStores.PushStore.DeleteDestination | control-plane/src/push-store.ts:631-655 | the whole transaction: documents after it and reply |
| PushRegistry.KeptInjects | control-plane/src/push-store.ts:338-357 | grants that may not be dropped are no more than the current destinations |
| PushRegistry.FullRegistryCompacts | control-plane/src/push-store.ts:674-807 | a full registry always has a grant to drop, and the oldest such is what is dropped |
| PushRegistry.CreateGrantKeeps | control-plane/src/push-store.ts:674-807 | creation keeps counters, index and the one-active rule, replacing and dropping included |
| PushRegistry.RunKeeps | control-plane/src/push-store.ts:387-876 | over every run counters equal records, index entries equal grants both ways, at most one active grant per destination and 256 per user and home |
| PushRegistry.CreationNeverFull | control-plane/src/push-store.ts:674-807 | the limit_exceeded branch of grant creation, and its inconsistency branch, are unreachable |
| PushHistory.AuthorizeExactly | control-plane/src/push-store.ts:843-876 | a grant authorizes its home exactly while it is active, unexpired and its destination exists, and yields that destination's installation |
| PushHistory.CompactionLosesNothing | control-plane/src/push-store.ts:674-807 | what is dropped authorizes nothing, and is older than everything else that could be dropped |
| PushHistory.CreateKillsPrevious | control-plane/src/push-store.ts:674-807 | a new grant for a destination kills the one before it |
| PushHistory.RevokedNeverAuthorizes | control-plane/src/push-store.ts:823-876 | a revoked grant authorizes nothing for the rest of any run, unless its identifier is generated again |
| PushHistory.ChallengeOnce | control-plane/src/push-store.ts:542-614 | a challenge registers at most one destination, however often its completion is repeated |
| PushHistory.CompletionProved | control-plane/src/push-store.ts:542-614 | a destination is registered only by a proof that the stored challenge verifies, and carries what it proved |
| PushEffects.DeleteExactly | control-plane/src/push-store.ts:631-655 | in a consistent store a deletion is done, the identifier is gone, the counter fell by one exactly if it was there, and every other document is unchanged |
| PushEffects.DeletedNeverAuthorized | control-plane/src/push-store.ts:631-876 | after a deletion no grant for the destination authorizes in the rest of any run until a completed challenge registers the same identifier again |
| PushEffects.CreateGrantExactly | control-plane/src/push-store.ts:674-807 | in a consistent store a grant under a new identifier is created exactly when the home exists and the destination is the user's; what it holds, what it supersedes and what is compacted |
| PushEffects.CreateGrantAgain | control-plane/src/push-store.ts:674-731 | an identifier in use answers only to the very grant it names, and nothing is written |
| PushEffects.RevokeExactly | control-plane/src/push-store.ts:823-841 | in a consistent store the named grant is revoked now unless it already was, and nothing else changes |
| PushEffects.IssueExactly | control-plane/src/push-store.ts:429-513 | a new challenge is stored exactly under a known key version with fewer than four others pending and unexpired; those are kept and the others swept |
| PushEffects.IssueAgain | control-plane/src/push-store.ts:429-513 | issued again under its identifier a challenge is answered only if all but its clock is the same, and nothing is written |
| PushEffects.CompleteExactly | control-plane/src/push-store.ts:542-614 | a destination is registered exactly when its pending challenge is proved under a known key version, the identifier is new and there are fewer than 16; and what is then written |
| PushEffects.CompleteRefused | control-plane/src/push-store.ts:542-614 | and it is refused otherwise, for the first thing that is wrong, writing nothing |
| PushEffects.CompleteAgain | control-plane/src/push-store.ts:542-614 | a challenge never issued, or consumed for another destination, registers nothing; for its own destination it answers again |
| PushStores.FirstWithoutCollision | control-plane/src/push-store.ts:657-672 | of the attempts of one call the first that does not collide decides, those before it wrote nothing, and if all collide the call is unavailable |
| ControlStores.ControlPlaneStore.ReconcileKeyRegistry | control-plane/src/store.ts:248-264 | accepts exactly the homes whose two counters equal their records |
| ControlStores.ControlPlaneStore.FindCompacted | control-plane/src/store.ts:688-694 | the oldest revoked key of a full home |
| ControlStores.ControlPlaneStore.StageHomeKey | control-plane/src/store.ts:646-739 | all the reads a new key needs, and which of its outcomes they lead to |
| ControlStores.ControlPlaneStore.CreateHomeKeyTransaction | control-plane/src/store.ts:606-644 | the whole transaction: documents after it and reply |
| ControlStores.ControlPlaneStore.CreateHomeKey | control-plane/src/store.ts:579-604 | up to three generated keys; only a collision moves on |
| ControlStores.ControlPlaneStore.RevokeHomeKey | control-plane/src/store.ts:755-780 | the whole transaction: documents after it and reply |
| ControlStores.ControlPlaneStore.ExchangeHomeKey | control-plane/src/store.ts:782-876 | the whole transaction: documents after it and reply |
| ControlStores.ControlPlaneStore.IssuePairingCode | control-plane/src/store.ts:345-404 | the whole transaction: documents after it and reply |
| ControlStores.ControlPlaneStore.RedeemTransaction | control-plane/src/store.ts:406-487 | the whole transaction: documents after it and reply |
| ControlStores.ControlPlaneStore.RedeemPairingCode | control-plane/src/store.ts:406-455 | up to three generated keys for one code; only a collision moves on |
| ControlStores.ControlPlaneStore.CreateHome | control-plane/src/store.ts:489-539 | the whole transaction: documents after it and reply |
| KeyRegistry.RunKeeps | control-plane/src/store.ts:248-876 | over every run both counters of every home equal its records, record and index agree, at most 64 keys a home and 16 homes an owner |
| KeyRegistry.StageExactly | control-plane/src/store.ts:646-739 | staging fails for want of room exactly when 64 keys are active, never on inconsistency, and otherwise only for an identifier in use |
| KeyRegistry.LimitExactly | control-plane/src/store.ts:606-739 | over every run creation answers limit_exceeded exactly when 64 keys are active, and below that it creates |
| KeyRegistry.FullHomeCompacts | control-plane/src/store.ts:646-739 | a home with all records used but an active place free always has a revoked key to drop |
| KeyRegistry.CompactionDropsOldestRevoked | control-plane/src/store.ts:646-739 | creation removes at most one key, and that is the oldest revoked key of a full home |
| KeyHistory.ExchangeExactly | control-plane/src/store.ts:827-876 | a key is exchanged exactly when it is active, verifies, is in time and has the scope |
| KeyHistory.RevokedNeverExchanged | control-plane/src/store.ts:755-876 | a revoked key is never exchanged again in that home, unless its identifier is generated anew |
| KeyHistory.RedemptionCreates | control-plane/src/store.ts:406-487 | the commit that marks a code redeemed is the one that creates its key; the key stored is the key returned, with every scope, in the issuer's name |
| KeyHistory.RedemptionReplayed | control-plane/src/store.ts:457-487 | the only success that writes nothing is the replay of one's own commit |
| KeyHistory.PairingOnce | control-plane/src/store.ts:406-487 | two successful redemptions of one code anywhere in a run are executions of one call |
| KeyHistory.RedeemedExactly | control-plane/src/store.ts:406-487 | over every run a code is redeemed for a key if and only if a redemption of it created that key |
| KeyEffects.RevokeKeyExactly | control-plane/src/store.ts:755-780 | only the owner of the home revokes; the key, its index entry and the active counter change together and nothing else does; every refusal with its condition |
| KeyEffects.CreateKeyExactly | control-plane/src/store.ts:606-739 | what creating a key answers in a consistent store, by the first thing that stands in its way |
| KeyEffects.WithKeyAdds | control-plane/src/store.ts:646-739 | a created key is stored in full with its index entry and both counters, and the only key that goes is the one compacted |
| KeyEffects.CreateHomeExactly | control-plane/src/store.ts:489-539 | a home is created exactly when its identifier is free and its owner has fewer than 16, and starts without keys; a replay is answered |
| KeyEffects.ExchangeWrites | control-plane/src/store.ts:782-876 | a granted exchange stamps the key with the token it issued, and any other changes nothing |
| KeyEffects.ExchangeRefused | control-plane/src/store.ts:782-876 | why an exchange is refused in a consistent store, by the first thing that is wrong |
| KeyEffects.IssueCodeExactly | control-plane/src/store.ts:345-404 | a code is stored exactly for the owner of an existing home, under a known pepper and a free lookup, for ten minutes |
| KeyEffects.RedeemExactly | control-plane/src/store.ts:406-487 | why a redemption is refused in a consistent store, and what a successful one writes beside the key |
| ControlStores.FirstWithoutCollision | control-plane/src/store.ts:579-604 | of the attempts of one call the first that does not collide decides, and if all collide the call is unavailable |
| ControlStores.FirstRedemption | control-plane/src/store.ts:406-455 | of the attempts of one redemption the first that does not collide decides, and if all collide the call is unavailable |
| ComponentStores.ObjectStorage.WriteStaging | control-plane/src/component-storage.ts:105-139 | create-only: an existing object is kept, and the write succeeds only if it holds the same bytes |
| ComponentStores.ObjectStorage.WriteArtifact | control-plane/src/component-storage.ts:152-186 | create-only, under the digest |
| ComponentStores.ComponentStore.CreateUploadTransaction | control-plane/src/component-store.ts:785-853 | the whole transaction: documents after it and reply |
| ComponentStores.ComponentStore.AuthorizedDeliveryHome | control-plane/src/component-store.ts:887-912 | the check before the reservation |
| ComponentStores.ComponentStore.ReserveDeliveryTransaction | control-plane/src/component-store.ts:855-885 | the whole transaction: documents after it and reply |
| ComponentStores.ComponentStore.MarkDeliveredTransaction | control-plane/src/component-store.ts:914-931 | the whole transaction: documents after it and reply |
| ComponentStores.ComponentStore.DeliverUpload | control-plane/src/component-store.ts:542-559 | check, reserve, stage, mark |
| ComponentStores.ComponentStore.CommitFinalizationTransaction | control-plane/src/component-store.ts:956-1039 | the whole transaction: documents after it and reply |
| ComponentStores.ComponentStore.FinalizeRelease | control-plane/src/component-store.ts:583-604 | read the upload, check the staged bytes, store the artifact, commit |
| ComponentStores.ComponentStore.ActivateRelease | control-plane/src/component-store.ts:648-715 | the whole transaction: documents after it and reply |
| ComponentCalls.RunGrows | control-plane/src/component-store.ts:498-1039 | over every run with stops, races and repeated commits, statuses only move forward and nothing stored is ever changed |
| ComponentIntegrity.RunInvariant | control-plane/src/component-store.ts:498-1039 | the invariant that ties uploads, index, staged bytes, artifacts, releases, publications, pointers and running processes together |
| ComponentIntegrity.StagingNeverConflicts | control-plane/src/component-storage.ts:105-139 | writing staged bytes never meets other bytes: at most one process holds the reservation |
| ComponentTheorems.PublicationIntegrity | control-plane/src/component-store.ts:583-715 | in every reachable state the live pointer has a release of that home with the same input, a publication, and stored bytes whose digest and length are the pointer's |
| ComponentTheorems.FinalizedUploadIsPublished | control-plane/src/component-store.ts:956-1039 | a finalized upload has its release, publication and artifact |
| ComponentTheorems.IndexCarriesStatus | control-plane/src/component-store.ts:332-347 | record and index exist together and carry the same status, in every reachable state |
| ComponentTheorems.StoredForGood | control-plane/src/component-storage.ts:105-186 | staged bytes, artifacts, releases and publications never change once stored |
| ComponentTheorems.CapabilityConsumedOnce | control-plane/src/component-store.ts:855-885 | however deliveries race, repeat or stop, one upload's capability is consumed at most once |
| ComponentTheorems.ReservationChecked | control-plane/src/component-store.ts:855-885 | a reservation succeeds only while awaiting one, in time, with the token it was issued with |
| ComponentTheorems.OneActivationPerGeneration | control-plane/src/component-store.ts:648-715 | of the activations of one home that name the same expected generation at most one commits |
| ComponentTheorems.GenerationStrictlyIncreases | control-plane/src/component-store.ts:648-715 | every change of a live pointer raises its generation |
| ComponentEffects.ActivateExactly | control-plane/src/component-store.ts:648-715 | in every reachable state an activation is done exactly when its generations are in range, the caller may publish for the home, the home has the release, the digest is not quarantined and the live generation is the expected one; it then points at that release |
| ComponentEffects.ActivateRefused | control-plane/src/component-store.ts:648-715 | why an activation is refused in every reachable state, by the first thing that is wrong |
| ComponentEffects.QuarantineHolds | control-plane/src/component-store.ts:664-690 | once a digest is quarantined no step in the rest of the run points any home at it |
| ComponentEffects.QuarantineTakesEffect | control-plane/src/component-store.ts:776-783 | quarantining always takes effect and changes nothing else |
| ComponentEffects.CreateUploadExactly | control-plane/src/component-store.ts:785-853 | an upload is stored exactly for a well-formed input, a known key version and a caller who may publish |
| ComponentEffects.CreateUploadAgain | control-plane/src/component-store.ts:785-853 | an identifier in use answers only to the very same upload, and nothing is written |
| ComponentEffects.ReserveExactly | control-plane/src/component-store.ts:855-885 | a delivery is reserved exactly when the record passes its checks and awaits delivery, the clock is within its life and the token is the one issued; then the status and time alone change |
| ComponentEffects.MarkExactly | control-plane/src/component-store.ts:914-931 | marking moves a reserved upload on, answers a delivered or finalized one, and refuses any other |
| ComponentEffects.CommitExactly | control-plane/src/component-store.ts:956-1039 | in every reachable store a finalization commits exactly when nothing stands in its way, and leaves the upload final, its address published and the release stored |
| ComponentEffects.DeliveryStores | control-plane/src/component-store.ts:542-559 | a delivery answered as done staged exactly these bytes under the reservation it made itself |
| ComponentEffects.FinalizationStores | control-plane/src/component-store.ts:583-604 | a finalization that commits found staged bytes with valid syntax and the declared digest and length, and stored them under that digest |
| ComponentClocks.DeliveryKeepsRecordValid | control-plane/src/component-store.ts:914-931 | marking delivery leaves a record that passes its own checks if and only if its clock is not behind the reservation's |
| ComponentClocks.FinalizationKeepsRecordValid | control-plane/src/component-store.ts:956-1039 | a finalization leaves a record that passes its own checks if and only if its clock is not behind the delivery's, or the reservation's when delivery was never marked |
| ComponentClocks.UploadsStayValid | control-plane/src/component-store.ts:855-1039 | over every run, with stops, races and repeated commits, every upload record passes its own checks if and only if every delivery marked and every finalization samples a clock not behind the stamp it follows |
| Capabilities.IsCapabilityGranted | component-runtime/src/contract.ts:278-290 | whether some pattern grants the name; a malformed name is an error |
| Capabilities.IsPatternCovered | component-runtime/src/contract.ts:292-305 | whether the allowed list covers a requirement |
| Capabilities.MatchesExactly | component-runtime/src/contract.ts:278-285 | a pattern admits a name exactly when it is that name, or it is some prefix with ".*" and the name goes on after that prefix and its dot |
| Capabilities.CoveredIsSound | component-runtime/src/contract.ts:278-305 | a covered requirement admits no name that is not granted |
| Capabilities.CoversExactly | component-runtime/src/contract.ts:260-305 | a pattern admits every name a wildcard admits if and only if it covers the wildcard, or the wildcard is one of the 257 or 258 bytes that admit no name |
| Capabilities.CoverageDecides | component-runtime/src/contract.ts:260-305 | covering and admitting agree for every pattern if and only if some name lies below the wildcard |
| UiValidators.ValidateChoices | component-runtime/src/contract.ts:617-646 | the options of a select: shape, unique values and text budget, left to right |
| UiValidators.ValidateNodeProps | component-runtime/src/contract.ts:503-668 | properties of every node type with the text aggregate they bring |
| UiValidators.EnterNode | component-runtime/src/contract.ts:686-743 | everything that happens to one popped node, errors in the order of the code |
| UiValidators.ValidateUiTree | component-runtime/src/contract.ts:686-743 | the explicit stack returns and refuses exactly what the recursive left-to-right definition does, for every input, shared and cyclic ones included |
| UiTree.TurnKeeps | component-runtime/src/contract.ts:686-743 | one turn of the loop leaves what remains to be computed as it was |
| UiTree.ChildrenFinish | component-runtime/src/contract.ts:686-743 | children pushed last to first are visited left to right, each into its own slot |
| UiTree.AcceptedTree | component-runtime/src/contract.ts:686-753 | an accepted tree is a screen with distinct identifiers, at most 1024 nodes, depth at most 32 and text within 262144 bytes |
| UiExact.TreeExactly | component-runtime/src/contract.ts:686-753 | a tree is returned if and only if the input describes it node for node, it is a screen, no identifier and no record or children array is used twice, and nodes, depth and text are within their limits |
| UiExact.UngrantedHandle | component-runtime/src/contract.ts:656-663 | a tree that would be accepted with more grants is accepted exactly when its media handles are granted, and is otherwise refused for want of the capability |
| UiProperties.PropsExactly | component-runtime/src/contract.ts:503-668 | for every node type the properties returned are exactly those one table of rules and defaults reads from the record: required and optional keys, what each value must be, and what is shown for one left out |
| UiProperties.DeniedExactly | component-runtime/src/contract.ts:656-663 | a property record is refused for want of a capability exactly when it is a media record with a well-formed handle that was not granted |
| UiProperties.TextExactly | component-runtime/src/contract.ts:503-668 | a node adds to the aggregate the UTF-8 bytes of exactly what it shows as text |
| UiProperties.PhraseExactly | component-runtime/src/contract.ts:232-239 | bounded text is exactly non-empty text of so many UTF-8 bytes without a control character |
| UiProperties.IdentExactly | component-runtime/src/contract.ts:497-501 | an identifier is exactly what its pattern says; the checks before the pattern refuse nothing more |
| UiRoundTrip.PropsRewritten | component-runtime/src/contract.ts:503-668 | normalised properties are accepted again, unchanged |
| UiRoundTrip.RevalidationUnchanged | component-runtime/src/contract.ts:686-753 | re-validating an accepted result returns it unchanged |
| Structured.MeasureStructuredValue | component-runtime/src/contract.ts:763-826 | the explicit stack returns a value's total exactly when its total is within every limit and no record or array is reached twice, whatever order keys are enumerated in |
| StructuredExact.MeasureExactly | component-runtime/src/contract.ts:763-826 | a payload measures a size if and only if it spreads out into a finite tree of permitted values of that size, within the limits on values, bytes and depth, in which no array or record occurs twice |
| Structured.AnyField | component-runtime/src/contract.ts:803-811 | the total does not depend on the order of keys |
| Structured.MemberMeasured | component-runtime/src/contract.ts:763-826 | every item and field of a measured payload is measured by itself at the same limits, at least four bytes smaller: measuring a part again cannot fail |
| Structured.RebuiltMeasured | component-runtime/src/runtime-broker.ts:222-235 | a record rebuilt field by field as a new object measures what the old one did |
| Structured.CycleRefused | component-runtime/src/contract.ts:790-806 | a payload that contains itself is refused, at any limits |
| RuntimeBrokers.CollectInteractionTargets | component-runtime/src/runtime-broker.ts:294-333 | the stack-based collection yields exactly the controls of the tree |
| RuntimeBrokers.RuntimeBroker.EnforceRate | component-runtime/src/runtime-broker.ts:430-435 | the sliding window, and whether it is over its limit |
| RuntimeBrokers.RuntimeBroker.Terminate | component-runtime/src/runtime-broker.ts:401-428 | collections emptied, one error to the host, nothing afterwards |
| RuntimeBrokers.RuntimeBroker.HandleRender | component-runtime/src/runtime-broker.ts:471-490 | state after a render, and what is forwarded |
| RuntimeBrokers.RuntimeBroker.HandleGuestMessage | component-runtime/src/runtime-broker.ts:505-632 | state after any guest message, and what is forwarded |
| RuntimeBrokers.RuntimeBroker.HandleHostMessage | component-runtime/src/runtime-broker.ts:702-888 | state after any host message, and what is forwarded |
| RuntimeBrokers.RuntimeBroker.ReceiveInteraction | component-runtime/src/runtime-broker.ts:667-700 | which interactions reach the guest |
| RuntimeBrokers.RuntimeBroker.ReceiveSnapshot | component-runtime/src/runtime-broker.ts:747-759 | snapshots and their checks |
| RuntimeBrokers.RuntimeBroker.ReceivePatch | component-runtime/src/runtime-broker.ts:760-791 | patches, gaps and staleness |
| RuntimeBrokers.RuntimeBroker.StartCall | component-runtime/src/runtime-broker.ts:569-593 | call starts and their limits |
| RuntimeBrokers.RuntimeBroker.GrantCredit | component-runtime/src/runtime-broker.ts:594-613 | credit and its bound |
| RuntimeBrokers.RuntimeBroker.ReceiveChunk | component-runtime/src/runtime-broker.ts:818-829 | a chunk spends one credit |
| RuntimeBrokers.RuntimeBroker.EndCall | component-runtime/src/runtime-broker.ts:830-869 | the three terminals |
| BrokerCalls.CallConservation | component-runtime/src/runtime-broker.ts:569-869 | in every run an operation starts, is accepted and ends at most once with nothing after the end; chunks plus remaining credit equal the credit granted, remaining credit in 0..32, at most 32 calls outstanding |
| BrokerCauses.HostLogCaused | component-runtime/src/runtime-broker.ts:492-632 | over every run, each message the host received was sent in one step that called for it: a published name was admitted by event_publish and a started one by call, while running; a subscribed or unsubscribed one by event_subscribe |
| BrokerCauses.GuestLogCaused | component-runtime/src/runtime-broker.ts:702-888 | over every run, each message the guest received has its cause: an event carries a name subscribed to at that step and admitted by event_subscribe; chunks and results are of its own outstanding calls; state is at readable paths |
| BrokerCauses.NameCheckExactly | component-runtime/src/runtime-broker.ts:492-503 | which names one list of patterns admits, and with what error the others are refused |
| BrokerAnswers.GuestExactly | component-runtime/src/runtime-broker.ts:505-632 | within the rate a ready broker acts on exactly the messages it accepts, each with its whole effect, and ends the runtime on any other, with the first error |
| BrokerAnswers.TooFast | component-runtime/src/runtime-broker.ts:505-508 | above 120 messages in a second the runtime ends, whatever the message |
| BrokerAnswers.BootExactly | component-runtime/src/runtime-broker.ts:522-546 | before it is ready a broker acts only on a well-formed announcement, with the boot message and the first state |
| BrokerAnswers.RenderExactly | component-runtime/src/runtime-broker.ts:471-490 | a render within its rate, with the next revision and a valid tree, is shown, and its controls are enforced from then on; any other ends the runtime |
| BrokerAnswers.HostExactly | component-runtime/src/runtime-broker.ts:702-888 | in turn, a ready broker acts on exactly the host messages it accepts, each with its whole effect, and ends the runtime on any other |
| BrokerAnswers.HostOutOfTurn | component-runtime/src/runtime-broker.ts:702-730 | out of turn, or before the broker is ready, a host message other than disposal ends the runtime |
| BrokerAnswers.DisposeExactly | component-runtime/src/runtime-broker.ts:725-729 | disposal ends the runtime without an error and tells both sides |
| BrokerAnswers.ClosedForGood | component-runtime/src/runtime-broker.ts:421-440 | a closed broker does nothing more |
| BrokerLedger.RunRecorded | component-runtime/src/runtime-broker.ts:548-739 | in every run the subscriptions are the names last subscribed to in what the host was sent, and whether the guest may act is what both sides were last told |
| BrokerState.GuestCopyIsHistory | component-runtime/src/runtime-broker.ts:528-800 | the copy folded from the forwarded messages is the host's history at the broker's revision, and no patch is forwarded between a gap and the next snapshot |
| BrokerState.ForwardedPathsReadable | component-runtime/src/runtime-broker.ts:760-791 | a forwarded patch is the next revision and names only readable paths |
| BrokerRender.OverRateExactly | component-runtime/src/runtime-broker.ts:430-435 | with a clock that does not run backwards, a message is over the limit exactly when as many others as the limit came within the last second |
| BrokerRender.WindowSuffix | component-runtime/src/runtime-broker.ts:430-435 | the window is exactly the part of the history within a second of its last message |
| BrokerRender.RunEnforces | component-runtime/src/runtime-broker.ts:471-490 | in every run the broker enforces the tree it showed last |
| BrokerInteractions.InteractionsAreOffered | component-runtime/src/runtime-broker.ts:471-700 | every interaction in the log of what the guest received was forwarded in one step of the run, while the runtime was active, and is one that the render shown last before that step offers; renders reached the host with revisions 1, 2, 3 and so on |
| Crc32c.FeedByte | control-plane/src/cloud-security.ts:112-117 | the eight-step inner loop |
| Crc32c.Compute | control-plane/src/cloud-security.ts:110-119 | the two nested loops compute the checksum function |
| Crc32c.ShiftInjective | control-plane/src/cloud-security.ts:114-117 | each shift step is injective on 32-bit registers |
| Crc32c.ShiftLinear | control-plane/src/cloud-security.ts:114-117 | each shift step is linear over exclusive or |
| Crc32c.FeedFour | control-plane/src/cloud-security.ts:112-117 | four bytes enter the register as one word shifted 32 times |
| Crc32c.BurstDetected | control-plane/src/cloud-security.ts:110-119 | two messages of one length that differ only within four consecutive bytes never share a checksum |
| CrcDivision.ChecksumIsRemainder | control-plane/src/cloud-security.ts:110-119 | the checksum is the complement of the remainder, read backwards, of long division of the message by the Castagnoli polynomial 0x1edc6f41, from a register of all ones |
| CrcDivision.FeedDivides | control-plane/src/cloud-security.ts:112-117 | feeding a byte is eight steps of that division |
| ReleaseLedger.Ledger.Accept | component-runtime/src/release-state.ts:315-327 | the stored record after the mutation, and its outcome |
| ReleaseLedger.Ledger.MarkActive | component-runtime/src/release-state.ts:329-342 | the stored record after the mutation, and its outcome |
| ReleaseLedger.Ledger.AutomaticFallback | component-runtime/src/release-state.ts:344-351 | reads, validates and selects |
| ReleaseLedger.RunSound | component-runtime/src/release-state.ts:130-209 | over every run the record agrees with what was accepted and marked |
| ReleaseLedger.FloorNeverFalls | component-runtime/src/release-state.ts:169-190 | the highest generation never decreases |
| ReleaseLedger.OnePointerPerGeneration | component-runtime/src/release-state.ts:169-190 | one generation is never bound to two pointers |
| ReleaseLedger.MetadataAlwaysValid | component-runtime/src/release-state.ts:130-167 | the ledger's own writes always pass its own checks: last-known-good never exceeds the floor |
| ReleaseLedger.AcceptedExactly | component-runtime/src/release-state.ts:169-190 | accepted is exactly a valid, unquarantined candidate above the floor, or the floor itself again |
| ReleaseLedger.AcceptWrites | component-runtime/src/release-state.ts:169-190 | accepting raises the floor to the candidate and keeps last-known-good; when a candidate is refused for quarantine |
| ReleaseLedger.MarkedExactly | component-runtime/src/release-state.ts:192-209 | only the highest accepted candidate is marked active, unless quarantined; it becomes last-known-good and the floor stays; every refusal with its condition |
| ReleaseLedger.FallbackIsOlder | component-runtime/src/release-state.ts:211-229 | a fallback is strictly older than the failed candidate, was marked active before, is not quarantined, and is given only before effects may have started |
| SecretLifecycle.ParseKeyring | control-plane/src/production-secret-lifecycle.ts:98-128 | accepts exactly the keyrings of one or two distinct versions of one secret with a current among them |
| SecretLifecycle.CheckKeyringSet | control-plane/src/production-secret-lifecycle.ts:60-77 | accepts exactly the sets that hold each purpose's own secret in one allowed project |
| SecretLifecycle.ClassifyExactly | control-plane/src/production-secret-lifecycle.ts:143-185 | the transitions are exactly: nothing, a switch of current, one higher version in, one non-current version out, whatever order lists the versions |
| SecretLifecycle.ChangesOfPurposes | control-plane/src/production-secret-lifecycle.ts:187-220 | a set is refused or reports exactly the one purpose that changed |
| SecretLifecycle.OnePurposePerStep | control-plane/src/production-secret-lifecycle.ts:187-220 | at most one purpose changes in a step of a run, and it is the one reported |
| SecretLifecycle.CurrentStaysResolvable | control-plane/src/production-secret-lifecycle.ts:143-185 | what was current before a step resolves after it, to the same resource |
| SecretLifecycle.CurrentWasAddedEarlier | control-plane/src/production-secret-lifecycle.ts:143-220 | what becomes current was the first version of all or was added in a strictly earlier step |
| SecretLifecycle.LowestNeverDecreases | control-plane/src/production-secret-lifecycle.ts:143-220 | over every accepted run the lowest resource number a purpose retains never decreases |
| SecretLifecycle.RetiredBelowNeverReturns | control-plane/src/production-secret-lifecycle.ts:143-220 | a resource number below what is retained never comes back |
| SecretLifecycle.BindingKept | control-plane/src/production-secret-lifecycle.ts:143-185 | a logical version kept across a step keeps its resource |

## Left out

- Encoder.CollectKeys: which of several bad keys of one Go map is reported is not fixed, because Go enumerates maps in no fixed order; the error kinds possible are stated.
- Frames.EncodeFrame: like CollectKeys, it leaves open which bad map key is reported.
- Encoder.EncodeValue: float32 inputs, which Go widens to float64 first, and dynamic types outside the protocol's are not represented.
- KeyHistory.RevokedNeverExchanged: assumes that the revoked key's identifier is not generated again; the code draws 128 random bits.
- PushHistory.RevokedNeverAuthorizes: assumes that the grant's identifier is not generated again, for the same reason.
- PushHistory.ChallengeOnce: assumes that the challenge's identifier is not issued again.
- KeyHistory.PairingOnce: two calls that draw the same key identifier cannot be told apart from one call executed twice.
- AdmissionTickets.RecordHeld: assumes non-decreasing clocks, as the ring's expiry order does; the cap itself assumes nothing about clocks.
- AdmissionRing.AuditAllocationCap: bounds allocations from above; a pending record holds the head of the ring until it expires, so no progress is claimed.
- BrokerState.GuestCopyIsHistory: assumes that the host samples one revision-indexed history; the broker cannot check that.
- BrokerRender.OverRateExactly: assumes a clock that does not run backwards, as `performance.now` promises.
- PushStores.PushStore.CreateGrant: the three attempts of one call follow each other with nothing in between; the run theorems are about single transactions and cover any interleaving.
- ControlStores.ControlPlaneStore.CreateHomeKey: the three attempts of one call follow each other with nothing in between, as in CreateGrant.
- ControlStores.ControlPlaneStore.RedeemPairingCode: the three attempts of one call follow each other with nothing in between, as in CreateGrant; KeyHistory.PairingOnce covers any interleaving of the single transactions.
- ComponentStores.ComponentStore.DeliverUpload: the class runs the call without interruption; stops and interleavings are in ComponentCalls.
- ComponentStores.ComponentStore.FinalizeRelease: the class runs the call without interruption; stops and interleavings are in ComponentCalls.
- RuntimeBrokers.RuntimeBroker.HandleGuestMessage: message fields arrive already judged, and heartbeats are not represented.
- RuntimeBrokers.RuntimeBroker.HandleHostMessage: envelope and message fields arrive already judged; the load message, probes and timers are not represented.
- Structured.MeasureStructuredValue: one refusal stands for every error; which of several is reported depends on the order of keys.
- SecretLifecycle.ParseKeyring: a resource name is already split into project, secret and number; its pattern and its 512-byte limit are not modelled.
- The MessagePack library, HMAC, SHA-256, Ed25519, RSA, KMS and Secret Manager: unknown functions or the plain format.
- Express routing, CORS, header checks, token and App Check verification, configuration parsing: checks branch by branch, or I/O.
- Firestore, IndexedDB and object-storage mechanics other than atomic transactions, lost acknowledgements and create-only writes.
- Firestore TTL deletion of bucket, audit and challenge documents, and a change of the admission profile between deployments.
- Stored records that no run of the code writes: field lists, types and text patterns of documents are not represented, only the relations between their fields.
- The order of timestamps across concurrent upload transactions: the clock is sampled before the transaction, so only the order of statuses is claimed.
- Listing operations, patching a home, relay URLs, exchange of a user's relay token, home interfaces and reading of published artifacts: they only read, or rewrite one field.
- The load message, worker launch, envelope fields, handshake, timers, heartbeats and probes of the broker: the model starts with a launched worker, and a message arrives with its fields already judged.
- URL normalisation and digest decoding in release pointers: one predicate says which pointers are valid.
- Lone surrogates in strings: strings are sequences of Unicode scalar values, and lengths in UTF-16 units are given where the code uses them.
- The iframe, Worker and CSP boundary, DOM rendering, sandbox builders, program checks, staging scripts and replay harness.
