# Verified models of the keyserver, the D2 admission protocol and the evidence readers

This project models, in Dafny, the parts of the privacy client's services where correctness is hardest to see from the code, and proves what they promise.

* **Keyserver.** `KeyDatabase` holds the tables and their transactions as a class; `KeyDatabaseRuns` proves whole-run accounting for one-time prekeys and for wrapped keys; `KeyserverCodec` is the three length-prefixed encoders with decoders that undo them, and `ReplenishForms` compares the two forms of a replenish; `KeyServer` is the signed request handlers, from body to table change, and `ReplenishAtServer` says exactly when the signed bytes of a replenish decide its change. Ed25519 (section 5.1 of RFC 8032), `Date.parse`, `String`, `Buffer.from` and the sort order of manifest keys are parameters. Strings are their UTF-8 bytes.
* **D2 admission.** `AdmissionProtocol` is the load, verify, compare-and-swap protocol as a state machine over any number of runs, clock readings and authority changes, with the two database functions as methods of a class. `Admission`, `WitnessLoops` and `AdmissionWitnesses` are statement verification and the loops over transcripts and readbacks; `AdmissionEvidence` puts them together as the verification step of a run, `AdmissionDigests` says what each digest covers, `AdmissionReceipts` what a receipt guarantees in terms of the statements themselves, `AdmissionKeys` joins receipts to the registries that provisioning hands on, and `AdmissionTwin` and `AdmissionSharedKey` are about admissions in which two producers hold one key. `ProvisioningSections`, `Provisioning`, `ProvisioningReview` and `ProvisioningApproval` are the offline plan builder and its four-signature review, and `ProvisioningDigest` says exactly which plan is built, what its digest covers and what the signatures are for. `CanonicalJson`, `CanonicalJsonProofs`, `RawJson` and `Base64url` are the texts all of these sign.
* **Streaming readers.** `TailSplitter` cuts JSON objects out of a chunked stream; `MarkerScan` looks for markers across block boundaries.
* **PNG facts.** `PngChunks` is framing, CRC and the chunk loop (sections 5.3 and 5.5 of the W3C PNG specification, second edition); `PngFilters` the five filters (sections 9.2 to 9.4); `PngFacts` the parser and the in-file encoder it undoes; `PngReport` says byte by byte when a report is made and which, and `PngErrors` when each error is. zlib is a parameter with one law: inflating undoes deflating, and deflated data is not empty.

Code that updates variables step by step is a method with loop invariants, proved against a function or a stated property. Where it is proved against a function, another law says what that function gives without naming it (`PngReport`, `AdmissionReceipts`, `ProvisioningDigest`, and the predicates `BurnIs`, `FetchIs`, `PopIs`, `UpsertIs` and `UpdateIs`). Objects that are updated in place are classes. Where the loop's own data types make proofs slow, the loop is generic over them (`WitnessLoops`, `DistinctLoops`, `PngRows`).

Four places where a reader may expect something else from the code:

* A burn has two encodings, with and without the freshness fields, and nothing marks which one was used. `KeyserverCodec.BurnDecidedExactly` gives the exact condition under which the bytes decide the burn. `FormsCanMeet` builds a pair of different burns with the same bytes for every target length at which one exists, all of them above sixteen million bytes. Such a pair exists for the encoder only: the server keeps its framework's default limit of one mebibyte for a body (keyserver/src/server.js, line 161), and within it the bytes decide every accepted burn (`KeyServer.ReceivedBurnsDecideEffect`).
* A replenish has the same two encodings, and here the server can receive both readings. `ReplenishAtServer.OneSignatureTwoChanges` gives two bodies, one plain with 304 one-character prekeys and one at timestamp 0 with 299, that are accepted with one signature and make different changes. `PlainDecidesExactly` and `FreshDecidesExactly` are the exact conditions under which the signed bytes decide the change, for an accepted body of each form; with prekey texts of three characters or more they always do.
* The replenish handler checks only that a prekey id is not negative. Ids still fit in 32 bits in every reachable state, because encoding comes before the write (`KeyServer.PooledIdsFit`).
* The admission asks for four distinct keys but compares key texts, and its decoder ignores the two spare bits of a text's last character. Next to every admission that passes with four keys there is one with three: give the event producer the deployment producer's key in its other text, let the holder of that key sign the event statement, issue the challenge for this evidence, change nothing else of evidence, registry and authority, and a run still ends in a receipt (`AdmissionTwin.FourKeysCanBecomeThree`). `AdmissionSharedKey` builds such admissions from the ground up, with challenge, times, producers, digests, resource texts, payloads and signatures all left free. Behind every receipt the four keys are pairwise different exactly when no two of the four texts differ in spare bits only (`AdmissionKeys.ReceiptKeysExactly`). Registries that come out of provisioning hold strict texts, where they always differ (`AdmissionKeys.ApprovedRegistryGivesFourKeys`).

## Model

| member | source | states |
|---|---|---|
| `AdmissionProtocol.AtMostOneReceipt` | cipher-store-cf/scripts/d2-0010-authoritative-admission.ts:1228-1257 | over every interleaving of runs, clock readings and authority changes, two runs with a receipt for one challenge are the same run |
| `AdmissionProtocol.ReceiptMatchesRow` | cipher-store-cf/scripts/d2-0010-authoritative-admission.ts:580-599 | the row of a receipt is consumed, in time, with exactly the receipt's three digests, which are the ones it was issued for |
| `AdmissionProtocol.ConsumedRowStays` | cipher-store-cf/scripts/d2-0010-authoritative-admission.ts:580-599 | once consumed, a row never changes in any continuation |
| `AdmissionProtocol.ReceiptStays` | cipher-store-cf/scripts/d2-0010-authoritative-admission.ts:1246-1257 | a returned receipt stays returned, unchanged, in any continuation |
| `AdmissionProtocol.ReceiptMatchedAuthority` | cipher-store-cf/scripts/d2-0010-authoritative-admission.ts:592-599 | behind each receipt is an UPDATE at which the row was unconsumed and unexpired and the durable authority state was the receipt's snapshot |
| `AdmissionProtocol.ReceiptIsStamped` | cipher-store-cf/scripts/d2-0010-authoritative-admission.ts:580-599 | the row of a receipt is stamped with the time that the receipt's own run read off the clock after verifying, within the row's lifetime |
| `AdmissionProtocol.OneSwapPerChallenge` | cipher-store-cf/scripts/d2-0010-authoritative-admission.ts:609-658 | no two UPDATEs in a behaviour ever change the row of one challenge |
| `AdmissionProtocol.ReceiptIsForItsEvidence` | cipher-store-cf/scripts/d2-0010-authoritative-admission.ts:873-879 | a run only ever acts for the challenge and sequence its evidence names, and for the digest of that evidence |
| `AdmissionProtocol.ReceiptWasVerified` | cipher-store-cf/scripts/d2-0010-authoritative-admission.ts:868-1257 | behind each receipt is a verification step of the same run at which the run's own evidence passed for the challenge of the receipt, which was valid when it was loaded |
| `AdmissionProtocol.ReceiptBeganWith` | cipher-store-cf/scripts/d2-0010-authoritative-admission.ts:868-884 | what was verified is the evidence the run started with, at the time the clock showed at its start |
| `AdmissionProtocol.ReceiptHasWitnesses` | cipher-store-cf/scripts/d2-0010-authoritative-admission.ts:848-1257 | over every interleaving, behind each receipt are complete, confirmed transcripts and readbacks shown by evidence with the receipt's digest, hashing to the receipt's root and snapshot, with all transcripts by one producer and all readbacks by one other |
| `AdmissionProtocol.PassingCanHaveReceipt` | cipher-store-cf/scripts/d2-0010-authoritative-admission.ts:848-1257 | evidence that passes for a valid challenge gets that challenge's receipt in some behaviour |
| `AdmissionProtocol.ReceiptsExactly` | cipher-store-cf/scripts/d2-0010-authoritative-admission.ts:848-1257 | the receipts that some behaviour gives are exactly those of valid challenges for which some evidence passes |
| `AdmissionKeys.ReceiptKeysExactly` | cipher-store-cf/scripts/d2-0010-authoritative-admission.ts:1202-1257 | behind every receipt are four producers, one for all transcripts and one for all readbacks; their keys differ exactly when no two texts are spare-bit twins, and always under a registry of strict texts |
| `AdmissionKeys.ApprovedRegistryGivesFourKeys` | cipher-store-cf/scripts/d2-0010-authority-provisioning.ts:776-791 | a receipt that was verified under the registry of an approved plan has four producers with four different keys |
| `AdmissionEvidence.PassingShowsWitnesses` | cipher-store-cf/scripts/d2-0010-authoritative-admission.ts:885-1227 | evidence that passes shows an acceptable set of witnesses by registered producers with 32-byte keys, one producer signing all transcripts and one all readbacks |
| `AdmissionProtocol.EveryRunHolds` | cipher-store-cf/scripts/d2-0010-authoritative-admission.ts:580-658 | in every reachable state the consumed rows are exactly those with a winner, and each winner's digests are on its row |
| `AdmissionProtocol.Durable.LoadChallenge` | cipher-store-cf/scripts/d2-0010-authoritative-admission.ts:535-568 | returns the row's challenge exactly when the id is well formed and the row sound |
| `AdmissionProtocol.Durable.RunConsume` | cipher-store-cf/scripts/d2-0010-authoritative-admission.ts:609-650 | one row changes, and the count is 1, exactly when every condition of the WHERE clause holds; otherwise nothing changes |
| `AdmissionProtocol.Durable.ConsumeChallenge` | cipher-store-cf/scripts/d2-0010-authoritative-admission.ts:652-658 | true exactly when the row is unconsumed, every value of the input is as issued, the authority state is the snapshot and there is time left; then that row alone changes, and is stamped with the input's time and digests |
| `Admission.SignedTextBinds` | cipher-store-cf/scripts/d2-0010-authoritative-admission.ts:398-417 | two statements have the same signed text exactly when producer, epoch, challenge, sequence and payload value agree |
| `Admission.SignedTextReads` | cipher-store-cf/scripts/d2-0010-authoritative-admission.ts:398-417 | what is signed is the format, a zero, and a text that parses, keys ascending, to exactly the five signed fields under their names |
| `AdmissionWitnesses.VerifiedIsSettled` | cipher-store-cf/scripts/d2-0010-authoritative-admission.ts:364-386 | statements that verify are by registered producers of the role asked for, whose keys decode to 32 bytes |
| `AdmissionWitnesses.ValidateWitnesses` | cipher-store-cf/scripts/d2-0010-authoritative-admission.ts:988-1227 | accepts exactly the acceptable witnesses: one per kind, confirmed, four producers with four keys, both digests as expected by the challenge; what the digests cover is `AdmissionDigests.RootCovers` and `SnapshotCovers` |
| `AdmissionWitnesses.CountWitnesses` | cipher-store-cf/scripts/d2-0010-authoritative-admission.ts:996-1211 | the loops over map and sets decide completeness, and collect the probe entries in order |
| `AdmissionWitnesses.WitnessesMatchKinds` | cipher-store-cf/scripts/d2-0010-authoritative-admission.ts:1125-1138 | each of the eight kinds has exactly one transcript and exactly one readback, and the readback follows up that transcript |
| `AdmissionWitnesses.OneProducerPerRole` | cipher-store-cf/scripts/d2-0010-authoritative-admission.ts:1202-1211 | the set sizes alone leave one producer to all transcripts, one to all readbacks, and four pairwise different key texts |
| `AdmissionWitnesses.KeysDifferExactly` | cipher-store-cf/scripts/d2-0010-authoritative-admission.ts:1202-1211 | in every complete admission the four 32-byte keys are pairwise different exactly when no two of the four texts differ in spare bits only |
| `AdmissionSharedKey.SharedKeyHasReceipt` | cipher-store-cf/scripts/d2-0010-authoritative-admission.ts:848-1257 | for every challenge, times, account, producers, transcripts, readbacks, payloads and signatures in order, where the checks of one payload take the sixteen for what they hold: a run with a consistent authority ends in a receipt although deployment and event producer hold one key, their two texts being spare-bit twins |
| `AdmissionSharedKey.SetupHasReceipt` | cipher-store-cf/scripts/d2-0010-authoritative-admission.ts:848-1257 | the same for any four different key texts |
| `AdmissionTwin.FourKeysCanBecomeThree` | cipher-store-cf/scripts/d2-0010-authoritative-admission.ts:1202-1257 | for every admission that passes with four different keys for a valid challenge, whatever its payloads: with the event producer's key text replaced by the other text of the deployment producer's key, the event statement signed by that key and the challenge issued for this evidence, it passes and a run ends in its receipt; nothing else changes, the texts differ and the keys are equal |
| `AdmissionSharedKey.SetupsExist` | cipher-store-cf/scripts/d2-0010-authoritative-admission.ts:848-1257 | whatever the platform's signatures and digests, for every setup in order with different payloads there are payload readers, changed at these sixteen payloads alone, under which the evidence passes |
| `AdmissionSharedKey.SetupsAreMet` | cipher-store-cf/scripts/d2-0010-authoritative-admission.ts:848-1257 | for all well-formed challenge and account digests, four different key texts, digests and resource texts some platform takes the evidence, so receipts are given at all |
| `AdmissionWitnesses.StrictKeysDiffer` | cipher-store-cf/scripts/d2-0010-authoritative-admission.ts:1202-1211 | when the four key texts of a complete admission are strict base64url, its four keys are pairwise different |
| `AdmissionWitnesses.ReadbackIdsDiffer` | cipher-store-cf/scripts/d2-0010-authoritative-admission.ts:1184-1201 | with a consistent authority no two readbacks share a probe id |
| `AdmissionWitnesses.ProbeIdsDiffer` | cipher-store-cf/scripts/d2-0010-authoritative-admission.ts:1081-1091 | with a consistent authority the eight probe ids are pairwise different, although they are never compared |
| `AdmissionWitnesses.OrderDoesNotMatter` | cipher-store-cf/scripts/d2-0010-authoritative-admission.ts:1081-1094 | any permutation of probes and of readbacks leaves the transcript-root and snapshot inputs, and the verdict, unchanged |
| `AdmissionDigests.RootCovers` | cipher-store-cf/scripts/d2-0010-authoritative-admission.ts:1081-1094 | for different kinds, two sets of transcripts have one text behind the root exactly when they have the same triples of kind, probe id and transcript digest |
| `AdmissionDigests.RootTellsTranscripts` | cipher-store-cf/scripts/d2-0010-authoritative-admission.ts:1081-1087 | one text behind two roots means the same triples, whatever the order used for sorting |
| `AdmissionDigests.RootListsInOrder` | cipher-store-cf/scripts/d2-0010-authoritative-admission.ts:1083-1089 | the root lists every transcript once, in the order of the kinds |
| `AdmissionDigests.RootItemReads` | cipher-store-cf/scripts/d2-0010-authoritative-admission.ts:1084-1088 | kind, probe id and digest each stand under their own name |
| `AdmissionDigests.SnapshotCovers` | cipher-store-cf/scripts/d2-0010-authoritative-admission.ts:1213-1227 | for different probe ids, two snapshots have one text exactly when the active deployment, the event and all nine fields of every readback agree |
| `AdmissionDigests.SnapshotTellsReadbacks` | cipher-store-cf/scripts/d2-0010-authoritative-admission.ts:1213-1221 | one text behind two snapshots means the same deployment, event and readbacks, also when ids repeat |
| `AdmissionDigests.SnapshotReads` | cipher-store-cf/scripts/d2-0010-authoritative-admission.ts:1213-1221 | deployment and event stand under their names, and every readback once, in the order of the ids |
| `AdmissionDigests.AnchorItemReads` | cipher-store-cf/scripts/d2-0010-authoritative-admission.ts:1184-1201 | each of the nine fields stands under its own name |
| `AdmissionDigests.EvidenceCovers` | cipher-store-cf/scripts/d2-0010-authoritative-admission.ts:873-876 | two pieces of evidence have one digested text exactly when challenge, sequence and every field of every statement agree, payloads as JSON values |
| `AdmissionDigests.EvidenceReads` | cipher-store-cf/scripts/d2-0010-authoritative-admission.ts:873-876 | each field of the evidence stands under its own name |
| `AdmissionDigests.StatementReads` | cipher-store-cf/scripts/d2-0010-authoritative-admission.ts:346-355 | and each field of a statement |
| `AdmissionReceipts.PassesExactly` | cipher-store-cf/scripts/d2-0010-authoritative-admission.ts:848-1227 | evidence passes exactly when every statement is signed for the challenge by a producer registered for its role and account, in date and unrevoked; all eight kinds are transcribed once between event and expiry, read back once, later, with the same id and digest, and confirmed by the authority field by field; four producers with four key texts sign; and both digests match |
| `AdmissionReceipts.ReceiptIsFounded` | cipher-store-cf/scripts/d2-0010-authoritative-admission.ts:848-1257 | over every interleaving, all of that stands behind each receipt, with a challenge for this evidence that ran at the time, for at most 300000 milliseconds |
| `AdmissionReceipts.ReceiptsFoundedExactly` | cipher-store-cf/scripts/d2-0010-authoritative-admission.ts:848-1257 | and some behaviour gives a receipt exactly when it can be founded in this way |
| `AdmissionReceipts.OneRootOneSet` | cipher-store-cf/scripts/d2-0010-authoritative-admission.ts:1081-1094 | over any two behaviours, two receipts have one transcript root exactly when they rest on the same triples of all eight kinds, or the hash collides on their two texts |
| `AdmissionReceipts.RootSharedExactly` | cipher-store-cf/scripts/d2-0010-authoritative-admission.ts:1081-1094 | the same for any two foundations of the two receipts |
| `AdmissionReceipts.SnapshotSharedExactly` | cipher-store-cf/scripts/d2-0010-authoritative-admission.ts:1213-1227 | two receipts have one snapshot exactly when deployment, event and readbacks agree, or the hash collides |
| `AdmissionReceipts.EvidenceSharedExactly` | cipher-store-cf/scripts/d2-0010-authoritative-admission.ts:873-879 | two receipts have one evidence digest exactly when all their statements agree, or the hash collides |
| `WitnessLoops.FillMap` | cipher-store-cf/scripts/d2-0010-authoritative-admission.ts:1000-1080 | the probe loop succeeds exactly when no kind repeats, and then map, entries, ids and keys are those of all statements |
| `WitnessLoops.MatchAll` | cipher-store-cf/scripts/d2-0010-authoritative-admission.ts:1096-1201 | the readback loop succeeds exactly when no kind repeats and each readback fits its probe and is confirmed |
| `WitnessLoops.OneSignerPerList` | cipher-store-cf/scripts/d2-0010-authoritative-admission.ts:1202-1211 | four producers in all, over two lists with roles of their own, mean one producer per list |
| `WitnessLoops.EveryKindOnce` | cipher-store-cf/scripts/d2-0010-authoritative-admission.ts:1202-1211 | as many statements as kinds, no kind twice: every kind has exactly one |
| `CanonicalJsonProofs.ParsePrint` | cipher-store-cf/scripts/d2-0010-authoritative-admission.ts:245-262 | parsing canonical text gives the value back with its members in key order; `PrintIsInOrder` says which order that is |
| `CanonicalJsonProofs.PrintIsInOrder` | cipher-store-cf/scripts/d2-0010-authoritative-admission.ts:256-261 | the text parses to the same value with keys strictly ascending by code unit at every depth: a proper prefix first, else the smaller unit at the first difference |
| `CanonicalJsonProofs.EscapeUnitIs` | cipher-store-cf/scripts/d2-0010-authoritative-admission.ts:251-253 | what each code unit is printed as: the seven short escapes, four hexadecimal digits for other controls and lone surrogates, itself otherwise |
| `CanonicalJsonProofs.PlainStays` | cipher-store-cf/scripts/d2-0010-authoritative-admission.ts:251-253 | text without anything to escape is printed as it is |
| `CanonicalJsonProofs.PrintDecidesValue` | cipher-store-cf/scripts/d2-0010-authoritative-admission.ts:258-261 | equal output exactly for equal values: key order does not matter and nothing else is lost |
| `CanonicalJsonProofs.EveryValueReadsBack` | cipher-store-cf/scripts/d2-0010-authoritative-admission.ts:245-262 | a printed value is read back in front of any text that cannot continue a number |
| `CanonicalJsonProofs.ReadsString` | cipher-store-cf/scripts/d2-0010-authoritative-admission.ts:251-253 | every string of code units, with its escapes and surrogates, reads back |
| `CanonicalJsonProofs.PrintIsWellFormed` | cipher-store-cf/scripts/d2-0010-authoritative-admission.ts:251-261 | the output has no lone surrogate, so UTF-8 loses nothing of it |
| `CanonicalJsonProofs.NormalTwice` | cipher-store-cf/scripts/d2-0010-authoritative-admission.ts:258-261 | putting members in key order is done once and for all |
| `RawJson.RawJsonIsCanonical` | cipher-store-cf/scripts/d2-0010-authoritative-admission.ts:305-330 | accepted bytes are bound by the digest, and their decoded text is the canonical print of what is returned; canonical text is accepted as its own value |
| `RawJson.ParserQualifies` | cipher-store-cf/scripts/d2-0010-authoritative-admission.ts:318-326 | the parser of the model meets the assumption made about `JSON.parse` |
| `CanonicalTail.CanonicalObjectsComeOut` | cipher-store-cf/scripts/d2-promotion-proof.ts:561-572 | printed objects, between any brace-free text and in any chunking, come out of the splitter and read back |
| `Provisioning.ValidateProducers` | cipher-store-cf/scripts/d2-0010-authority-provisioning.ts:379-469 | accepts exactly four good producers with different ids, roles and keys, and returns them in role order |
| `Provisioning.ByRoleInOrder` | cipher-store-cf/scripts/d2-0010-authority-provisioning.ts:463-468 | the four producers come out as deployment, provider event, probe, readback |
| `Provisioning.ByRolePermutes` | cipher-store-cf/scripts/d2-0010-authority-provisioning.ts:463-468 | sorting by role loses and repeats nobody |
| `Provisioning.ValidateRequest` | cipher-store-cf/scripts/d2-0010-authority-provisioning.ts:471-546 | accepts exactly the requests whose times, account, five sections and producers are good, and returns them with the producers in role order |
| `ProvisioningSections.SectionsAreInOrder` | cipher-store-cf/scripts/d2-0010-authority-provisioning.ts:231-377 | the sections accepted are in order of time, from migration to activation, event, roots and plan, on one worker version, with three different roots |
| `ProvisioningSections.SectionsExactly` | cipher-store-cf/scripts/d2-0010-authority-provisioning.ts:231-377 | the five sections are accepted exactly when contracts, release, account, traffic and resources are the right ones, and migration, activation, event, roots and plan follow one another on one worker version with three different roots |
| `ProvisioningSections.DeploymentDecided` | cipher-store-cf/scripts/d2-0010-authority-provisioning.ts:247-302 | the canonical text of a deployment decides every field of it, its source included |
| `Provisioning.BuildPlan` | cipher-store-cf/scripts/d2-0010-authority-provisioning.ts:577-620 | builds the plan of the tidied request exactly when the request is good; which plan that is, and when, is `ProvisioningDigest.BuildsExactly` |
| `Provisioning.ValidatePlan` | cipher-store-cf/scripts/d2-0010-authority-provisioning.ts:622-651 | returns the rebuilt plan exactly when it prints like the plan given |
| `Provisioning.BuilderIgnoresOrder` | cipher-store-cf/scripts/d2-0010-authority-provisioning.ts:528-533 | listing the producers in another order changes neither verdict nor plan |
| `Provisioning.BuilderIsIdempotent` | cipher-store-cf/scripts/d2-0010-authority-provisioning.ts:577-620 | building from a built plan's request gives that plan, at exactly the times the request is current |
| `Provisioning.BuiltPlanValidates` | cipher-store-cf/scripts/d2-0010-authority-provisioning.ts:646-650 | a built plan validates at exactly the times from creation to just before expiry |
| `ProvisioningDigest.BuildsExactly` | cipher-store-cf/scripts/d2-0010-authority-provisioning.ts:379-620 | a plan is built exactly for a request that is current, for at most a day, with sections that hold and four producers that differ in id, role and key and are in force throughout; and it is the one with those producers in the order deployment, event, probe, readback, the digest of its body, and a signing request for each producer's id, role and epoch over that digest |
| `ProvisioningDigest.DigestedTextReads` | cipher-store-cf/scripts/d2-0010-authority-provisioning.ts:583-596 | the digest is that of a text that parses, keys ascending, to the members of the plan other than plan_sha256, signing_requests and signatures |
| `ProvisioningDigest.DigestDecidesPlan` | cipher-store-cf/scripts/d2-0010-authority-provisioning.ts:583-596 | two built plans have one digest exactly when they are one plan, or the hash collides on their two bodies |
| `ProvisioningDigest.PlanReads` | cipher-store-cf/scripts/d2-0010-authority-provisioning.ts:583-620 | each field of a plan stands under its own name, nothing is authorised, and there is no signature |
| `ProvisioningDigest.RequestReads` | cipher-store-cf/scripts/d2-0010-authority-provisioning.ts:498-546 | times, account and producers of a request stand under their names |
| `ProvisioningDigest.RequestSectionsRead` | cipher-store-cf/scripts/d2-0010-authority-provisioning.ts:498-546 | and so do its five sections |
| `ProvisioningDigest.EntryReads` | cipher-store-cf/scripts/d2-0010-authority-provisioning.ts:379-469 | and the fields of a producer |
| `ProvisioningDigest.DeploymentReads` | cipher-store-cf/scripts/d2-0010-authority-provisioning.ts:247-302 | and those of the deployment |
| `ProvisioningDigest.SectionReads` | cipher-store-cf/scripts/d2-0010-authority-provisioning.ts:231-335 | and those of source, contract pins and event |
| `ProvisioningDigest.RootsRead` | cipher-store-cf/scripts/d2-0010-authority-provisioning.ts:337-377 | and those of the readback roots |
| `ProvisioningDigest.SigningReads` | cipher-store-cf/scripts/d2-0010-authority-provisioning.ts:598-613 | and those of a signing request |
| `DistinctLoops.CheckDistinct` | cipher-store-cf/scripts/d2-0010-authority-provisioning.ts:388-447 | the three growing sets refuse exactly a bad item or a repeated id, role or key |
| `ProvisioningReview.PlanDecided` | cipher-store-cf/scripts/d2-0010-authority-provisioning.ts:647-649 | plans that print alike are equal, in every field of plan, request, sections and producers |
| `ProvisioningReview.SectionsDecided` | cipher-store-cf/scripts/d2-0010-authority-provisioning.ts:498-546 | requests with one canonical text have the same five sections |
| `ProvisioningReview.ValidatedPlanIsItsBuild` | cipher-store-cf/scripts/d2-0010-authority-provisioning.ts:622-651 | a plan validates exactly when it is the build of its own request, to the last field |
| `ProvisioningReview.VerifyReview` | cipher-store-cf/scripts/d2-0010-authority-provisioning.ts:653-792 | exactly for an approved review of a valid plan, returns the candidate: the plan's recomputed digest, the two review ids and the registry of its producers |
| `ProvisioningReview.EverySignatureHasItsProducer` | cipher-store-cf/scripts/d2-0010-authority-provisioning.ts:721-766 | each signature of an approved review is by exactly one producer of the plan, in its role, over its message, and is that producer's only one |
| `ProvisioningReview.EveryProducerSignsOnce` | cipher-store-cf/scripts/d2-0010-authority-provisioning.ts:701-769 | each producer of the plan has exactly one signature |
| `ProvisioningReview.EveryRoleSignsOnce` | cipher-store-cf/scripts/d2-0010-authority-provisioning.ts:770-775 | each of the four roles is covered by exactly one signature |
| `ProvisioningApproval.ApprovedExactly` | cipher-store-cf/scripts/d2-0010-authority-provisioning.ts:653-792 | a review is approved exactly when the plan is the build of its own request, the review is current, and each of the four signatures is by one producer of the plan, in its role and epoch; that the producers are in force at the review follows |
| `ProvisioningApproval.GoodRequestsCanBeApproved` | cipher-store-cf/scripts/d2-0010-authority-provisioning.ts:577-792 | a current review of a built plan, signed in the order of its producers, is approved exactly when each signature verifies for its own producer |
| `ProvisioningApproval.DraftsAreGood` | cipher-store-cf/scripts/d2-0010-authority-provisioning.ts:471-546 | for all sections that hold, four different ids and four different 32-byte keys, the request is good while it is current |
| `ProvisioningApproval.ApprovalsExist` | cipher-store-cf/scripts/d2-0010-authority-provisioning.ts:577-792 | every such request has a plan with an approved review |
| `ProvisioningApproval.SectionsExist` | cipher-store-cf/scripts/d2-0010-authority-provisioning.ts:231-377 | for every account and creation time there are sections that hold |
| `ProvisioningReview.MessageBinds` | cipher-store-cf/scripts/d2-0010-authority-provisioning.ts:556-575 | two signed messages are equal exactly when plan digest, review fields, producer, role and epoch agree |
| `ProvisioningDigest.MessageIsForOnePlan` | cipher-store-cf/scripts/d2-0010-authority-provisioning.ts:556-575 | among approved reviews a signed message is for one plan, one review, one producer, one role and one epoch, or the hash collides on the two plans |
| `ProvisioningDigest.MessageReads` | cipher-store-cf/scripts/d2-0010-authority-provisioning.ts:567-574 | what is signed: the domain, the six review fields under their names, producer, role and epoch, separated by zeros |
| `ProvisioningDigest.ApprovalIs` | cipher-store-cf/scripts/d2-0010-authority-provisioning.ts:653-792 | a review is approved exactly when the plan is the plan for its own sound request, the review is of this plan's digest, from after its creation to now and until its expiry, and all four producers sign |
| `ProvisioningDigest.RegistryExactly` | cipher-store-cf/scripts/d2-0010-authority-provisioning.ts:776-791 | the registry of an approved plan has each of the four producers under its own id, and no other |
| `ProvisioningReview.CandidateSeparatesRoles` | cipher-store-cf/scripts/d2-0010-authority-provisioning.ts:776-791 | in the registry of an approved plan different producers have different roles and different 32-byte keys |
| `Base64url.EncodeLoop` | cipher-store-cf/scripts/d2-0010-workerd-authority.ts:137-153 | the three-byte-step loop computes the encoding of section 5 of RFC 4648 |
| `Base64url.EncodeLength` | cipher-store-cf/scripts/d2-0010-workerd-authority.ts:141-151 | only alphabet characters, and the exact unpadded length |
| `Base64url.EncodeBits` | cipher-store-cf/scripts/d2-0010-workerd-authority.ts:141-151 | group by group the letters hold the bits of the bytes, most significant first, with zeros in the spare bits |
| `Base64url.DecodeBits` | cipher-store-cf/scripts/d2-0010-authoritative-admission.ts:287-296 | group by group the decoded bytes hold the bits of the letters; spare bits and a lone letter are dropped |
| `Base64url.DecodeEncode` | cipher-store-cf/scripts/d2-0010-workerd-authority.ts:137-153 | decoding the encoding gives the bytes back |
| `Base64url.StrictInvertsEncode` | cipher-store-cf/scripts/d2-0010-authority-provisioning.ts:210-223 | the strict decoder accepts exactly the encodings of nonempty byte strings, each as its own bytes |
| `Base64url.StrictIsTidy` | cipher-store-cf/scripts/d2-0010-authority-provisioning.ts:218-221 | the re-encode check is exactly the rule that the last character has no spare bits set |
| `Base64url.SextetsAreTidy` | cipher-store-cf/scripts/d2-0010-workerd-authority.ts:146-150 | the encoder zeroes the spare bits |
| `Base64url.LenientIsAmbiguous` | cipher-store-cf/scripts/d2-0010-authoritative-admission.ts:287-296 | without the re-encode check two texts of any lengths decode alike exactly when they differ only in what the decoder drops: a lone last character and spare bits |
| `Base64url.SameKeyExactly` | cipher-store-cf/scripts/d2-0010-authoritative-admission.ts:387-397 | texts that decode to 32 bytes are one key exactly when both have 43 characters and differ at most in the two spare bits of the last |
| `Base64url.TwinIsSameKey` | cipher-store-cf/scripts/d2-0010-authoritative-admission.ts:387-397 | every text of 43 characters has a different text that decodes to the same 32 bytes |
| `TailSplitter.ChunkingIsInvisible` | cipher-store-cf/scripts/d2-promotion-proof.ts:561-572 | for every chunking, the carry loop yields the objects and remainder of one pass over the whole stream |
| `TailSplitter.SplitResumes` | cipher-store-cf/scripts/d2-promotion-proof.ts:526-534 | a pass over two parts is a pass over the first, then one over its remainder with the second appended |
| `TailSplitter.Rescan` | cipher-store-cf/scripts/d2-promotion-proof.ts:495-534 | rescanning the remainder restores depth, string and escape state |
| `TailSplitter.SplitFindsObjects` | cipher-store-cf/scripts/d2-promotion-proof.ts:495-534 | every list of object texts, nested and with braces, quotes and escapes in strings, comes out whole and in order, with no object left open |
| `TailSplitter.StreamIsCut` | cipher-store-cf/scripts/d2-promotion-proof.ts:520-534 | any stream is the returned objects in order with brace-free text between them, then what is left |
| `TailSplitter.ObjectsAreClosed` | cipher-store-cf/scripts/d2-promotion-proof.ts:520-530 | every object returned is by itself exactly one object |
| `TailSplitter.ScanBuffer` | cipher-store-cf/scripts/d2-promotion-proof.ts:495-534 | the index loop, against any step-by-step account of the scan and of the parsed objects, returns what that account ends with, or fails at a prefix where an object does not parse |
| `TailSplitter.JsonObjectsFromBuffer` | cipher-store-cf/scripts/d2-promotion-proof.ts:495-534 | the loop gives exactly the parsed objects and remainder of one pass over the text, or fails when an object does not parse |
| `TailSplitter.FailureSticks` | cipher-store-cf/scripts/d2-promotion-proof.ts:520-526 | an object that does not parse fails the call whatever follows |
| `TailSplitter.TailCapture.OnData` | cipher-store-cf/scripts/d2-promotion-proof.ts:561-572 | after any chunks the capture is that of one call on everything received, up to the size limit |
| `MarkerScan.ScanForMarkers` | scripts/qa/c4-shipping-evidence.py:226-241 | for every division into blocks, refuses exactly when some marker occurs in any case anywhere in the file |
| `MarkerScan.ScanExecutable` | scripts/qa/c4-shipping-evidence.py:226-241 | the same for the five QA-shell markers |
| `MarkerScan.TaintedExactly` | scripts/qa/c4-shipping-evidence.py:226-241 | what is refused: some marker stands in the file letter by letter, each letter in either case |
| `MarkerScan.OccursInCarry` | scripts/qa/c4-shipping-evidence.py:234-241 | an occurrence that ends in the new block starts inside the carry |
| `MarkerScan.BlockDecides` | scripts/qa/c4-shipping-evidence.py:234-241 | one pass over carry and block decides the whole prefix |
| `KeyDatabase.InsertOpks` | keyserver/src/db.js:187-192 | all prekeys are added exactly when their ids are pairwise different and new, otherwise none |
| `KeyDatabase.Tables.UpsertUser` | keyserver/src/db.js:100-131 | the first registration stores identity and time; a later one stores the new identity and the time of rotation and keeps the first time; nobody else changes |
| `KeyDatabase.Tables.UpsertPrekeyBundle` | keyserver/src/db.js:148-194 | stores everything, the new signed prekey in front of the last one and each prekey under its id, exactly when the user exists where one is needed and the ids are new; says which of the two fails, and then leaves every table as it was |
| `KeyDatabase.Tables.PopPrekeyBundle` | keyserver/src/db.js:199-249 | hands out the user's identity, signed prekey and least prekey, and removes that prekey alone, or hands out none; without a signed prekey nothing changes |
| `KeyDatabase.Tables.InsertWrappedKey` | keyserver/src/db.js:293-312 | stores the row unless its content id is taken |
| `KeyDatabase.Tables.FetchWrappedKey` | keyserver/src/db.js:317-344 | delivers exactly an unexpired row, deletes it when single-use, deletes an expired one without delivering it, and changes no other row |
| `KeyDatabase.Tables.BurnWrappedKeys` | keyserver/src/db.js:268-289 | deletes exactly the rows sent by the burning user: the one with the content id, those to the recipient, or all; every other row stays as it is; the count is of the rows gone, and for a single burn 1 exactly when the content id was the user's own |
| `KeyDatabase.BurnsExactly` | keyserver/src/db.js:268-289 | the table and the count after a burn are the only ones of which this holds |
| `KeyDatabase.SingleBurnCounts` | keyserver/src/db.js:268-276 | a single burn deletes one row when the content id is the user's own, and otherwise none |
| `KeyDatabase.FetchesExactly` | keyserver/src/db.js:317-344 | reply and table after a fetch are the only ones with the stated effect |
| `KeyDatabase.PopsAsPromised` | keyserver/src/db.js:199-249 | reply and tables after a pop, row by row |
| `KeyDatabase.UpsertsAsPromised` | keyserver/src/db.js:148-194 | outcome and tables after a replenish, row by row |
| `PrekeyRuns.OpksAreConserved` | keyserver/src/db.js:148-249 | over every run, pooled before plus accepted equals handed out plus pooled, for each user and prekey |
| `PrekeyRuns.EveryOpkIsAccountedFor` | keyserver/src/db.js:148-249 | from empty tables, the multiset accepted is the multiset handed out plus the pool |
| `PrekeyRuns.PopsAscend` | keyserver/src/db.js:216-236 | between replenishes, hand-outs are the pool in ascending id order, however other requests interleave |
| `PrekeyRuns.NextPop` | keyserver/src/db.js:216-249 | the next reply carries the next prekey in order, or none once all are gone, with the exact remaining count |
| `PrekeyRuns.PopReplyCounts` | keyserver/src/db.js:232-247 | the count in a reply is the size of the pool after it |
| `PrekeyRuns.NoBundleNoLoss` | keyserver/src/db.js:199-215 | a user without a signed prekey never loses a one-time prekey |
| `PrekeyRuns.BundleIsLastTwo` | keyserver/src/db.js:149-186 | over every run a bundle is exactly the last two signed prekeys accepted, in order |
| `PrekeyRuns.UserIsLastRegistered` | keyserver/src/db.js:100-131 | over every run a user has the identity last registered, the time of the first registration, and the time of the last one if there were more |
| `PrekeyRuns.PopGivesTheLatest` | keyserver/src/db.js:199-249 | over every run a bundle is handed out exactly for a user with an accepted signed prekey, and carries the last one accepted and the identity last registered for that user |
| `PrekeyRuns.ReplenishIsAllOrNothing` | keyserver/src/db.js:148-194 | on reachable tables a replenish of a registered user succeeds exactly when its ids are pairwise different and not pooled, and otherwise nothing changes |
| `WrappedRuns.EveryInsertionHasOneFate` | keyserver/src/db.js:268-344 | each accepted single-use insertion is in exactly one of stored, delivered once, tombstoned once, burned once |
| `WrappedRuns.FatesAreDeserved` | keyserver/src/db.js:318-342 | deliveries are exactly the fetches before expiry and hand over the inserted row; tombstones exactly those from expiry on; burns exactly those by the row's own sender whose scope names its content id, its recipient or everything |
| `WrappedRuns.EveryTakingIsAttributed` | keyserver/src/db.js:268-344 | every delivery, tombstone or burn of a row concerns exactly one accepted insertion |
| `WrappedRuns.TakingsTouch` | keyserver/src/db.js:268-344 | and each of them touches a stored row that is still the row inserted |
| `WrappedRuns.BurnEachIsBurnAll` | keyserver/src/db.js:268-289 | burning to each recipient, in any order, leaves what burning all leaves, with the same total count |
| `KeyserverCodec.CanonicalReplenishBytes` | keyserver/src/canonical.js:56-79 | the pushes give the canonical bytes, and throw exactly when an id is out of range |
| `KeyserverCodec.ReplenishDecodes` | keyserver/src/canonical.js:56-79 | each form of the bytes decodes back to user, freshness, signed prekey and prekeys |
| `KeyserverCodec.CanonicalBurnBytes` | keyserver/src/canonical.js:89-108 | the pushes give the canonical burn bytes |
| `KeyserverCodec.SameFormBurns` | keyserver/src/canonical.js:89-108 | burns of one form with equal bytes are equal |
| `KeyserverCodec.BurnBytesDecide` | keyserver/src/canonical.js:89-108 | across both forms equal bytes mean the same user and scope when either side can be read one way only |
| `KeyserverCodec.BurnDecidedExactly` | keyserver/src/canonical.js:89-108 | for every burn: all burns with its bytes have its user and scope exactly when it passes a test on its own fields (scope-name timestamp and length of the request id, or length and end of the target) |
| `KeyserverCodec.SmallBurnsAreDecided` | keyserver/src/canonical.js:93-107 | that test passes for every plain target and every request id below sixteen million bytes, whatever the timestamp |
| `KeyserverCodec.FormsMeetOnlyWhenAmbiguous` | keyserver/src/canonical.js:93-107 | a plain and a fresh burn share bytes only if the timestamp is a scope name and the target has an ambiguous length |
| `KeyserverCodec.FormsCanMeet` | keyserver/src/canonical.js:93-107 | for every ambiguous length there are two different burns, one of each form, with the same bytes |
| `KeyserverCodec.AmbiguousIsHuge` | keyserver/src/canonical.js:93-107 | an ambiguous target has more than sixteen million bytes |
| `KeyserverCodec.NumbersAreDecided` | keyserver/src/canonical.js:93-96 | it passes for every timestamp that starts like the text of a number |
| `KeyserverCodec.CanonicalManifestBytes` | keyserver/src/canonical.js:124-142 | under any total order of keys, sorts and pushes to the canonical manifest bytes, and throws exactly when a fixed-width field is out of range |
| `KeyserverCodec.ManifestDecodes` | keyserver/src/canonical.js:124-142 | under any total order of keys the bytes decode to version, issue time, minimum version and the entries in key order |
| `KeyserverCodec.ManifestBytesDecide` | keyserver/src/canonical.js:132-141 | bytes are equal exactly for the same header and the same selector map, whatever the insertion order |
| `KeyserverCodec.DomainsSeparate` | keyserver/src/canonical.js:11-13 | no output of one of the three encoders equals an output of another |
| `ReplenishForms.FormsMeetExactly` | keyserver/src/canonical.js:56-79 | within the body limit, and for the encoder alone: a plain replenish shares its bytes with a fresh one exactly when some prekey of its own ends in the number of prekeys after it and what comes before reads as freshness fields and signed prekey |
| `ReplenishForms.MeetingIsSeen` | keyserver/src/canonical.js:60-78 | a fresh replenish with the bytes of a plain one has the plain one's last prekeys, fewer of them, and its freshness fields and signed prekey are those read before them |
| `ReplenishForms.Aligned` | keyserver/src/canonical.js:72-78 | equal texts that end in two lists of prekeys end in the same prekeys, as far as both have them |
| `ReplenishForms.LongTextsNeverMeet` | keyserver/src/canonical.js:60-78 | with prekey texts of three characters or more the two forms never share bytes |
| `ReplenishForms.ReceivableBytesDecide` | keyserver/src/canonical.js:56-79 | across both forms equal bytes mean equal replenishes, when the plain one cannot be read as a fresh one |
| `ReplenishForms.ShortTextsCanMeet` | keyserver/src/canonical.js:60-78 | two replenishes with the same bytes, a numeric timestamp on one side, and five more prekeys on the other, for any prekeys in common |
| `ReplenishForms.ReplenishOfReading` | keyserver/src/canonical.js:56-79 | the decoder of each form accepts only encodings, each as the message it encodes |
| `KeyServer.HandleReplenish` | keyserver/src/server.js:439-498 | validation, lookup, encoding, verification and write in this order, each refusal with its own status and no change |
| `KeyServer.HandleBurn` | keyserver/src/server.js:516-577 | the same for burns, with the count of deleted rows |
| `KeyServer.ServedBurnIs` | keyserver/src/server.js:516-577 | an accepted burn deletes exactly the rows of the user named in the body that its scope and target name, and changes nothing else |
| `KeyServer.ReplenishRefusals` | keyserver/src/server.js:439-498 | which refusal a replenish gets; a registered user's replenish is refused by the tables only over its ids |
| `KeyServer.BurnRefusals` | keyserver/src/server.js:516-577 | which refusal a burn gets, from the fields of its body: a target for a single burn and a burn to a user, none for all |
| `KeyServer.SignedIsBody` | keyserver/src/server.js:439-490 | the message that is signed is the body field by field, with the freshness fields exactly when both are there |
| `KeyServer.ReplenishBytesDecideEffect` | keyserver/src/server.js:468-495 | two accepted replenishes of one form with equal signed bytes make the same change |
| `ReplenishAtServer.PlainDecidesExactly` | keyserver/src/server.js:439-498 | for an accepted plain body, all accepted bodies with its signed bytes make its change exactly when no prekey of it ends in the number of prekeys after it with, before it, freshness fields that some request could have had and no signed prekey or one the handler takes |
| `ReplenishAtServer.FreshDecidesExactly` | keyserver/src/server.js:439-498 | for an accepted fresh body they do exactly when its bytes do not read as a plain replenish that the handler takes |
| `ReplenishAtServer.OneSignatureTwoChanges` | keyserver/src/server.js:439-498 | two bodies, accepted with one signature over the same bytes, that make different changes, for every registered user with no pooled id below 400 |
| `ReplenishAtServer.AdmittedIsAccepted` | keyserver/src/server.js:439-498 | for every message that passes the handler's checks there is a body with that message, accepted with any signature that verifies |
| `ReplenishAtServer.AcceptedAdmits` | keyserver/src/server.js:439-498 | and every accepted body has such a message |
| `ReplenishAtServer.LongTextsDecideEffect` | keyserver/src/server.js:450-495 | two accepted replenishes of any forms with equal signed bytes make the same change, when the plain ones have prekey texts of three characters or more |
| `KeyServer.BurnBytesDecideEffect` | keyserver/src/server.js:530-573 | so do two accepted burns of either form when one of them can be read one way only |
| `KeyServer.NumericBurnsDecideEffect` | keyserver/src/server.js:556-573 | so do two accepted burns whose timestamps are numbers, integers or not, or absent |
| `KeyServer.ReceivedBurnsDecideEffect` | keyserver/src/server.js:530-573 | so do any two accepted burns that fit in a request body, whatever their forms and timestamps |
| `KeyServer.ServerRunsTheTables` | keyserver/src/server.js:439-577 | a run of the server is a run of the tables with one operation per effective request |
| `KeyServer.ProjectionRuns` | keyserver/src/db.js:268-344 | the wrapped keys after any run of the tables are those after its wrapped-key operations alone |
| `KeyServer.EveryUploadHasOneFate` | keyserver/src/server.js:516-577 | in every run of the server each accepted upload is in exactly one of stored, delivered once, tombstoned once, burned once, and a stored one is still the row uploaded |
| `KeyServer.ServerGivesTheLatest` | keyserver/src/server.js:439-577 | in every run of the server a bundle carries the last identity registered and the last signed prekey accepted for its user |
| `KeyServer.PooledIdsFit` | keyserver/src/server.js:450-495 | in every run every pooled id fits in 32 bits |
| `KeyServer.EffectsAreSigned` | keyserver/src/server.js:439-577 | in every run of the server each replenish and burn that took effect was requested under a signature, by the key its user had at that moment, over exactly its canonical bytes |
| `Crc.CrcResumes` | scripts/vmqa/png-facts.py:64-65 | the CRC of two parts, the second fed with the first's value, is the CRC of the whole |
| `Crc.OneByteChangesCrc` | scripts/vmqa/png-facts.py:64-67 | byte strings that differ in one byte have different CRCs |
| `Crc.ShiftDivides` | scripts/vmqa/png-facts.py:64-65 | one shift of the register is one step of the division by the polynomial with the fifteen terms of the PNG specification, bit by bit |
| `Crc.PolynomialTerms` | scripts/vmqa/png-facts.py:64-65 | the constant has exactly those terms |
| `PngChunks.ReadsFrame` | scripts/vmqa/png-facts.py:158-164 | every framed chunk passes the length and CRC checks and reads back, whatever follows |
| `PngChunks.ReadingIsFrame` | scripts/vmqa/png-facts.py:55-67 | whatever is read successfully is the frame of the chunk returned |
| `PngChunks.ReadFrameAt` | scripts/vmqa/png-facts.py:55-67 | reads the chunk at an offset, or says which of the three checks fails |
| `PngChunks.TakeChunk` | scripts/vmqa/png-facts.py:69-87 | the branches on one chunk, with the final checks at IEND |
| `PngChunks.ReadChunks` | scripts/vmqa/png-facts.py:44-87 | the loop ends and returns what the byte-level specification says, errors included |
| `PngChunks.AcceptsLegalFiles` | scripts/vmqa/png-facts.py:46-87 | accepted are exactly: signature, 13-byte IHDR first and only once, matching CRCs, nonempty image data, one final empty IEND, no trailing bytes; header and data are those of the chunks |
| `PngErrors.RefusedExactly` | scripts/vmqa/png-facts.py:46-87 | each complaint about a file, exactly: the signature is missing, or after chunks that a legal file may begin with comes a cut-off header or body, a wrong CRC, a first chunk that is no IHDR, a second or ill-sized IHDR, a nonempty IEND, or an end without image data, too early or too late |
| `PngChunks.DamagedFileIsRefused` | scripts/vmqa/png-facts.py:63-67 | changing any one byte of any chunk's kind or body of a readable file gets it refused for its CRC |
| `PngFilters.Paeth` | scripts/vmqa/png-facts.py:32-41 | the neighbour nearest to the prediction, ties to left, then up |
| `PngFilters.UnfilterRow` | scripts/vmqa/png-facts.py:117-135 | the in-place loop adds to each byte what its filter says, modulo 256: nothing, the byte one pixel to the left, the byte above, half their sum, or the Paeth neighbour; it refuses an unknown filter |
| `PngFilters.FilterRow` | scripts/vmqa/png-facts.py:180-198 | the encoder's loop subtracts the same from each byte, or fails on an unknown filter or a row longer than the one above |
| `PngFilters.UnfilterIs` | scripts/vmqa/png-facts.py:117-135 | the same of the specification, at every index |
| `PngFilters.FilterIs` | scripts/vmqa/png-facts.py:180-198 | and of the encoder's |
| `PngFilters.UnfilterInvertsFilter` | scripts/vmqa/png-facts.py:118-134 | unfiltering a filtered row gives the raw row, for each of the five filters and any number of channels |
| `PngFilters.FilterInvertsUnfilter` | scripts/vmqa/png-facts.py:182-198 | filtering an unfiltered row gives the filtered row back |
| `PngRows.DecodeInvertsScanlines` | scripts/vmqa/png-facts.py:110-136 | decoding encoded scanlines gives the exact rows, for every choice of filters row by row |
| `PngRows.ScanlinesInvertDecode` | scripts/vmqa/png-facts.py:176-201 | whatever decodes is the encoding of its rows under the filters it names |
| `PngRows.DecodeFails` | scripts/vmqa/png-facts.py:113-133 | decoding fails exactly when some scanline names an unknown filter |
| `PngFacts.DecodeRows` | scripts/vmqa/png-facts.py:110-136 | the row loop over the cursor computes the decoding |
| `PngFacts.CountColors` | scripts/vmqa/png-facts.py:138-154 | the strided loops count exactly the distinct colours at multiples of 4 |
| `PngFacts.ParsePng` | scripts/vmqa/png-facts.py:44-155 | the whole parser computes its specification, each error included |
| `PngFacts.EncodeRows` | scripts/vmqa/png-facts.py:174-201 | the encoder's rows are the scanlines of the image's raw rows; it succeeds exactly when there are filters enough, no row is longer than the one above, and every nonempty row has a known filter |
| `PngFacts.EncodePng` | scripts/vmqa/png-facts.py:167-207 | for every image, ragged ones included: succeeds exactly when the colour type is known, the rows encode and the sizes fit in 32 bits, and then gives the signature and the frames of header, data and end |
| `PngFacts.ImagesEncode` | scripts/vmqa/png-facts.py:167-207 | every image of the stated width is encoded under every choice of known filters |
| `PngFacts.PixelReadsBack` | scripts/vmqa/png-facts.py:141-143 | slicing a raw row at a pixel gives that pixel |
| `PngFacts.ParseUndoesEncode` | scripts/vmqa/png-facts.py:44-207 | for every image, colour type 2 or 6 and choice of filters, the report of the encoded file has its exact size and the number of distinct pixels at multiples of 4; a header with another height, or none, is refused |
| `PngFacts.LiftReportsSameCount` | scripts/vmqa/png-facts.py:143-146 | an RGB image and its opaque RGBA lift report the same count, whatever their filters |
| `PngFacts.ParseAccepts` | scripts/vmqa/png-facts.py:44-136 | a report is made exactly for a legal file with a plain header whose data inflates to known-filter scanlines of the right size |
| `PngReport.ParseReports` | scripts/vmqa/png-facts.py:44-155 | a file gets exactly this report when it is a legal file whose header has width and height big-endian at 0 and 4, depth 8, colour type 2 or 6, and zeros, whose data inflates to rows that unfilter byte by byte, and whose pixels at every fourth row and column have that many colours |
| `PngErrors.RejectedExactly` | scripts/vmqa/png-facts.py:44-136 | each refusal of the parser, exactly: that of the chunks, or for a legal file the first to fail of size, support, inflation, length and filters |
| `PngReport.DecodedExactly` | scripts/vmqa/png-facts.py:110-136 | the rows are decoded exactly when each of their bytes is its filtered byte plus what the filter named in front of the row says |
| `PngReport.IdatConcat` | scripts/vmqa/png-facts.py:75-76 | the image data of two lists of chunks is that of the first followed by that of the second |

## Left out

- SHA-256, Ed25519, zlib and SQLite: parameters or atomic steps with the laws stated above; a conditional UPDATE is one step that reports its change count.
- JSON numbers that are not safe integers: `canonicalJson` prints any finite number; the models hold safe integers only.
- Shape checks on request bodies and evidence (`strictObject`, field types): the D2 models start from typed records, so an object with unexpected fields is outside them; the keyserver models keep the type of every field it checks.
- The active deployment and the provider event (d2-0010-authoritative-admission.ts lines 470-502, 895-986): conjunctions of constants and formats; `AdmissionEvidence` takes what they leave as given, and a run in which they fail is one that stops.
- `AdmissionWitnesses.ValidateWitnesses`: the checks of one transcript or one readback payload by itself (the same file, lines 667-857, 1019-1075, 1139-1183) are parameters; they are conjunctions of constants and formats.
- `AdmissionWitnesses.ProbeIdsDiffer`: assumes that the authority answers a probe id the same way every time; the code asks it once per readback.
- `AdmissionWitnesses.OrderDoesNotMatter`: assumes that `localeCompare` is a total order on the eight kinds and on 32-digit hexadecimal ids.
- `RawJson.RawJsonIsCanonical`: speaks of the decoded text; a byte-order mark, and malformed bytes that decode to U+FFFD, are not told apart.
- `PngFacts.EncodePng`: pixels and filters are bytes; the code also takes integers out of range, and raises.
- Challenge rows that are deleted or rewritten by hand: the environment of `AdmissionProtocol` moves the clock, changes the authority state and issues new unconsumed rows.
- The wrapped-key upload handler's validation, registration and manifest routes, rate limits, CORS and the admin token: single checks or plumbing.
- UTF-8 and UTF-16 in the keyserver, and multi-byte characters split between tail chunks: strings are bytes there, and the splitter starts from characters.
- The second PNG reader of the evidence script: the same algorithm as the one modelled.
- Release and workflow audits, receipt and manifest validators, QA controllers, the attachment sweep: long conjunctions, or sources that are not part of this model.
