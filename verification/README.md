# Pilotfish, modelled and proved

Pilotfish decides which links each traffic class of a site may use, records every decision in a
signed hash chain, and refuses policy rollback across restarts. This project models those parts of
the program in Dafny and proves what they promise. `dafny verify dfyconfig.toml` checks everything.

| File | Part of the program |
|---|---|
| `Prelude.dfy`, `Ordering.dfy` | bytes, optional values, comprehensions; Python's orders and its stable `sorted` |
| `Floats.dfy`, `Cbor.dfy` | half, single and double floats (IEEE 754), exactly; the canonical CBOR printer and parser, byte by byte (RFC 8949, sections 3 and 4.2.1) |
| `Models.dfy`, `Rules.dfy`, `Policy.dfy` | links, classes, evidence and its hash; the nine rules; bundles, decisions, whole seconds |
| `Messages.dfy`, `Envelopes.dfy` | the message codecs and the signed envelope |
| `Floor.dfy`, `Decide.dfy` | the inventory hash, the floor policy, the decision function |
| `FileSink.dfy`, `Receipts.dfy`, `Cycle.dfy` | the append-only log (base64 of section 4 of RFC 4648), the receipt chain, the agent's turn |
| `LogFaults.dfy` | runs of turns on a log whose appends raise late or are torn by a power cut |
| `Epoch.dfy`, `BundleStores.dfy`, `StoreRuns.dfy` | the durable mark, the bundle store, and every run of it |
| `Selectors.dfy`, `Links.dfy`, `Simulation.dfy` | the simulator's selectors, link models, oracle, and the accounts of its event loop |
| `Accounts.dfy` | what the events and the accounts of a run come to, counted from scenario and answers alone |
| `Runs.dfy`, `HysteresisRuns.dfy` | whole runs: a scenario, a fleet, the draws of each step and any selector; the hysteresis selector in that loop |
| `GovernedSelector.dfy`, `GovernedRuns.dfy`, `GovernedOutcomes.dfy` | the governed selector around the real agent, in that loop, and what its runs come to |

## What is proved, in short

- Canonical CBOR decodes to the encoded value and to whatever followed it, is injective and
  prefix-free, and re-encodes to the very bytes a canonical reader accepts.
- A bundle comes back from the wire with its times cut to whole seconds and nothing else changed, with
  the same hash and every rule; its decisions change exactly when a directive expires in the fraction
  of a second that was cut.
- Equal bundle and evidence hashes mean one and the same decision; permitted sets contract as time
  passes, as evidence goes missing and as rules are added.
- After any interleaving of turns, adapter failures, crashes and recoveries the log reads, verifies,
  parses into turns, and ends in the live head. With torn appends and late exceptions added, it does so
  as long as nothing is appended to what is damaged, and what such an append does is told too.
- A torn log is resumed at its last whole receipt. Wherever it was cut, as long as only what the site
  signed verifies, recording after that keeps log and head in step if and only if the joined line
  carries the new receipt's envelope, or the torn one's with the same hash; for cuts in padding, newline
  or between lines, nothing need be asked of signatures.
- Two accepted chains with one last hash are one chain.
- Over every run of the bundle store with failed writes, crashes and restarts, the sequences that ever
  govern strictly increase, and the mark on disk is there before each of them governs. On those same
  runs a replay is refused by its sequence alone, and the nonce set changes no state unless a nonce
  comes back with a higher sequence.
- Over every run of the simulator under the governed selector, for every scenario, fleet and draws: it
  never raises; its degraded time is the time in which the last publication had lapsed; its log holds
  the three receipts of each decision in one valid chain; and the independent oracle lists nothing
  against a class with a permitted set of its own but latencies missed by at most 5 ms and, while
  degraded, spent quotas.
- Over every run under the hysteresis selector the flaps are bounded by its forced moves and its dwell,
  and while a better link is up the choice last changed less than the dwell ago (`Selectors.MovesWhenDue`).
- Under any selector class-seconds are conserved, overage is billed, and refused, down and served time are
  what the answers and the events of the scenario come to (`Accounts.RunAccounts`, `Runs.PlayAccounts`).
- Each rule takes a link out exactly under its own condition on link, class and evidence
  (`Rules.FiresExactly`), and a decision permits and excludes exactly accordingly (`Decide.DecisionIsRight`).
- What is admitted, opened or resumed is said of every byte string: bundles (`BundleStores.AdmitsExactly`),
  floors (`BundleStores.InstallsExactly`), logs (`Receipts.ResumesExactly`) and the message codecs.

## How the model stands to the source

- **Platform.** What the runtime supplies is a value of the datatype `Models.Platform`: SHA-256,
  Ed25519 signing and verification, the reading of a float, the float of a time, and the wording of
  reasons and complaints. Nothing is assumed of them but what a lemma requires. `Sound` says that
  digests have 32 bytes, signatures 64, and that a signature verifies under its own key.
  `Distinguishes` says of two byte strings that they do not collide; each lemma asks it only of the
  strings it compares.
- **Time** is an integer of microseconds, as in `datetime`. `int(value.timestamp())` truncates toward
  zero, so times before 1970 are rounded up.
- **Text** is its UTF-8 bytes, which sort as the characters do. A **float** is its eight bytes as a
  double. It is written in the narrowest width that holds it exactly, and read back from any width;
  `Floats` has the conversions in full, with subnormals. Comparisons read it as a real, which is a
  parameter of the platform.
- **Loads** is the lenient reader that the program relies on: it takes any head width and does not look
  at what follows the first item (cbor2 is not part of this model). The canonical reader that
  spec/protocol.md:22-31 asks for is the same function with `strict` set; `Cbor.StrictIffReencodes`
  says exactly when the two agree.
- **Base64** is read as Python's lenient decoder reads it: bytes outside the alphabet are skipped,
  complete padding ends the text, and an incomplete group raises.
- **Sizes.** `Encodable` says that integers and lengths fit the 64 bits of a CBOR head; `Sized` and
  `Carried` bound the parts of a receipt well below that.
- **Governed runs** may be of any bundle of wire size. The store refuses publications of another
  authority than `authority-1`, and those that have expired on arrival, as one valid for less than a
  second may have; then the run raises (`GovernedRuns.GovernedRunRaisesIff`). The results about
  runs that do not raise ask that no reachable step publishes such a bundle (`GovernedSelector.Runnable`).
- **Signatures** are asked for more than `Sound` in one place: `Receipts.OnlySigned` says of one line that,
  if it verifies, its envelope is one of those the site signed.

Where the prose of the repository says more than the code does, the code is modelled, and the lemma
named here says exactly how far it goes:

- spec/protocol.md:129-131 has the floor refuse metered paths. It does so only for classes that forbid
  them (`Floor.FloorRulesAdmit`).
- pilotfish/core/models.py:114 calls the evidence hash independent of ordering. It is so exactly when
  no two observations differ only in how one number is written, as 1 and 1.0 do
  (`Models.EvidenceHashOrderFreeIff`). `latest` keeps the first of several newest observations, so it
  depends on order exactly when those differ (`Models.LatestOrderFreeIffTieFree`).
- pilotfish/adapters/file_sink.py:3-6 says a torn tail can be discarded. It is not removed from the
  file, and the next append joins it; that append reads back as itself exactly when the cut fell on a
  line boundary, or took one newline alone behind padding and the same payload is appended again
  (`FileSink.AppendAfterTear`). Of the chain: recording after a cut on a line boundary keeps log and
  head in step (`Receipts.RecordOnBoundary`). Whenever the joined line begins with the torn payload, the
  torn receipt comes back and the new one is lost while the head moves on
  (`Receipts.RecordBehindTornPayload`): so it is after the loss of one newline alone
  (`Receipts.RecordBehindWholeLine`), and after the loss of padding if both lines have one byte more than
  whole groups of three; if not, the log becomes unreadable (`Receipts.RecordWithinPadding`). For other
  cuts the counts of digits say whether the joined line decodes (`Receipts.RecordWithinLine`), and its
  bytes say what it carries (`Receipts.RecordAfterTear`, `Receipts.CarriesIffBegins`).
- pilotfish/agent/receipts.py:214-216 appends before it moves the head. If the append raises when its line
  is already on disk, the next receipt repeats a number, and no recovery succeeds from then on
  (`LogFaults.StaleHeadIsFatal`); a crash and recovery in between heal it (`LogFaults.CrashHealsHead`).
- pilotfish/agent/receipts.py:3-6 says a run shows that no receipts were removed. Removal of a
  suffix goes unnoticed, and nothing else does (`Receipts.AcceptedSubsequenceIsPrefix`).
- A turn writes an effect receipt if and only if `readback` does not raise; otherwise it ends at its
  execution receipt (`Cycle.TurnWritesReceipts`). Classes that the dataplane holds but the decision does not
  name are not looked at (`Cycle.UndecidedClassUnchecked`).
- sim/selectors.py:200-203 explains the fallback to the first class by the floor's own class. It applies
  whenever a class's own permitted set is empty, and then a choice leaves the class's own set exactly
  when the first class has a live link (`GovernedSelector.ChoiceWithinOwnSet`). A class that forbids
  metered links is so sent over one (`GovernedSelector.FallbackCanBreak`).
- Before the first publication the store's sequence is -1, not the number of publications
  (`GovernedSelector.PublicationsAreAccepted`).
- The state hash tells a class with no links from a class that is absent
  (`Receipts.StateHashDecidesState`).

## Model

| member | source | states |
|---|---|---|
| `Cbor.DecodeOfEncode` | pilotfish/protocol/canonical.py:15-22 | for every wire value and every suffix, the lenient and the canonical reader take exactly the value off the front and leave exactly the suffix |
| `Cbor.EncodePrefixFree` | pilotfish/protocol/canonical.py:15-18 | encodings followed by anything are equal only if the values and what follows are: no encoding is a proper prefix of another |
| `Cbor.EncodeInjective` | pilotfish/protocol/canonical.py:15-18 | values with equal canonical bytes are equal |
| `Cbor.EncodeOfStrictDecode` | spec/protocol.md:22-31 | whatever bytes the canonical reader accepts are the encoding of the value it returns followed by what it left |
| `Cbor.StrictIffReencodes` | pilotfish/protocol/canonical.py:21-22 | an item that `loads` reads was in canonical form, floats of the narrowest width included, if and only if re-encoding it gives back the bytes read |
| `Floats.NarrowOfWiden` | pilotfish/protocol/canonical.py:15-22 | every finite half or single width float, subnormals included, widens to a float whose exact narrow form it is |
| `Floats.WidenOfNarrow` | pilotfish/protocol/canonical.py:15-22 | a float that has an exact narrow form is what that form widens to: no value is changed by its width |
| `Floats.FloatExamples` | pilotfish/protocol/canonical.py:15-18 | widths of floats in appendix A of RFC 8949: half for 1.0 and the least half-width float, single for 100000.0, neither for 1.1 |
| `Cbor.LoadsExtends` | pilotfish/protocol/canonical.py:21-22 | bytes behind the first item change nothing of what is read |
| `Cbor.LoadsOfDumps` | pilotfish/protocol/canonical.py:15-22 | `loads` undoes `dumps` |
| `Cbor.CborExamples` | pilotfish/protocol/canonical.py:15-18 | integers, strings, booleans and null of appendix A of RFC 8949 are encoded as there |
| `Cbor.ArrayExample` | pilotfish/protocol/canonical.py:15-18 | and so is an array of three numbers |
| `Cbor.WideHeads` | pilotfish/protocol/canonical.py:21-22 | `loads` reads a number from a head of any width that holds it, and the canonical reader only from the least |
| `Models.LatestIsFirstNewest` | pilotfish/core/models.py:131-137 | `latest` finds nothing exactly when nothing matches; otherwise it is the first, in order, of the newest matches |
| `Models.AsOfMembers` | pilotfish/core/models.py:118-129 | what counts as evidence at a moment is exactly what is dated at most the skew allowance ahead of it |
| `Models.LatestOrderFreeIffTieFree` | pilotfish/core/models.py:131-137 | `latest` gives the same answer for every reordering of the evidence if and only if all newest matches are one observation |
| `Models.EvidenceHashMeansMultiset` | pilotfish/core/models.py:143-147 | snapshots with equal, collision-free hashes hold the same multiset of observations |
| `Models.EvidenceHashIgnoresOrder` | pilotfish/core/models.py:143-147 | equal multisets of observations hash alike if no two of them differ only in how one number is written |
| `Models.EvidenceHashOrderFreeIff` | pilotfish/core/models.py:143-147 | barring collisions, the hash is the same for every reordering if and only if no two observations differ only in how one number is written |
| `Models.EvidenceHashOrderCounterexample` | pilotfish/core/models.py:143-147 | the readings 1 and 1.0 of one quantity at one time: the two orders are serialised differently |
| `Rules.FiresLater` | pilotfish/core/rules.py:54-235 | over the same evidence, a rule that excludes a link still excludes it later if and only if it is not a directive against the link that lapsed in between |
| `Rules.FiresWithout` | pilotfish/core/rules.py:54-235 | deleting every observation of any link's quantity never silences a rule |
| `Rules.EvaluateReadsLatest` | pilotfish/core/rules.py:54-235 | a rule's verdict and its reason depend on the evidence only through the link's latest observations |
| `Rules.FiresExactly` | pilotfish/core/rules.py:54-235 | when each of the nine kinds takes a link out, told by link, class and observations: stale evidence, for one, exactly if the limit is negative or every observation of the quantity is older than it, none at all included |
| `Rules.ReasonIsSo` | pilotfish/core/rules.py:54-235 | the reason that a rule gives is true of the newest observation, the link, the class and the rule |
| `Policy.TruncatedTwice` | pilotfish/protocol/messages.py:53-58 | a time from the wire has the same whole seconds as the time sent, lies within a second of it toward zero, and equals it exactly for whole seconds |
| `Policy.TruncatedFixpoint` | pilotfish/protocol/messages.py:157-185 | a bundle is unchanged by the wire if and only if its issue time, its expiry and every directive's expiry are whole seconds |
| `Messages.ReadRuleOfValue` | pilotfish/protocol/messages.py:64-106 | each of the nine rule kinds survives its codec, a directive's expiry cut to whole seconds |
| `Messages.ReadRuleKeepsKind` | pilotfish/protocol/messages.py:101-106 | a rule decodes only under the tag of its own kind and with the identifier sent; an unknown tag is an error that names the tag |
| `Messages.RuleDecodesExactly` | pilotfish/protocol/messages.py:88-106 | a value decodes to a rule if and only if its tag and the fields of its kind stand in it, each in its place and of its type |
| `Messages.ReadLinkOfValue` | pilotfish/protocol/messages.py:112-131 | every link survives its codec unchanged |
| `Messages.ReadClassOfValue` | pilotfish/protocol/messages.py:134-151 | every class survives its codec, an absent bound or jurisdiction list told from a present one |
| `Messages.DecodeBundleOfEncode` | pilotfish/protocol/messages.py:157-185 | every bundle of wire size decodes to itself with its times cut to whole seconds |
| `Messages.BundleDecodesExactly` | pilotfish/protocol/messages.py:173-185 | a payload decodes to a bundle if and only if the nine fields, and those of every link, class and rule, stand in their places |
| `Messages.EncodeBundleOfTruncated` | pilotfish/core/bundle.py:63-73 | the bundle that comes back from the wire encodes and hashes as the one that was sent |
| `Messages.BundleHashMeansBundle` | pilotfish/core/bundle.py:63-73 | collision-free bundle hashes are equal if and only if the bundles agree up to sub-second times |
| `Messages.DecodeBundleDropsNoRule` | pilotfish/protocol/messages.py:173-185 | whatever payload decodes yields exactly its rules, in order, each of the kind and identifier on the wire; one unknown tag anywhere fails the whole decode |
| `Messages.DecodeDecisionOfEncode` | pilotfish/protocol/messages.py:191-229 | every decision of wire size decodes to itself with its two times cut to whole seconds |
| `Messages.DecisionDecodesExactly` | pilotfish/protocol/messages.py:212-229 | a payload decodes to a decision if and only if its fields stand in their places |
| `Messages.EncodeDecisionOfTruncated` | pilotfish/protocol/messages.py:191-209 | the decision that comes back encodes as the one that was sent |
| `Messages.DecodeFloorConfigOfEncode` | pilotfish/protocol/messages.py:307-320 | site, inventory hash and floor survive the floor configuration's codec |
| `Messages.FloorConfigDecodesExactly` | pilotfish/protocol/messages.py:318-320 | a floor configuration decodes exactly to the site, the hash and the bundle that stand in it |
| `Envelopes.DecodeEnvelopeOfEncode` | pilotfish/protocol/envelope.py:97-122 | an envelope survives the wire up to sub-second time, re-encodes to the same bytes, and verifies exactly when the original does |
| `Envelopes.EnvelopeDecodesExactly` | pilotfish/protocol/envelope.py:110-122 | bytes decode to an envelope if and only if they begin with its six fields, no fewer and no more, each of its type |
| `Envelopes.VerifiesExactly` | pilotfish/protocol/envelope.py:79-94 | an envelope verifies if and only if its nonce has sixteen bytes and its signature is good for the bytes before it on the wire, but for the array header |
| `Envelopes.SignedVerifies` | pilotfish/protocol/envelope.py:57-94 | what is signed verifies under the signer's key; a nonce of another length than 16 is refused |
| `Envelopes.EnvelopeExtendsSigningInput` | pilotfish/protocol/envelope.py:97-107 | the encoded envelope is its signing input with the header 0x85 replaced by 0x86 and the encoded signature appended |
| `Envelopes.SigningInputCoversFields` | pilotfish/protocol/envelope.py:41-54 | equal signing inputs mean equal type, issuer, whole-second time, nonce and payload |
| `Envelopes.FrozenVectorFraming` | spec/vectors/envelope.json:5-10 | fields of the vector's sizes and its issue time are framed by exactly the header bytes of the frozen signing input |
| `Floor.InventoryHashDecidesInventory` | pilotfish/core/bundle.py:24-36 | collision-free inventory hashes are equal if and only if the inventories are equal as multisets of links, owners aside |
| `Floor.FloorClassRules` | pilotfish/core/bundle.py:76-95 | the loop emits, class by class, exactly the rules for the constraints each class declares |
| `Floor.FloorHasExactly` | pilotfish/core/bundle.py:98-136 | the floor's rules are liveness, the refusal of free-space optics, and exactly the constraints that its classes declare; it keeps links, classes and authority, has sequence zero, and is good for 3650 days |
| `Floor.FloorRulesAdmit` | pilotfish/core/bundle.py:98-136 | no floor rule excludes a link for a declared class if and only if the link is observed up, is no free-space optics, and meets the class's latency, jurisdiction, encryption and metering constraints |
| `Floor.FloorSurvivesTruncation` | pilotfish/core/bundle.py:98-136 | links, classes and rules of a floor come back from the wire unchanged |
| `Decide.Decide` | pilotfish/core/decide.py:47-91 | for every class of the bundle, in order of ids, one result that permits exactly the links that no rule takes out, lists every link and rule that do clash, with a true reason, and nothing else; dated now, good for the bundle's lifetime, with the hashes of bundle and evidence |
| `Decide.DecisionIsRight` | pilotfish/core/decide.py:47-91 | the same of the decision that the lemmas are about |
| `Decide.DecidedExactly` | pilotfish/core/decide.py:40-91 | with distinct class ids, a link is permitted for a class if and only if no rule of the bundle, by kind, takes it out on the evidence of the moment |
| `Decide.DecideClasses` | pilotfish/core/decide.py:58-82 | the loop over classes computes the results that the lemmas are about |
| `Decide.DecideClass` | pilotfish/core/decide.py:62-81 | the loop over links computes the class result that the lemmas below are about |
| `Decide.PermittedFor` | pilotfish/core/decide.py:40-44 | the search returns the permitted set of the first entry of the class, or nothing |
| `Decide.PermittedMembers` | pilotfish/core/decide.py:61-81 | an id is permitted if and only if some link of the bundle has it and no rule excludes that link |
| `Decide.ExclusionMembers` | pilotfish/core/decide.py:61-81 | the exclusions are exactly the (link, rule) pairs that fire, each with that rule's reason |
| `Decide.ClassResultPartitions` | pilotfish/core/decide.py:61-81 | with distinct link ids, permitted and excluded ids partition the links; both lists are sorted and no permitted id repeats |
| `Decide.MoreRulesPermitLess` | pilotfish/core/decide.py:66-74 | appending rules never permits a link that was not permitted |
| `Decide.PermittedOfClass` | pilotfish/core/decide.py:40-44 | with distinct class ids, the search finds the class's own permitted set in a decision |
| `Decide.RuleOrderIrrelevant` | pilotfish/core/decide.py:61-81 | with distinct ids, permuting the rules leaves a class result unchanged, exclusions included |
| `Decide.DecisionIgnoresOrder` | pilotfish/core/decide.py:61-81 | with distinct ids, the class results do not depend on the order of links, classes or rules |
| `Decide.HashesReproduceDecision` | pilotfish/core/decide.py:57-91 | equal bundle and evidence hashes at one site, clock and mode mean the same decision, for whole-second bundles and evidence in which a link, quantity and time name one observation |
| `Decide.WireKeepsDecision` | pilotfish/protocol/messages.py:157-185 | a bundle from the wire gives the same decision, hash included, if no directive against its links is between its expiry and the whole second kept of it |
| `Decide.WireKeepsEligibilityIff` | pilotfish/protocol/messages.py:53-106 | with distinct ids, the wire leaves a class result unchanged if and only if no directive against the links is between its expiry and the whole second kept of it |
| `Decide.PermittedContracts` | pilotfish/core/decide.py:57-81 | over evidence within the earlier horizon, a link permitted later was permitted before, unless a directive against it lapsed |
| `Decide.MissingEvidencePermitsLess` | pilotfish/core/decide.py:57-81 | deleting all observations of any link's quantity never adds a permitted link |
| `Decide.FutureEvidenceIgnored` | pilotfish/core/models.py:118-129 | observations from beyond the skew horizon, wherever they stand, change nothing in a decision, its evidence hash included |
| `FileSink.Unbase64OfBase64` | pilotfish/adapters/file_sink.py:24-38 | base64 decoding, as lenient as the runtime's, undoes the encoding of every byte string |
| `FileSink.Base64Examples` | pilotfish/adapters/file_sink.py:24-27 | the test vectors of section 10 of RFC 4648 |
| `FileSink.ForeignSkipped` | pilotfish/adapters/file_sink.py:38 | a byte outside the alphabet changes nothing of what a line decodes to, wherever it stands |
| `FileSink.Base64HasNoNewline` | pilotfish/adapters/file_sink.py:24-27 | no encoded receipt contains the line separator |
| `FileSink.FileReceiptSink.Append` | pilotfish/adapters/file_sink.py:24-27 | the file grows by exactly the encoded line and its newline |
| `FileSink.ReadAfterAppend` | pilotfish/adapters/file_sink.py:24-38 | an append to a log that ends in a newline adds exactly its payload to what is read |
| `FileSink.ReadAllGrows` | pilotfish/adapters/file_sink.py:29-38 | whatever is appended to whatever file, the payloads read before stay the first ones, and a file that does not read never reads again |
| `FileSink.ReadWholeLog` | pilotfish/adapters/file_sink.py:24-38 | any list of non-empty payloads reads back as appended |
| `FileSink.TornLogReads` | pilotfish/adapters/file_sink.py:29-38 | for every list of payloads and every byte at which the file is cut, exactly the payloads whose line lies before the cut, newline included, are read |
| `FileSink.JoinedDecode` | pilotfish/adapters/file_sink.py:24-38 | the encoding a tear left, joined by the next one, decodes to what was appended if and only if it was whole and padded, and the same payload is appended again |
| `FileSink.JoinedDecodes` | pilotfish/adapters/file_sink.py:24-38 | a torn encoding joined by the next one decodes if and only if the digits left of it and the bytes of the next payload make up whole or padded groups, by their counts modulo 4 and 3 alone |
| `FileSink.JoinedWithinPadding` | pilotfish/adapters/file_sink.py:24-38 | a cut that took newline and padding: the joined line decodes if and only if both payloads have one byte more than whole groups of three, and then it begins with the torn payload |
| `FileSink.AppendAfterTear` | pilotfish/adapters/file_sink.py:24-38 | after a cut at any byte, an append reads back as itself if and only if the cut fell on a line boundary, or took one newline alone behind padding and the same payload is appended again |
| `Receipts.StateHashDecidesState` | pilotfish/agent/receipts.py:73-77 | collision-free state hashes are equal if and only if the dataplanes name the same classes and hold the same multiset of links for each |
| `Receipts.ReadReceiptOfBody` | pilotfish/agent/receipts.py:91-117 | a decoded receipt hashes exactly as the one in memory, sub-second decision times included |
| `Receipts.ReceiptDecodesExactly` | pilotfish/agent/receipts.py:107-117 | a value decodes to a receipt if and only if its eight fields stand in their places |
| `Receipts.VerifyChain` | pilotfish/agent/receipts.py:220-231 | accepts exactly the lists numbered from 1 in which every receipt carries its predecessor's hash; otherwise it stops at the first that does not |
| `Receipts.FirstBreak` | pilotfish/agent/receipts.py:220-231 | there is no first break exactly in valid chains, and all before a break is linked |
| `Receipts.ReadLoop` | pilotfish/agent/receipts.py:127-135 | the loop reads every line in order and fails at the first that does not decode or verify |
| `Receipts.ReadChain` | pilotfish/agent/receipts.py:120-135 | the receipts of all lines of the log, if every line decodes and verifies; an error otherwise |
| `Receipts.LogReadsExactly` | pilotfish/agent/receipts.py:120-135 | the log reads as these receipts if and only if each of its lines, in order, verifies under the key and carries its one |
| `Receipts.StopsAtFirst` | pilotfish/agent/receipts.py:127-135 | reading stops at the first line that cannot be vouched for, and names it exactly if its envelope decodes and the signature is not good |
| `Receipts.ResumesExactly` | pilotfish/agent/receipts.py:156-178 | whatever the bytes, a log is resumed at a head if and only if it reads as one unbroken chain, all of this site, that ends in that head |
| `Receipts.RefusesExactly` | pilotfish/agent/receipts.py:166-176 | a log that reads is refused as foreign exactly if some receipt is of another site, and as broken, at the first break, exactly if none is and the chain is broken |
| `Receipts.SealedReads` | pilotfish/agent/receipts.py:184-217 | a recorded line decodes, verifies under the site's key and gives back the receipt, its decision's times in whole seconds |
| `Receipts.RecordKeepsSynced` | pilotfish/agent/receipts.py:184-217 | if the log reads as a valid chain that ends in the live head, it does so after recording, longer by exactly the new receipt |
| `Receipts.SyncedResumes` | pilotfish/agent/receipts.py:156-178 | recovering such a log resumes at the live head |
| `Receipts.TornLogResumes` | pilotfish/agent/receipts.py:156-178 | wherever such a log is cut, it reads as the receipts whose lines are whole and is resumed at the last of them |
| `Receipts.RecordOnBoundary` | pilotfish/agent/receipts.py:156-217 | cut on a line boundary, resumed, and recorded to: the log reads as the kept receipts and the new one, in step with the new head |
| `Receipts.RecordBehindWholeLine` | pilotfish/agent/receipts.py:156-217 | after the loss of one newline alone, whatever is appended is lost and the torn receipt reads again; log and live head are in step if and only if the head is that receipt's |
| `Receipts.RecordBehindTornPayload` | pilotfish/agent/receipts.py:156-217 | whenever the joined line begins with the torn payload, the torn receipt comes back, what was appended is lost, and log and head are in step if and only if the head is the torn receipt's |
| `Receipts.RecordWithinPadding` | pilotfish/agent/receipts.py:156-217 | a cut that took newline and padding: the torn receipt comes back, and the new one is lost, if and only if both lines have one byte more than whole groups of three; otherwise the log is unreadable |
| `Receipts.RecordWithinLine` | pilotfish/adapters/file_sink.py:24-38 | cut inside a line, the joined line decodes exactly by the counts of digits left and bytes appended; if it does not, the log is unreadable, and if it does, the log reads exactly if that one line verifies |
| `Receipts.RecordAfterTear` | pilotfish/agent/receipts.py:156-217 | for a cut at any byte, if the joined line verifies only as something the site signed: after recovery and one record, log and live head are in step if and only if the joined line decodes and carries the new envelope, or the torn one and the two receipts hash alike |
| `Receipts.CarriesIffBegins` | pilotfish/protocol/envelope.py:97-122 | a line whose first item is canonical carries an envelope if and only if it begins with that envelope's bytes |
| `Receipts.ReceiptChain.constructor` | pilotfish/agent/receipts.py:141-154 | a new chain starts at number 0 and sixty-four zeros unless it is given a head |
| `Receipts.ReceiptChain.Recover` | pilotfish/agent/receipts.py:156-178 | a chain is returned if and only if the log reads as one unbroken chain, all of this site; its head is that of the last receipt, or the genesis |
| `Receipts.ReceiptChain.Record` | pilotfish/agent/receipts.py:184-217 | appends the signed next receipt, numbered and linked from the head, and moves the head onto it |
| `Receipts.SameHeadSameChain` | pilotfish/agent/receipts.py:220-231 | two accepted, collision-free lists with the same last hash have the same length and, receipt by receipt, the same content on the wire |
| `Receipts.AcceptedSubsequenceIsPrefix` | pilotfish/agent/receipts.py:220-231 | a subsequence of a valid chain is accepted if and only if it is a prefix of it |
| `Receipts.AcceptedPermutationIsIdentity` | pilotfish/agent/receipts.py:220-231 | a reordering of a valid chain is accepted if and only if it is the chain itself |
| `Epoch.FileEpochStore.Commit` | pilotfish/agent/epoch.py:87-99 | a readable mark is raised to a higher sequence or kept; an unreadable mark or a failed write raises and leaves it as it was |
| `Epoch.MemoryEpochStore.Commit` | pilotfish/agent/epoch.py:58-59 | keeps what the file store keeps when no write fails |
| `BundleStores.BundleStore.Open` | pilotfish/agent/bundle_store.py:43-98 | a store opens if and only if the mark is readable and the bytes are a genuine floor, of the trusted issuer, verified under the trusted key, for this site and this inventory; it then has that floor, no bundle, the mark's sequence and no nonces |
| `BundleStores.InstallsExactly` | pilotfish/agent/bundle_store.py:68-98 | for every byte string, a floor is installed if and only if the bytes are genuine for it |
| `BundleStores.FloorRefusedForFirst` | pilotfish/agent/bundle_store.py:73-97 | each refusal of a floor names the first check that failed: type, issuer, signature, content, site, inventory |
| `BundleStores.AdmitsExactly` | pilotfish/agent/bundle_store.py:109-153 | the checks let a bundle through if and only if it is in an envelope of the right type and issuer, stamped within the skew, verified under the trusted key, with a nonce not seen, names the issuer, has a higher sequence and is unexpired |
| `BundleStores.RefusesForFirst` | pilotfish/agent/bundle_store.py:109-153 | each refusal names the first check that failed |
| `BundleStores.AcceptsExactly` | pilotfish/agent/bundle_store.py:106-164 | an offer is accepted if and only if it is admissible and its sequence can be recorded; the mark is then no lower, bundle, sequence and nonce are in memory, and otherwise nothing has changed |
| `BundleStores.BundleStore.Accept` | pilotfish/agent/bundle_store.py:106-164 | memory, mark and answer after an offer: a refusal or a failed commit changes nothing, and an admitted bundle raises the mark and is installed with its sequence and nonce |
| `BundleStores.SignedFloorInstalls` | pilotfish/agent/bundle_store.py:68-98 | a signed floor installs at its own site exactly when the presented inventory's hash is the signed one, with every link, class and rule it was signed with |
| `BundleStores.FloorBindsInventory` | pilotfish/agent/bundle_store.py:93-98 | barring a collision, it installs if and only if the presented inventory is the signed one as a multiset of links, owners aside |
| `BundleStores.InstalledFloorPermits` | pilotfish/core/bundle.py:98-136 | under the floor a site installed, a declared class may use exactly the links that meet every constraint it declares, are observed up and are no free-space optics |
| `BundleStores.DefaultFloorPermits` | pilotfish/core/bundle.py:116-135 | without declared classes the floor has one class, which may use exactly the links observed up that are not metered and no free-space optics |
| `StoreRuns.StepKeepsSafe` | pilotfish/agent/bundle_store.py:106-171 | every step of a site, crashes and failed writes included, keeps the rollback invariant and never lowers the mark |
| `StoreRuns.RunIsSafe` | pilotfish/agent/bundle_store.py:106-171 | the invariant holds after every run from a site that never ran, whatever its mark file holds |
| `StoreRuns.MarkNeverDecreases` | pilotfish/agent/epoch.py:87-99 | along every run the durable mark never goes down, and an unreadable one stays unreadable |
| `StoreRuns.RollbackSafety` | pilotfish/agent/bundle_store.py:106-171 | after every run the sequences of the bundles that ever governed strictly increase and none exceeds the mark; one that comes into force is already on disk and above all earlier ones; what is current is the floor or, unexpired, the very bundle that last came into force |
| `StoreRuns.GovernedIsGenuine` | pilotfish/agent/bundle_store.py:106-148 | on every run, whatever has governed was offered before in an envelope of the trusted issuer that verifies under the trusted key and holds that very bundle |
| `StoreRuns.AcceptIsARun` | pilotfish/agent/bundle_store.py:106-164 | `accept` is a run of the step machine: checks, temporary file, mark, installation, or checks and a failed write |
| `StoreRuns.RestartsExactly` | pilotfish/agent/bundle_store.py:57-66 | a crash forgets all but the mark, and a restart brings the site up at the mark, with no bundle and no nonces, if and only if the mark is readable |
| `StoreRuns.ReplayRefusedBySequence` | pilotfish/agent/bundle_store.py:131-148 | on every run with failed writes, crashes and restarts, an envelope whose bundle once came into force is refused ever after, by the sequence alone and without the nonce set |
| `StoreRuns.NonceDecidesExactlyOnReuse` | pilotfish/agent/bundle_store.py:131-148 | the nonce set changes a decision if and only if an envelope passes every other check, with a nonce already seen and a higher sequence |
| `StoreRuns.NonceRefusedUntilCrash` | pilotfish/agent/bundle_store.py:131-161 | on every run, until the next crash an envelope with the nonce of one that came into force is refused for its nonce, if it passes the checks before |
| `StoreRuns.NonceSetIsRedundant` | pilotfish/agent/bundle_store.py:131-164 | on every run with failed writes, crashes at any point and restarts in which no nonce comes back with a higher sequence, a site without the nonce set is in the very state of a site with it |
| `Cycle.NoComplaintIffHonoured` | pilotfish/agent/cycle.py:108-124 | there is no complaint if and only if, for every decided class, the dataplane holds only permitted links, and some link if any is permitted |
| `Cycle.PostconditionComplaint` | pilotfish/agent/cycle.py:108-124 | the loop returns the first class's complaint, and none exactly when every decided class is honoured |
| `Cycle.ComplaintIsRight` | pilotfish/agent/cycle.py:108-124 | the complaint is of the first class that is not honoured, and names exactly the links held against it, sorted and each once, or the links permitted where none is held |
| `Cycle.TurnSucceedsExactly` | pilotfish/agent/cycle.py:82-106 | a turn returns its decision if and only if the adapter raised nothing and holds a state that honours it; otherwise it raises the exception, or the complaint, that there is |
| `Cycle.UndecidedClassUnchecked` | pilotfish/agent/cycle.py:111-112 | what the dataplane holds for a class that the decision does not name changes no complaint |
| `Cycle.StepKeepsSound` | pilotfish/agent/cycle.py:79-106 | every effect of a turn, every failure, crash and recovery keeps the log readable, linked, parsed into turns and in step with the live head |
| `Cycle.EveryRunIsSound` | pilotfish/agent/cycle.py:66-106 | after any interleaving of effects and faults the log reads back and verifies as one chain of the site that ends in the live head; its kinds parse as D, D X or D X E about one decision; an effect is ENFORCED exactly if it hashes a state that honours its decision |
| `Cycle.FreshAgentIsSound` | pilotfish/agent/receipts.py:166-168 | an empty log is where such a run may begin |
| `Cycle.RecoveryResumesLog` | pilotfish/agent/receipts.py:156-178 | after any run and a crash, recovery resumes at the number and hash of the last receipt written, and the log is unchanged |
| `LogFaults.EveryCarefulRunStands` | pilotfish/agent/cycle.py:66-106 | after any interleaving of effects, appends that raise when their line is on disk, appends torn at any byte, crashes and recoveries, in which nothing is appended to what is damaged: the log verifies as one chain, parses into turns and holds every receipt whose line is whole, and it is in step with the agent if and only if nothing is damaged now |
| `LogFaults.CrashHealsHead` | pilotfish/agent/receipts.py:156-178 | a crash and recovery lose nothing and heal a head that stayed behind; a torn tail stays |
| `LogFaults.StaleHeadBreaks` | pilotfish/agent/receipts.py:194-216 | the receipt recorded on a head that stayed behind is read back, and recovery refuses the log at exactly that receipt |
| `LogFaults.StaleHeadIsFatal` | pilotfish/agent/receipts.py:156-178 | and after whatever follows, recovery refuses the log |
| `LogFaults.RecordBehindTear` | pilotfish/agent/receipts.py:184-217 | an effect's append is torn at any byte, the agent recovers and records its next decision: log and head are in step if and only if the joined line carries the new envelope, or the torn one and the two receipts hash alike |
| `Cycle.AfterTurnIsARun` | pilotfish/agent/cycle.py:79-106 | a whole turn, receipt after receipt, is the run of its effects, for each way in which the adapter may answer |
| `Cycle.TurnWritesReceipts` | pilotfish/agent/cycle.py:79-106 | one turn of a sound agent leaves it sound, with exactly the turn's receipts behind the log: decision and execution always, and an effect with its outcome, the hash of the state and the complaint if and only if the readback did not raise |
| `Cycle.AgentCycle.RunOnce` | pilotfish/agent/cycle.py:66-106 | one turn decides under the bundle in force and leaves the log and the head of its run of effects; it returns the decision or raises what that run calls for |
| `Cycle.AgentCycle.CarryOut` | pilotfish/agent/cycle.py:79-106 | log, head and result after a decision is recorded, attempted, enforced and read back |
| `Cycle.AgentCycle.Announce` | pilotfish/agent/cycle.py:79-80 | the decision and the attempt are both on the log before the adapter runs |
| `Cycle.AgentCycle.Conclude` | pilotfish/agent/cycle.py:82-106 | an exception of the adapter, or the state read back, is recorded before anything is raised; a failed readback records nothing |
| `Cycle.AgentCycle.RecordError` | pilotfish/agent/cycle.py:84-92 | the exception is recorded as an ENFORCEMENT_ERROR effect with no state |
| `Cycle.AgentCycle.RecordEffect` | pilotfish/agent/cycle.py:95-103 | the effect records the hash of the state read back, and ENFORCED exactly if there is no complaint |
| `Selectors.BestIsBest` | sim/selectors.py:53-57 | the choice is an observed-up candidate that none beats by (latency, id); there is none exactly when no candidate is observed up |
| `Selectors.UpExactly` | sim/selectors.py:43-45 | a link is observed up if and only if the newest observation of its liveness is at least one |
| `Selectors.BetterExactly` | sim/selectors.py:48-57 | a link is better if its newest latency is lower, if it alone has one, or, where these do not differ, if its id comes first |
| `Selectors.Hysteresis.Call` | sim/selectors.py:103-114 | the held link and its time move as the step function does of which the lemmas below say when every run moves and when it may not |
| `Selectors.Hysteresis.Reset` | sim/selectors.py:99-101 | nothing is held after a reset |
| `Selectors.HysteresisChoosesLive` | sim/selectors.py:103-114 | after every look of any run the choice is an observed-up link, or none exactly when no link is observed up |
| `Selectors.HoldsAsCalledFor` | sim/selectors.py:103-114 | every choice of every run is the best link, unless the link chosen before is up and was first chosen, in that row, less than the dwell ago |
| `Selectors.MovesWhenDue` | sim/selectors.py:103-114 | after every look no observed-up link is better than the choice, or the choice last changed less than the dwell ago |
| `Selectors.VoluntaryMovesAreRationed` | sim/selectors.py:109-112 | with a monotone clock, the moves off a live link times the dwell never exceed the time until the last move |
| `Selectors.FlapsAreMoves` | sim/selectors.py:103-114 | the flaps of a run are the number of classes times its moves after the first look |
| `Selectors.HysteresisBound` | sim/selectors.py:103-114 | with a monotone clock, flaps are at most the classes times the forced moves plus the elapsed time over the dwell |
| `Links.JitterBound` | sim/links.py:82-122 | no measured latency is more than 5 ms below the true one |
| `Links.EvidenceIsReported` | sim/links.py:34-160 | the evidence of a step is dated at the step and tells the model's own liveness, quota and, within 5 ms, latency |
| `Links.LinkFleet.Step` | sim/links.py:157-161 | the loop collects every model's observations, in the order of the fleet |
| `Links.ReportsExactly` | sim/links.py:34-161 | the evidence of a step is exactly what the models report: liveness unless the sensor failed, latency and quota of what is up, visibility of optics |
| `Links.QuotaReadsExactly` | sim/links.py:74-77 | a quota reads as the share of it that was carried, in percent, and as a hundred exactly once that is all of it or if there is none |
| `Links.CheckViolations` | sim/metrics.py:25-73 | the loop lists, class by class, every requirement that the true state of the chosen link breaks |
| `Links.CheckChoice` | sim/metrics.py:40-71 | the five checks of the choice of a declared link for a declared class, in their order, whether or not the link is in the fleet |
| `Links.CheckDeclared` | sim/metrics.py:42-62 | the three checks of what link and class declare, in their order |
| `Links.ViolationReported` | sim/metrics.py:25-73 | a violation is reported if and only if that class chose that link and the link truly breaks that requirement |
| `Links.ReportsBroken` | sim/metrics.py:25-73 | the same with each requirement spelled out by link, class and true state |
| `Simulation.PlayEvents` | sim/run.py:72-74 | exactly the events due at this second act, in order, on the links and on the reachability of the authority |
| `Simulation.EventsKeepBytes` | sim/run.py:23-48 | events change no link's bytes, quota or tariff |
| `Accounts.ActedMembers` | sim/run.py:68-74 | by a step exactly the events dated at it or at an earlier step have acted |
| `Accounts.ActedInOrder` | sim/run.py:68-74 | and they have acted in the order of their dates |
| `Accounts.EventsStrike` | sim/run.py:23-48 | each model is as the last events on it of each kind have left it: up, sensor, obstruction, visibility |
| `Simulation.RunResult.Settle` | sim/run.py:97-142 | the oracle, the bookings, the flaps and the degraded time of a step leave the counters, links and violations of the step function |
| `Simulation.RunResult.BookStep` | sim/run.py:108-124 | the loop over the choices keeps the accounts of the booking function |
| `Simulation.RunResult.BookOne` | sim/run.py:108-124 | no link is refused time, a link that is down is down time, and otherwise bytes are carried and, over a quota spent before, paid for |
| `Simulation.CountFlaps` | sim/run.py:126-128 | counts the classes that had a choice before and have another now |
| `Simulation.ClassSecondsConserved` | sim/run.py:108-124 | served, refused and down class-seconds sum to steps times step length times classes, for any selector |
| `Simulation.DegradedSecondsCount` | sim/run.py:131-132 | degraded seconds are the step length times the degraded answers |
| `Simulation.RunCountsFlaps` | sim/run.py:126-129 | the run counts exactly the flaps of the selector's successive choices |
| `Simulation.OverQuotaIffBytes` | sim/links.py:74-77 | a positive quota reads as spent if and only if at least its bytes were carried |
| `Simulation.OverageIsBilled` | sim/run.py:117-124 | over every run, a link with a positive quota is billed at most the bytes it carried beyond the quota, and short of them by less than the largest chunk |
| `Simulation.BytesAndCostBalance` | sim/run.py:108-124 | over every run, bytes on all links grow by the bytes of the served class-steps, and the cost is the billed bytes at each link's tariff |
| `Accounts.RunAccounts` | sim/run.py:108-124 | over every run, refused time is the step length times the pairs of a step and a class without a link, down time that of the pairs whose link the events have left down, served time that of the rest, and bytes are the traffic of the served pairs |
| `Runs.LinkTableHolds` | sim/run.py:54 | the declared links by id: every link of the bundle is there, and with distinct ids as itself |
| `Runs.ClassTableHolds` | sim/run.py:55 | the declared classes by id, each once in the order of first occurrence, and nothing else |
| `Runs.Show` | sim/run.py:68-84 | events act, the fleet reports, and the context shown to the selector is that of the step function |
| `Runs.PlayIsRun` | sim/run.py:51-144 | for any selector, a run is the run of its answers, and each step shows it the time, the evidence of the fleet as its answers so far have left it, and the reachability that the events so far have left |
| `Runs.ReachableExactly` | sim/run.py:72-83 | the selector is told that the authority is reachable if and only if an event that has acted made it so and none cut it off since, or none ever did |
| `Runs.PlayOnTime` | sim/run.py:68-70 | step i shows the selector the time i step lengths, in seconds, after the start |
| `Runs.PlayAccounts` | sim/run.py:108-124 | the accounts of a whole run under any selector are those counts |
| `Runs.PlayConserves` | sim/run.py:108-124 | served, refused and down class-seconds of a whole run sum to steps times step length times classes, for any selector that answers for every class |
| `HysteresisRuns.RunHysteresis` | sim/run.py:51-144 | the event loop around the selector object, events to accounts, leaves the outcome and the held link of the run function |
| `HysteresisRuns.Fly` | sim/run.py:68-142 | one step of that loop |
| `HysteresisRuns.HysteresisRunFlaps` | sim/run.py:126-129 | for every scenario, fleet and draws a run under the hysteresis selector does not raise, and flaps at most classes times (forced moves plus elapsed time over dwell) |
| `HysteresisRuns.HysteresisRunMovesWhenDue` | sim/selectors.py:103-114 | in the last step of every run each class is given one and the same link, and no link observed up is better or the link last changed less than the dwell ago |
| `HysteresisRuns.HysteresisRunConserves` | sim/run.py:108-124 | served, refused and down class-seconds of a run under the hysteresis selector sum to steps times step length times classes |
| `HysteresisRuns.HysteresisNeverDegraded` | sim/run.py:131-132 | a run under the hysteresis selector has no degraded time |
| `GovernedSelector.PublishedIsAdmitted` | sim/selectors.py:134-158 | a publication passes the store's checks of type, issuer, skew, signature, nonce and sequence: it is refused only for another authority than the store's, or as expired once it is cut to whole seconds, and is admitted otherwise |
| `GovernedSelector.ReissuedOnWire` | sim/selectors.py:142-148 | a publication is the scenario's bundle under a new number, issued now and good for as long, in whole seconds |
| `GovernedSelector.PublicationsAreAccepted` | sim/selectors.py:185-187 | along any run whose publications name the store's authority and are unexpired on arrival, every one is accepted, and the store holds the last of them under the number of publications since the reset |
| `GovernedSelector.NothingRefusedIff` | sim/selectors.py:185-187 | a run of ticks goes without a refusal if and only if every publication names the store's authority and is unexpired on arrival |
| `GovernedSelector.SecondIsAcceptable` | sim/selectors.py:128-158 | a validity of a second or more is enough, at any time |
| `GovernedSelector.DegradedExactlyWhenLapsed` | sim/selectors.py:185-195 | for any clock, a step is degraded if and only if nothing was published, or now is at least the whole second of the last publication plus the validity |
| `GovernedSelector.LapsedInWholeSeconds` | sim/selectors.py:185-195 | on a clock and a validity in whole seconds that is when now minus the last publication is at least the validity |
| `GovernedSelector.NoopHonours` | pilotfish/adapters/noop.py:22-27 | with distinct class ids, a turn on the honest dataplane never raises |
| `GovernedSelector.Governed.Reset` | sim/selectors.py:160-179 | a store on a freshly signed floor with nothing accepted, an empty log, and a chain at the genesis |
| `GovernedSelector.Governed.Call` | sim/selectors.py:185-205 | store, mode, log, head and choices after a call are those of the selector function: refresh if the authority is reachable, one turn of the real agent, then the best of each class's set |
| `GovernedSelector.Governed.Serve` | sim/selectors.py:189-205 | the same, of the turn and the choice alone: the log and the head are left as the turn leaves them, and a failed turn raises |
| `GovernedSelector.Governed.RunAgent` | sim/selectors.py:189-195 | the turn is the real agent's, under the bundle in force, on the honest dataplane; log and head are those of the turn's effects |
| `GovernedSelector.Governed.TakePublication` | sim/selectors.py:186-187 | epoch and store after a refresh, or the store's refusal |
| `GovernedSelector.Choose` | sim/selectors.py:197-205 | every class with a permitted set of its own is given the best link of it that is observed up, or none exactly if none is; another gets that of the first class's set |
| `GovernedSelector.ChoiceIsBest` | sim/selectors.py:197-205 | the same of the choice that the lemmas are about, the fallback included |
| `GovernedSelector.ChoiceWithinOwnSet` | sim/selectors.py:197-205 | the choice stays within the class's own set if and only if that set is not empty or the first class has no live link |
| `GovernedSelector.FallbackCanBreak` | sim/selectors.py:197-205 | a bundle of two classes, the second without metered links, and evidence on which the second is sent over the metered link of the first: the oracle's requirement is broken |
| `GovernedSelector.CoverSurvivesWire` | pilotfish/protocol/messages.py:173-185 | rules that cover a class and the quotas still do after the wire |
| `GovernedSelector.UnexcludedMeetsOracle` | sim/metrics.py:42-71 | a link that covering rules leave in breaks no metering, jurisdiction, encryption or quota requirement, and misses a latency bound by at most 5 ms |
| `GovernedSelector.GovernedMeetsOracle` | sim/selectors.py:185-205 | in any step of any run, the choice for a class with a permitted set of its own breaks no metered, jurisdiction or encryption requirement of the independent oracle and misses its latency bound by at most 5 ms, under the floor too; outside degraded mode it spends no quota either |
| `GovernedSelector.ListedIsExcused` | sim/metrics.py:25-73 | whatever `check_violations` lists in a step against such a class is a latency missed by at most 5 ms or, in degraded mode, a spent quota |
| `GovernedRuns.RunGoverned` | sim/run.py:51-144 | the event loop around the selector object, events to accounts, for any bundle of wire size: it leaves the outcome, store, log and head of the run function, or raises what that raises |
| `GovernedRuns.Govern` | sim/run.py:68-142 | one step of that loop |
| `GovernedRuns.GovernedRunNeverRaises` | sim/run.py:51-144 | with distinct class ids and publications that the store takes, a governed run never raises, for every scenario, fleet and draws; store, reachability and answers in each step are those that clock and events call for |
| `GovernedRuns.GovernedRunRaisesIff` | sim/run.py:51-144 | with distinct class ids a governed run of any bundle raises if and only if the authority is reachable in some step whose publication names another authority or has expired on arrival |
| `GovernedRuns.GovernedDegradedTime` | sim/run.py:131-132 | the degraded seconds of a governed run are the step length times the steps in which nothing had been published or the last publication had lapsed |
| `GovernedRuns.GovernedRunConserves` | sim/run.py:108-124 | every class-second of a governed run is served, refused or down |
| `GovernedOutcomes.ViolationsAreListed` | sim/run.py:97-106 | the violations of a run are exactly those that the oracle lists in one of its steps, whatever the selector |
| `GovernedOutcomes.GovernedRunMeetsOracle` | sim/run.py:97-106 | every violation of a governed run is of a class whose own permitted set was empty in that step, or a latency missed by at most 5 ms, or a spent quota while the last publication had lapsed |
| `GovernedOutcomes.GovernedLogIsSound` | sim/selectors.py:181-195 | the log of a governed run reads back and verifies as one chain that ends in the live head, and holds exactly a decision, an execution and an ENFORCED effect for each step's decision, in order |

## Left out

- Ed25519 and SHA-256 themselves: they are parameters of the platform.
- CBOR maps, tags, bignums, indefinite lengths, non-finite floats and the check that text is valid UTF-8: none of them is written by the program.
- Python's untyped decoding: a field of the wrong type is an error where it is decoded, not where it is first used; a float in place of an integer timestamp and the range errors of `datetime` are not modelled.
- Floating-point rounding: measured and configured values are compared as reals, and the simulator's cost, quota and latency arithmetic is exact.
- The wording of reasons and complaints: a parameter, applied to every value that the source puts into the text.
- The OBSERVATION_BATCH and AUTHORITY_DIRECTIVE codecs, which have the shape of the others; `load_bundle_json`, key files, `pilotfish/cli.py` and `pilotfish/sdk`.
- File system calls: the mark is replaced in two steps, temporary file and replacement, with crashes between; the decimal text of the mark file is a number, absent or garbled.
- Appends torn anywhere but at the end: a power cut leaves a first part of the line, never a gap or other bytes.
- `MemoryReceiptSink`: the governed selector is modelled on the file sink, which reads back the same payloads. It likewise uses the file store of the mark without faults, which `Epoch.MemoryEpochStore.Commit` agrees with.
- `Greedy` and `StaticPriority`, which choose without state; `sim/report.py` and `sim/scenarios.py`; the frames of a run, and `uptime_pct`, which divides class-seconds by plain seconds.
- The random generator: every draw is any value in the range that the link model states.
- Link models as separate mutable objects: the fleet is a class whose field maps ids to model values, so two names for one model are not captured.
- Events on an attribute that a kind of link does not have, which Python would add to the object and nothing would read: they change nothing here. An event on a link that is not in the fleet raises in the source and is excluded.
- `sim/selectors.py` reports no choice for classes it was not asked about, and the order of the choices is that of the classes.
