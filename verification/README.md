# Guardian bridge on Algorand: a verified model

The Wormhole bridge for Algorand (`lib/pyth-crosschain/algorand`) is two PyTeal contracts, a
template for storage accounts and a Python client. This project models them in Dafny, and the
bridge-type cache of the Chainlink node (`lib/chainlink/core/bridges/cache.go`) beside them.

* **Storage.** An account's local state is fifteen 127-byte pages used as one 1905-byte string
  (`LocalBlob`), found through a byte-code template that the client fills in place and the
  contracts rebuild by concatenation (`Template`, `Leb128`). `TemplateProgram` runs that byte code
  on a transaction. `Accounts` and `Replay` hold what both contracts do with such accounts. An
  address is represented by the program it is the hash of, so different accounts have different
  addresses by proof and not by an assumption about the hash.
* **Core contract.** `Core` says what each transaction group does to globals and accounts seen
  flat. `CoreContract` runs the same operations on pages, with fields that change, loops,
  traps half way and the platform's roll-back, and is proved equal to it. `Protocol` is what
  the contract is for: seen messages, counters, a line of guardian sets. `CoreRefinement`
  proves that every run of groups leaves a trace the protocol allows and accounts that show
  the protocol's state. `CoreEffects` takes calls apart into elementary writes and proves about
  them what needs little: counters, marks and tags. `CoreTheorems` draws the consequences over
  runs, and `CoreInner` extends some of them to calls made from inside other applications, as
  the bridge makes. `CoreBoot`, `CoreSetless` and `CoreStuck` say exactly what an unusual boot
  does, and `CoreBootRuns` shows that it happens.
* **What is accepted.** `Signatures`, `VerifyAccepts`, `CoreAccepts` and `BridgeAccepts` say exactly
  which calls succeed and what they do, in terms of transaction fields and message bytes alone,
  with every name, offset and constant written out; `Envelope` has the bytes both contracts read
  alike. `BridgeSecurity` carries it to runs: whom the bridge believes, and since when.
* **Token bridge.** `TokenBridge` and `BridgeContract` stand in the same relation.
  `BridgeTransfers`, `BridgeRuns` and `BridgeCustody` hold the results over messages and runs,
  with `StorageSig` for who can send from a storage account and `BridgeLedger` for the total of
  an asset; `BridgeQuorum` joins the two contracts: whatever the bridge acts on was signed by a
  quorum in force.
* **Client.** `Doubles` is the division in floating point by which the client finds a message's
  block. `Client` reads paged accounts the way the client does, `SubmitVaa` builds its
  groups, `VaaPrint`, `VaaParse` and `VaaRoundTrip` are the message generator and the parser.
  `ContractReads` ties them to the contracts: what is generated is what the contracts read.
* **Cache.** `BridgeCache` has the table and the cache as classes.

A trap is `None`; a group in which any call traps changes nothing. Words are unsigned 64-bit
integers and overflow traps. Keccak, key recovery and signing are function values about which
nothing is assumed.

## What the results depend on

Whatever is assumed of a run is assumed of its committed groups; rejected ones may be anything.

* That senders have addresses (32 bytes, or the program a storage account's address stands
  for): every result over runs of the core contract but those of `CoreSetless`, which assume
  nothing. Sequence numbers (`EmitterSequence`) and tags (`TagsAreForever`) need no more.
* Replay protection (`ReplaySafety`, `NeverBlocked`) also needs a boot that does not pass
  somebody's replay account as the account of the old set. `BootKeepsMarks` gives the exact
  condition for one call, and `BootSpoilsMarks` what happens otherwise.
* The refinement and the results about guardian sets (`CoreRefinesProtocol`,
  `GuardianRotation`, `OnlyLiveSetsVerify`, `RotationAuthorised`, `BridgeQuorum`) need a boot in
  which foreign accounts 2 and 3 coincide and argument 2 is the stateless program's address, as
  the administration script boots, and guardian-set messages of at most 49 keys.
  `InstalledSetReads` gives the exact condition for a set to read back without an expiry.

The acceptance results assume nothing of a run: they hold of every state. `VerifyExactly` is about
groups the platform lets through, in which what the stateless program's address sends is approved
by it, and the releases and attestations of `BridgeAccepts` use that storage accounts are found one
to one (`LocatorInjective`). `TemplateProgram` takes each of the nine instructions the template uses
to do what version 6 of the virtual machine says.

Custody is proved while other chains return no more than is outstanding. That nobody spends from
a storage account is proved from the platform's rule for signatures (`StorageIsSafe`): the
template's program approves nothing but opting in and rekeying, and the application's address
signs nothing itself. An asset's decimals are fixed when it is created. That a release is paid
(`ReturnsArePaid`) also takes the asset's total to fit a word. The cache's calls run one at a
time and a failing table call changes nothing.

## Where the code differs from what it seems to say

The model follows the code.

* `decodeLocalState` compares a byte key with the text "meta", which is never equal, so the tag
  is appended after the pages; and it leaves out pages that are all zero. The first pages are
  read back as they are if and only if none of them is zero (`PagesReadExactly`). A set of
  thirteen keys with a zero page, which takes five zero keys in a row, is stored and read by
  the contract (`ZeroPageLoads`), but the client reads keys 6 and 12 wrong, and what it submits
  is refused exactly when one of those guardians signed, key 12 being saved only if it ends in
  "guardia" (`ZeroPageSubmission`). `KeyReadExactly` says of any set which keys are read right.
* The client divides sequence numbers in floating point. The block it finds is the contract's if
  and only if what is missing to the next block is more than half a unit in the last of the
  quotient's 53 bits, and the one after it otherwise (`ClientBlockIs`). The first number it gets
  wrong is 16756557207321479 (`FirstInexact`). It then passes an account the contract refuses
  (`SameMessage`), and looks for the mark in the wrong place, or fails on a negative page number
  (`CheckBitsSet`).
* Page keys keep the low byte of the page number, so blob indices repeat every 32512 bytes, and
  a range that starts on a later page than it ends on reads as the empty string.
* `parseVAA` stops in front of the new index of a guardian-set message; if the index starts
  with byte 3 and there are seven keys or more, the message is reported as a transfer with
  payload (`UpgradeContents`).
* Fifty keys or more reach the expiry field of a guardian account: the set reads back as
  expiring if and only if a nonzero byte falls there (`InstalledSetReads`, `FiftyKeysExpire`). A
  set of 48 or more can never be used because hits are counted in 32 bits (`QuorumReach`), nor
  replaced: once it is the last, no `governance` call commits (`LargeSetRules`). Boots with such
  sets go through (`ExpiringBoot`, `StuckBoot`).
* `init` checks that its message is a governance message, not which one. The contract has a
  guardian set afterwards if and only if the action byte was 2 (`InitDecides`); otherwise it
  stays booted without one, and no `init`, `governance` or `verifyVAA` call is ever accepted
  again (`NoWayBack`), short of replacing the program, which is outside the model. A fee message
  does it (`FeeMessageBoots`, `AnyFeeBoots`).
* A boot that passes a replay account in second place sets or clears marks of messages, unless
  the eight bytes happen to be there already (`BootKeepsMarks`); one goes through in
  `SpoilingBoot`.
* The table's `FindBridges` refuses repeated names; the cache answers them when the names it
  must look up are not repeated (`AnswersAgree`, `RepeatedName`).

## Model

| member | source | states |
|---|---|---|
| Leb128.ContractAgreesWithLibrary | lib/pyth-crosschain/algorand/wormhole_core.py:77-93 | the on-chain accumulator recursion returns the accumulator followed by the library's digit-by-digit encoding, for every number |
| Leb128.EncodeIsLeb128 | lib/pyth-crosschain/algorand/wormhole_core.py:77-93 | a string is the unsigned LEB128 form of a number if and only if it is what the contract's encoder produces |
| Leb128.DecodeEncode | lib/pyth-crosschain/algorand/wormhole_core.py:77-93 | decoding undoes the encoder, whatever bytes follow |
| Leb128.PrefixFree | lib/pyth-crosschain/algorand/wormhole_core.py:77-93 | two encodings followed by anything agree only if the numbers and the rests agree |
| Template.Populate | lib/pyth-crosschain/algorand/TmplSig.py:58-85 | editing the byte code in place with a running shift gives the concatenation of chunks and encoded fields, for any ordered labels and any values, and fails on the same inputs |
| Template.ClientAndContractAgree | lib/pyth-crosschain/algorand/wormhole_core.py:95-124 | the program the client submits and the one the contract hashes are the same bytes for every index, owner and application |
| Template.SigProgramInjective | lib/pyth-crosschain/algorand/wormhole_core.py:95-124 | different indices, owners or applications give different programs |
| Template.StorageAccount | lib/pyth-crosschain/algorand/admin.py:543-555 | the account the client derives by filling the template is the one the contracts look for, for every index, owner and application |
| Template.LocatorInjective | lib/pyth-crosschain/algorand/token_bridge.py:189-217 | an application's storage addresses are one to one in index and owner |
| StorageSig.StorageIsSafe | lib/pyth-crosschain/algorand/TmplSig.py:111-133 | over every run in which the platform checks signatures and follows rekeying, no payment or asset transfer of a committed group spends from a storage account |
| TemplateProgram.ProgramApproves | lib/pyth-crosschain/algorand/TmplSig.py:111-133 | the byte code, run instruction by instruction, approves exactly the calls that opt in to this application and hand the account to its address, at no fee and closing nothing, for every index, owner and application |
| TemplateProgram.StorageProgram | lib/pyth-crosschain/algorand/TmplSig.py:37-43 | that is what `StorageIsSafe` takes the program to approve |
| LocalBlob.ReadRange | lib/pyth-crosschain/algorand/local_blob.py:91-132 | the page loop returns the flat range, the empty string when the start page is after the stop page, and traps otherwise |
| LocalBlob.WriteRange | lib/pyth-crosschain/algorand/local_blob.py:148-212 | the page loop splices the buffer into the flat string, and a range that leaves the pages traps |
| LocalBlob.ZeroPages | lib/pyth-crosschain/algorand/local_blob.py:54-69 | fifteen pages, all zero, no tag |
| LocalBlob.LocalBlob.Zero | lib/pyth-crosschain/algorand/local_blob.py:54-69 | the account becomes the empty one and no other account changes |
| LocalBlob.LocalBlob.GetByte | lib/pyth-crosschain/algorand/local_blob.py:71-78 | the byte of the flat string at the index, or a trap |
| LocalBlob.LocalBlob.SetByte | lib/pyth-crosschain/algorand/local_blob.py:80-89 | exactly that byte of exactly that account changes, or a trap |
| LocalBlob.LocalBlob.Read | lib/pyth-crosschain/algorand/local_blob.py:91-132 | for every pair of bounds, what reading the flat string gives |
| LocalBlob.LocalBlob.Write | lib/pyth-crosschain/algorand/local_blob.py:148-212 | one splice into the flat string, the buffer's length returned, nothing else touched; a trap when the range does not fit |
| LocalBlob.LocalBlob.Meta | lib/pyth-crosschain/algorand/local_blob.py:134-142 | only the tag of that account changes |
| LocalBlob.LocalBlob.CheckMeta | lib/pyth-crosschain/algorand/local_blob.py:143-146 | passes if and only if the account carries that tag |
| LocalBlob.IntKeyIsLowByte | lib/pyth-crosschain/algorand/local_blob.py:42-44 | a page's key is the last byte of its number's encoding |
| VaaVerify.SigCheck | lib/pyth-crosschain/algorand/vaa_verify.py:50-105 | succeeds if and only if the string is a whole number of 66-byte signatures and each recovers to the key in its place; `Signatures.BatchExactly` says from which bytes |
| Signatures.OneSignature | lib/pyth-crosschain/algorand/vaa_verify.py:85-98 | a guardian number, r, s and a recovery id pass if and only if recovering from the id, r and s, in this order, gives a public key whose hash ends in the key |
| Signatures.BatchExactly | lib/pyth-crosschain/algorand/vaa_verify.py:70-102 | the same for every place of a batch: bytes 1 to 33, 33 to 65 and 65 of each record of 66, against the key in the same place |
| Signatures.ApprovesExactly | lib/pyth-crosschain/algorand/vaa_verify.py:107-118 | the program approves exactly calls that rekey nothing and pay no fee, with such a batch in arguments 1, 2 and 3 |
| VerifyVaa.BackWalk | lib/pyth-crosschain/algorand/wormhole_core.py:432-450 | finds the start of the unbroken run of helper calls in front of the current one, or traps |
| VerifyVaa.RunStartUnique | lib/pyth-crosschain/algorand/wormhole_core.py:432-450 | an index with only helpers after it and none just before it is that start |
| VerifyVaa.CollectKeys | lib/pyth-crosschain/algorand/wormhole_core.py:482-491 | the inner loop over one batch agrees with its recursive specification, including which guardian is refused |
| VerifyVaa.CollectSound | lib/pyth-crosschain/algorand/wormhole_core.py:482-491 | a batch that passes names distinct, so far unhit guardians and collects exactly their stored keys |
| VerifyVaa.ScanRun | lib/pyth-crosschain/algorand/wormhole_core.py:452-507 | the forward loop agrees with its recursive specification |
| VerifyVaa.ScanSound | lib/pyth-crosschain/algorand/wormhole_core.py:452-507 | a scan that ends at signature k has seen all signatures before k verified under their guardians' keys, with distinct guardians below 32 |
| VerifyVaa.QuorumSoundness | lib/pyth-crosschain/algorand/wormhole_core.py:365-513 | if `verifyVAA` succeeds, every signature recovers on the body's double hash to the stored key of the guardian it names, the guardians are distinct and below the set size and 32, there are more than two thirds of them, and the set is stored, tagged and unexpired |
| Signatures.QuorumExactly | lib/pyth-crosschain/algorand/wormhole_core.py:393-407 | what a quorum is, byte by byte: three times the number of signatures exceeds twice the number of keys, each recovers on the double hash of what follows to the key of the guardian it names, and no guardian is named twice |
| Signatures.CallsInFront | lib/pyth-crosschain/algorand/wormhole_core.py:452-507 | if `verifyVAA` passes, every call of the run in front is one of the same application with the same first two accounts and no rekeying, and its batches come from the stateless program's address over this VAA's digest |
| VerifyAccepts.CollectExactly | lib/pyth-crosschain/algorand/wormhole_core.py:482-491 | a batch is walked to its end if and only if every guardian it names is in the set, below 32 and not named before; then their stored keys are collected in order |
| VerifyAccepts.ScanExactly | lib/pyth-crosschain/algorand/wormhole_core.py:452-507 | the forward loop ends if and only if every call fits at the signature the ones before it brought the run to, and all guardians named are new |
| VerifyAccepts.VerifyExactly | lib/pyth-crosschain/algorand/wormhole_core.py:365-513 | `verifyVAA` succeeds if and only if the set the VAA names is tagged, stored and unexpired, and the run of calls in front brings a quorum of its signatures, by new guardians, beside their keys and over its digest |
| Quorum.QuorumIntersection | lib/pyth-crosschain/algorand/wormhole_core.py:402-407 | two VAAs accepted under one set share more than a third of its guardians |
| Quorum.QuorumReach | lib/pyth-crosschain/algorand/wormhole_core.py:393-407 | with the 32-bit mask a quorum exists if and only if the set has 1 to 47 members |
| Quorum.LargeSetsAreUnusable | lib/pyth-crosschain/algorand/wormhole_core.py:393-407 | `verifyVAA` never succeeds for a set outside 1 to 47 |
| Replay.SlotBijection | lib/pyth-crosschain/algorand/wormhole_core.py:346-358 | sequence numbers correspond one to one to block, byte and bit |
| Replay.MarkEffect | lib/pyth-crosschain/algorand/wormhole_core.py:328-361 | a message can be marked exactly when it is unseen, and then precisely it is seen in addition |
| Accounts.MarkMessage | lib/pyth-crosschain/algorand/token_bridge.py:936-967 | on pages: the same message, mark and trap as the flat specification |
| Envelope.MarkExactly | lib/pyth-crosschain/algorand/token_bridge.py:936-967 | a message can be marked if and only if it has version 1, its account is that of its block of 15240 and its 34 emitter bytes, and it was not seen; no other account changes |
| CoreContract.Contract.PublishMessage | lib/pyth-crosschain/algorand/wormhole_core.py:158-188 | same trap, state and logged number as `Core.PublishMessage` |
| CoreContract.Contract.CheckForDuplicate | lib/pyth-crosschain/algorand/wormhole_core.py:328-361 | same trap and accounts as `Core.CheckForDuplicate`, tag included |
| CoreContract.Contract.InstallSet | lib/pyth-crosschain/algorand/wormhole_core.py:242-279 | same trap and state as `Core.InstallSet`: index, new record, expiry of the old set, tag |
| CoreContract.Contract.HandleGovernance | lib/pyth-crosschain/algorand/wormhole_core.py:190-304 | same trap and state as `Core.HandleGovernance` for all four actions; `CoreAccepts.GovernsExactly` says when and `GovernsEffect` what |
| CoreContract.Contract.Init | lib/pyth-crosschain/algorand/wormhole_core.py:306-323 | same trap and state as `Core.Init` |
| CoreContract.Contract.Governance | lib/pyth-crosschain/algorand/wormhole_core.py:515-542 | same trap and state as `Core.Governance` |
| CoreContract.Contract.VerifyVAA | lib/pyth-crosschain/algorand/wormhole_core.py:365-513 | returns the specified set or traps with the specification, and changes nothing |
| CoreContract.Contract.JoinStorage | lib/pyth-crosschain/algorand/wormhole_core.py:126-153 | same trap as the specification; the joining account becomes empty |
| CoreContract.Contract.Authorise | lib/pyth-crosschain/algorand/vaa_verify.py:107-118 | true if and only if the stateless program approves every transaction sent from its address |
| CoreContract.Contract.Submit | lib/pyth-crosschain/algorand/wormhole_core.py:544-589 | a whole group commits exactly as specified or restores every field and page |
| CoreAccepts.DuplicateExactly | lib/pyth-crosschain/algorand/wormhole_core.py:328-361 | the core contract accepts a message exactly when it is new in this sense, and tags its account |
| CoreAccepts.InstallExactly | lib/pyth-crosschain/algorand/wormhole_core.py:242-274 | a guardian set is installed if and only if it has 1 to 95 keys, its account is the one of its index, the index is the next one or this is the boot, and the expiry fits a word |
| CoreAccepts.GovernsExactly | lib/pyth-crosschain/algorand/wormhole_core.py:190-304 | a governance message is carried out if and only if its emitter is chain 1 and address 4, its module "Core", its set the current one, and it is one of four orders to this chain (or, for a guardian set, to any) |
| CoreAccepts.GovernsEffect | lib/pyth-crosschain/algorand/wormhole_core.py:230-304 | what each of the four orders changes, from the bytes of the message |
| CoreAccepts.InitExactly | lib/pyth-crosschain/algorand/wormhole_core.py:306-323 | `init` succeeds if and only if the creator sends it, nothing was booted before, and it carries a new governance message |
| CoreAccepts.GovernanceExactly | lib/pyth-crosschain/algorand/wormhole_core.py:515-542 | `governance` succeeds if and only if its message is new and carried out and the transaction in front is a `verifyVAA` call on it, field by field |
| CoreAccepts.PublishExactly | lib/pyth-crosschain/algorand/wormhole_core.py:158-188 | publishing succeeds if and only if the sender's counter account is open and passed, the counter is not used up and a positive fee is paid in front; the message carries the counter plus one |
| CoreAccepts.CallExactly | lib/pyth-crosschain/algorand/wormhole_core.py:544-589 | exactly which transactions the contract accepts, by name, completion and the conditions of each method; all but four kinds change nothing |
| CoreAccepts.OnlyTheGovernor | lib/pyth-crosschain/algorand/wormhole_core.py:213-216 | over every run, each committed `init` or `governance` call carries a message whose emitter bytes are chain 1 and address 4, and each `init` was sent by the creator |
| CoreRefinement.AcceptSim | lib/pyth-crosschain/algorand/wormhole_core.py:328-361 | accepting a message is a protocol step and keeps the relation between accounts and protocol |
| CoreRefinement.PublishSim | lib/pyth-crosschain/algorand/wormhole_core.py:158-188 | publishing is a protocol step and keeps the relation |
| CoreRefinement.VerifiedSim | lib/pyth-crosschain/algorand/wormhole_core.py:365-513 | a passed `verifyVAA` names a set of the protocol that is in force and signed by its quorum |
| CoreRefinement.BootSim | lib/pyth-crosschain/algorand/wormhole_core.py:242-279 | installing the first set is a protocol step and keeps the relation |
| CoreRefinement.UpgradeSim | lib/pyth-crosschain/algorand/wormhole_core.py:242-279 | replacing the set is a protocol step: new keys stored, the old set dated, other roles untouched |
| CoreRefinement.CoreRefinesProtocol | lib/pyth-crosschain/algorand/wormhole_core.py:544-589 | every run whose committed groups keep the set and boot conventions leaves a trace the protocol allows and accounts that show its state |
| CoreEffects.RunEffects | lib/pyth-crosschain/algorand/wormhole_core.py:544-589 | whatever a run does to accounts and log is a list of elementary writes; it dates no replay account unless a boot does |
| CoreEffects.CountsAfter | lib/pyth-crosschain/algorand/wormhole_core.py:158-188 | whatever is written between, as long as publishers have addresses, counters are the numbers of publications and each publication carries the next |
| CoreEffects.SeenAfterAll | lib/pyth-crosschain/algorand/wormhole_core.py:328-361 | writes that date no replay account leave exactly the accepted messages marked, none of them accepted twice |
| CoreEffects.RolesAfter | lib/pyth-crosschain/algorand/wormhole_core.py:166-185 | whatever is written, as long as publishers have addresses, a tagged account carries the tag of its owner's role and keeps it |
| Protocol.AcceptedOnce | lib/pyth-crosschain/algorand/wormhole_core.py:328-361 | in a legal trace the seen messages are the accepted ones and none is accepted twice |
| Protocol.SequenceNumbers | lib/pyth-crosschain/algorand/wormhole_core.py:173-180 | in a legal trace a sender's k-th message has number k |
| Protocol.Rotation | lib/pyth-crosschain/algorand/wormhole_core.py:190-323 | in a legal trace the sets are those installed, the index is boot plus upgrades, and only the last set has no expiry |
| Protocol.RetiredForGood | lib/pyth-crosschain/algorand/wormhole_core.py:270-273 | a retired set's keys and expiry never change again |
| CoreTheorems.ReplaySafety | lib/pyth-crosschain/algorand/wormhole_core.py:328-361 | over every run whose boot dates no replay account, no message is accepted twice, and an account bit is set exactly for accepted messages; sets may be of any size |
| CoreTheorems.NeverBlocked | lib/pyth-crosschain/algorand/wormhole_core.py:328-361 | after such a run a message passes the duplicate check if and only if it was not accepted before |
| CoreTheorems.EmitterSequence | lib/pyth-crosschain/algorand/wormhole_core.py:158-188 | over every run, with any boot and any guardian sets, a sender's k-th successful `publishMessage` logs k |
| CoreTheorems.GuardianRotation | lib/pyth-crosschain/algorand/wormhole_core.py:190-323 | over every run the index is the boot index plus the upgrades, and the guardian accounts hold exactly the installed sets, each retired one with its keys and its retirement time plus a day |
| CoreTheorems.OnlyLiveSetsVerify | lib/pyth-crosschain/algorand/wormhole_core.py:380-407 | over every run a verified VAA carries a quorum of a set that is current or in its day of grace |
| CoreTheorems.RotationAuthorised | lib/pyth-crosschain/algorand/wormhole_core.py:515-542 | over every run each upgrade was signed by a quorum of the set it replaced |
| CoreTheorems.TagsAreForever | lib/pyth-crosschain/algorand/wormhole_core.py:166-185 | with any boot and any guardian sets, an account's tag is that of its owner's role and, once written, is there after every longer run |
| CoreBoot.BootKeepsMarks | lib/pyth-crosschain/algorand/wormhole_core.py:256-273 | installing a set at boot leaves every replay mark as it was if and only if the account passed for the old set is the new one, is no replay account, or already holds those eight bytes |
| CoreBoot.BootSpoilsMarks | lib/pyth-crosschain/algorand/wormhole_core.py:256-273 | otherwise the marks at bytes 1000 to 1007 become the bits of the expiry, set or cleared; those at byte 1000 are all cleared |
| CoreBoot.InstalledSetReads | lib/pyth-crosschain/algorand/wormhole_core.py:268-273 | a set installed in a blank account is loaded with its keys, and without an expiry if and only if no nonzero byte of its record falls on the expiry field, as none can up to 49 keys |
| CoreBoot.FiftyKeysExpire | lib/pyth-crosschain/algorand/wormhole_core.py:268-273 | a set of fifty keys whose last byte is not zero is loaded as expiring |
| CoreSetless.PhasesOfRun | lib/pyth-crosschain/algorand/wormhole_core.py:544-589 | a run passes from created to booted without a set or ruled by one as its committed `init` says, and contains no call its phase does not admit; nothing is assumed |
| CoreSetless.InitDecides | lib/pyth-crosschain/algorand/wormhole_core.py:306-323 | after a committed `init`, at the end of every longer run, there is a guardian set if and only if the action byte was 2 |
| CoreSetless.NoWayBack | lib/pyth-crosschain/algorand/wormhole_core.py:515-542 | once booted without a set there never is one, and no group with an `init`, `governance` or `verifyVAA` call commits |
| CoreSetless.FeeMessageBoots | lib/pyth-crosschain/algorand/wormhole_core.py:276-282 | an `init` with a fee message commits right after creation, in a run that keeps every assumption made of runs, and leaves the contract without a set |
| CoreSetless.AnyFeeBoots | lib/pyth-crosschain/algorand/wormhole_core.py:276-282 | there is such a message for every fee and sequence number |
| CoreStuck.LargeSetRules | lib/pyth-crosschain/algorand/wormhole_core.py:515-542 | once the last set has more than 47 keys, no group with a `governance` call commits and the sets stay as they are |
| CoreBootRuns.SpoilingBoot | lib/pyth-crosschain/algorand/wormhole_core.py:256-273 | a boot with a replay account in second place commits and leaves marks that are not the accepted messages |
| CoreBootRuns.ExpiringBoot | lib/pyth-crosschain/algorand/wormhole_core.py:268-273 | a boot with fifty keys, the last byte not zero, commits and its set is loaded as expiring |
| CoreBootRuns.StuckBoot | lib/pyth-crosschain/algorand/wormhole_core.py:268-273 | a boot with 48 or 49 keys commits, in a run that keeps every assumption, and its set is too large to be replaced |
| CoreInner.PlainRun | lib/pyth-crosschain/algorand/wormhole_core.py:544-589 | runs with no calls from inside are the runs above |
| CoreInner.AllNumbered | lib/pyth-crosschain/algorand/token_bridge.py:810-826 | a sender's k-th message has number k also when it publishes from inside its own transaction, as the bridge does |
| CoreInner.AllAcceptedOnce | lib/pyth-crosschain/algorand/wormhole_core.py:328-361 | with calls from inside, too, no message is accepted twice and bits show exactly the accepted |
| Client.DecodeLocalState | lib/pyth-crosschain/algorand/admin.py:656-677 | whatever the order of the entries, the result is the pages that are not all zero by number, then the tag |
| Client.ClientReads | lib/pyth-crosschain/algorand/admin.py:656-677 | a range is read back unchanged when no page up to its end is all zero |
| Client.PagesReadExactly | lib/pyth-crosschain/algorand/admin.py:656-677 | the first n pages are read back as they are if and only if none of them is all zero |
| Client.DecodedByte | lib/pyth-crosschain/algorand/admin.py:656-677 | at every position the client reads the byte of the page kept in that place, or of the tag behind the last |
| Doubles.IntOfQuotientIs | lib/pyth-crosschain/algorand/admin.py:835 | cutting the quotient rounded to 53 bits gives the true quotient if the gap to the next integer is more than half a unit of the last bit, and one more otherwise |
| Client.ClientBlockIs | lib/pyth-crosschain/algorand/admin.py:835 | for every sequence number the client finds the contract's block if the division is exact, and the next one otherwise |
| Client.FirstInexact | lib/pyth-crosschain/algorand/admin.py:835 | the division is exact for every number below 16756557207321479, and not for that one |
| Client.InexactNearEnd | lib/pyth-crosschain/algorand/admin.py:835 | the numbers the client gets wrong are among the last 1905 of their block |
| Client.CheckBitsSet | lib/pyth-crosschain/algorand/admin.py:804-827 | for every sequence number: the contract's bit if the division is exact; otherwise the bit it names on the first page, or an error for a negative page |
| Client.AlreadyAccepted | lib/pyth-crosschain/algorand/admin.py:804-835 | on the account the client derives: the contract's mark if the division is exact; otherwise that bit of the next block's account |
| SubmitVaa.BuildGroup | lib/pyth-crosschain/algorand/admin.py:865-908 | the nested loops build one call per nine signatures beside their keys and the `verifyVAA` call |
| SubmitVaa.ClientCompleteness | lib/pyth-crosschain/algorand/admin.py:865-908 | valid signatures by distinct guardians below 32, a quorum of a usable set and no zero page: the stateless program approves every batch and `verifyVAA` passes |
| SubmitVaa.AcceptedExactly | lib/pyth-crosschain/algorand/wormhole_core.py:365-513 | whatever the client decoded from the account of a usable set, its group goes through if and only if the VAA carries a countable quorum and the client decoded the keys of those who signed |
| SubmitVaa.KeyReadExactly | lib/pyth-crosschain/algorand/admin.py:884-888 | of any stored set, the client reads a key right if and only if each of its bytes is the one of the page kept in its place |
| SubmitVaa.ZeroPageLoads | lib/pyth-crosschain/algorand/wormhole_core.py:383-391 | the contract reads all keys of a thirteen-key set with a zero page |
| SubmitVaa.ZeroPageKeys | lib/pyth-crosschain/algorand/admin.py:884-888 | which of the thirteen keys the client reads right: all but 6, and 12 only if it ends in "guardia" |
| SubmitVaa.ZeroPageSubmission | lib/pyth-crosschain/algorand/admin.py:865-908 | with such a set the client's group goes through if and only if neither guardian it misreads signed |
| VaaPrint.CreateSignedVaa | lib/pyth-crosschain/algorand/gentest.py:102-131 | header, count, signatures of the double hash and body in order; an error exactly when a field is out of range or there are more than 255 signers |
| VaaPrint.SignedExactly | lib/pyth-crosschain/algorand/gentest.py:102-131 | a VAA is generated if and only if each field fits its place, with the bounds written out, and the emitter is padded on the right |
| VaaPrint.JoinKeys | lib/pyth-crosschain/algorand/gentest.py:225-226 | keys of 20 bytes stand in order at multiples of 20, and nothing else is there |
| VaaParse.ParseVaa | lib/pyth-crosschain/algorand/admin.py:1065-1173 | the walk with a running offset reads what the specification reads at fixed offsets from each part |
| VaaRoundTrip.HeaderRoundTrip | lib/pyth-crosschain/algorand/admin.py:1065-1090 | every header field and signature of a generated VAA is read back, for up to 255 signers and any payload |
| VaaRoundTrip.TransferRoundTrip | lib/pyth-crosschain/algorand/gentest.py:337-354 | a generated transfer is recognised and all its fields recovered |
| VaaRoundTrip.AttestRoundTrip | lib/pyth-crosschain/algorand/gentest.py:295-306 | a generated attestation is recognised and all its fields recovered |
| VaaRoundTrip.RegisterChainRoundTrip | lib/pyth-crosschain/algorand/gentest.py:271-293 | a generated registration is recognised and all its fields recovered |
| VaaRoundTrip.UpgradeContents | lib/pyth-crosschain/algorand/admin.py:1111-1122 | what kind a guardian-set payload is taken for, in every case |
| VaaRoundTrip.UpgradeRoundTrip | lib/pyth-crosschain/algorand/gentest.py:214-229 | a generated guardian set's index is recovered, and it is recognised if and only if it is not the case that the index starts with byte 3 and there are seven keys or more |
| VaaRoundTrip.SameMessage | lib/pyth-crosschain/algorand/admin.py:829-835 | client and contract read the same emitter and number; the client's account is the contract's if and only if its division is exact, and otherwise the message cannot be marked with it |
| ContractReads.MessageRead | lib/pyth-crosschain/algorand/wormhole_core.py:328-347 | both contracts identify a generated VAA by its chain, emitter and sequence number and find its payload where it is |
| ContractReads.GeneratedIsSigned | lib/pyth-crosschain/algorand/gentest.py:102-131 | a VAA generated by more than two thirds, and at most the first 32, of a set's guardians carries a quorum of it |
| ContractReads.GeneratedIsAccepted | lib/pyth-crosschain/algorand/wormhole_core.py:365-513 | generated by a quorum of the stored set and submitted by the client, a VAA passes `verifyVAA` |
| ContractReads.UpgradeRead | lib/pyth-crosschain/algorand/wormhole_core.py:217-270 | the core contract reads a generated guardian set's index and stores exactly its count and keys |
| ContractReads.FeeRead | lib/pyth-crosschain/algorand/wormhole_core.py:276-282 | a generated fee message sets exactly that fee and changes nothing else |
| ContractReads.RegistrationRead | lib/pyth-crosschain/algorand/token_bridge.py:267-286 | a generated registration gives an unregistered chain exactly its emitter and changes no other |
| ContractReads.TransferRead | lib/pyth-crosschain/algorand/token_bridge.py:526-561 | the bridge reads a generated transfer's amount, token, receiver, chains and fee, if the amounts fit a word |
| ContractReads.AttestRead | lib/pyth-crosschain/algorand/token_bridge.py:396-418 | the bridge reads a generated attestation's token, chain, decimals capped at eight, name, and symbol cut to eight |
| TokenBridge.Factor | lib/pyth-crosschain/algorand/token_bridge.py:181-187 | defined up to 19 decimals: the number of an asset's own units in one unit of the eighth decimal, and one for assets of fewer decimals |
| BridgeContract.CutAtZero | lib/pyth-crosschain/algorand/token_bridge.py:157-179 | the loop returns the bytes before the first zero |
| BridgeContract.Bridge.Dedust | lib/pyth-crosschain/algorand/token_bridge.py:721-756 | amount and fee in normalised units, or a trap for more than 19 decimals |
| BridgeContract.Bridge.SendTransfer | lib/pyth-crosschain/algorand/token_bridge.py:686-826 | same trap and announcement as `TokenBridge.SendTransfer`; `BridgeAccepts.SendExactly` says when and what |
| BridgeContract.Bridge.Pay | lib/pyth-crosschain/algorand/token_bridge.py:566-654 | the inner payments move what the specification says or trap |
| BridgeContract.Bridge.CompleteTransfer | lib/pyth-crosschain/algorand/token_bridge.py:466-654 | same trap, marks and balances as `TokenBridge.CompleteTransfer`; `BridgeAccepts.ReleaseExactly` and `CompleteExactly` say when and what |
| BridgeContract.Bridge.ReceiveAttest | lib/pyth-crosschain/algorand/token_bridge.py:318-464 | same trap, accounts and new supply as `TokenBridge.ReceiveAttest`; `BridgeAccepts.AttestExactly` says when and what |
| BridgeContract.Bridge.Governance | lib/pyth-crosschain/algorand/token_bridge.py:219-295 | same trap and state as `TokenBridge.Governance`; `BridgeAccepts.BridgeGovernanceExactly` says when and what |
| BridgeContract.Bridge.Submit | lib/pyth-crosschain/algorand/token_bridge.py:972-1031 | a whole group commits exactly as specified or restores every field, balance and page |
| BridgeAccepts.SendExactly | lib/pyth-crosschain/algorand/token_bridge.py:686-826 | `sendTransfer` succeeds if and only if a positive message fee is paid two places in front, the deposit goes from the sender to the asset's account just in front, the relayer's fee is within it, one unit is left, and the arguments fit; it then announces this deposit in units |
| BridgeAccepts.AnnouncementExactly | lib/pyth-crosschain/algorand/token_bridge.py:784-808 | the bytes of the message announced, and when its arguments fit |
| BridgeAccepts.TransferExactly | lib/pyth-crosschain/algorand/token_bridge.py:526-561 | a payload is a transfer to this chain exactly when its bytes say so, and how they are read |
| BridgeAccepts.ReleaseExactly | lib/pyth-crosschain/algorand/token_bridge.py:466-610 | the checks of a release pass if and only if the message is new, verified just in front, from this bridge or the emitter registered for its chain, a transfer to this chain, handed over if it has a payload, and paid from the account of the token it names; and which asset, amounts and accounts result |
| BridgeAccepts.CompleteExactly | lib/pyth-crosschain/algorand/token_bridge.py:466-654 | what is releasable is released if and only if the account paid from has its worth, with a total that fits a word |
| BridgeAccepts.OnlyReleasable | lib/pyth-crosschain/algorand/token_bridge.py:518-522 | nothing else is released |
| BridgeAccepts.AttestExactly | lib/pyth-crosschain/algorand/token_bridge.py:318-464 | an attestation is received if and only if it is new, stands at the end of its five transactions, comes from the emitter registered for its chain, names the account passed and fits in it; and what asset, supply, entry and record result |
| BridgeAccepts.BridgeGovernanceExactly | lib/pyth-crosschain/algorand/token_bridge.py:219-295 | a governance message of the bridge is carried out if and only if it is new, verified in front, under the current set's index, from chain 1 and address 4, for "TokenBridge", and registers a chain not yet registered or orders an update; and which bytes are registered |
| BridgeAccepts.BridgeCallExactly | lib/pyth-crosschain/algorand/token_bridge.py:972-1034 | exactly which calls the bridge accepts, by name, completion and the conditions of each method |
| BridgeAccepts.QuietCalls | lib/pyth-crosschain/algorand/token_bridge.py:969-980 | `nop`, `attestToken` and `optin` change nothing, and an account that opts in is blank |
| BridgeSecurity.RegistryFromGovernor | lib/pyth-crosschain/algorand/token_bridge.py:276-286 | over every run, whatever address is registered for a chain, a committed message of chain 1 and address 4 registered it |
| BridgeSecurity.RegistryStep | lib/pyth-crosschain/algorand/token_bridge.py:283-286 | no call changes a registered address, and only such a message adds one |
| BridgeSecurity.OnlyRegistered | lib/pyth-crosschain/algorand/token_bridge.py:518-522 | over every run, whatever is released or attested was published by the bridge itself (releases only) or by an address that an earlier committed message of the governor registered for its chain |
| BridgeSecurity.ReleasedAsset | lib/pyth-crosschain/algorand/token_bridge.py:563-608 | over every run, what is released is the asset whose id the message carries, for a token of this chain, and otherwise the one asset ever created for that token |
| BridgeTransfers.Dust | lib/pyth-crosschain/algorand/token_bridge.py:741-756 | what is announced is worth at most the deposit and less than one unit is lost |
| BridgeTransfers.FeeSurvivesDedusting | lib/pyth-crosschain/algorand/token_bridge.py:735-750 | a fee within the deposit is within it after both are cut |
| BridgeTransfers.SentIsRead | lib/pyth-crosschain/algorand/token_bridge.py:528-561 | in any envelope, the message of an accepted `sendTransfer` is read back with type, amount, token, receiver, chains and fee, and the receiver's fee check passes |
| BridgeTransfers.SentIsBacked | lib/pyth-crosschain/algorand/token_bridge.py:704-756 | an accepted `sendTransfer` counts the transaction in front as its deposit and rounds away less than one unit |
| BridgeTransfers.NativeComesHome | lib/pyth-crosschain/algorand/token_bridge.py:775-781 | a native asset's message names this chain and the asset's own id |
| BridgeTransfers.PayOutSucceeds | lib/pyth-crosschain/algorand/token_bridge.py:575-654 | a release its account covers goes through and pays the amount less the fee and the fee, times the factor, exactly |
| BridgeRuns.BridgeReplaySafety | lib/pyth-crosschain/algorand/token_bridge.py:936-967 | over every run the bridge receives no message twice, and a bit is set exactly for received messages |
| BridgeRuns.BridgeNeverBlocked | lib/pyth-crosschain/algorand/token_bridge.py:936-967 | after any run a message can be marked if and only if it was not received |
| BridgeRuns.AttestKeeps | lib/pyth-crosschain/algorand/token_bridge.py:420-461 | an attestation keeps every asset account's record and the one id per token |
| BridgeRuns.AttestedForGood | lib/pyth-crosschain/algorand/token_bridge.py:420-461 | over every run a token is given an asset id at most once and the id never changes |
| BridgeRuns.WrappedSentAsOrigin | lib/pyth-crosschain/algorand/token_bridge.py:763-775 | after any run, the address and chain `sendTransfer` reads for a wrapped asset are those of the token the asset was created for |
| BridgeCustody.CustodyConserved | lib/pyth-crosschain/algorand/token_bridge.py:466-826 | over every signed run the account holding a native asset has at least the factor times the outstanding units |
| BridgeCustody.ReleasePays | lib/pyth-crosschain/algorand/token_bridge.py:513-654 | every balance after an accepted release: the message's receiver gets the amount less the fee and the caller the fee, times the factor, also when they are one; the account of the token named loses exactly their sum; all others stay |
| BridgeCustody.FundedReleases | lib/pyth-crosschain/algorand/token_bridge.py:575-654 | with a total that fits a word, a release that passed the checks is accepted if, and for another receiver only if, the account it comes from has the message's worth |
| BridgeCustody.ReturnsArePaid | lib/pyth-crosschain/algorand/token_bridge.py:466-654 | after any run, a message that passes the checks and returns no more of a native asset than is outstanding is accepted by `completeTransfer` |
| BridgeLedger.TotalConserved | lib/pyth-crosschain/algorand/token_bridge.py:466-826 | over every run the sum of all balances of an asset the bridge did not create stays the same |
| BridgeQuorum.VerifyCallProves | lib/pyth-crosschain/algorand/wormhole_core.py:365-513 | a `verifyVAA` call in a committed group proves a quorum of a set in force |
| BridgeQuorum.BridgeNeedsQuorum | lib/pyth-crosschain/algorand/token_bridge.py:489-502 | every release, attestation and governance action of the bridge was signed by a quorum of a set that is current or in its day of grace |
| BridgeQuorum.BridgeGovernedByCurrent | lib/pyth-crosschain/algorand/token_bridge.py:234-246 | what governs the bridge was signed by a quorum of the last set installed, not one in its day of grace |
| BridgeCache.ResponseKeyInjective | lib/chainlink/core/bridges/cache.go:232-234 | different tasks have different keys |
| BridgeCache.AnswersAgree | lib/chainlink/core/bridges/cache.go:71-110 | on distinct names cache and table answer together; with repetitions, exactly when they differ |
| BridgeCache.RepeatedName | lib/chainlink/core/bridges/cache.go:81-94 | a cached name asked for twice: the cache answers, the table refuses |
| BridgeCache.Orm.FindBridges | lib/chainlink/core/bridges/orm.go:66-86 | the table's answer: each name's row once, only if all names exist and are distinct |
| BridgeCache.Cache.FindBridge | lib/chainlink/core/bridges/cache.go:58-69 | the table's row, and the cache stays coherent |
| BridgeCache.Cache.FindBridges | lib/chainlink/core/bridges/cache.go:71-110 | a permutation of the table's rows, exactly when all names exist, none to be looked up is repeated and the table can be reached if it is needed; the cache stays coherent |
| BridgeCache.Cache.DeleteBridgeType | lib/chainlink/core/bridges/cache.go:112-124 | the name leaves the cache unless the table failed, and the cache stays coherent |
| BridgeCache.Cache.CreateBridgeType | lib/chainlink/core/bridges/cache.go:130-139 | table and cache gain the row asked for, with the time of creation, or neither changes |
| BridgeCache.Cache.UpdateBridgeType | lib/chainlink/core/bridges/cache.go:141-149 | table and cache take the old row with the new address, confirmations and minimum payment, or neither changes |
| BridgeCache.Cache.GetCachedResponse | lib/chainlink/core/bridges/cache.go:151-171 | a response of exactly this task from after the time asked for: the cached one if it is that recent, otherwise the database's, which is then cached as it is; no cached response moves back in time |
| BridgeCache.Cache.UpsertBridgeResponse | lib/chainlink/core/bridges/cache.go:173-190 | this task's response is replaced unless the cached one is from later; no other changes |
| BridgeCache.Cache.DoBulkUpsert | lib/chainlink/core/bridges/cache.go:202-214 | the database takes every cached response and keeps its other rows, and moves no row back in time if the cache was not behind |

## Left out

- LocalBlob.WriteRange: says nothing when the range crosses a multiple of 32512 bytes, as `LocalBlob.LocalBlob.Write` below.
- LocalBlob.LocalBlob.Write: says nothing when the range crosses a multiple of 32512 bytes, which no caller does: the contracts write at 0, 8 and 1000.
- Cryptography: Keccak, SHA-512/256, key recovery and signing are uninterpreted; nothing is claimed about collisions or forgery.
- Application update, deletion and clear-state calls, and the bodies of fee payout and message-fee inner transactions.
- The bridge's inner call to the core contract: whether it goes through, the core contract's globals, whether the bridge signs for an asset's creator, and the id of a new asset are inputs of a step.
- BridgeAccepts.BridgeCallExactly: of `attestToken`, which changes no state here, it says only that its inner call must go through; its own checks and its message are not modelled.
- Minimum balances, asset opt-in, closing and clawback transfers, opcode and size limits of the virtual machine, except that byte strings have at most 4096 bytes where it matters.
- The generator and the parser work on hexadecimal text in places; the model works on the bytes. Emitter constants are arguments.
- Address fields longer than 32 bytes are modelled in the generator's padding but the round trips are stated for 32 bytes or fewer.
- The token contract upgrade branch of `parseVAA` is modelled but no generator builds that message.
- Node, wallet and indexer access, argument parsing and compilation in `admin.py`; `simpleVAA`, which uses an undefined variable.
- SQL text, tickers and interleaved goroutines of the cache; a table call that commits but reports a failure.
- Presenters, commands, sessions and the other parts of the repository.
