# ThawGate, modelled and proved in Dafny

ThawGate decides, per token holder, who may be thawed and who may be frozen without asking anyone. A Rust program (the
gate) decides on chain from raw account bytes; a TypeScript service (the keeper) re-implements the rule to find accounts
to freeze; an SDK reads the gate's answer back from transaction logs. This project models those parts and what surrounds
them, and proves that they fit together.

`dafny verify dfyconfig.toml` checks everything.

## How the files follow the program

| file | what it models |
|---|---|
| `Bytes`, `Policy`, `Registry`, `Utf8`, `Attestations` | account bytes and their decoders: the gate's, the keeper's and the transfer hook's, each with its own offsets; `GatePolicy::apply` |
| `Decision`, `Metas`, `Gate` | the decision rule, the extra-accounts list and its resolution, the gate instruction on what Token ACL hands it |
| `KeeperPolicy` | the keeper's rule, and the proof that it is the gate's |
| `HolderIndex`, `IndexRuns`, `Keeper`, `Sweep`, `Resync` | the holder index, its interleavings, one check of a mint, whole sweeps against the chain, reloading the index from the chain |
| `Lines`, `GateLogs`, `Verdicts`, `DataLogs` | log lines, the parser of gate decisions, the verdict of a transaction, the event reader |
| `Freezer` | attempts, runs in flight and their counters |
| `Pool` | the demo pool's swap |
| `ExtraMetas` | `update_policy`, the two list accounts and their rent |
| `Lifecycle` | one token account over time under policy, registry, credential, clock and owner changes |
| `Attestor` | the reserve attestation account and the service that posts to it |
| `Decimal`, `Units` | amounts as text |

## What is proved

* **Mirror.** On every byte string the keeper's readers and rule give the gate's answer, through the list of extra
  accounts that Token ACL resolves. The one exception is stated exactly: a blacklist entry whose reason is not UTF-8.
* **Sweep.** A resync brings any sound and current index in step with the chain. From there a sweep asks, each once, for
  exactly the thawed accounts whose owner the keeper's rule flags; the gate freezes exactly those it flags itself, for the
  reason asked, and refuses only owners whose blacklist reason is not text. Afterwards nothing is freezable, the index
  agrees again, and the next sweep asks for exactly what was refused.
* **Index.** After any interleaving of the halves of `owner()` with policy changes and removals, the index holds exactly
  what a value-level run says, and no tracked holder is missing from the reverse map; without interruptions it is exact
  and current. What an interruption can break, exactness and currency, is stated as equivalences, each with an example.
* **Logs.** Printing any call tree and parsing it back gives the gate's first decision, the innermost failing program and
  whether the gate ran; the decision and the events of a program are read exactly whatever other programs log; a denial
  survives every cut; the freezer's outcome read from a transaction's logs is the gate's answer, and it is said which cuts
  keep it.
* **Lifecycle.** No thaw/freeze ping-pong over any run; time and tightening only ever move an owner one way.
* **Money.** The pool's product never falls over any run and splitting a trade never pays; list accounts sit exactly at
  rent and no lamport is lost.
* **Attestor.** The service posts exactly what the chain would accept and would change; the chain ends with the latest
  report that was not in the future when seen.

## Findings

Where the code does not do what one would like, the exact condition is proved, with an instance that fails it.

* `Registry.NonTextReason`, `Registry.BlacklistReadersAgree`: a blacklist entry with a reason that is not UTF-8 is a
  malformed entry to the gate (it denies both operations) but an active entry to the keeper, which checks no text.
* `KeeperPolicy.VerdictMirror`, `KeeperPolicy.FreezeMirror`: on such an entry the verdict served over HTTP is right if and
  only if another account the policy consults is malformed, and the freeze reason if and only if that or the entry is not
  active and no other rule objects. `KeeperPolicy.NonTextVerdict` is the instance: freezable, or compliant, to the keeper,
  and both operations denied by the gate. `Sweep.SweepTwice` says what it costs: the keeper asks again every sweep.
* `Policy.PolicyDecodersAgree`, `Policy.PolicyDecodersDiffer`: the keeper requires the exact length and reads any bool
  byte other than 1 as false; the gate accepts longer data and refuses such bytes. No account the gate writes is of
  either kind.
* `HolderIndex.StaleFacts`: a policy change between the two halves of `owner()` leaves an owner stored with the old
  policy's addresses, so a revocation under the new policy finds no dependent until the next policy change.
* `HolderIndex.PhantomDependent`: a removal there leaves an owner listed that nobody tracks; `HolderIndex.Commit` states
  when exactness survives.
* `Freezer.RefusedFromCuts`: the freezer passes no error number, so a denial whose decision line was cut away is recorded
  under another code, unlike in `Verdicts.DenialSurvivesCuts`.
* `GateLogs.TextBeforeDecision`, `DataLogs.TextBeforeEvent`: a program that logs `success`, `failed: …` or `invoke [n]`
  closes or buries its own frame for the parser, and for the event reader any text starting with `success` or `failed`
  is enough. What follows is read if and only if the text is none of these. Each shape has its instance
  (`GateLogs.ShapesThatAreNotPlain`, `DataLogs.HarmlessIsStronger`).
* `Verdicts.AllowNeedsItsLine`: a successful transaction keeps its code if and only if the cut keeps the line that tells
  it; cut before that it is `UNKNOWN`, and cut before the gate's frame it is reported as `skipped`, which the SDK words as
  "already frozen" or "already thawed".
* `Units.RoundTripExactly`: a negative amount is shown with a sign that the parser refuses.

## Model

| member | source | states |
|---|---|---|
| Bytes.LeRoundTrip | services/keeper/src/accounts.ts:173-177 | a little-endian integer of any width is read back as the number it encodes |
| Bytes.I64RoundTrip | programs/thawgate-gate/src/sas.rs:82 | every signed 64-bit number survives its eight bytes, negative ones included |
| Registry.BlacklistReadersAgree | services/keeper/src/accounts.ts:187-196 | for all bytes, the keeper's fixed-offset read of a blacklist entry equals the gate's Borsh read if and only if the reason is text or the entry is malformed anyway |
| Registry.AllowlistReadersAgree | services/keeper/src/accounts.ts:198-205 | for all bytes and owners, keeper and gate read an allowlist entry alike |
| Registry.BlacklistFields | programs/thawgate-gate/src/registry.rs:21-30 | where each field of a serialized entry lies, for any reason length |
| Registry.BlacklistRoundTrip | programs/transfer-hook/src/execute.rs:143-159 | a serialized entry of any reason length gives the same active flag in the gate's, the hook's and the keeper's reader |
| Registry.BlacklistTruncation | programs/thawgate-gate/src/registry.rs:66-71 | every truncation of a serialized entry is refused by gate and keeper |
| Registry.NonTextReason | programs/thawgate-gate/src/registry.rs:66-71 | a concrete entry the keeper calls active and the gate malformed |
| Registry.AllowlistRoundTrip | programs/thawgate-gate/src/registry.rs:32-40 | a serialized allowlist entry is read back, and both readers report its active flag |
| Registry.EntryOfAnother | programs/thawgate-gate/src/registry.rs:50-71 | an entry of another program, mint or wallet is malformed to gate and keeper, and one of another mint to the hook |
| Registry.AllowlistOfAnother | programs/thawgate-gate/src/registry.rs:58-78 | the same for an allowlist entry |
| Registry.NoAccountNoEntry | programs/transfer-hook/src/execute.rs:138-143 | no account or an empty one is no entry, and to the hook neither are up to eight bytes |
| Utf8.TextIsAccepted | programs/thawgate-gate/src/registry.rs:21-30 | the UTF-8 encoding of every Unicode text passes Borsh's check |
| Utf8.AcceptedIsText | programs/thawgate-gate/src/registry.rs:21-30 | whatever passes is the encoding of some text |
| Utf8.AnyTextIsRead | programs/thawgate-gate/src/registry.rs:66-71 | an entry with a reason in any language is read alike by gate, hook and keeper |
| Attestations.AttestationRoundTrip | programs/thawgate-gate/src/sas.rs:65-98 | what SAS writes is read by gate and keeper as expired if and only if an expiry is set and past, else too low if and only if a level is asked for and the first data byte is below it, malformed if there is no such byte, and valid otherwise, with anything behind it |
| Attestations.AttestationOfAnother | programs/thawgate-gate/src/sas.rs:49-78 | an attestation of another program, holder, credential or schema is refused by both |
| Attestations.NotAnAttestation | programs/thawgate-gate/src/sas.rs:73 | so is any other account type of SAS |
| Attestations.AttestationTruncation | services/keeper/src/accounts.ts:173-177 | a cut before the expiry ends is refused by both, a later one loses nothing that is read |
| Attestations.NoAttestation | services/keeper/src/accounts.ts:167 | no account or an empty one is a missing credential to both |
| Policy.PolicyRoundTrip | programs/thawgate-gate/src/state.rs:25-49 | every policy the gate stores is decoded unchanged by gate and keeper |
| Policy.PolicyDecodersAgree | services/keeper/src/accounts.ts:79-94 | on which bytes, exactly, the two policy decoders agree |
| Policy.PolicyDecodersDiffer | services/keeper/src/accounts.ts:79-94 | on any stored policy, a trailing byte is read only by the gate and a bool byte of 2 only by the keeper |
| Policy.PolicyRefused | services/keeper/src/accounts.ts:79-82 | exactly which bytes each decoder refuses |
| Policy.PolicyAccount.Apply | programs/thawgate-gate/src/state.rs:64-87 | an update is accepted if and only if the result is well configured, is then exactly the arguments, and otherwise changes nothing |
| Metas.ComputeLayout | programs/thawgate-gate/src/metas.rs:45-60 | the running-index computation gives the closed-form indices |
| Metas.ExtraMetas | programs/thawgate-gate/src/metas.rs:73-116 | the built list is the policy's list, in layout order |
| Metas.ResolutionMatchesLayout | programs/thawgate-gate/src/metas.rs:230-240 | resolving the list left to right puts policy, issuer, registry entries and the SAS group at exactly the indices the layout names and ends at its length |
| Metas.SeedsFit | programs/thawgate-gate/src/metas.rs:97-113 | every seed list of every policy packs within 32 bytes and names only accounts resolved before it |
| Gate.ResolvedDecision | programs/thawgate-gate/src/instructions/gate.rs:47-94 | with the stored list the gate decides from this mint's policy and this owner's canonical accounts, whatever else the caller passes |
| Gate.MissingExtrasDeny | programs/thawgate-gate/src/instructions/gate.rs:52-61 | an allowed operation always had this mint's policy and every account it needs |
| Gate.DenialsBeforePolicy | programs/thawgate-gate/src/instructions/gate.rs:52-61 | exactly when the denial is for missing accounts and when for the policy account |
| Gate.LoadsOwnPolicy | programs/thawgate-gate/src/instructions/gate.rs:96-104 | of the policies the gate writes it loads only its own program's account of this mint |
| Gate.WithoutImmutableOwner | programs/thawgate-gate/src/decision.rs:190-200 | a thaw of well-formed accounts without ImmutableOwner is denied for that, before any flag; a freeze and a malformed account do not ask for it |
| Gate.MalformedDenials | programs/thawgate-gate/src/instructions/gate.rs:66-87 | exactly when a denial names a malformed registry entry and when the credential |
| Decision.AllowCodesExactly | sdk/src/gate/reasons.ts:21-24 | the SDK's thaw codes are exactly the gate's admissions, and a flag has one code in both directions |
| Decision.FlagCodesExactly | sdk/src/gate/reasons.ts:24 | the SDK's flag codes are exactly the gate's flags |
| Decision.DenyCodesExactly | sdk/src/gate/reasons.ts:26 | the SDK's structural codes are exactly the gate's denials before any decision |
| Decision.CodesApart | programs/thawgate-gate/src/decision.rs:82-113 | no two admissions and no two denials share a code |
| KeeperPolicy.CredentialsAgree | services/keeper/src/policy.ts:28-36 | for all bytes, reading now and judging later gives the gate's credential at any clock; what that credential is on written bytes is `Attestations.AttestationRoundTrip` |
| KeeperPolicy.RuleMirror | services/keeper/src/policy.ts:39-62 | on equal reads the keeper's freeze rule names exactly the flag the gate allows a freeze for, and nothing when it denies |
| KeeperPolicy.ReadsMirror | services/keeper/src/policy.ts:18-23 | the keeper's reads of the chain are the gate's reads |
| KeeperPolicy.FreezeMirror | services/keeper/src/policy.ts:39-62 | for all bytes of all accounts, `freezeReason` is r if and only if the gate's freeze is allowed with r, and null if and only if it is denied, when the blacklist reason is text; on any other reason the gate denies, and `freezeReason` is right if and only if another consulted account is malformed or the entry's active byte is not set and no other rule objects |
| KeeperPolicy.VerdictMirror | services/keeper/src/policy.ts:70-84 | on every snapshot, `compliant:c` means a thaw with ImmutableOwner is allowed with c, `freezable:r` a freeze with r and `unknown` neither, if and only if the blacklist reason is text or another consulted account is malformed |
| KeeperPolicy.JudgedExactly | services/keeper/src/policy.ts:70-83 | the verdict is `unknown` if and only if there is no clock, or a read the policy consults is missing or malformed |
| KeeperPolicy.NonTextVerdict | services/keeper/src/policy.ts:70-84 | an entry with reason FF under a blacklist-only policy: freezable or compliant to the keeper, both operations denied by the gate |
| KeeperPolicy.OnChainFreezeMirror | programs/thawgate-gate/src/decision.rs:165-200 | the freeze mirror, both halves, through the accounts Token ACL resolves |
| HolderIndex.PairKeyInjective | services/keeper/src/holders.ts:33 | a pair key determines its mint and owner |
| HolderIndex.MintEntry.UpsertAccount | services/keeper/src/holders.ts:68-72 | records the account and returns its previous state |
| HolderIndex.HolderIndex.ForgetOwners | services/keeper/src/holders.ts:60-65 | drops exactly the mint's own keys from the reverse map, and its owners |
| HolderIndex.HolderIndex.SetMint | services/keeper/src/holders.ts:40-51 | replaces the policy and starts the mint's owners afresh; completeness, exactness and currency of the index are kept |
| HolderIndex.HolderIndex.RemoveMint | services/keeper/src/holders.ts:53-58 | removes the mint and all it listed; the same invariants are kept |
| HolderIndex.HolderIndex.Derive | services/keeper/src/holders.ts:86-93 | the addresses of the current policy, nothing stored |
| HolderIndex.HolderIndex.Commit | services/keeper/src/holders.ts:94-103 | keeps the first derivation; completeness always survives; exactness survives if and only if facts newly stored in a removed entry name no attestation or one the mint's present entry names for the owner; currency if and only if facts newly stored in a live entry fit its present policy |
| HolderIndex.HolderIndex.Owner | services/keeper/src/holders.ts:83-104 | run without interruption, it keeps the index exact and current |
| HolderIndex.HolderIndex.Dependents | services/keeper/src/holders.ts:107-112 | never misses a live owner whose facts name the address; on an exact index it is exactly those |
| HolderIndex.HolderIndex.HasAttestations | services/keeper/src/holders.ts:114-117 | true if and only if some address has a dependent |
| IndexRuns.NeverMissing | services/keeper/src/holders.ts:82-104 | over every interleaving of policy changes, removals, derivations and commits, in any order and repeated, every tracked owner whose facts name an attestation is listed under it |
| IndexRuns.PromptIsExact | services/keeper/src/holders.ts:82-112 | over every run whose commits directly follow their derivations, the listing is exactly the tracked owners and every owner's addresses are those of the present policy |
| IndexRuns.Take | services/keeper/src/holders.ts:40-104 | one step on the index is one step of the value: entries tracked and removed, owners with their addresses, listing and pending derivations |
| IndexRuns.AnyRun | services/keeper/src/holders.ts:35-104 | after any run the index holds exactly the run's value, misses no tracked holder, and is exact and current when nothing interrupted a derivation |
| HolderIndex.StaleFacts | services/keeper/src/holders.ts:94-98 | a policy change while deriving leaves facts of the old policy, and `dependents` of the new address is empty |
| HolderIndex.PhantomDependent | services/keeper/src/holders.ts:94-102 | a removal while deriving leaves a dependent of an untracked mint |
| Keeper.UnconsultedReadsDontMatter | services/keeper/src/policy.ts:40-41 | reads the policy does not consult never change the rule's answer |
| Keeper.TokenAccountRoundTrip | services/keeper/src/accounts.ts:133-139 | every token account in the Token-2022 layout, with any extensions, is read back: mint, owner, amount and state |
| Keeper.TokenAccountRefused | services/keeper/src/accounts.ts:134-136 | exactly the data that is too short, of another account type or in no known state is refused |
| Keeper.Accounts | services/keeper/src/keeper.ts:519-532 | batched by 100, the i-th result is the i-th address's account |
| Keeper.ThawedAccounts | services/keeper/src/holders.ts:74-76 | exactly the owner's thawed accounts, each once |
| Keeper.OwnersWithThawedAccounts | services/keeper/src/holders.ts:78-80 | exactly the owners of thawed accounts, each once |
| Keeper.Keeper.Targets | services/keeper/src/keeper.ts:470-471 | exactly the requested owners that have a thawed account |
| Keeper.Keeper.Plan | services/keeper/src/keeper.ts:476-479 | every address needed to judge the owners is read |
| Keeper.Keeper.UpdateReads | services/keeper/src/keeper.ts:488-490 | the rule on the stored reads is the rule on the chain, at every clock |
| Keeper.Keeper.StillThawed | services/keeper/src/keeper.ts:491-496 | keeps exactly the accounts still thawed on chain, and records what was read |
| Keeper.Keeper.Request | services/keeper/src/keeper.ts:497-510 | one request per still-thawed account, only under a reason |
| Keeper.Keeper.Check | services/keeper/src/keeper.ts:467-513 | the requests are exactly the targeted accounts thawed in index and chain whose owner the rule flags, each once, and the index ends with what was read |
| Sweep.TokenAfterFreeze | services/keeper/src/accounts.ts:133-139 | freezing a set of accounts changes their state and no other account |
| Sweep.DecisionAfterFreeze | programs/thawgate-gate/src/instructions/gate.rs:47-94 | freezing token accounts changes no decision |
| Sweep.GateAnswersStill | services/keeper/src/keeper.ts:501-509 | freezes that land first do not change the gate's answer to a later request |
| Sweep.WantedIsAsked | services/keeper/src/keeper.ts:497-498 | on an agreeing index, a check wants exactly the chain's thawed accounts of the owners the rule flags |
| Sweep.FreezableIsAsked | services/keeper/src/keeper.ts:463-466 | the gate would freeze exactly the asked-for accounts whose owner's blacklist reason is text |
| Sweep.Checks | services/keeper/src/keeper.ts:449-452 | over all mints, the requests are exactly the thawed accounts of flagged owners, each once |
| Sweep.Land | services/keeper/src/keeper.ts:501-512 | every request gets the gate's answer, granted for the reason named or refused with BAD_REGISTRY_ENTRY, and the index follows |
| Sweep.InStepAfter | services/keeper/src/keeper.ts:504-506 | after the freezes the index agrees with the chain again |
| Sweep.SweptClean | services/keeper/src/keeper.ts:449-461 | after the freezes no tracked mint has a freezable account, and what is asked for is what was refused |
| Sweep.SweepTwice | services/keeper/src/keeper.ts:449-513 | on every snapshot the index agrees with, the first sweep freezes exactly the thawed accounts the gate flags and nothing else, leaves none, and the second asks for exactly what the gate refused, nothing if every reason is text |
| Resync.Relist | services/keeper/src/keeper.ts:339-350 | the entry ends with exactly the chain's token accounts of its mint |
| Resync.LoadMint | services/keeper/src/keeper.ts:334-350 | the mint is tracked under the policy and agrees with the chain; its owners start afresh only if the policy changed; other mints are left alone |
| Resync.Run | services/keeper/src/keeper.ts:308-326 | from any sound and current index, exactly the wanted mints with a policy on chain are tracked, in step with the chain |
| Resync.RunThenSweep | services/keeper/src/keeper.ts:308-330 | after a resync and a sweep nothing the gate flags is left thawed on chain, and a second sweep asks only for what was refused |
| Lines.LineKinds | sdk/src/gate/reasons.ts:93-96 | which of the frame patterns a line matches, from its second word and the text after it |
| Lines.LineTg | sdk/src/gate/reasons.ts:96 | only a `log:` line can carry a decision, and it is the first one in its text |
| Lines.InvokeExactly | sdk/src/gate/reasons.ts:93 | INVOKE matches exactly `Program <word> invoke [<digits>]` and captures the word |
| Lines.FailedExactly | sdk/src/gate/reasons.ts:95 | FAILED matches exactly `Program <word> failed: <message>` on one line and captures both |
| Lines.ExitExactly | sdk/src/gate/reasons.ts:94 | EXIT matches exactly that and `Program <word> success` |
| Lines.TgLineExactly | sdk/src/gate/reasons.ts:96 | only `Program log: ` lines carry a decision, that of their text |
| Lines.FirstTgExactly | sdk/src/gate/reasons.ts:96 | it is the leftmost `TG:ALLOW:` or `TG:DENY:` followed by a code, before any line break, with the whole run of capitals and underscores as code |
| Lines.SpacesExactly | sdk/src/gate/reasons.ts:93-96 | white space and line breaks are ECMAScript's, character by character |
| GateLogs.ParseGateLogs | sdk/src/gate/reasons.ts:103-127 | the loop computes the fold of its step |
| GateLogs.FirstWins | sdk/src/gate/reasons.ts:98-102 | later lines never change a decision or failure already seen |
| GateLogs.FrameRuns | sdk/src/gate/reasons.ts:103-127 | a printed frame, at any depth and on any stack, adds exactly what the frame says and leaves the stack as it was |
| GateLogs.ParsePrinted | sdk/src/gate/reasons.ts:98-127 | for every transaction of plain texts: whether the gate ran, its own first decision and no other program's, and the innermost failure |
| GateLogs.OthersCannotImpersonate | sdk/src/gate/reasons.ts:98-102 | with arbitrary log, data and failure texts of all other programs, the decision read is still the gate's own first one and whether the gate ran is exact |
| GateLogs.TextBeforeDecision | sdk/src/gate/reasons.ts:93-95 | for every text a gate frame logs before its decision, the decision is read if and only if the text has none of the frame-line shapes |
| GateLogs.ShapesThatAreNotPlain | sdk/src/gate/reasons.ts:93-95 | `success`, `invoke [n]` and `failed: …` are such shapes |
| Verdicts.ErrorTable | sdk/src/gate/reasons.ts:55-67 | the SDK's table is exactly the gate's numbering: n maps to a code if and only if some denial has that number and code |
| Verdicts.ClassifyGateLogs | sdk/src/gate/reasons.ts:146-176 | the method computes the classification of the parsed logs |
| Verdicts.TgRoundTrip | programs/thawgate-gate/src/decision.rs:82-113 | the logged text of every decision reads back as that decision |
| Verdicts.GateFrameDecision | programs/thawgate-gate/src/instructions/gate.rs:34-45 | a gate frame's first decision is the one its handler logged |
| Verdicts.ThroughTokenAcl | programs/thawgate-gate/src/instructions/gate.rs:1-7 | Token ACL's frame around the gate's, whatever quiet work it does before the call and, on an admission, after it, shows the gate's decision; on a denial it is a denied transaction after any quiet instructions |
| Verdicts.FreezeCallsGate | sdk/src/gate/tokenAcl.ts:39-42 | a freeze that creates the flag account before the gate's call and has Token-2022 freeze after it is such a frame |
| Verdicts.DenialSurvivesCuts | sdk/src/gate/reasons.ts:161-166 | for every line-level cut of a transaction the gate denies with d, and even after an earlier ALLOW of another gate frame, the verdict with d's error number is denied with d |
| Verdicts.AclDenialSurvivesCuts | sdk/src/gate/reasons.ts:161-166 | the same for a call through Token ACL, with any quiet work before the gate's call, after any quiet instructions |
| Verdicts.CutKnowsFailure | sdk/src/gate/reasons.ts:115-116 | a cut knows the failing program if and only if it keeps the first failure line |
| Verdicts.CutKnowsDecision | sdk/src/gate/reasons.ts:121-124 | a cut knows the decision if and only if it keeps the first TG line inside a gate frame, and then it is that line's |
| Verdicts.CutKnowsGate | sdk/src/gate/reasons.ts:109-112 | a cut knows that the gate ran if and only if it keeps the line that opens its first frame |
| Verdicts.AllowNeedsItsLine | sdk/src/gate/reasons.ts:153-160 | there is a line i that opens the gate's first frame and a later line k that tells the ALLOW such that a cut after n lines is skipped for n <= i, UNKNOWN for i < n <= k and the code for n > k, whatever other programs log |
| Verdicts.DecisionNeedsGate | sdk/src/gate/reasons.ts:111-124 | no decision is ever taken from logs in which the gate was not invoked |
| Verdicts.VerdictsExactly | sdk/src/gate/reasons.ts:152-175 | every verdict, on every transaction of plain texts, from whether it succeeded, whether the gate ran, its decision, the innermost failure and the error number |
| Verdicts.AnothersFailureIsAnothers | sdk/src/gate/reasons.ts:164-173 | an error number is ignored when another program is the one that failed |
| DataLogs.ProgramDataLogs | services/keeper/src/accounts.ts:229-243 | the loop computes the fold of its step |
| DataLogs.LooksClosedExactly | services/keeper/src/accounts.ts:236 | the closing test takes exactly the lines that go on with `success` or `failed` after `Program <word> ` |
| DataLogs.DataOfPrinted | services/keeper/src/accounts.ts:228-243 | exactly the payloads the program emitted in its own frames, in order, for every printed call tree of harmless texts |
| DataLogs.OthersCannotForge | services/keeper/src/accounts.ts:228-243 | the same with arbitrary texts of all other programs |
| DataLogs.TextBeforeEvent | services/keeper/src/accounts.ts:233-239 | for every text a frame logs before an event, the event is returned if and only if the text is not of invoke shape and starts with neither `success` nor `failed` |
| DataLogs.HarmlessIsStronger | services/keeper/src/accounts.ts:236 | every text harmless to the event reader is plain to the decision parser, and `successful` shows the converse fails |
| Freezer.OutcomeFromLogs | services/keeper/src/freezer.ts:62-79 | from the logs of any transaction in which the gate's first decision is v, whatever other programs do and log, the freezer's outcome is v's: its reason, compliant, or the denial's code |
| Freezer.OutcomeThroughTokenAcl | services/keeper/src/freezer.ts:188-196 | in particular for a call through Token ACL with work before and after the gate's call |
| Freezer.FrozenFromCuts | services/keeper/src/freezer.ts:229-240 | from a cut after n lines of a landed freeze the outcome carries the gate's reason if and only if n passes the decision's line; before it the reason is UNKNOWN, before the gate's frame "already frozen" |
| Freezer.RefusedFromCuts | services/keeper/src/freezer.ts:215-219 | from a cut after n lines of a denied freeze the outcome is the gate's denial if and only if n passes the decision's line; otherwise it is the first failing program's, or unknown |
| Freezer.FrozenMeansConfirmed | services/keeper/src/freezer.ts:225-243 | `frozen` and `already_frozen` are reported only for a transaction confirmed without error |
| Freezer.RetriedExactly | services/keeper/src/freezer.ts:206-226 | an attempt is retried if and only if it threw, expired, or failed to send without logs that show a failed program |
| Freezer.RunAttempts | services/keeper/src/freezer.ts:167-186 | at most five attempts, each before the last retried; the outcome is the conclusive attempt's, or the fifth one's error |
| Freezer.DeniedPreflight | services/keeper/src/freezer.ts:215-219 | a preflight the gate denied ends the run at once with the gate's answer, a compliant owner included |
| Freezer.ConfirmedWithDecision | services/keeper/src/freezer.ts:225-243 | a confirmed transaction ends the run with the decision its logs tell |
| Freezer.ConfirmedWithoutGate | services/keeper/src/freezer.ts:238-239 | one that landed without calling the gate is already frozen |
| Freezer.ConfirmedWithoutLogs | services/keeper/src/freezer.ts:229-234 | one whose logs are not served is frozen, or refused, for an unknown reason |
| Freezer.FailedOutsideGate | services/keeper/src/freezer.ts:76-77 | a failure outside the gate ends the run naming the innermost failing program and its message |
| Freezer.Freezer.Freeze | services/keeper/src/freezer.ts:126-138 | joins the live run of a token account or starts the only one |
| Freezer.Freezer.Settle | services/keeper/src/freezer.ts:140-165 | an outcome is recorded once, and every caller of the run sees it |
| Freezer.Freezer.Finish | services/keeper/src/freezer.ts:135 | the token account may be tried again, nothing else changes |
| Freezer.AnyInterleaving | services/keeper/src/freezer.ts:126-165 | any interleaving of requests, outcomes and ends leaves the value-level run, and two requests for a token account were handed the same run if and only if no run of it ended between them |
| Freezer.EveryRunCounted | services/keeper/src/freezer.ts:126-165 | over every interleaving, runs started are the recorded outcomes plus the live runs without one |
| Freezer.CountersExactly | services/keeper/src/freezer.ts:140-165 | every counter counts the runs that ended its way, by reason, by kind of skip, by code cut to 64 characters, and failures |
| Freezer.SharedUntilEnd | services/keeper/src/freezer.ts:126-138 | requests share a run if and only if no run of their token account ended between them |
| Freezer.OutcomeIsShared | services/keeper/src/freezer.ts:129-137 | every request handed a run before its outcome arrives gets that first outcome, for good |
| Pool.FeeIsExact | programs/demo-pool/src/lib.rs:96 | the input net of the fee is the largest amount not above (10000 - fee) / 10000 of it |
| Pool.OutIsExact | programs/demo-pool/src/lib.rs:92-100 | for a net input, the output is the exact floor: one more unit would break the product bound; it is below the reserve |
| Pool.QuoteIsLargest | programs/demo-pool/src/lib.rs:92-100 | in reserves, input and fee alone: the quote is the largest output the net input pays for, and there is none exactly when a side is empty or not one unit can be paid |
| Pool.InitPool | programs/demo-pool/src/lib.rs:35-55 | a fee above 1000 is refused, otherwise the pool starts with two empty vaults |
| Pool.NothingLost | programs/demo-pool/src/lib.rs:94-100 | neither the u128 product nor the u64 cast loses a bit |
| Pool.ProductKept | programs/demo-pool/src/lib.rs:72-100 | a swap never lowers the reserve product and never empties a side |
| Pool.SplittingLoses | programs/demo-pool/src/lib.rs:73-100 | for all reserves, fees and inputs, two trades in a row never return more than one of their sum, which trades too |
| Pool.MoreInMoreOut | programs/demo-pool/src/lib.rs:94-100 | a larger input that fits the vault gives at least as much |
| Pool.SplittingNeverPays | programs/demo-pool/src/lib.rs:73-100 | the same when either part, or both, fail to trade |
| Pool.RunKeepsProduct | programs/demo-pool/src/lib.rs:58-100 | over every run of swaps, deposits and transfers in, the product never falls and no side is lost; if one vault ends no higher, the other ends no lower |
| Pool.ThereAndBack | programs/demo-pool/src/lib.rs:73-89 | selling and selling back never returns more than was put in |
| Pool.Transfer | programs/demo-pool/src/lib.rs:139-151 | moves the amount or nothing; refused for a wrong authority, a frozen side, too little or too much |
| Pool.Pool.Deposit | programs/demo-pool/src/lib.rs:58-70 | both transfers or neither, and exactly when they succeed |
| Pool.Pool.Swap | programs/demo-pool/src/lib.rs:73-89 | takes the modelled step with the quote of `QuoteIsLargest`, meets the user's minimum, conserves each token, and fails with exactly the first obstacle and no change |
| ExtraMetas.Write | programs/thawgate-gate/src/metas.rs:148-204 | exactly the rent for a gate-owned account, the larger of rent and balance for a new one, lamports conserved; exactly when it fails |
| ExtraMetas.ListFillsAccount | programs/thawgate-gate/src/metas.rs:159-160 | every policy's list, packed as one TLV entry of 35-byte metas, fills exactly the size its account is given |
| ExtraMetas.Gated.UpdatePolicy | programs/thawgate-gate/src/instructions/update_policy.rs:40-53 | only the authority, only a valid policy, and then both lists match it; all or nothing |
| ExtraMetas.Gated.Updates | programs/thawgate-gate/src/instructions/update_policy.rs:1-2 | over any sequence of calls on gate-owned accounts with any balances, the books follow the calls, lamports are conserved, and from the first success on the lists match the stored policy and both accounts are at exactly their rent |
| Lifecycle.AllowedExactly | programs/thawgate-gate/src/decision.rs:190-200 | a freeze is allowed if and only if accounts are well formed and some policy objects; a thaw if and only if none does and the account has ImmutableOwner |
| Lifecycle.TimeOnlyTightens | programs/thawgate-gate/src/sas.rs:84-97 | for fixed bytes, malformed ones included, freezability only grows with time and thaw admission only shrinks |
| Lifecycle.TighteningTightens | programs/thawgate-gate/src/decision.rs:4-7 | a tighter policy never allows a thaw the looser one refused, and a freezable owner stays freezable if and only if the accounts it consults are well formed |
| Lifecycle.AllowlistAccount.Add | programs/sss-token/src/instructions/allowlist.rs:55-71 | refused on an active entry, otherwise writes a fresh active entry |
| Lifecycle.AllowlistAccount.Remove | programs/sss-token/src/instructions/allowlist.rs:111-122 | refused on an inactive entry, otherwise only clears the flag |
| Lifecycle.AddIsSeen | programs/sss-token/src/instructions/allowlist.rs:40-71 | the gate reads an added wallet as active; a second addition changes nothing |
| Lifecycle.FirstAddition | programs/sss-token/src/instructions/allowlist.rs:40-62 | a first addition creates the entry and is read as active; an account of another program there refuses it |
| Lifecycle.RemoveIsSeen | programs/sss-token/src/instructions/allowlist.rs:101-122 | the gate reads a removed wallet as inactive; a second removal changes nothing |
| Lifecycle.ReaddingRestores | programs/sss-token/src/instructions/allowlist.rs:54-62 | an entry removed and added again is active again and holds what the first addition wrote |
| Lifecycle.ChangesAreJustified | programs/thawgate-gate/src/decision.rs:190-200 | through the resolved accounts, a permissionless thaw happens only with ImmutableOwner and no objection, a freeze only with one, and nothing else moves the flag |
| Lifecycle.CallsExactly | programs/thawgate-gate/src/instructions/gate.rs:34-45 | a permissionless call succeeds exactly when its account is in the other state and the facts are for it |
| Lifecycle.UpdatesAreRead | programs/thawgate-gate/src/instructions/update_policy.rs:40-43 | an accepted update is what the gate reads from then on, any other changes nothing |
| Lifecycle.NoPingPong | programs/thawgate-gate/src/decision.rs:4-7 | over every run from every state the account flips at most once more often than the facts about its owner change |
| Lifecycle.TimeFreezesOnce | programs/thawgate-gate/src/sas.rs:84-90 | while only time passes an account is thawed at most once, then frozen at most once and for good |
| Lifecycle.AdmittedOwnerStays | programs/thawgate-gate/src/instructions/gate.rs:106-116 | an account the gate thawed keeps the owner that was admitted, over every run |
| Attestor.ReasonsExactly | services/attestor/src/attestor.ts:33-43 | each reason to post or not holds under its own condition, whatever the order of the tests |
| Attestor.LandsExactly | programs/sss-token/src/instructions/reserves.rs:151-159 | which posts the chain accepts, and that another signer is refused as such |
| Attestor.DecideMirrorsChain | services/attestor/src/attestor.ts:32-43 | the service posts if and only if the chain would accept the report and it would change what the chain says |
| Attestor.LatePost | programs/sss-token/src/state/reserve_attestation.rs:104-108 | a decision read off an earlier state is refused if and only if the attestor changed or a newer report landed meanwhile |
| Attestor.ReserveAttestation.SetAttestor | programs/sss-token/src/instructions/reserves.rs:77-109 | another attestor starts from the zero report, the same one keeps its own |
| Attestor.ReserveAttestation.Attest | programs/sss-token/src/instructions/reserves.rs:151-171 | replaces the whole report or nothing; the measured time never falls |
| Attestor.RunTick | services/attestor/src/attestor.ts:60-87 | a tick posts at most once, and an undisturbed post is accepted |
| Attestor.RunTicks | services/attestor/src/attestor.ts:60-71 | over any reports the account follows `Settled` and only changing reports are posted |
| Attestor.SettledIsLatest | services/attestor/src/attestor.ts:36-42 | the chain ends with the last of the newest reports that were not in the future when seen |
| Attestor.Winner | services/attestor/src/attestor.ts:36-42 | such a report exists unless no tick was eligible |
| Attestor.RepeatsChangeNothing | services/attestor/src/attestor.ts:38-41 | polling the settled report, or older ones, again posts nothing |
| Units.ParseExactly | frontend/src/lib.ts:73-77 | for every text: accepted if and only if, without commas, underscores and white space, it is digits, optionally a dot and 1 to `decimals` digits, and then worth exactly that; more decimals are refused |
| Units.ShownExactly | frontend/src/lib.ts:63-70 | for every amount: the sign, the whole without leading zeros and grouped, and a dot and fraction exactly if there is one, never ending in a zero |
| Units.GroupedExactly | frontend/src/lib.ts:69 | commas stand at every fourth place from the right and nowhere else |
| Units.UnitsRoundTrip | frontend/src/lib.ts:64-77 | what is shown parses back to the same amount, for every non-negative amount and number of decimals |
| Units.RoundTripExactly | frontend/src/lib.ts:64-77 | the round trip holds if and only if the amount is not negative |

## Left out

- Program addresses, PDA derivation and the curve test are fields of a `World` value that theorems quantify over, so nothing depends on how they are computed. Where distinctness is needed (`Sweep`, `Lifecycle.AddIsSeen`) it is a stated condition.
- base58: a pair key is built from a stand-in rendering of an address that is injective and free of `|`.
- HolderIndex.HolderIndex.Dependents: returns a set, because the order of a JavaScript set is not modelled; the same goes for the order of owners and accounts in a check.
- Keeper.Keeper.Check: runs on one snapshot of chain and clock. The awaits inside a check, policy changes during it and nodes that are behind are not modelled; `IndexRuns.AnyRun` covers what interleaving does to the index.
- Sweep.SweepTwice: the chain stands still but for the freezes asked for, and checks of several mints run one after another.
- Resync.Run: every gate account that reads as a policy is taken to be one the gate wrote at its address, no wanted policy names Token-2022 as its issuer, and the index is current to begin with. The wanted mints are a parameter, standing for the configuration and Token ACL's mint settings; streams are left out.
- Keeper.Keeper.Request: trigger labels, log lines and latencies are left out.
- Freezer.RunAttempts: what the cluster answers is a parameter; sleeps, blockhash caching, the retry counter and the per-mint account cache are left out.
- Freezer.Freezer.Settle: the trigger label of the freeze counter is left out.
- GateLogs.ParsePrinted: excludes logged texts of the three shapes the patterns take for frame lines, and failure messages with line breaks, because any program that logs one can be named as the failing one; for the decision and whether the gate ran only the gate's own frames need this (`GateLogs.OthersCannotImpersonate`).
- DataLogs.ProgramDataLogs: returns the base64 text of each payload; decoding it, and `decodeIssuerEvent`, are left out.
- Verdicts.ClassifyGateLogs: the human sentence of a verdict is left out.
- Gate.ResolvedDecision: whether the token account has ImmutableOwner is a boolean; the token extension bytes are not parsed.
- ExtraMetas.Write: lamports are unbounded; the byte layout of a list (`PackList`) is the TLV library's, and rent is any function of the length. The address check of the list accounts is left out.
- Lifecycle.Next: issuer roles, feature flags and the freeze authority's own thaws and freezes are left out; a call that is refused is a step that changes nothing. Blacklist, attestation and closing steps are arbitrary writes to accounts other than the policy.
- Attestor.RunTick: the attestation and the clock are read in one step; `LatePost` covers what changes before the post lands. Report files, signing and confirmation are left out.
- Attestor.ReserveAttestation.Attest: report links are compared as bytes.
- Pool.Pool.Swap: mints are not modelled beyond which side an account is on; vault creation only sets the starting state.
- Units.UnitsRoundTrip: the en-US grouping of `toLocaleString` is written out as commas every three digits.
- The keeper's resync request flag: a request that arrives between the loop's last test and its end waits for the next periodic pass, so there is no clean statement to prove.
- RPC, websockets, transaction building, Prometheus, the compliance service and indexer, the command line, the frontend's pages and the issuer's mint, burn, seize and reserve checks: plumbing, or easy members.
