# Verification of the Ledger Zcash signer

This project models the hardest logic of a hardware-wallet signer for Zcash and proves
properties of it for every input, every run and every reachable state. `dafny verify
dfyconfig.toml` checks all of it.

## What is modelled

**The signing session** (`SigningSpec.dfy`, `LegacyRuns.dfy`, `ReadingRuns.dfy`,
`Transaction.dfy`, `PcztState.dfy`, `PcztDraft.dfy`, `PcztInvariant.dfy`, `LegacyState.dfy`,
`Instructions.dfy`, `FieldSteps.dfy`, `FieldProofs.dfy`, `SigningSession.dfy`,
`SessionWitnesses.dfy`). An arbitrary sequence of instructions drives one shared transaction
context through two competing protocols, PCZT and legacy. `SigningSession` models the context
as a class with one method per instruction, the section parsers field by field, and the
command loop with its reset on error and its swap-mode exit. The host chooses every
instruction and every payload field; the answers of the user, of the check against the
Exchange request and of the secure element are arbitrary too. Every transition appends an
event to a log.

Three descriptions meet in it. `FieldSteps` says of each payload field in which state it is
accepted and what it then changes and logs, in the values the field carries; a packet is a
chain of such steps, and `Handle` states the outcome of every instruction in its own
arguments. `SigningSpec` is an independent monitor over logs: it knows only resets, values
read, recorded inputs, outputs and actions, approvals and released signatures. The class
invariant `Valid()` ties every counter, flag, record and streamed hash of the context to the
monitor, and `NormalMain` proves that the log of every run is accepted. `Instructions` says
which events an instruction may log and with which of its arguments; `NormalMain` also splits
the log of a run into the turns of its instructions and shows that a signature is released
exactly when the host asks for a slot that, by the log so far, awaits one.

What acceptance means for a whole run is then proved about logs alone: one epoch for all swap
signatures, review before signature, no slot signed twice, no dummy signed, completion
reported exactly, the change account obeyed, hidden outputs returning to the signing account
and at most one of them, no legacy packet inside a PCZT, records that decode to the values
read, the approved fee equal to everything that enters the transaction less everything that
leaves it, and every signature over the digest of exactly the inputs and outputs that were
approved.

**Montgomery arithmetic** (`Montgomery.dfy`). The 4x64-bit multiplication, reduction and
conditional subtraction with the real moduli, R2 and INV, against plain integers; words are
bounded types, so absence of overflow is part of every proof.

**Curve and commitment algebra** (`PrimeFields.dfy`, `IsoPallas.dfy`, `SimplifiedSwu.dfy`,
`PallasGroup.dfy`, `PallasPoints.dfy`, `Sinsemilla.dfy`, `RedPallas.dfy`,
`ValueCommitment.dfy`, `NoteMessage.dfy`). Field elements are integers modulo p up to
congruence; the Jacobian formulas are proved against the affine chord and tangent law, the
simplified SWU map against section 6.6.2 of RFC 9380, Sinsemilla against section 5.4.1.9,
RedPallas against the verification equation of section 5.4.7 and value commitments against
section 5.4.8.3 of the Zcash protocol specification.

**The signature digest** (`SignatureDigest.dfy`, `DigestLayout.dfy`, `SignedContent.dfy`), sections T.1 and S.2
of ZIP 244 and ZIP 229. A 32-byte hash is not injective, so binding is proved by extraction:
equal digests give equal contents, or two different hash queries with the same digest.
`SignedContent` adds the component hashes the session streams, and joins both: a digest
signed in a session binds the transparent inputs and outputs its review was about.
`DigestLayout` reads every node of the digest tree back byte by byte: the personalization as
text, and each field at its position as the integer or hash it stands for.

**Smaller stateful parts**: derivation paths (`Paths.dfy`), the memo budget
(`MemoBudget.dfy`), the spending-key cache and the derivation budget (`KeyCache.dfy`), and
chunked viewing-key delivery (`VkDelivery.dfy`). The last two are proved equal to a log
computed from the requests alone.

## Assumptions

They appear as preconditions, never as axioms.

- The Pallas base field is a field (`PrimeFields.Field.Prime`), ROOT is not a square and
  the product of two non-squares is a square; the field library inverts and takes roots
  correctly (`SimplifiedSwu.Library.Correct`). The remaining facts about A, B, Z, THETA and
  the exceptional point are proved from the numbers.
- The points form a commutative group annihilated by the order, and the secure element's
  point and big-number calls do what `PallasPoints.Sdk.Correct` says: in particular
  `modAdd` may leave its result unreduced, no point has x = 0 and none has order two.
- H^star, BLAKE2b and the secure element's answers are otherwise arbitrary functions.

Where documentation and code differ the code is followed, at two places.

- docs/APDU.md:85-91 and src/tx.rs:217-223 promise that an output kept off the review
  returns to the account being spent. The legacy CHANGEINFO packet may be repeated while
  outputs are still arriving, and the last one replaces the account.
  `SessionWitnesses.RedeclaredChange` gives the run, for any two change paths, that hides an
  output under one account and releases a signature under the other.
  `LegacyRuns.HiddenOutputReturnsExactly` gives the condition: the output returns exactly
  when the last CHANGEINFO of the transaction names the account it was hidden under. In a
  PCZT session the promise holds (`SigningSpec.HiddenOutputsReturn`).
- `is_transparent_inputs_finished` leaves out the state that waits for an output script.
  `PcztInvariant.InputsFinishedExactly` says that this is the only state in which it denies
  that the inputs are read, and `SessionWitnesses.InputsReportedUnfinished` gives the packets
  that lead there and the refusal that follows.

## Model

| member | source | states |
|---|---|---|
| SigningSession.NormalMain | src/main.rs:466-547 | for any instruction sequence the log of the run is accepted by the monitor, its digests are those of its contents, and it falls into the turns of the instructions; a signature is for the slot the instruction of its turn names, and one is released exactly when the host asks for a slot that by the log so far awaits it; in swap mode the first error ends the run with false, and a signature that completes its transaction is the last event and ends the run with true; otherwise the loop never ends |
| SigningSession.TxContext.Handle | src/main.rs:550-616 | the outcome of every instruction in its own arguments: when it succeeds, what it changes and which events it logs; every instruction keeps the log accepted, and keeps the invariant unless a transaction instruction failed; it completes at most one transaction, by its last event, and then the context is finished; a context becomes finished only that way |
| SigningSession.TxContext.Serve | src/main.rs:466-547 | one turn of the loop: the instruction logs only what belongs to it, a transaction instruction that fails ends with a reset, and the context is valid again, except in swap mode when the run ends there |
| Instructions.EventsAreCaused | src/main.rs:550-616 | every event of a run carries the arguments of the instruction served when it was logged; the one exception is the reset that ends a failed turn |
| Instructions.SignatureWasAskedFor | src/main.rs:587-597 | a PCZT signature of a run is for the input or the action of the pool that the instruction of its turn names, and is all that turn logged |
| Instructions.InputSignedExactly | src/handlers/pczt.rs:247-334 | a request for a transparent signature succeeds exactly when by the log so far that input awaits its signature, and then logs exactly this signature |
| Instructions.ActionSignedExactly | src/handlers/pczt.rs:336-509 | a request for a shielded signature succeeds only when by the log so far that action of that pool awaits its signature, and then it does whenever its key can be derived |
| Instructions.DeclaredByHeader | src/parser/legacy/mod.rs:373-378 | the number of inputs on record for a legacy transaction to sign is the one in the header of its first packet |
| SessionWitnesses.OrchardOnlySpend | src/parser/pczt/orchard.rs:540-625 | in either mode and for any V5 header, any spend and an output no larger the run that spends one Orchard note is approved with the remaining fee and released with the signature of that action |
| SigningSession.TxContext.Reset | src/tx.rs:357-370 | one reset event, a fresh context with a fresh legacy parser, the released-signature flag kept |
| SigningSession.TxContext.ResetForNewTransaction | src/tx.rs:381-389 | refuses exactly when a signature was already released in swap mode |
| SigningSession.TxContext.HandlePcztHeader | src/handlers/pczt.rs:72-95 | succeeds exactly for a well-formed header while a new transaction may start, and then it is a reset followed by a new PCZT session that starts with the fields of that header |
| SigningSession.TxContext.StartSession | src/parser/pczt.rs:619-657 | the session starts with version, branch, locktime and expiry of the header, empty lists and zero bundle digests |
| SigningSession.TxContext.ParseSection | src/parser/pczt.rs:659-883 | the fields of a packet are taken in turn, each exactly as its section and state accept it, up to the first that is not; a parser without a session refuses any field |
| SigningSession.TxContext.Dispatch | src/parser/pczt.rs:659-883 | a field is taken by the section its packet belongs to exactly when it is accepted in the current state there, with the effect stated for it; a state of another section refuses it |
| FieldProofs.ChainLogged | src/parser/pczt.rs:659-883 | every event logged while a packet is taken has a field of that packet behind it, with the values the field carries |
| SigningSession.TxContext.HandlePcztSection | src/handlers/pczt.rs:97-245 | a packet succeeds exactly when all its fields are taken and what it asks for at its end holds: its section read if it is marked last, the PCZT ready to sign if it carries the finish flag |
| SigningSession.TxContext.FinishPczt | src/parser/pczt.rs:885-899 | succeeds exactly when the PCZT is parsed and its outputs reviewed |
| SigningSession.TxContext.InputsStart | src/parser/pczt/transparent.rs:10-55 | succeeds exactly for a count of at most 32 that ends its packet; the count becomes the number of signatures expected and an empty list closes at once |
| SigningSession.TxContext.InputHead | src/parser/pczt/transparent.rs:95-153 | succeeds exactly for a well-formed head that ends its packet; outpoint, sequence and amount of the field are the current input's and grow their hashers byte by byte, and the amount enters the total without saturation ever losing value |
| SigningSession.TxContext.InputScript | src/parser/pczt/transparent.rs:215-286 | exactly when a script part is accepted: at most 252 bytes in all, a complete one of the accepted form ending its packet; the parts are gathered in order, and the whole of it enters the scripts hasher once after its length |
| SigningSession.TxContext.InputDerivation | src/parser/pczt/transparent.rs:352-446 | succeeds exactly for a compliant path that ends its packet, and records exactly one more unsigned input with the data read for it |
| SigningSession.TxContext.OutputsStart | src/parser/pczt/transparent.rs:57-93 | succeeds exactly for a count of at most 10 that ends its packet; an empty list closes at once |
| SigningSession.TxContext.OutputHead | src/parser/pczt/transparent.rs:155-189 | succeeds exactly for an amount in range that ends its packet; its eight bytes decode to the field's amount and enter the hasher, and it enters the total without saturation ever losing value |
| SigningSession.TxContext.RecordChangeAccount | src/parser/pczt.rs:116-136 | succeeds exactly when the path names an account and none, or the same, was recorded |
| SigningSession.TxContext.OutputDerivation | src/parser/pczt/transparent.rs:619-734 | exactly when the end of an output is accepted: a declared change path must be compliant, match its key and name the recorded account, a hidden script needs its own path and is the only one; the account is logged first, then the output with the path it is hidden under |
| SigningSession.TxContext.FinishOutput | src/parser/pczt/transparent.rs:736-786 | a second hidden output is refused, nothing else; otherwise the output joins the review |
| SigningSession.TxContext.ActionsStart | src/parser/pczt/orchard.rs:20-82 | a bundle starts exactly within bounds, Ironwood only in a V6 transaction; an empty bundle closes at once, with its review unless that is deferred |
| SigningSession.TxContext.ActionHead | src/parser/pczt/orchard.rs:85-163 | succeeds exactly for a spend in range that ends its packet, and fixes the spend of the action as the one in the field |
| SigningSession.TxContext.ActionOutput | src/parser/pczt/orchard.rs:165-197 | the output fields of an action only move it on |
| SigningSession.TxContext.CiphertextPart | src/parser/pczt/orchard.rs:259-343 | ciphertext parts move an action on when the ciphertext is complete, and change nothing else |
| SigningSession.TxContext.SpendingKey | src/parser/pczt.rs:540-556 | succeeds exactly for the cached path, or for any path when none is cached and derivation succeeds |
| SigningSession.TxContext.Zip32Derivation | src/parser/pczt/orchard.rs:1064-1149 | succeeds exactly for a compliant path that is the session's key path, or the first one and derivable, and for a real spend whose key matches; the path becomes that of the action, whose spend is left alone |
| SigningSession.TxContext.FinishAction | src/parser/pczt/orchard.rs:540-625 | exactly when the end of an action is accepted, by the key that recovered its output: an internal one must be the only change and name the recorded account, an external one fits the display budget, a dummy is worth nothing, anything else is refused; the events logged are the account of an internal output, then the action |
| SigningSession.TxContext.RecordAction | src/parser/pczt/ironwood.rs:566-640 | refused exactly when a sum would overflow; otherwise one action event |
| SigningSession.TxContext.ParseTrailer | src/parser/pczt/orchard.rs:961-989 | succeeds exactly when the signed balance of the trailer is the spends less the outputs and the bundle may close; the digest of the bundle is the trailer's |
| SigningSession.TxContext.FinalizeActions | src/parser/pczt/ironwood.rs:1282-1300 | a V6 Orchard bundle defers the review, every other close runs it; exactly when it is accepted |
| SigningSession.TxContext.ReviewOutputs | src/parser/pczt/common.rs:101-177 | succeeds exactly when there are outputs, the fee is in range and whoever decides in this mode agrees, and logs exactly one approval, of the fee and of the content whose hashes are in place; a refusal at the screen is told apart |
| SigningSession.TxContext.HandleSignTransparent | src/handlers/pczt.rs:247-334 | succeeds exactly for an unsigned input of a finished PCZT whose path matches the change account, by the state and equally by the log so far, and then releases exactly one signature, for that input under its path and over the approved content; failure logs nothing |
| SigningSession.TxContext.HandleSignAction | src/handlers/pczt.rs:336-509 | the same for an action of either pool, only for a real spend, and only with the key of its path; by the log it never fails for want of that key when it can be derived |
| SigningSession.TxContext.CheckAction | src/parser/pczt/orchard.rs:1151-1216 | passes exactly an existing, unsigned, real spend of a finished PCZT whose path matches the change account |
| SigningSession.TxContext.CheckInput | src/parser/pczt/transparent.rs:565-594 | passes exactly an existing, unsigned input of a finished PCZT whose path matches the change account |
| SigningSession.TxContext.InputDigest | src/parser/pczt/transparent.rs:518-563 | the digest of an input is that of the approved content in the mode of this input |
| SigningSession.TxContext.ShieldedDigest | src/parser/pczt/ironwood.rs:1207-1217 | the digest of an action, cached or computed, is the shielded digest of the approved content |
| PcztInvariant.SignInputKeepsInv | src/handlers/pczt.rs:9-19 | after one more input signature the counters say done exactly when every slot is signed |
| PcztInvariant.SignActionKeepsInv | src/parser/pczt/orchard.rs:1240-1269 | after one more action signature the counters say done exactly when every slot is signed |
| PcztInvariant.DoneDecides | src/parser/pczt/ironwood.rs:1250-1280 | the completion predicates hold exactly when all inputs and all real spends of both pools are signed |
| PcztInvariant.SlotsOfSession | src/parser/pczt.rs:608-617 | a PCZT is finished exactly when the monitor says so, its records are the monitor's slots, and a key cached then is the one at the path of all actions |
| SigningSpec.ActionsShareTheirPath | src/parser/pczt.rs:540-556 | every real spend of a run is signed under the one path of all actions of its epoch |
| PcztInvariant.ActionKeepsInv | src/parser/pczt/orchard.rs:580-625 | recording an action keeps the whole session invariant, for either pool and every treatment of its output |
| PcztInvariant.ReviewKeepsInv | src/parser/pczt/common.rs:111-121 | the fee computed from the value balances is the net value of everything parsed |
| PcztInvariant.InputsFinishedExactly | src/parser/pczt.rs:576-587 | the inputs are reported finished exactly when they are read and the state is not the one that waits for an output script |
| SessionWitnesses.InputsReportedUnfinished | src/handlers/pczt.rs:97-128 | with all inputs read and an output amount just in, an empty last packet of inputs is refused as too short |
| PcztDraft.InputKeepsDraft | src/parser/pczt/transparent.rs:416-446 | with each input the hashers hold exactly the recorded inputs, and with the last one the four input hashes cover them |
| PcztDraft.OutputKeepsDraft | src/parser/pczt/transparent.rs:736-786 | with each output the hasher holds exactly the recorded outputs, and with the last one the outputs hash covers them |
| SigningSession.TxContext.ParseLegacy | src/parser/legacy/mod.rs:211-289 | a packet outside a PCZT is taken exactly as its fields call for, and fixes the number of inputs to sign as the one in the header that starts the first round |
| LegacyState.ReadRound | src/parser/legacy/mod.rs:211-289 | the loop computes the round after all fields: when the packet is accepted, in which state it leaves the parser and which number of inputs it fixes are read off the fields |
| LegacyState.RoundFromFields | src/parser/legacy/mod.rs:211-400 | a packet is accepted exactly when a header it starts with is of a version its mode takes and only progress follows up to the end of the round; the round ends where the fields end it, at once without inputs, as parsed, ready for outputs or ready to sign |
| LegacyState.RoundSound | src/parser/legacy/mod.rs:365-398 | whatever the fields, ready-to-sign is reached only once the transaction was reviewed, and the number of inputs is fixed only before that |
| SigningSession.TxContext.SessionExcludesLegacy | src/parser/pczt.rs:522-525 | in every reachable state with an active PCZT session, and after a completed one, both legacy parsers are in their initial state; the session is active exactly until its last signature |
| SigningSession.TxContext.HandleGetTrustedInput | src/handlers/get_trusted_input.rs:18-75 | succeeds exactly when it may start over or continue, its fields are accepted, and the wanted input was seen if the round ends; during a PCZT session or after a finished transaction only by resetting the context |
| SigningSession.TxContext.HandleHashInputStart | src/handlers/sign_tx.rs:34-112 | during a PCZT session or after a finished transaction it succeeds only by resetting the context; a continuation only resumes a reviewed, non-V6 transaction; each of the three shapes otherwise succeeds exactly when its fields are accepted, with the state read off them |
| SigningSession.TxContext.HandleChangeInfo | src/handlers/sign_tx.rs:114-158 | succeeds exactly for a derivable, full BIP-44 change path before the outputs are complete, and replaces the account |
| SigningSession.TxContext.HandleFinalizeFull | src/parser/legacy/output_parser.rs:50-259 | never during a PCZT session; a packet is taken exactly when the output parser takes its fields, every accepted one is logged after the outputs it recorded, and when the outputs end there are as many as declared |
| SigningSession.TxContext.LegacyOutput | src/parser/legacy/output_parser.rs:113-252 | in each state exactly the field it waits for is taken, a count of at most 8 first |
| LegacyState.ScriptParsedExactly | src/parser/legacy/output_parser.rs:184-247 | a complete script is accepted exactly when its kind can be shown or is change under a declared account for the first time, and with the last output the fee and the request check out; it adds one output, hidden exactly if it is change |
| SigningSession.TxContext.LegacyScript | src/parser/legacy/output_parser.rs:184-247 | a script is change only under a declared account and only once; with the last output the outputs end, in swap mode only after the check against the request |
| SigningSession.TxContext.LegacyReview | src/handlers/sign_tx.rs:236-281 | accepted exactly with the header and, outside swap mode, the approval of the user; on record is that approval or the outcome of the check that ended the outputs, with the number of outputs shown |
| SigningSession.TxContext.HandleHashSign | src/handlers/sign_tx.rs:221-336 | never during a PCZT session; the review when it is due, otherwise a signature exactly for a compliant path of the change account in the signing round; the context is finished exactly when it was or the signature completes |
| SessionWitnesses.RedeclaredChange | src/handlers/sign_tx.rs:131-158 | for any two change paths the run whose hidden output pays one account while the signature spends from the other |
| SigningSpec.SwapSignaturesShareOneEpoch | src/tx.rs:372-394 | in every swap run all signatures come from one context epoch |
| SigningSpec.SignedAtMostOnce | src/parser/pczt/transparent.rs:579-594 | no input and no action is signed twice in an epoch |
| SigningSpec.SignedAfterReview | src/parser/pczt.rs:608-617 | every PCZT signature follows an approval and then a finish in its epoch |
| LegacyRuns.LegacySignedAfterReview | src/handlers/sign_tx.rs:240-286 | every legacy signature follows, in its epoch, the end of the outputs and then an approval; in swap mode those outputs passed the check against the request |
| LegacyRuns.OutputsAreFinal | src/handlers/sign_tx.rs:125-129 | once the outputs are in, no output is added and no change account declared until a reset |
| LegacyRuns.LegacyChangeGoverns | src/handlers/sign_tx.rs:303-305 | a legacy signature spends from the account of the last change declaration of its epoch |
| LegacyRuns.HiddenOutputReturnsExactly | src/tx.rs:217-249 | a hidden legacy output returns to the signing account exactly when the last change declaration of the epoch names the account it was hidden under; always when no declaration follows it |
| LegacyRuns.LegacyCompleteExactly | src/handlers/sign_tx.rs:316-331 | a legacy signature is completing exactly when it is the last one the declared inputs call for |
| SigningSpec.ApprovalMatchesMode | src/parser/pczt/common.rs:152-172 | every approval on record is a yes, of the user outside swap mode and of the Exchange check in it |
| SigningSpec.SignedWasRecorded | src/parser/pczt.rs:319-331 | a signature belongs to an input, or to an action with a real spend, recorded in its epoch at that index and under that path |
| SigningSpec.CompleteExactly | src/handlers/pczt.rs:9-19 | a signature is completing exactly when every input and every real spend recorded in its epoch is signed |
| SigningSpec.ChangeAccountIsStable | src/parser/pczt/transparent.rs:702-716 | within a PCZT epoch the recorded change account never changes |
| SigningSpec.ChangeAccountGoverns | src/tx.rs:235-249 | every signature after a PCZT session recorded the change account uses a path with that raw account |
| SigningSpec.HiddenOutputsReturn | src/parser/pczt.rs:104-136 | an output hidden from the review pays the account of every signature of its epoch, a transparent one only under a full BIP-44 change path |
| SigningSpec.OneHiddenOutput | src/parser/legacy/output_parser.rs:202-230 | at most one output of a transaction, PCZT or legacy, is kept off its review |
| SigningSpec.SignaturesUseWalletPaths | src/utils.rs:111-243 | every signature uses m/44'/133' with three more components or m/32'/133'/a', hardening included |
| SigningSpec.NoLegacyAfterPczt | src/handlers/sign_tx.rs:40-58 | no legacy or trusted-input packet is accepted after a PCZT started until the next reset, completed or not |
| SigningSpec.FeeIsConserved | src/parser/pczt/common.rs:101-121 | the approved fee is all value entering less all value leaving, over transparent, Orchard and Ironwood |
| ReadingRuns.FeeIsOfContent | src/parser/pczt/common.rs:101-121 | the approved fee is the sum of the amounts encoded in the approved inputs, less those in the approved outputs, plus the shielded balance |
| ReadingRuns.ReviewShowsOutputs | src/parser/pczt/common.rs:123-172 | what the user approves, PCZT or legacy, shows every output recorded in the epoch that is not hidden as change, and all of them when every one is |
| ReadingRuns.InputRecordIsWhatWasRead | src/parser/pczt/transparent.rs:95-153 | a recorded input has the outpoint, the sequence, the amount and the script parts read since its head |
| ReadingRuns.OutputRecordIsWhatWasRead | src/parser/pczt/transparent.rs:155-189 | a recorded output has the amount and the script parts read since its head |
| ReadingRuns.ActionSpendIsWhatWasRead | src/parser/pczt/orchard.rs:85-163 | the spend of a recorded action is the one in the head read for it in its pool, and a dummy output is worth nothing |
| ReadingRuns.ReviewedHeaderWasRead | src/parser/pczt/common.rs:26-88 | version, branch, locktime and expiry of an approved content are those of the header that started its epoch |
| SigningSpec.SignedContentWasReviewed | src/handlers/pczt.rs:278-313 | a PCZT signature is over the content approved earlier in its epoch, unchanged since |
| SigningSpec.ReviewedContentWasRecorded | src/parser/pczt/transparent.rs:392-446 | what is approved is every transparent input and output recorded in the epoch, in order |
| SigningSpec.SameDigestSameReview | src/parser/pczt/transparent.rs:518-547 | two signatures of any two runs over one digest were approved for the same transparent inputs and outputs, or give a collision |
| SignedContent.SignatureBindsContent | src/parser/compute.rs:192-274 | equal digests of two covered contents bind inputs, outputs, header and effective bundle digests, or give a collision |
| SignedContent.InputsDataInjective | src/parser/pczt/transparent.rs:788-827 | the data of the four input hashers determines the inputs |
| SignedContent.OutputsDataInjective | src/parser/pczt/transparent.rs:829-843 | the data of the outputs hasher determines the outputs |
| PcztState.DoneIsComplete | src/parser/pczt/orchard.rs:1266-1269 | all records are signed exactly when the signed slots are the required ones |
| PcztState.CountsDecide | src/parser/pczt/orchard.rs:1236-1269 | comparing the two counters decides whether every real spend is signed |
| Montgomery.MulU64x4 | ledger_zcash_crypto/src/montgomery.rs:117-143 | the eight limbs hold exactly the product; no step overflows and the carry loop stays within limb 7 |
| Montgomery.Reduce | ledger_zcash_crypto/src/montgomery.rs:145-177 | for every value below 2^256 m the result is the canonical residue r with r * 2^256 congruent to the input |
| Montgomery.ReduceRounds | ledger_zcash_crypto/src/montgomery.rs:145-176 | the rounds add a multiple of the modulus and divide by 2^256; for values below 2^256 m the carry that is dropped is zero and one subtraction is enough |
| Montgomery.ReduceRound | ledger_zcash_crypto/src/montgomery.rs:146-176 | one round adds a multiple of the modulus that clears the low limb |
| Montgomery.SubtractModulusIfNeeded | ledger_zcash_crypto/src/montgomery.rs:179-191 | subtracts the modulus exactly when the value reaches it |
| Montgomery.Adc | ledger_zcash_crypto/src/montgomery.rs:193-196 | sum and carry hold the exact sum |
| Montgomery.Sbb | ledger_zcash_crypto/src/montgomery.rs:198-201 | difference and borrow mask hold the exact difference |
| Montgomery.Mac | ledger_zcash_crypto/src/montgomery.rs:203-206 | word and carry hold the exact multiply-add |
| Montgomery.ReprToU64x4 | ledger_zcash_crypto/src/montgomery.rs:90-97 | splitting into limbs keeps the value |
| Montgomery.ReprToMontgomery | ledger_zcash_crypto/src/montgomery.rs:54-66 | accepts exactly the canonical encodings and returns input * 2^256 reduced |
| Montgomery.BaseFromReprUnchecked | ledger_zcash_crypto/src/redpallas.rs:570-576 | the same residue for every 256-bit input |
| Montgomery.ConstantsCorrect | ledger_zcash_crypto/src/montgomery.rs:99-115 | R2, INV and the moduli fit together for both fields |
| Montgomery.MontgomeryRoundTrip | ledger_zcash_crypto/src/montgomery.rs:54-66 | Montgomery form can be undone |
| IsoPallas.AddIsoPallas | ledger_zcash_crypto/src/hashtocurve.rs:282-326 | on-curve operands, identity, equal, opposite and order-two ones included, add to an on-curve point standing for the affine sum |
| IsoPallas.DoubleIsoPallas | ledger_zcash_crypto/src/hashtocurve.rs:255-280 | doubling stays on the curve and stands for the affine double |
| SimplifiedSwu.SqrtRatio | ledger_zcash_crypto/src/hashtocurve.rs:463-486 | for a non-zero divisor never errs, decides squareness of the quotient and returns the root of it or of ROOT times it |
| SimplifiedSwu.MapToCurveSimpleSwu | ledger_zcash_crypto/src/hashtocurve.rs:433-461 | never errs; the result is a non-identity point on the curve whose every affine reading is the point RFC 9380 defines, exceptional case and parity included |
| SimplifiedSwu.PallasSuitable | ledger_zcash_crypto/src/hashtocurve.rs:43-76 | the stated constants meet the map's conditions |
| SimplifiedSwu.SwuIdentity | ledger_zcash_crypto/src/hashtocurve.rs:434-445 | g(t x1) = t^3 g(x1) for the two candidates |
| Sinsemilla.HashToPoint | ledger_zcash_crypto/src/sinsemilla.rs:14488-14505 | a point is 2^n Q plus the sum of 2^(n-1-i) S(m_i); none exactly when an incomplete addition is exceptional |
| Sinsemilla.IncompleteAdd | ledger_zcash_crypto/src/sinsemilla.rs:14517-14525 | the sum, or none exactly when an operand or the sum is the identity or the operands are equal |
| IsoPallas.Curve.ExceptionalExactly | ledger_zcash_crypto/src/sinsemilla.rs:14514-14525 | on a curve these cases are exactly an operand at infinity or equal abscissas |
| Sinsemilla.ChunkIndexValue | ledger_zcash_crypto/src/sinsemilla.rs:14527-14537 | the index is the little-endian value of the unpadded piece and below 1024 |
| Sinsemilla.PieceBits | ledger_zcash_crypto/src/sinsemilla.rs:14491-14498 | bit k of piece i is bit 10 i + k of the message, zero past its end |
| Sinsemilla.PiecesInjective | ledger_zcash_crypto/src/sinsemilla.rs:14491-14498 | messages of one length with the same pieces are equal |
| Sinsemilla.SinsemillaCommit | ledger_zcash_crypto/src/sinsemilla.rs:14439-14481 | hash of the domain's Q plus [rcm] R of the same domain; only unknown domains are refused |
| RedPallas.Sign | ledger_zcash_crypto/src/redpallas.rs:364-411 | succeeds exactly for a canonical key and an exportable R; R and s are the prescribed ones and s is canonical though the sum may be unreduced |
| RedPallas.SignaturesVerify | ledger_zcash_crypto/src/redpallas.rs:364-411 | every signature satisfies [s] B = R + [c] vk |
| RedPallas.ReducedHash | ledger_zcash_crypto/src/redpallas.rs:485-518 | the hash to scalar is canonical and congruent to the wide hash |
| RedPallas.RandomizedSigningKey | ledger_zcash_crypto/src/redpallas.rs:241-281 | the key is (scalar + alpha) mod q, and its verification key encodes vk + [alpha] B |
| RedPallas.RandomizedVerificationKeyBytes | ledger_zcash_crypto/src/redpallas.rs:292-330 | succeeds exactly when the full path does, returns the same bytes, and they encode vk + [alpha] B |
| RedPallas.SpendAuthSignature | src/handlers/sign_tx.rs:376-410 | a spend authorization signature under the randomized key verifies under vk + [alpha] B; refused exactly for a non-canonical scalar or a point that cannot be exported |
| PallasPoints.EncodingRoundTrip | ledger_zcash_crypto/src/lib.rs:604-619 | decoding inverts encoding, and after the sign flip gives the other sign |
| PallasPoints.EncodingValue | ledger_zcash_crypto/src/lib.rs:614-619 | the encoding is the little-endian integer x + 2^255 sign of the big-endian abscissa |
| PallasPoints.PointToBytes | ledger_zcash_crypto/src/lib.rs:598-602 | decodes to the point, and with the sign bit flipped to its negation |
| PallasPoints.CanonicalScalarBe | ledger_zcash_crypto/src/redpallas.rs:418-431 | accepts exactly scalars below the order and keeps their value |
| ValueCommitment.ValueTerm | ledger_zcash_crypto/src/lib.rs:535-552 | [value] V, absent exactly for zero, negative values through the sign bit; fails exactly when a negative term cannot be exported |
| ValueCommitment.Commit | ledger_zcash_crypto/src/lib.rs:208-227 | the commitment encodes [value] V + [rcv] R, zero cases included; it succeeds exactly for zero or canonical randomness and exportable points |
| ValueCommitment.SumOfCommitments | ledger_zcash_crypto/src/lib.rs:203-227 | over any list the commitments add up to [sum of values] V + [sum of rcv mod q] R |
| NoteMessage.AppendLeBits | ledger_zcash_crypto/src/orchard.rs:751-756 | writes the first bits of the bytes at the offset and nothing else |
| NoteMessage.NoteCommitmentMessage | ledger_zcash_crypto/src/orchard.rs:590-596 | the five calls fill all 1086 bits once, in the prescribed layout |
| NoteMessage.LayoutDecodes | ledger_zcash_crypto/src/orchard.rs:676-682 | every field can be read back from the message |
| NoteMessage.LayoutInjective | ledger_zcash_crypto/src/orchard.rs:676-682 | the message determines the note |
| NoteMessage.TruncatedLeBits | ledger_zcash_crypto/src/lib.rs:371-381 | exactly the low bits, in order |
| NoteMessage.CommitIvkMessage | ledger_zcash_crypto/src/lib.rs:353-365 | ak and nk can be read back from the 510 bits |
| NoteMessage.CommitIvkInjective | ledger_zcash_crypto/src/lib.rs:353-365 | the message determines ak and nk |
| Bytes.ReverseCopy | ledger_zcash_crypto/src/bytes.rs:1-7 | the copy is the source back to front |
| SignatureDigest.DigestBinds | src/parser/compute.rs:276-397 | equal digests bind version, branches, locktime, expiry, mode, sighash type, component hashes and effective bundle digests, or give a collision |
| SignatureDigest.CoverageSuffices | src/parser/compute.rs:276-397 | nothing else reaches the digest |
| SignatureDigest.InputDigestBinds | src/parser/compute.rs:258-274 | equal per-input digests mean the same prevout, amount, script and sequence, or a collision |
| SignatureDigest.ShieldedDigestIsNoInputDigest | src/parser/compute.rs:192-216 | the shielded digest with transparent inputs equals no per-input digest short of a collision |
| SignatureDigest.CompactSizePrefixFree | src/parser/compute.rs:248-256 | the script length can be read back whatever follows |
| SignatureDigest.TxInfo.ComputeShielded | src/parser/compute.rs:199-216 | the digest written is that of the mode the counts select |
| SignatureDigest.TxInfo.ComputeNoTransparentInput | src/parser/compute.rs:218-232 | the digest written is that of the mode without inputs |
| SignatureDigest.TxInfo.ComputeTransparentInput | src/parser/compute.rs:234-246 | the digest written is that of the mode with this input digest |
| SignatureDigest.TxInfo.FinalizeFromTransparentDigest | src/parser/compute.rs:347-397 | the final digest is over exactly the five children, empty ones replaced |
| SignatureDigest.TxInfo.ComputeHeaderDigest | src/parser/compute.rs:288-312 | the header digest is the hash of the header data, whose bytes DigestLayout.HeaderLayout gives |
| DigestLayout.HeaderLayout | src/parser/compute.rs:288-312 | the header data is twenty bytes under its literal personalization: version word, version group, branch, locktime, expiry, each as an integer at its position |
| DigestLayout.TransparentLayout | src/parser/compute.rs:314-345 | the transparent data of each mode: sighash type and the component hashes at their positions, nothing without inputs and outputs |
| DigestLayout.RootLayout | src/parser/compute.rs:347-397 | the root is under its literal personalization with the branch, over header, transparent, Sapling, Orchard and for V6 Ironwood hashes in this order, empty ones replaced |
| DigestLayout.TxinLayout | src/parser/compute.rs:258-274 | the per-input data: outpoint, amount, script after its length, sequence |
| DigestLayout.CompactSizeLayout | src/parser/compute.rs:248-256 | a length is one byte, or a marker and two, four or eight little-endian bytes |
| DigestLayout.InputFieldsLayout | src/parser/pczt/transparent.rs:788-827 | the outpoint, sequence and amount of each input stand at its place in the lists that are hashed |
| DigestLayout.ScriptsLayout | src/parser/pczt/transparent.rs:788-827 | each input adds its script after its length to the scripts that are hashed |
| DigestLayout.OutputsLayout | src/parser/pczt/transparent.rs:829-843 | each output adds its amount and its script after its length to what is hashed |
| DigestLayout.TreePersonalizations | src/parser/personalization.rs:16-20 | the personalizations of root, header, transparent and Sapling nodes, byte by byte |
| DigestLayout.ListPersonalizations | src/parser/personalization.rs:22-24 | those of outpoints, sequence numbers and outputs, byte by byte |
| DigestLayout.SpentPersonalizations | src/parser/personalization.rs:37-39 | those of amounts and scripts spent, byte by byte |
| DigestLayout.ModeOfSignature | src/parser/compute.rs:199-246 | which of the three modes a signature is made in |
| SignatureDigest.TxInfo.TransparentSignatureDigest | src/parser/compute.rs:314-345 | the transparent digest of each mode |
| SignatureDigest.TxinSignatureDigest | src/parser/compute.rs:258-274 | the per-input digest |
| Paths.AcceptedPaths | src/utils.rs:100-243 | the exact set of paths each mode accepts, hardening bits included |
| Paths.SameWalletAccount | src/utils.rs:42-48 | after a compliant change path of account a' a compliant signing path passes the change check exactly when it is m/32'/133'/a' or continues m/44'/133'/a', hardening included |
| MemoBudget.ReviewOutputs | src/parser/pczt.rs:145-214 | over any outputs at most four are shown and at most 1024 memo bytes kept, each rendered exactly as its memo and what is left of the budget call for; an output is refused exactly when four are shown or its memo fits neither as text nor as hash |
| MemoBudget.Review.MemoDisplay | src/parser/pczt.rs:160-214 | exactly when a memo is empty, shown as text, shown as a hash or refused, and what it costs |
| MemoBudget.Review.Claim | src/parser/pczt.rs:145-154 | refuses exactly past four |
| MemoBudget.HexReads | src/parser/pczt.rs:160-214 | the bytes of a memo hash can be read back from its digits |
| KeyCache.Run | src/parser/pczt.rs:518-565 | over any interleaving the log is the one the requests alone call for: a lookup serves the key held for its path or derives it while none is held, and the first fifty derivations go through; a served key is the derivation of its path, and at most 50 syscalls happen |
| KeyCache.OneDerivationBetweenClears | src/parser/pczt.rs:558-565 | two cached derivations are separated by a clear |
| KeyCache.SecureElement.ConsumeBudget | src/zip32.rs:91-113 | grants exactly the first fifty calls; the counter saturates |
| KeyCache.SecureElement.Derive | src/zip32.rs:63-76 | exactly the first fifty calls reach the secure element, and each of those succeeds as it answers |
| KeyCache.Cache.SpendingKey | src/parser/pczt.rs:540-556 | the cached key for its path, no other path, one derivation when empty |
| VkDelivery.Run | src/main.rs:367-387 | over any interleaving of requests and resets the log is the one the requests alone call for: chunks of 255 bytes, or all that is left, from the front of the current response, and outside swap mode success right after each chunk that completes a response and nowhere else |
| VkDelivery.ChunksArePrefix | src/handlers/get_vk.rs:52-64 | chunks after a start concatenate to a prefix of the response, and success is shown after them exactly when they are all of it |
| VkDelivery.SuccessMeansComplete | src/main.rs:383-386 | a success on screen follows the chunks that make up the whole of a response; in swap mode there is none |
| VkDelivery.Delivery.ShowStatus | src/main.rs:367-387 | outside swap mode a raised flag is consumed and reported with the status, and nothing is reported otherwise |
| VkDelivery.Delivery.AppendChunk | src/handlers/get_vk.rs:52-64 | one chunk of 255 bytes, or all that is left, or refusal when nothing is pending; the finished flag is raised exactly by the chunk that completes the response |
| VkDelivery.Delivery.Get | src/handlers/get_vk.rs:66-151 | a fresh request drops the old response before anything else; a refusal at the screen raises the finished flag |

## Left out

- Payload bytes of the parsers: fields arrive decoded, with one field standing for any read, hash or validation failure; the shielded bundle digests, note decryption, nullifier and rk checks are answers given with the field.
- Legacy signature digests: the session follows the digest of PCZT signatures only.
- The inner states of the legacy parser (scripts, Sapling, actions) are one state between header and end of round; trusted-input responses and their MAC are not modelled.
- Amounts and fees of legacy outputs: one answer says whether the fee is computable.
- SigningSession.TxContext.ParseSection: the error status words are coarser than the source's.
- The swap parameter check itself: it is an arbitrary answer, recorded in the log.
- Instructions that do not touch the transaction (version, public key, addresses) are one instruction; viewing-key delivery and the memo budget are separate models, with context resets as one of their inputs.
- RedPallas.Sign: the two halves of the signature are returned as a pair instead of one 64-byte array.
- ValueCommitment.Commit: exhaustion of the secure element's slots is not modelled, so only the failures of point export and of a non-canonical scalar remain.
- MemoBudget.Review.MemoDisplay: allocation failure is not modelled.
- Primality of p, the quadratic character of ROOT and the group order are assumed, not computed.
- The isogeny to Pallas, hash to field, the tables S, Poseidon, BLAKE2b, SHA-256, the ciphers and the address encodings.
- Timing, zeroization, stack depth, screens and the panic handler.
