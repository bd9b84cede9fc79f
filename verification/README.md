# Verified model of the Moonlight privacy channel

A Dafny model of the privacy channel contract, its UTXO store, its authorization contract and the
test token it moves. `dafny verify dfyconfig.toml` checks the project.

The contracts are modelled as classes whose methods change the state step by step (`Storage.Store`,
`Token.AssetContract`, `ChannelAuth.AuthContract`, `PrivacyChannel.ChannelContract`). Each method
is proved against a function over ledger values (`Channel.Transact` and what it is made of), and
the theorems are about those functions: one call, every point inside a call, and whole runs.
`Acceptance` says exactly which calls are accepted and what they leave behind in terms of the lists
of the operation, the ledger and the host's signature checks alone.

How the host is modelled:

- A panic, a trap and an error return are all an `Err`; a failed call leaves no trace.
- `i128` is a bounded integer type; plain `+`/`-` trap outside it (`Cargo.toml` turns overflow
  checks on) and `checked_add`/`checked_sub` give their error codes.
- SHA-256, the signature checks and the account derivation are uninterpreted functions of a `Host`
  value, so every statement holds for all of them. Canonical XDR is equality of values.
- `require_auth_for_args` on the auth contract runs `__check_auth` with a context holding the
  channel's address and those arguments, among any other contexts of the entry. Everything else the
  submitter attaches is a `Tx` value; every statement holds for all of them.
- The channel has no `__check_auth`, so its address never authorizes a deposit or a direct token
  call; it only authorizes its own withdrawal transfers.
- During an external call the asset may run any finite tree of nested `transact` attempts, pass each
  failure on or swallow it, and then behave like the token, answer with any ledger, or fail
  (`Channel.Script`). The host's own ban on reentrancy is not used.

Where prose and code disagree the code is followed: there is no drawer bitmap
(`contracts/arch.md:204`, `README.md:101-105`), a context without arguments is skipped rather than
ending the check (`contracts/arch.md:119`), and payload amounts take 16 bytes, not 8
(`modules/primitives/src/lib.rs:115`).

What holds only under a condition:

- **A spend owner's signature binds creates, not withdrawals.** The contract verifies a signature
  over bytes and acts on the submitted condition list, and a withdrawal condition, a deposit
  condition and an integration without keys over one account and amount have the same bytes
  (`Payload.DepositSpellsLikeWithdrawal`, `Payload.EmptyIntegrationSpellsLikeWithdrawal`). Signing a
  list binds all its effects if and only if it contains no withdrawal (`Payload.SigningBindsExactly`).
  So an owner who signs one withdrawal is not guaranteed it
  (`Signatures.SignedWithdrawalNeedNotHappen`), against `contracts/privacy-channel/src/transact.rs:100-104`;
  signed creates always happen (`Signatures.OwnersCreatesHappen`), and everything a depositor
  consented to does (`Signatures.DepositorsEffectsHappen`), since that consent is to the list itself.
- The statements about payloads ask the signed create keys to be uncompressed (leading 0x04). Without
  that not even creates are fixed: any nine withdrawals have the payload of some eight creates
  (`Payload.NineWithdrawalsSpellEightCreates`).
- The hash-keyed store behaves like one keyed by UTXO keys if and only if the hash separates the
  keys in use (`HashedStore.LookupNeedsInjectivity`, `HashedStore.BundlesNeedInjectivity`); a
  colliding key could spend another's UTXO (`HashedStore.CollidingKeySpends`). Value conservation
  needs no such condition.

## Model

| member | source | states |
|---|---|---|
| Acceptance.TokenCallExact | contracts/privacy-channel/src/contract.rs:107-119 | over the token, with sound books and a solvent channel, `transact` is accepted iff the lists are consistent and every listed create and withdrawal is executed, the UTXOs settle and balance over the integers, provider, owners and depositors authorized it, and every account can pay or take its part; it then changes exactly the named store entries, the supply and the named balances |
| Acceptance.ChannelAcceptsExactly | contracts/privacy-channel/src/contract.rs:107-119 | with an asset that never refuses, the same demands on lists, UTXOs and authorization are exactly what the channel asks |
| Acceptance.AcceptedMeans | contracts/privacy-channel/src/contract.rs:107-119 | whatever the asset does, acceptance means those demands are met and the asset did not refuse, and the channel is left exactly as they say |
| Acceptance.RunAcceptsExactly | contracts/privacy-channel/src/contract.rs:107-119 | the same equivalence in every state a run over the token reaches |
| Acceptance.DepositsSucceed | contracts/privacy-channel/src/transact.rs:203-207 | depositors who authorize their lists of creates and their payments and can pay are accepted with one provider's signature, several in a bundle and with any number of creates each, with the exact store, supply and balances |
| Acceptance.WithdrawalListsDoNotBind | contracts/privacy-channel/src/transact.rs:92-96 | replacing the lists the withdrawals carry by any consistent ones does not change the result of an accepted call |
| Accounting.TransactExact | contracts/privacy-channel/src/contract.rs:107-119 | from sound books, for any asset behaviour, `transact` is accepted iff the non-arithmetic checks pass, the asset accepts, inputs equal outputs over the integers, and the deposits fit on top of the supply; what changes is exactly the atomic update of the store, the supply by deposits minus withdrawals, and the asset's ledger, and the books stay sound |
| Accounting.LedgerEquationAtEveryStep | contracts/privacy-channel/src/transact.rs:203-230 | after any number of external moves of an accepted call, supply plus remaining deposits minus remaining withdrawals is the sum of the unspent UTXOs, and the supply is not negative |
| Accounting.SupplyRunExact | contracts/privacy-channel/src/treasury.rs:6-24 | the checked supply updates reject exactly when the deposits exceed the 128-bit range on top of the supply |
| Accounting.PreprocessExact | contracts/privacy-channel/src/transact.rs:31-86 | the two checked totals reject only when a true total leaves the 128-bit range, and are the true totals otherwise |
| Accounting.BundleExact | modules/utxo-core/src/core.rs:65-156 | a bundle is processed iff keys are distinct, authorization holds, spends are distinct and unspent, creates fresh and positive, inputs fit, and the integers balance |
| Accounting.ConsentMeans | contracts/privacy-channel/src/transact.rs:203-205 | the transfers ask for the consent of every depositor to exactly its own list, never the channel's own, and of nobody else |
| Noninterference.AssetCannotInterfere | contracts/privacy-channel/src/contract.rs:45-54 | for any tree of nested attempts an accepted call leaves the channel exactly as with an inert asset, and it is accepted iff the inert one is and the asset does not refuse |
| Noninterference.ReenteringGainsNothing | contracts/privacy-channel/src/contract.rs:45-54 | with nested attempts in any transfers, swallowed by the asset, the call has the very result it has over the token without them, errors included |
| Noninterference.OneRefusalFailsTheCall | contracts/privacy-channel/src/transact.rs:203-230 | one transfer in which the asset fails or passes a nested failure on fails the whole call |
| Noninterference.ExecuteSplits | contracts/privacy-channel/src/transact.rs:194-231 | under the guard the external phase is the independent conjunction of depositor consent, supply run and asset run |
| Noninterference.GuardedAttemptsDoNothing | contracts/privacy-channel/src/contract.rs:45-50 | while the guard is set a nested attempt changes nothing and fails, whatever it carries |
| Settlement.SettleExact | modules/utxo-core/src/core.rs:95-141 | the sequential spend and create loops accept exactly what an atomic update accepts and yield it; spent and created keys are disjoint although only each list is checked for repeats |
| Settlement.SettleConserves | modules/utxo-core/src/core.rs:96-141 | an accepted bundle changes the stored value by incoming minus outgoing, for any keys and any hash |
| Settlement.SettleIsOrderFree | modules/utxo-core/src/core.rs:95-135 | permuting spends and creates changes neither verdict nor resulting store |
| Order.TransactIsOrderFree | contracts/privacy-channel/src/transact.rs:31-86 | permuting the spends and creates of an accepted operation gives the same result of the whole call |
| Order.AuthArgsOrderFree | modules/utxo-core/src/core.rs:229-240 | the requirement argument does not depend on the order of distinct spends |
| Authorization.OwnersAuthorize | modules/utxo-core/src/core.rs:73-93 | in an accepted call the requirement map has exactly the spent keys with their own conditions, is skipped only when nothing is spent, and under every spent key an unexpired signature verifies over the payload of its non-empty list for this channel |
| Authorization.ProvidersVouch | modules/auth/src/core.rs:200-233 | in an accepted call there is a provider entry, and every one is of a registered account, unexpired, and its Ed25519 signature verifies over the payload of this call |
| Authorization.ProviderSignedThisCall | modules/auth/src/core.rs:222-222 | if providers' signatures verify only for payloads they signed, a registered provider signed this very call |
| Authorization.OneProviderSuffices | modules/auth/src/core.rs:200-233 | conversely one valid entry of a registered provider is all the provider requirement asks |
| Authorization.LastRequirementCounts | modules/utxo-core/src/core.rs:229-240 | of several spends under one key the requirement map keeps the last one's conditions |
| Authorization.SignersAuthorize | modules/auth/src/core.rs:80-138 | conversely a provider's signature and one under each distinct spent key over its non-empty list authorize the bundle |
| Authorization.ListedEffectsHappen | contracts/privacy-channel/src/transact.rs:113-158 | in an accepted call every create and withdrawal listed with a spend or a deposit of the submitted operation is executed with its key and amount; what an owner who signed may rely on is the next rows' subject |
| Authorization.BindingMeans | contracts/privacy-channel/src/transact.rs:113-158 | the comparison of the two effect sets accepts iff every create and withdrawal in the list of a spend or deposit is executed; withdrawals' own lists play no part |
| Signatures.OwnersCreatesHappen | contracts/privacy-channel/src/transact.rs:88-110 | if signatures under a spent key verify only for payloads its owner signed, the owner signed some unexpired list whose creates are all executed, and all its effects if it has no withdrawal |
| Signatures.SignedWithdrawalNeedNotHappen | contracts/privacy-channel/src/transact.rs:97-104 | with the signature over one withdrawal of a UTXO, a bundle listing the deposit of the same spelling and creating any fresh UTXO is accepted and the withdrawal is not executed |
| Signatures.DepositorsEffectsHappen | contracts/privacy-channel/src/transact.rs:92-104 | every create and withdrawal in the list a depositor consented to is executed |
| Payload.SigningBindsExactly | modules/primitives/src/lib.rs:120-163 | every list with the payload of a signed list carries all its creates and withdrawals iff the signed list has no withdrawal |
| Payload.PayloadFixesCreates | modules/primitives/src/lib.rs:129-133 | against any other list, integrations and other keys included, equal payloads mean equal expiry and that the signed creates come first in the other list |
| Payload.PayloadSplitsAtCreates | modules/primitives/src/lib.rs:120-163 | with uncompressed create keys on both sides, payloads are equal iff the creates and the bytes after them are |
| Authorization.UnlistedResidual | contracts/privacy-channel/src/transact.rs:100-130 | the executed effects that no spend or deposit lists are worth exactly the inputs minus the distinct listed effects |
| Authorization.DepositorsAuthorize | contracts/privacy-channel/src/transact.rs:203-205 | every deposit of an accepted call was authorized by its account for exactly its condition list |
| Transfers.DepositorsPayRecipientsReceive | contracts/privacy-channel/src/transact.rs:194-231 | over the token every account loses exactly its deposit, which it authorized, and gains exactly what is withdrawn to it, the channel gains deposits and loses withdrawals except those to itself, and the token total is kept |
| Rejections.RejectionHasCause | contracts/privacy-channel/src/transact.rs:31-86 | every error raised before tokens move names something wrong: a conflict, a bad or overflowing amount, a repeated account or key, an unexecuted listed effect, failed authorization, a spent, missing or existing UTXO, an imbalance |
| Rejections.FirstFailedCheckDecides | contracts/privacy-channel/src/transact.rs:31-86 | which preprocessing error is reported is decided by the first of the checks that fails, in the code's order |
| Rejections.FirstFailedPhaseDecides | contracts/privacy-channel/src/contract.rs:107-119 | reentrance, preprocessing, repeated keys, authorization and the bundle decide the verdict in this order, whatever the asset would do |
| Rejections.FirstBadEntryDecides | contracts/privacy-channel/src/transact.rs:41-58 | within a list of deposits or withdrawals the first entry that is not positive or does not fit decides the error |
| Rejections.FirstBadSpendDecides | modules/utxo-core/src/core.rs:96-102 | the first spend that was never created, or is spent, also earlier in the list, decides the error |
| Rejections.FirstBadCreateDecides | modules/utxo-core/src/core.rs:116-121 | the first create whose key is taken, also earlier in the list, or else whose amount is not positive, decides the error |
| Rejections.FirstBadDepositDecides | contracts/privacy-channel/src/transact.rs:203-207 | over the token the first deposit without consent, payment authorization, balance or room decides the error |
| Rejections.SupplyOverflowIsReported | contracts/privacy-channel/src/treasury.rs:6-14 | an otherwise sound call whose deposits do not fit on top of the supply fails with `AmountOverflow` |
| Rejections.SettleCauses | modules/utxo-core/src/core.rs:95-141 | each error of the bundle loops has its cause in the store or the lists |
| Rejections.NeverUnderflows | contracts/privacy-channel/src/treasury.rs:16-24 | withdrawals covered by the books never trip the underflow guard |
| Authorization.FullyListedLeavesNoFreedom | contracts/privacy-channel/src/transact.rs:106-130 | the listed effects use up the inputs iff the executed effects are exactly the listed ones |
| Authorization.BindingImpliesConsistency | contracts/privacy-channel/src/transact.rs:113-180 | the subset check with distinct create keys and withdrawal accounts already rules out conflicts among the listed creates and withdrawals |
| Authorization.ConflictMeansUnexecutable | modules/primitives/src/lib.rs:15-25 | two create/withdraw conditions conflict iff no operation with distinct keys can execute both |
| Runs.SolventInEveryRun | contracts/token/src/balance.rs:24-35 | over any interleaving of bundles, third-party token calls, registry calls and ledger closings, the channel's token balance covers its supply, which is the sum of the unspent UTXOs, and no allowance from the channel ever exists |
| Runs.BooksInEveryRun | contracts/privacy-channel/src/storage.rs:23-34 | over any run with any asset behaviour the guard is clear between calls, the supply is the sum of the unspent UTXOs, and entries stay and only go to spent |
| Runs.ThirdPartiesSpareTheChannel | contracts/token/src/contract.rs:113-181 | no direct token call of another account lowers the channel's balance or gains power over it |
| Runs.RegistryAgreesInEveryRun | contracts/channel-auth/src/contract.rs:112-124 | replaying the emitted events gives the stored providers, and additions and removals of each provider alternate |
| Runs.ProvidersAreTheOwnersChoice | contracts/channel-auth/src/contract.rs:112-124 | in every run a provider is registered iff the owner added it in some call and has not removed it since |
| Runs.StepChangesProvider | contracts/channel-auth/src/contract.rs:112-124 | only the owner's calls change whether an account is registered, and each takes effect |
| Runs.AcceptedBundleHasCurrentProvider | modules/auth/src/core.rs:200-233 | a bundle accepted in any run carries an unexpired Ed25519 signature over its payload of a provider the owner added and has not removed since, and no provider entry of anybody else |
| Lifecycle.EveryRunIsExplained | modules/storage/src/lib.rs:63-116 | over any run each key goes absent, unspent, spent, each at most once and for one amount; created equals spent plus unspent; deposited minus withdrawn equals the supply |
| Lifecycle.SettledStoriesFit | modules/utxo-core/src/core.rs:96-134 | the events of one accepted bundle extend every key's story consistently with the resulting store |
| Withdrawal.FundsAreNeverStuck | contracts/privacy-channel/src/transact.rs:209-230 | in every run over the token the owners of any distinct unspent UTXOs, one or several, can with a provider withdraw exactly what those hold to any account that can take it; exactly they become spent and the supply drops by that |
| Withdrawal.EverythingCanLeave | contracts/privacy-channel/src/transact.rs:209-230 | in particular there are keys for the whole unspent set, and withdrawing for them takes the whole supply and leaves nothing |
| Withdrawal.SweepSucceeds | contracts/privacy-channel/src/contract.rs:107-119 | spending any distinct unspent UTXOs for one withdrawal of what they hold is accepted, given authorization, with exactly that effect on store, supply and recipient |
| HashedStore.SettleRefines | modules/storage/src/lib.rs:128-137 | where the hash separates the keys, a bundle on hashes has the verdict, error and contents of the bundle on keys |
| HashedStore.RunRefinesKeyedRun | modules/storage/src/lib.rs:80-116 | a ledger keyed by identifiers that decides every call itself and the hashed ledger go through any run together: every next call has the same verdict and error on both, and the stored hashes represent the keyed store |
| HashedStore.TransactRefines | contracts/privacy-channel/src/contract.rs:107-119 | on matching ledgers `transact` has the same verdict and error with the keyed and the hashed store and leaves matching ledgers |
| HashedStore.LookupNeedsInjectivity | modules/storage/src/lib.rs:133-137 | the hashed store answers for keys iff the hash separates them |
| HashedStore.BundlesNeedInjectivity | modules/storage/src/lib.rs:128-137 | bundles on hashes have the verdict of bundles on keys for all stores and bundles iff the hash separates the keys |
| HashedStore.CollidingKeySpends | modules/storage/src/lib.rs:104-116 | with a collision the second key can spend what the first holds, which the keyed store refuses |
| Payload.PayloadDetermines | modules/primitives/src/lib.rs:120-163 | for lists without integrations over uncompressed keys two payloads are equal iff the expiries, the creates in order and the deposits-then-withdrawals in order are |
| Payload.PayloadBindsEffects | modules/primitives/src/lib.rs:129-160 | the payload of creates and withdrawals determines both lists and the expiry |
| Payload.PayloadIgnoresInterleaving | modules/primitives/src/lib.rs:124-155 | interleaving different kinds differently leaves the payload unchanged |
| Payload.DepositSpellsLikeWithdrawal | modules/primitives/src/lib.rs:135-142 | a deposit and a withdrawal condition over one account and amount have the same payload |
| Payload.EmptyIntegrationSpellsLikeWithdrawal | modules/primitives/src/lib.rs:139-149 | an integration without keys has the payload of a withdrawal over the same account and amount |
| Payload.NineWithdrawalsSpellEightCreates | modules/primitives/src/lib.rs:131-142 | any nine withdrawals have the payload of some eight creates, whose keys are not all uncompressed |
| Payload.IntegrationBlockDetermines | modules/primitives/src/lib.rs:143-149 | the block of one integration condition determines adapter, keys in order and amount |
| Payload.I128RoundTrip | modules/primitives/src/lib.rs:133-147 | the 16-byte little-endian encoding of a signed amount decodes to it |
| Payload.LeRoundTrip | modules/primitives/src/lib.rs:157-160 | little-endian encoding of any number that fits the width decodes to it |
| Payload.HashPayload | modules/primitives/src/lib.rs:120-163 | the one-pass distribution over buffers hashes the laid-out payload |
| Payload.PreimageShows | modules/primitives/src/lib.rs:129-155 | in the hashed bytes every condition stands where its kind and place put it, creates before deposits before withdrawals before integrations: key or address, for an integration then its keys one after the other, then the sixteen bytes of the amount |
| Payload.PreimageEnds | modules/primitives/src/lib.rs:120-163 | the hashed bytes start with the contract, end with the four bytes of the expiry, and hold nothing but the conditions in between |
| Payload.I128Digit | modules/primitives/src/lib.rs:133-147 | byte i of an amount is the floor of its quotient by 256^i, modulo 256, for negative amounts too |
| Payload.LeDigit | modules/primitives/src/lib.rs:157-160 | byte i of a little-endian number is its i-th digit to base 256 |
| Primitives.ConflictMeaning | modules/primitives/src/lib.rs:14-68 | conflict is symmetric and irreflexive, kinds do not mix, and integrations are compatible iff one adapter asks for the same amount and key set or different adapters share no key |
| Primitives.OpHasNoConflictingConditions | contracts/privacy-channel/src/transact.rs:233-250 | the incremental scan accepts iff no two conditions conflict among those listed with any spend, deposit or withdrawal |
| Primitives.ScanFindsConflicts | contracts/privacy-channel/src/transact.rs:236-247 | what is scanned are the conditions of all spends, deposits and withdrawals and no others, and pairs of positions conflict iff two such conditions do |
| Primitives.CompatibilityIsOrderFree | modules/primitives/src/lib.rs:219-229 | freedom from conflicts depends only on the set of conditions |
| Primitives.ScanIsOrderFree | contracts/privacy-channel/src/transact.rs:236-247 | operations that list the same conditions anywhere get the same answer from the scan |
| Primitives.PermutedOperationScansAlike | contracts/privacy-channel/src/transact.rs:236-239 | permuting spends, deposits and withdrawals keeps the scan's answer |
| Primitives.NoDuplicates | modules/primitives/src/lib.rs:166-197 | the seen-map scan returns true iff no key repeats |
| ChannelAuth.AuthMeans | contracts/channel-auth/src/contract.rs:163-172 | `__check_auth` accepts iff a provider entry exists and every one is registered, unexpired and verifies over the payload, every context is a contract context whose requirements all have conditions, and under every required key an unexpired P256 signature verifies over the payload of its list for that contract |
| ChannelAuth.AuthContract.CheckAuth | contracts/channel-auth/src/contract.rs:163-172 | accepted iff every provider entry is registered, unexpired and valid with at least one present, and every context is a contract context whose requirements are non-empty and signed |
| ChannelAuth.AuthContract.RequireProvider | modules/auth/src/core.rs:200-233 | accepts iff there is a provider entry and every one is registered, unexpired and its Ed25519 signature verifies over the payload; each error names a real cause |
| ChannelAuth.AuthContract.HandleUtxoAuth | modules/auth/src/core.rs:75-141 | accepts iff every context is met; only a non-contract context gives `UnexpectedContext` |
| ChannelAuth.AuthContract.CheckRequirements | modules/auth/src/core.rs:99-133 | accepts iff every requirement has conditions and every P256 one a valid unexpired signature over them |
| ChannelAuth.AuthContract.AddProvider | contracts/channel-auth/src/contract.rs:112-117 | accepted iff the owner authorized it and the provider is not registered; then exactly it is added and logged, else nothing changes |
| ChannelAuth.AuthContract.RemoveProvider | contracts/channel-auth/src/contract.rs:119-124 | accepted iff the owner authorized it and the provider is registered; then exactly it is removed and logged, else nothing changes |
| ChannelAuth.AuthIsOrderFree | modules/auth/src/core.rs:80-90 | permuting contexts or adding ones without arguments never changes acceptance |
| Storage.Store.Balance | modules/storage/src/lib.rs:63-72 | the stored amount, or -1 when absent |
| Storage.Store.Create | modules/storage/src/lib.rs:80-93 | adds an entry exactly for a positive amount under an absent key, else leaves the store alone with the right error |
| Storage.Store.Spend | modules/storage/src/lib.rs:104-116 | sets exactly a positive entry to zero and returns what it held |
| UtxoCore.SpendUtxos | modules/utxo-core/src/core.rs:96-114 | the spend loop on the mutable store computes `SpendLoop` |
| UtxoCore.CreateUtxos | modules/utxo-core/src/core.rs:116-134 | the create loop on the mutable store computes `CreateLoop` |
| UtxoCore.CalculateAuthRequirements | modules/utxo-core/src/core.rs:229-240 | fills the requirement map, later entries overwriting earlier ones |
| UtxoCore.ProcessBundleOn | modules/utxo-core/src/core.rs:65-156 | the bundle on the mutable store computes `ProcessBundle`, error by error |
| PrivacyChannel.SumAmounts | contracts/privacy-channel/src/transact.rs:41-58 | the checked sum of strictly positive amounts |
| PrivacyChannel.VerifyExternalOperations | contracts/privacy-channel/src/transact.rs:166-192 | distinct accounts on each side, and one condition list for an account on both |
| PrivacyChannel.SignedEffectsAreExecuted | contracts/privacy-channel/src/transact.rs:113-158 | true iff every create and withdrawal listed with a spend or deposit is among the executed ones |
| PrivacyChannel.PreProcessOperation | contracts/privacy-channel/src/transact.rs:31-86 | the checks in order, with the first failing one's error |
| PrivacyChannel.ChannelContract.IncreaseSupply | contracts/privacy-channel/src/treasury.rs:6-14 | adds to the supply or reports overflow |
| PrivacyChannel.ChannelContract.DecreaseSupply | contracts/privacy-channel/src/treasury.rs:16-24 | subtracts from the supply or reports underflow of the 128-bit range |
| PrivacyChannel.ChannelContract.CallAsset | contracts/privacy-channel/src/transact.rs:204-228 | one asset call with its nested attempts computes `AssetTransfer` on the live state |
| PrivacyChannel.ChannelContract.PullDeposit | contracts/privacy-channel/src/transact.rs:203-207 | one deposit: consent, transfer in, supply up |
| PrivacyChannel.ChannelContract.PushWithdrawal | contracts/privacy-channel/src/transact.rs:209-230 | one withdrawal: transfer out, supply down |
| PrivacyChannel.ChannelContract.ExecuteExternalOperations | contracts/privacy-channel/src/transact.rs:194-231 | the two loops compute the fold of the moves, deposits first |
| PrivacyChannel.ChannelContract.TransactOn | contracts/privacy-channel/src/contract.rs:107-119 | `transact` computes `Channel.Transact` or leaves everything as it was, and keeps the books |
| PrivacyChannel.ChannelContract.constructor | contracts/privacy-channel/src/contract.rs:58-64 | a fresh channel is bound to its contracts, empty, with supply zero and the guard clear |
| Token.TransferMoves | contracts/token/src/contract.rs:113-132 | a transfer is accepted iff the amount is covered and the recipient does not overflow, and moves exactly it |
| Token.TransferKeepsTotal | contracts/token/src/balance.rs:24-35 | a transfer keeps the total, also to oneself |
| Token.DelegatedTransferMoves | contracts/token/src/contract.rs:134-154 | a delegated transfer is accepted iff allowance and balance cover it, moves exactly the amount and uses up the allowance |
| Token.SpendAllowanceUses | contracts/token/src/allowance.rs:51-65 | accepted iff the live allowance covers the amount; it shrinks by exactly that and no other changes |
| Token.ApprovalGrants | contracts/token/src/allowance.rs:4-49 | an approval sets the pair's allowance until its expiry and no other pair's; an expired positive one is refused |
| Token.MintAndBurnChangeTheTotal | contracts/token/src/contract.rs:52-63 | minting and burning change the holder and the total by exactly the amount, with exact acceptance |
| Token.DelegatedBurnTakes | contracts/token/src/contract.rs:169-181 | a delegated burn is accepted iff allowance and balance cover it; holder, total and allowance drop by exactly the amount and nothing else changes |
| Token.OnlyTheAdministratorMints | contracts/token/src/contract.rs:52-63 | minting is accepted iff the administrator authorized it and the recipient can hold it, and raises exactly the recipient and the total |
| Token.TokenRefusals | contracts/token/src/contract.rs:113-181 | a refusal names the first of sign, allowance, balance and recipient overflow that fails |
| Token.AssetContract.Transfer | contracts/token/src/contract.rs:113-132 | with the actor's authorization computes `TransferSpec` on the mutable ledger, without it is rejected; unchanged on failure |
| Token.AssetContract.TransferFrom | contracts/token/src/contract.rs:134-154 | with the actor's authorization computes `TransferFromSpec` on the mutable ledger, without it is rejected; unchanged on failure |
| Token.AssetContract.Approve | contracts/token/src/contract.rs:87-104 | with the actor's authorization computes `ApproveSpec` on the mutable ledger, without it is rejected; unchanged on failure |
| Token.AssetContract.Mint | contracts/token/src/contract.rs:52-63 | on the mutable ledger computes `AuthorizedMintSpec`, unchanged on failure |
| Token.AssetContract.Burn | contracts/token/src/contract.rs:156-167 | with the actor's authorization computes `BurnSpec` on the mutable ledger, without it is rejected; unchanged on failure |
| Token.AssetContract.BurnFrom | contracts/token/src/contract.rs:169-181 | with the actor's authorization computes `BurnFromSpec` on the mutable ledger, without it is rejected; unchanged on failure |
| Token.AssetContract.SetAllowance | contracts/token/src/allowance.rs:23-49 | writes the allowance unless it is positive and expired |
| Token.AssetContract.UseAllowance | contracts/token/src/allowance.rs:51-65 | spends the live allowance or fails |
| Token.AssetContract.SpendBalance | contracts/token/src/balance.rs:29-35 | takes from a covered balance or fails |
| Token.AssetContract.ReceiveBalance | contracts/token/src/balance.rs:24-27 | adds to a balance or traps on overflow |

## Left out

- Payload.PayloadDetermines: the exact characterization is for lists without `ExtIntegration`, whose key lists are not delimited in the payload, and for create keys starting with 0x04; `Payload.PayloadFixesCreates` and `Payload.SigningBindsExactly` cover any other list against a signed one, and `Payload.IntegrationBlockDetermines` one integration alone.
- Payload.PayloadBindsEffects: the corollary for lists of creates and withdrawals only, under the same key condition.
- ChannelAuth.AuthContract.RequireProvider: maps are walked in any order rather than in key order, so when several entries fail the method may report any one of their errors.
- ChannelAuth.AuthContract.CheckRequirements: the same, for the requirement map.
- PrivacyChannel.ChannelContract.constructor: the owner's authorization and ownership storage belong to a library that is not part of this model.
- Cryptography: signature schemes, SHA-256 and address derivation are uninterpreted.
- Host machinery: authorization-entry trees, nonces, XDR bytes, metering, storage lifetimes and archival.
- Administration: ownership transfer, contract upgrade, `enable_channel` and `disable_channel`, token metadata.
- Callbacks other than `transact`: during an asset call the registry and the ledger number do not change.
- Events of `utxo-core`: switched off by feature flags in the channel.
- The single-UTXO helpers `create`, `spend`, `verify_*` of the handler trait: no entry point of the channel calls them.
