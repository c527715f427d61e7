# Stable accounts, NFT fragments and tags

This project models three pallets of the Parami blockchain, a Substrate runtime.

- **magic** keeps *stable accounts*. A magic account authorises a controller account to run a stash account on its behalf. Each record is held in three storage indices:
  - controller → record (`StableAccountOf`);
  - magic → controller (`ControllerAccountOf`);
  - stash → controller (`Controller`).

  `create_stable_account` registers a record. It pays a bond of fifty existential deposits to the magic account and a stashed amount to a freshly derived stash. `change_controller` hands the record and the old controller's funds to a new controller. `codo` lets a controller dispatch a call as its stash, under a filter that refuses the pallet's own calls. A version-gated runtime upgrade backfills the stash index.
- **nft** runs a KOL's initial coin offering. Supporters `back` a KOL's DID by paying into its pot. The KOL then `mint`s its NFT class and fungible fragments. Each backer, and after a lockup the KOL too, `claim`s `initial * deposit / total` fragments once.
- **tag** is a registry of tags, each created once. It also keeps two per-(DID, tag) signed score tables, modified by `influence` and `impact`, and serves two `StoredMap` views.

Each pallet is a `class` whose fields are its storage maps. Each extrinsic is a `method` that:
- checks its guards in the source's order;
- leaves storage as it was on every refusal, because the host rolls the transaction back;
- states in its `ensures` the whole new state, in terms of pure check functions (`CreateCheck`, `ChangeCheck`, `BackCheck`, `MintCheck`, `Entitlement`) and update functions (`Insert`, `Rekey`, `Accrue`, `Accumulate`).

Lemmas about those functions prove the properties the pallets promise: the cross-index invariants, the pro-rata bound on payouts and one-shot claims.

The pallets' collaborators appear as follows.
- The balances ledger (`Currency`) is the class `Ledger.Balances`. Its transfer and withdrawal follow the balances pallet's rules for accounts without locks, reserves or reference counters.
- The DID pallet's metadata is `Identity.Registry`.
- The NFT, asset and swap pallets are a `host` predicate that accepts or refuses each `ExternalCall`.
- The inner call of `codo` is a function `execute`.
- Block heights and origins are parameters. An `Option` account stands for a signed origin in the magic pallet, and an `Option` caller for a DID origin in nft and tag; `None` is the origin `ensure_signed` or `ensure_origin` refuses with `BadOrigin`. A `bool` stands for the privileged origin of `force_create`.

## Model

| member | source | states |
|---|---|---|
| Primitives.SaturatingAdd | pallets/magic/src/lib.rs:172 | the sum when it fits in 128 bits, otherwise the largest balance; never below either operand |
| Primitives.SaturatingMul | pallets/magic/src/lib.rs:168 | the product when it fits in 128 bits, otherwise the largest balance |
| Primitives.AssignKeys | pallets/nft/src/lib.rs:370-376 | after a loop of inserts the keys are the old keys plus every inserted key |
| Primitives.AssignLastWins | pallets/nft/src/lib.rs:370-376 | a key holds the value of its last insert |
| Ledger.Settle | pallets/magic/src/lib.rs:241-242 | the account gets the new balance, or is reaped when that is below the existential deposit, as the `Currency` implementation does to the old controller after the allow-death handover of its whole balance; no other account changes |
| Ledger.Transferred | pallets/magic/src/lib.rs:192-203 | a transfer fails exactly when the sender is short, the receiver would overflow or stay below the existential deposit, or a keep-alive sender would drop below it; on success the receiver gains the amount, the sender loses it (reaped if it drops below the minimum) and nobody else changes |
| Ledger.Withdrawn | pallets/tag/src/lib.rs:136-140 | a fee withdrawal fails exactly when the payer is short or a keep-alive payer would be reaped; on success only the payer's balance drops |
| Ledger.Balances.Transfer | pallets/magic/src/lib.rs:192-203 | the ledger becomes the successful transfer's result, or stays unchanged with its error |
| Ledger.Balances.Withdraw | pallets/tag/src/lib.rs:136-140 | the ledger becomes the successful withdrawal's result, or stays unchanged with its error |
| Identity.Registry.SetMeta | pallets/nft/src/lib.rs:285 | the DID's metadata is replaced and no other DID's changes |
| Magic.StashOfInjective | pallets/magic/src/lib.rs:178-183 | the corrected derivation: distinct (magic, height) pairs derive distinct stashes |
| Magic.SubAccountAsWritten | pallets/magic/src/lib.rs:178-183 | the derivation as written on 32-byte accounts: the stash is `b"modl"`, the pallet id, the one-byte length 144 of the 36-byte raw, then the first 19 bytes of the magic account; the height is dropped |
| Magic.SubAccountAsWrittenCollides | pallets/magic/src/lib.rs:178-183 | as written, magic accounts that agree on their first 19 bytes derive the same stash at any two heights |
| Magic.RecordsIgnoreStashIndex | pallets/magic/src/lib.rs:85-87 | the record invariant holds whatever the stash index holds |
| Magic.InsertRegisters | pallets/magic/src/lib.rs:205-207 | the three inserts store the record under its controller and resolve its magic account and stash to that controller, keeping every other entry |
| Magic.RekeyMoves | pallets/magic/src/lib.rs:248-257 | re-keying drops the old controller, stores the record under the new one with that controller, points the magic and stash entries at it, and keeps every other entry |
| Magic.RecordsKeepRolesApart | pallets/magic/src/lib.rs:143-147 | under the invariant no record's magic account is its controller |
| Magic.CreateCheck | pallets/magic/src/lib.rs:143-165 | the five guards of create, each error in the source's order, and that all pass exactly when magic ≠ controller and neither is a key of either index |
| Magic.CreateCheckMeansUnregistered | pallets/magic/src/lib.rs:149-165 | under the invariant the lookups pass exactly when neither account is the magic or the controller of any record |
| Magic.Funded | pallets/magic/src/lib.rs:167-174 | the corrected funding check: passes exactly when the free balance covers the existential deposit plus the saturating sum of bond and stashed amount |
| Magic.FundedAsWritten | pallets/magic/src/lib.rs:170-174 | the check as written: above the minimum it compares free − minimum with the bond plus stashed amount; below it, it compares 2^128 − (minimum − free) |
| Magic.FundedAsWrittenAdmitsEmptyController | pallets/magic/src/lib.rs:170-174 | the wrapping subtraction lets an empty controller through: free 0, minimum 1, nothing stashed |
| Magic.FundedAsWrittenAgreesAboveMinimum | pallets/magic/src/lib.rs:170-174 | the check as written and the corrected one agree whenever the free balance reaches the minimum |
| Magic.FundedAsWrittenFailsInLedger | pallets/magic/src/lib.rs:167-203 | a controller that only the wrapping check lets through is stopped by the bond transfer, with the ledger's `InsufficientBalance` |
| Magic.Funding | pallets/magic/src/lib.rs:192-203 | the bond transfer to magic, then the stashed transfer to the stash, both keep-alive; the first refusal is the result |
| Magic.FundedCreateMovesFunds | pallets/magic/src/lib.rs:192-203 | when the receivers can take the amounts, a funded controller pays both keep-alive transfers: exactly the bond and the stashed amount leave it, reach magic and stash, and no one else changes |
| Magic.DerivedStashIsFresh | pallets/magic/src/lib.rs:176-183 | under the invariant an unregistered magic account's derived stash belongs to no record |
| Magic.InsertKeepsAgreement | pallets/magic/src/lib.rs:205-207 | the three inserts of a checked record with a fresh stash keep the record invariant and the stash-index invariant |
| Magic.CollidingStashBreaksStashIndex | pallets/magic/src/lib.rs:143-207 | with a derivation that is not injective, a fresh magic account deriving a registered record's stash passes every check; the insert gives that stash to the new controller's record, repoints the stash index at it, and breaks both invariants |
| Magic.ChangeCheck | pallets/magic/src/lib.rs:221-239 | the four guards of change, each error in order, that all pass exactly when next is unused and the magic account resolves to a stored record, and that the result is its controller |
| Magic.ChangeNeverMissesRecord | pallets/magic/src/lib.rs:236-239 | under the invariant `StableAccountNotFound` cannot occur |
| Magic.RekeyKeepsAgreement | pallets/magic/src/lib.rs:249-257 | re-keying keeps both invariants, drops the old controller, keeps stash, magic and created, and points the magic and stash entries at the new controller |
| Magic.Refunded | pallets/magic/src/lib.rs:244-246 | the keep-alive refund of the bond from stash to magic when the ledger accepts it, otherwise the balances unchanged; only stash and magic can change |
| Magic.CodoFilter | pallets/magic/src/lib.rs:279-287 | the filter passes a call exactly when it is not one of the pallet's three calls |
| Magic.Dispatch | pallets/magic/src/lib.rs:289 | a call the origin's filter rejects is refused with `CallFiltered`; any other runs with the whole origin |
| Magic.CodoDispatchFiltersOwnCalls | pallets/magic/src/lib.rs:278-289 | through the stash origin the pallet's three calls are refused as filtered and every other call runs as the stash |
| Magic.StashesGrow | pallets/magic/src/lib.rs:113-117 | visiting one more record adds exactly its stash to those written |
| Magic.BackfillStep | pallets/magic/src/lib.rs:113-117 | one loop iteration extends the backfill by the visited record |
| Magic.BackfillAgrees | pallets/magic/src/lib.rs:106-122 | once every record has been visited, the invariant makes the stash index resolve every stash to its controller |
| Magic.Backfill | pallets/magic/src/lib.rs:113-117 | the loop writes exactly the records' stashes, each to the controller of a record with that stash, and keeps every other entry |
| Magic.BuiltShape | pallets/magic/src/lib.rs:313-330 | the genesis indices are keyed by exactly the triples' controllers and magic accounts and hold genesis records |
| Magic.GenesisAgrees | pallets/magic/src/lib.rs:313-330 | triples with distinct roles produce indices satisfying both invariants |
| Magic.Pallet.Genesis | pallets/magic/src/lib.rs:313-330 | the storage is the fold of the inserts at version V0, and both invariants hold when the triples have distinct roles |
| Magic.Pallet.CreateStableAccount | pallets/magic/src/lib.rs:138-212 | refusals in order with ledger and storage untouched: `BadOrigin` for an unsigned origin, the guards, then funding, then a failed transfer rolled back; on success the ledger is after both transfers, the three indices gain the record with height now, `Created(stash, controller)` is returned, and the invariants are preserved |
| Magic.Pallet.ChangeController | pallets/magic/src/lib.rs:215-262 | refusals in order with storage untouched, `BadOrigin` for an unsigned origin first; on success the old controller's whole free balance moves to next (allow-death), the bond refund is attempted and any failure ignored, the record is re-keyed, `Changed(stash, next)` is returned, and the invariants are preserved |
| Magic.Pallet.Codo | pallets/magic/src/lib.rs:273-294 | `BadOrigin` for an unsigned origin, `StableAccountNotFound` for a non-controller; otherwise always success, whose event reports `CallFiltered` for the pallet's own calls and, for any other, the inner result of running it with the stash's signed origin, filter included |
| Magic.Pallet.OnRuntimeUpgrade | pallets/magic/src/lib.rs:106-122 | at V1 the stash index is untouched; otherwise the records' stashes are backfilled; the version ends at V1 and a valid state becomes one whose stash index agrees |
| Nft.Accrue | pallets/nft/src/lib.rs:191-205 | the entry becomes old + value (saturating), or value when absent; no other entry changes |
| Nft.TryInto | pallets/nft/src/lib.rs:382-392 | succeeds with the value exactly when it fits both u128 and the target, otherwise `Overflow` |
| Nft.BalanceFitsWide | pallets/nft/src/lib.rs:321-323 | widening a balance to 512 bits never fails |
| Nft.ValidateAsWritten | pallets/nft/src/lib.rs:220-238 | the check as written panics exactly when the name is well formed and the symbol is empty, and accepts only well-formed metadata |
| Nft.ValidateAsWrittenTrapsOnEmptySymbol | pallets/nft/src/lib.rs:224-238 | the check as written lets name `A` with an empty symbol reach `symbol[0]` |
| Nft.ValidateAsWrittenAgreesOnNonEmptySymbol | pallets/nft/src/lib.rs:220-238 | for every non-empty symbol the check as written accepts exactly the well-formed name and symbol |
| Nft.LockupElapsedAsWritten | pallets/nft/src/lib.rs:311-312 | the check as written compares the plain difference when the date is not ahead of the height, and 2^32 minus the gap when it is |
| Nft.LockupElapsed | pallets/nft/src/lib.rs:311-314 | the corrected lockup check: for a positive lockup, passes exactly when now ≥ date + lockup |
| Nft.LockupAsWrittenReleasesGenesisClassEarly | pallets/nft/src/lib.rs:311-314 | with genesis dating a class at the lockup period (100), the wrapping check releases it at height 1 |
| Nft.LockupAsWrittenAgreesAfterMinting | pallets/nft/src/lib.rs:311-314 | for a date no later than the 32-bit current height the two checks agree |
| Nft.Payout | pallets/nft/src/lib.rs:325 | `initial * deposit / total` rounded down: the largest r with r · total ≤ initial · deposit |
| Nft.PayoutAsWritten | pallets/nft/src/lib.rs:325 | the division as written: none exactly for a zero total, otherwise the payout |
| Nft.PayoutProRata | pallets/nft/src/lib.rs:325 | the payout never exceeds the exact share `initial * deposit / total` |
| Nft.PayoutWithinBase | pallets/nft/src/lib.rs:325 | a deposit no larger than the total is paid at most the base amount |
| Nft.PayoutsProRata | pallets/nft/src/lib.rs:325 | the payouts of several deposits together never exceed initial times their sum over the total |
| Nft.PayoutsWithinBase | pallets/nft/src/lib.rs:325 | deposits adding up to at most the total are paid at most the base amount all together |
| Nft.BackCheck | pallets/nft/src/lib.rs:181-187 | `BadOrigin`, `YourSelf`, `NotExists`, `Minted` in order; success exactly otherwise, giving the caller and the KOL's pot |
| Nft.MintCheck | pallets/nft/src/lib.rs:218-263 | `BadMetadata` unless name and symbol are well formed, then `BadOrigin`, `NotExists`, `Minted`, `InsufficientBalance` below the minimum deposit, and `Overflow` when the counter has reached the largest class id, each stated as its own case; success exactly when all pass, with the old counter as class id and the pot's balance as deposit |
| Nft.MintCheckRefusesEmptySymbol | pallets/nft/src/lib.rs:220-238 | whoever calls, an empty symbol is refused with `BadMetadata` before any other check |
| Nft.MintCalls | pallets/nft/src/lib.rs:265-281 | the seven external steps, all for the new class, minting three base amounts to the pot and seeding the swap with the pot's deposit and one base amount |
| Nft.FirstRefused | pallets/nft/src/lib.rs:267-281 | none exactly when the host accepts every step, otherwise a refused step all of whose predecessors were accepted |
| Nft.Entitlement | pallets/nft/src/lib.rs:300-327 | `BadOrigin`; `NotExists` for a KOL without an NFT, or, for the KOL itself, without a mint date; `NoToken` while the lockup has not elapsed; `NotExists` without a total; `NoToken` without the caller's record or with a zero total; `Overflow` when the payout exceeds 128 bits; success exactly when none of these applies, paying `initial * deposit / total` from the pot to the caller |
| Nft.ClaimOverflowNeedsOversizedShare | pallets/nft/src/lib.rs:321-327 | a claim overflows only for a deposit record larger than the KOL's total |
| Nft.BackOfNothingLeavesZeroTotal | pallets/nft/src/lib.rs:189-205 | as written, a fresh KOL backed with value 0 passes the transfer and records a total of zero together with the backer's record, so the payout division has nothing to divide by |
| Nft.ClaimIsOneShot | pallets/nft/src/lib.rs:318-331 | after its record is removed the same claim fails with `NoToken` |
| Nft.GenesisDates | pallets/nft/src/lib.rs:362-367 | the classes below the configured counter, each dated at the lockup period, or none when the counter does not fit 32 bits |
| Nft.DatesBelow | pallets/nft/src/lib.rs:363-368 | exactly the classes below n, each dated at the lockup period |
| Nft.Pallet.Genesis | pallets/nft/src/lib.rs:358-378 | the counter is the configured one, the dates are the genesis dates (none when the id does not fit 32 bits), and each deposit map is keyed by exactly its configured keys, each holding the value of its last configured insert |
| Nft.Pallet.Back | pallets/nft/src/lib.rs:176-210 | refusals from the checks or the keep-alive transfer leave ledger and storage untouched; on success the pot is paid and both the KOL's total and the caller's record accrue the value |
| Nft.Pallet.Mint | pallets/nft/src/lib.rs:217-296 | refusals by the checks or by any external step leave storage untouched; on success the counter rises by one, the DID's meta gets the class, the class is dated now, and the KOL's own record is set to the pot's balance; the new class was undated |
| Nft.Pallet.Claim | pallets/nft/src/lib.rs:300-336 | refusals by the entitlement or by the fragment transfer leave storage untouched; on success `Claimed` with the payout is returned and exactly the caller's record is removed |
| Tag.Accumulate | pallets/tag/src/lib.rs:218-224 | the score becomes old + delta (delta when absent) and no other entry changes |
| Tag.AccumulateAll | pallets/tag/src/lib.rs:213-244 | repeated updates end at the starting score plus the sum of the deltas, and leave every other entry as it was |
| Tag.Written | pallets/tag/src/lib.rs:273-278 | the entry `f` left is stored, or removed when none, and every other entry is kept |
| Tag.Pallet.Key | pallets/tag/src/lib.rs:200-202 | the key is the storage prefix followed by the tag |
| Tag.Pallet.KeyInjective | pallets/tag/src/lib.rs:200-202 | distinct tags have distinct, non-empty keys |
| Tag.Pallet.Genesis | pallets/tag/src/lib.rs:185-195 | exactly the configured tags are registered, each created by the default DID at height zero |
| Tag.Pallet.InnerCreate | pallets/tag/src/lib.rs:204-210 | the tag's metadata becomes (creator, now), its key is returned, and nothing else changes |
| Tag.Pallet.Create | pallets/tag/src/lib.rs:131-149 | `BadOrigin`, then `Exists`, then `InsufficientBalance` when the keep-alive fee withdrawal fails, each with nothing changed; on success the fee is withdrawn and the tag is registered to the caller |
| Tag.Pallet.ForceCreate | pallets/tag/src/lib.rs:152-164 | `BadOrigin`, then `Exists`; otherwise the tag is registered to the default DID without a fee |
| Tag.Pallet.Influence | pallets/tag/src/lib.rs:213-227 | `NotExists` for an unregistered tag; otherwise only the DID's persona score for the tag's key accumulates the delta |
| Tag.Pallet.Impact | pallets/tag/src/lib.rs:230-244 | `NotExists` for an unregistered tag; otherwise only the DID's influence score for the tag's key accumulates the delta |
| Tag.Pallet.Get | pallets/tag/src/lib.rs:248-254 | non-empty exactly for a registered tag, and then its key |
| Tag.Pallet.GetIdentifiesTag | pallets/tag/src/lib.rs:248-254 | two tags with the same non-empty view are the same tag |
| Tag.Pallet.ScoredKeyNamesOneTag | pallets/tag/src/lib.rs:213-227 | under the invariant every persona score is held under the key of exactly one registered tag |
| Tag.Pallet.TryMutateExists | pallets/tag/src/lib.rs:256-262 | the result is `f` applied to an absent entry, and no storage is written |
| Tag.Pallet.TagsGet | pallets/tag/src/lib.rs:266-271 | the stored tag list, or empty |
| Tag.Pallet.TryMutateTags | pallets/tag/src/lib.rs:273-278 | `f` sees the stored entry, its result is returned, the entry it leaves is written back even on error, and nothing else changes; `Tag.Pallet.TagsGet` then reads that entry for the key and the old list for every other |

## Left out

- Ledger.Transferred: does not model the providers and consumers reference counters. The balances pallet refuses, with `KeepAlive`, an allow-death transfer that would reap a sender it cannot drop a provider from, and the model lets that through. This affects the handover of the old controller's balance in `change_controller` (pallets/magic/src/lib.rs:242).
- Weights: `#[pallet::weight]` annotations, and the `DbWeight` that `on_runtime_upgrade` returns. These are benchmarking constants, so `Magic.Pallet.OnRuntimeUpgrade` returns nothing.
- Injective stand-ins for two derivations:
  - The stash is the constructor `Account.Derived(magic, created)`, so it is injective and never yields a key-held account. This is the corrected derivation recorded under Findings; `Magic.SubAccountAsWritten` is the source's, which is not injective.
  - The tag storage key `hashed_key_for` is the storage prefix followed by a hash of the SCALE-encoded tag. `Tag.Pallet.Key` is an injective stand-in for it, the prefix followed by the tag itself; `Tag.Pallet.KeyInjective` is the property the pallet relies on.
- The bodies of the external pallets:
  - the NFT, asset and swap pallets are a `host` that accepts or refuses each step, and their own balances are not modelled;
  - in particular the swap's movement of the pot's currency in `mint` is not debited from `Ledger.Balances`;
  - the inner call in `codo` is the function `execute`, which receives the stash's filtered origin and the call; its effects are not modelled.
- The DID pallet (`Did::meta`, `set_meta`, `EnsureDid`) is not part of this model beyond the `Identity.Registry` map. Origins are parameters. A caller is `None` when `ensure_origin` refuses.
- `types.rs` of the magic, nft and tag pallets is not part of this model. The records appear as datatypes with the fields the pallets use.
- Events are return values. How they are deposited and encoded is not modelled.
- Locks, reserves and total issuance in the ledger; `Ledger.Withdrawn` stands for `burn` followed by `settle`. The burnt imbalance reducing total issuance is not modelled.
- Block heights are unbounded naturals. The 32-bit wrap-around of the lockup subtraction appears only in the as-written member `Nft.LockupAsWrittenReleasesGenesisClassEarly`; the pallet uses the corrected check.
- The `StringLimit` constant has a type of naturals of at least 4, so the `usize` underflow of `StringLimit - 4` (pallets/nft/src/lib.rs:218) for a smaller limit is not modelled.
- Host transactions: they are modelled as "a refusal leaves storage and ledger unchanged". In `Magic.Pallet.CreateStableAccount` this happens by restoring the ledger after a failed second transfer. In `Nft.Pallet.Mint` the class counter is written only after every external step has been accepted.
- Magic.StashOfInjective: holds of the corrected, injective derivation recorded under Findings. As written, distinct magic accounts can derive the same stash (`Magic.SubAccountAsWrittenCollides`).
- Magic.DerivedStashIsFresh: the derived stash is fresh only under the corrected derivation. As written, a fresh magic account sharing a record's first 19 bytes derives that record's stash.
- Magic.Pallet.CreateStableAccount: derives the stash with the corrected `Magic.StashOf`, and its `old(Valid()) ==> Valid()` rests on that derivation. As written, a colliding magic account passes every guard and breaks both invariants (`Magic.CollidingStashBreaksStashIndex`), after which `codo` signs as the victim's stash for the new controller.
- Magic.Pallet.CreateStableAccount: implements the corrected funding check `Magic.Funded` recorded under Findings. As written, a controller below the existential deposit passes the pallet's guard and is refused with the ledger's `InsufficientBalance` from the first transfer (`Magic.FundedAsWrittenFailsInLedger`); the model refuses it with the pallet's `InsufficientBalance`.
- Nft.Pallet.Claim: implements the corrected checks recorded under Findings. The lockup uses the non-wrapping `Nft.LockupElapsed`, and a zero total is refused with `NoToken` where the source's division panics.
- Nft.Entitlement: the same corrected lockup and zero-total checks as `Nft.Pallet.Claim`.
- Nft.Pallet.Mint: implements the corrected metadata check recorded under Findings. An empty symbol is refused with `BadMetadata` where the source panics at `symbol[0]` (pallets/nft/src/lib.rs:236).
- Nft.MintCheck: the same corrected metadata check as `Nft.Pallet.Mint`.
- Tag.Accumulate: requires the new score to fit in `i64`, where `+=` would overflow. The model does not describe the overflow.
- Tag.Pallet.Influence: requires the same `i64` range for the updated score.
- Tag.Pallet.Impact: requires the same `i64` range for the updated score.
- Nft.Pallet.Genesis: requires the configured next class id to be at most the largest class id, which its type guarantees in the source.
- Magic.FundedCreateMovesFunds: assumes that the receivers can take the amounts. The magic and stash accounts must not overflow, and the stash must reach the existential deposit. It also assumes the unsaturated bond plus stashed amount fits in 128 bits. Outside these assumptions a funded create may still fail in the ledger, and `Magic.Pallet.CreateStableAccount` then refuses with the ledger's error.
- Magic.Pallet.OnRuntimeUpgrade: the storage iteration order is unspecified. When records share a stash, the model says a visited record's controller is written, not which one.

## Findings

| source | as written | input that shows it | evidently intended | confidence | as-written member | corrected member |
|---|---|---|---|---|---|---|
| pallets/magic/src/lib.rs:170-174 | `free_balance - minimum` on 128-bit balances wraps when the controller holds less than the existential deposit, so the funding guard passes | free balance 0, minimum 1, stashed 0: the wrapped difference exceeds the bond of 50 | the guard refuses with `InsufficientBalance` unless the balance covers minimum + bond + stashed | not executed | Magic.FundedAsWrittenAdmitsEmptyController | Magic.Funded |
| pallets/magic/src/lib.rs:178-183 | `into_sub_account` decodes the 32-byte stash from the front of `b"modl"` ++ pallet id ++ compact length ++ (magic ++ created), so it keeps only the first 19 bytes of the magic account and none of the height (assuming 32-byte account ids and the sp-runtime definition, which is not part of this model); the source's own comment asks for an HMAC-based algorithm | a registered record with magic account M, and a fresh magic account that differs from M only in its last byte: it passes every guard, derives M's stash, and the stash index is repointed at its controller | a derivation injective in the magic account and height | not executed | Magic.SubAccountAsWrittenCollides | Magic.StashOfInjective |
| pallets/nft/src/lib.rs:224-227 | the second length guard re-tests `0 < name.len()`, so an empty symbol passes and `symbol[0]` indexes past its end | name `A`, empty symbol, limit 10 | the symbol is refused with `BadMetadata` unless it has between 1 and limit bytes | not executed | Nft.ValidateAsWrittenTrapsOnEmptySymbol | Nft.MintCheckRefusesEmptySymbol |
| pallets/nft/src/lib.rs:311-312 | `height - minted_block_number` on 32-bit block numbers wraps when the recorded date lies ahead of the height, which genesis causes by dating every class at the lockup period (lines 364-367) | height 1, date 100, lockup 100: the wrapped difference passes the check | the KOL must wait until height ≥ date + lockup | not executed | Nft.LockupAsWrittenReleasesGenesisClassEarly | Nft.LockupElapsed |
| pallets/nft/src/lib.rs:189-197 | `back` accepts a value of 0 and records a zero total for a KOL nobody backed, and the claim's `initial * deposit / total` (line 325) then divides by zero | a fresh KOL backed with value 0; its pot then reaches `InitialMintingDeposit` by a plain transfer outside `back`, since any positive `back` would make the total positive; the KOL mints; then that backer claims | a zero total is refused rather than divided by | not executed | Nft.BackOfNothingLeavesZeroTotal | Nft.Entitlement |
