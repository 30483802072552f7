# WeVibe chain: a verified model

This project models the state machines of the WeVibe chain, a Cosmos SDK application written in Go, and
proves what its modules promise together. It covers:

- **x/emissions and x/identity** (`Emissions`, `RewardLedger`, `Economy`, `Schedule`, `Payouts`, `EmissionsKeeper`,
  `Identity`): the daily mint that drains two pools, the decimal-text reward ledger, claims through migrated aliases.
- **x/memory** (`Memory`, `CanonicalBody`, `Expiry`, `Custody`, `PendingLimit`, `ApprovalCounts`, `Merkle`, `MemoryKeeper`):
  commitments, approvals against the contributor's signature, reports, the expiry sweep, the Merkle pre-image.
- **x/org** (`Org`, `OrgInvariant`, `RegistryOutcomes`, `SlotPrice`, `OrgKeeper`): slots, the ascending fee, members and leaders.
- **x/bandwidth and its wire codec** (`Varint`, `Wire`, `BandwidthCodec`, `Bandwidth`), key ranges and keys (`KeyRange`, `StoreKeys`).
- **The chain** (`Chain`, `EpochOrder`, `Counters`, `RegistryOnChain`, `History`, `Authority`, `App`): every interleaving of epoch ends and of the
  messages of the economy, registry and memory modules, with the emissions hook running before the memory hook.
  `Scenarios` holds concrete runs and states. The runs start from a chain that has just started, and assume no more of
  the environment than that one account is well-formed, one contributor's signature verifies, and the fee grants and
  reputation updates of the run succeed.

Each module is given twice. A datatype of states with functions on it says what an operation does, and theorems over
whole runs are proved about those functions. A class (`Keeper`), or a method with loops, does the same work step by step
as the Go code does, and its contract equates its effect with the function, failures and partial writes included.
`App.Application` wires the keepers together: delivering any sequence of actions to them is a run of the chain, so the
theorems about runs are theorems about the keepers.

What those functions do is in turn said without them: `Payouts`, `RegistryOutcomes` and the `...SucceedsIff` and
`...Stores` lemmas of `History` state acceptance and effect in terms of the message and the two states, and `History` and
`Authority` trace every record of a run back to a message that was entitled to write it.

Conventions:

- A Go `uint64` is an integer below 2^64 and every addition that may wrap is written with `Wrap`. Strings are sequences
  of characters that stand for bytes. Stores are maps over the components of their textual keys; `StoreKeys` proves that
  textual keys of one kind are different for different components, and that the kinds within a store do not meet.
- InitChain writes one marker, under four 0xFF bytes, into every store (app/app.go:607, 641-643); the memory store carries it.
- A failed message is rolled back. The two epoch hooks swallow errors, so what a failing hook wrote stays.
- SHA-256 (FIPS 180-4), Ed25519 verification (section 5.1.7 of RFC 8032), address syntax, the bank's blocked list, the
  derivation of organisation accounts, fee grants and the reputation module's answers are parameters: the theorems hold
  for all of them. Minting coins into the module account is taken to succeed always.
- Epochs are dispatched in increasing order; the theorems about the order of epochs say so explicitly (`Increasing`).
- Run theorems about counters assume fewer than 2^64 messages in a run.

## What the proofs found

- *Rewards are never paid.* The comment at x/memory/keeper/lifecycle.go:53-57 says approvals of an epoch qualify their
  contributors for that epoch's emission. The memory hook records an epoch only after the emissions hook has minted it,
  and approvals are stamped with the recorded epoch, so every mint looks for a stamp that cannot exist yet
  (`EpochOrder.NoRewardIsEverPaid`; `Scenarios.ApprovedButNeverPaid` is such a run). The model follows the code.
- *The pending limit is not per organisation.* Its scan has no upper bound: it also meets later organisations'
  commitments, all reports and the marker, so it never counts just the organisation's own commitments
  (`PendingLimit.LimitIsOwnIff`), an organisation gets at most 999 of the default 1000 (`PendingLimit.LimitOverRuns`), and reports
  use it up for ever (`PendingLimit.ReportsExhaustTheLimit`, `Scenarios.ForeignReportCounts`).
- *Merkle roots cover no memory.* Commitments are stored with epoch 0, so the root of a later epoch covers no approved memory
  (`Custody.RootsSelectNothing`).
- *A stuck sweep.* One expired entry without a memory blocks all entries that sort after it (`Expiry.SweepStopsAt`,
  `Scenarios.StuckSweep`).
- *Expiry revives.* The sweep deletes the entry that made a memory invalid, so validity queries answer true again
  (`Expiry.SweepRevives`, `Scenarios.RevivedEntry`). This and the stuck sweep need validity entries, which only the memory
  module's InitGenesis writes (x/memory/keeper/keeper.go:663) and the application does not call (app/app.go:598-602); on a
  chain as wired there are none (`Custody.ValidityOnlyShrinks`).
- *A leader can get a second organisation* by a transfer, though not by registering (`OrgInvariant.RunKeepsDistinctIff`,
  `Scenarios.TransferGivesASecondOrg`).
- *A resubmitted commitment* is accepted although its hash is approved (`PendingLimit.SubmitKeepsDisjointIff`,
  `Scenarios.ResubmissionAccepted`), and can then never be approved or removed (`PendingLimit.ResubmissionStays`).
- *A half-applied mint* needs an invalid pool or an unreadable ledger entry (`Economy.MintFailsIff`); neither is reachable
  from the default genesis (`Economy.MintCompletes`).
- *Slot prices* fall in three ways: back to the base price when they overflow 64 bits; slot by slot when the percentage is
  2^63 or more and reads as negative (`SlotPrice.NegativePercentFalls`); and, when both parameters do, where the scaled
  price becomes positive below the base (`SlotPrice.PriceEntersLow`). `SlotPrice.NextSlotNotCheaperIff` has the exact condition.
- *Aliases belong to texts, not to keys.* A passkey may be spelled in either case, and each spelling migrates on its own
  (`Identity.MigrateKeepsOneWalletIff`, `Identity.TwoSpellingsTwoWallets`), so `Economy.OneWalletPerPasskey` speaks of one text.
- *Serve requests* that wrap lower the usage (`Bandwidth.ServeCountedIff`). The only caller passes the length of a batch
  under a cap (x/serve/keeper/keeper.go:217-221), so such a request reaches the keeper function, not the chain.
- *The annual cap* is ignored below 365 (`Schedule.CapBindsIff`, `Schedule.AnnualCapFails`), and *prefix ranges* are inexact for prefixes that end in 255 after another byte (`KeyRange.ExactScanIff`).

## Model

| member | source | states |
|---|---|---|
| EmissionsKeeper.Keeper.constructor | x/emissions/types/genesis.go:41-64 | a fresh keeper is the default genesis: default parameters, the default pool seeded from them, an empty ledger |
| EmissionsKeeper.Keeper.AddContributorReward | x/emissions/keeper/keeper.go:313-344 | both decimal entries grow by the amount modulo 2^64; a malformed entry stops it, possibly between the two writes |
| EmissionsKeeper.Keeper.CollectPayees | x/emissions/keeper/keeper.go:233-245 | whatever order the approvals map is iterated in, the result is the one ascending list of the qualifying contributors |
| EmissionsKeeper.Keeper.CreditPayees | x/emissions/keeper/keeper.go:254-260 | the loop leaves exactly the ledger of the fold over the payees, also when it stops half way |
| EmissionsKeeper.Keeper.EpochAmounts | x/emissions/keeper/keeper.go:206-231 | the validator emission and the capped contributor budget of the epoch, neither above its pool |
| EmissionsKeeper.Keeper.Distribute | x/emissions/keeper/keeper.go:247-263 | no payees: the budget rolls over; otherwise budget plus rollover is split evenly and the remainder carried |
| EmissionsKeeper.Keeper.MintDailyEmission | x/emissions/keeper/keeper.go:191-311 | result and final state, partial writes of a failed mint included, are determined by the old state, the epoch and the approvals alone |
| EmissionsKeeper.Keeper.SettleMint | x/emissions/keeper/keeper.go:265-300 | coins, daily record and advanced pool; with invalid shares the coins and the record stay and the pool does not move |
| EmissionsKeeper.Keeper.SetEmissionPool | x/emissions/keeper/keeper.go:153-189 | the pool is stored exactly when its shares make 100 |
| EmissionsKeeper.Keeper.AfterEpochEnd | x/emissions/keeper/epoch_hooks.go:9-28 | foreign identifiers change nothing; the error of a failed mint is swallowed and its writes stay |
| EmissionsKeeper.Keeper.HandleMint | x/emissions/keeper/msg_server.go:22-41 | authority and epoch are checked first; a failed mint is rolled back completely |
| EmissionsKeeper.Keeper.UpdateParams | x/emissions/keeper/msg_server.go:43-54 | governance only, and only parameters whose two pairs of weights make 100 |
| EmissionsKeeper.Keeper.ClaimContributorReward | x/emissions/keeper/msg_server.go:56-108 | pays the whole pending amount to the migrated wallet and zeroes it, or fails and changes nothing |
| Economy.PlanConserves | x/emissions/keeper/keeper.go:206-263 | what a mint takes from the budget and the rollover it pays out in equal shares or carries over, for any approvals |
| Economy.MintEffect | x/emissions/keeper/keeper.go:191-311 | the exact new state of a mint, with no 64-bit addition wrapping; the four pool amounts keep their sum |
| Economy.CreditsFit | x/emissions/keeper/keeper.go:247-263 | the credits of a mint never overflow: the ledger stays readable and both its sums grow by what is distributed |
| Economy.MintCompletes | x/emissions/keeper/keeper.go:197-304 | in a sound state a mint succeeds if and only if its epoch is new, and a stale one changes nothing |
| Economy.MintFailsIff | x/emissions/keeper/keeper.go:247-304 | for every state: past the epoch guard a mint fails if and only if the shares do not make 100 or a payee's stored amount is unreadable |
| Economy.HalfAppliedMint | x/emissions/keeper/keeper.go:153-304 | with shares 0 + 0 the hook credits and mints a reward, fails, and leaves the pool unmoved |
| Economy.ClaimIsFunded | x/emissions/keeper/msg_server.go:73-97 | in a sound state no claim lacks funds and none meets an unreadable entry |
| Economy.StepKeepsSound | x/emissions/keeper/keeper.go:191-344 | every mint, claim, parameter update and migration keeps conservation, solvency and the wallet bindings, for arbitrary approvals |
| Economy.RunKeepsSound | x/emissions/keeper/keeper.go:191-344 | conservation, solvency and the per-passkey ledger after every run from every sound state |
| Economy.GenesisIsSound | x/emissions/types/genesis.go:41-64 | the default genesis is sound with 890,000,000,000,000 uvibe locked |
| Economy.LifetimeNeverDecreases | x/emissions/keeper/keeper.go:313-344 | a lifetime reward never decreases along any run |
| Economy.OneWalletPerPasskey | x/emissions/keeper/msg_server.go:61-97 | all payments ever made for one passkey text went to one wallet |
| RewardLedger.CreditAllAmounts | x/emissions/keeper/keeper.go:254-260 | each payee's pending and lifetime amounts grow by one share, everybody else's stay |
| RewardLedger.CreditAllSums | x/emissions/keeper/keeper.go:254-261 | the sums of both ledgers grow by share times payees |
| RewardLedger.CreditAllFailsIff | x/emissions/keeper/keeper.go:313-344 | crediting stops if and only if there is something to credit and some payee's entry is unreadable |
| RewardLedger.PayeesAreQualifying | x/emissions/keeper/keeper.go:239-245 | the payees are the non-empty contributors at or above the threshold, each once |
| Schedule.ValidatorSchedule | x/emissions/keeper/keeper.go:206-218 | from q*d+m over d epochs, after any run the validator pool is q*(d-k)+min(m,d-k) after k mints, and 0 from d on |
| Schedule.ValidatorShareOfMint | x/emissions/keeper/keeper.go:206-218 | the mint after any such run records the closed-form share of its position |
| Schedule.ValidatorShareShape | x/emissions/keeper/keeper.go:206-218 | the shares are q or q+1, never decrease, and exhaust the pool exactly |
| Schedule.ContributorSchedule | x/emissions/keeper/keeper.go:220-231 | with a pool of Y annual caps over 365*Y epochs the contributor pool follows its closed form: a 365th of the cap per mint, Y*(cap mod 365) left over |
| Schedule.ContributorLeftover | x/emissions/keeper/keeper.go:220-231 | the leftover at the end of the schedule, and that it is gone exactly after leftover / daily further mints, rounded up |
| Schedule.AnnualCap | x/emissions/keeper/keeper.go:220-231 | from any sound state, under any parameter updates with annual caps between 365 and A, any stretch of at most 365 mints budgets at most A |
| Schedule.AnnualCapFails | x/emissions/keeper/keeper.go:220-231 | for every annual cap below 365 a sound state whose next mint budgets more than the cap |
| Schedule.CapBindsIff | x/emissions/keeper/keeper.go:222-227 | the per-epoch cap bounds every budget if and only if the annual cap is at least 365; below that every budget is the even share |
| Schedule.DefaultSchedule | x/emissions/types/params.go:7-22 | the default parameters meet the assumptions of both schedules, with their concrete numbers |
| Identity.Keeper.constructor | x/identity/keeper/keeper.go:60-71 | a fresh registry has no aliases |
| Identity.Keeper.ResolveIdentity | x/identity/keeper/keeper.go:90-100 | wallet, migration flag and presence of the alias |
| Identity.Keeper.MigrateIdentity | x/identity/keeper/msg_server.go:23-73 | binds a passkey after the signature check, at most once; an existing migrated alias never changes |
| Identity.MigrateExtends | x/identity/keeper/msg_server.go:48-64 | a migrated alias and its wallet are permanent |
| Identity.MigrateKeepsOneWalletIff | x/identity/keeper/msg_server.go:48-64 | a migration keeps one wallet per public key if and only if no other spelling of the key has migrated to another wallet |
| Identity.TwoSpellingsTwoWallets | x/identity/keeper/msg_server.go:23-73 | two spellings of one key, each with a valid message, migrate to two wallets |
| Hex.SameBytesIff | x/identity/types/msgs.go:9-31 | two hexadecimal texts denote the same bytes if and only if they differ in case only |
| Decimal.ParseFormat | x/emissions/keeper/keeper.go:346-365 | parsing the decimal text of a uint64 gives it back |
| Decimal.FormatInjective | x/org/types/slot.go:10-12 | different numbers have different decimal text |
| Hex.DecodeEncode | x/memory/keeper/lifecycle.go:112-121 | decoding the hexadecimal text of bytes gives them back |
| MemoryKeeper.Keeper.constructor | x/memory/keeper/keeper.go:24-32 | a fresh keeper has an empty store |
| MemoryKeeper.Keeper.RequireLeaderWallet | x/memory/keeper/msg_server.go:33-42 | passes exactly for the registered, non-empty leader wallet of an existing organisation |
| MemoryKeeper.Keeper.PutMarker | app/app.go:641-643 | the marker InitChain writes into the store |
| MemoryKeeper.Keeper.CountPending | x/memory/keeper/keeper.go:279-287 | counts what an unbounded scan from the organisation's pending prefix meets: its own and later organisations' commitments, all reports, and the marker |
| MemoryKeeper.Keeper.HandleUpdateParams | x/memory/keeper/msg_server.go:246-257 | governance only, and not with an empty authority |
| MemoryKeeper.Keeper.HandleSubmitCommitment | x/memory/keeper/msg_server.go:44-106 | stores one pending commitment with epoch 0 after every check, or changes nothing and reports which check failed |
| MemoryKeeper.Keeper.CheckApproval | x/memory/keeper/msg_server.go:119-193 | rebuilds the signed body and checks key, signature, ciphertext hash and content hash in that order |
| MemoryKeeper.Keeper.HandleApproveMemory | x/memory/keeper/msg_server.go:108-215 | moves the pending commitment to the approved memories and raises both modules' totals, or changes neither module |
| MemoryKeeper.Keeper.StoreApproval | x/memory/keeper/keeper.go:362-434 | the writes of an approval, here and in the registry |
| MemoryKeeper.Keeper.HandleReportMemory | x/memory/keeper/keeper.go:109-198 | stores a first report of a reporter about an approved memory and raises the registry's total, or changes neither module |
| MemoryKeeper.Keeper.GetContributorsWithApprovalsInEpoch | x/memory/keeper/lifecycle.go:63-91 | in any reading order, per contributor the number of committed memories stamped with the epoch |
| MemoryKeeper.Keeper.CollectExpired | x/memory/keeper/validity.go:59-74 | the expired entries in key order |
| MemoryKeeper.Keeper.CheckEpochExpiry | x/memory/keeper/validity.go:44-94 | collect, then mutate: the final state, partial when an entry has no memory, is the one the sweep function determines |
| MemoryKeeper.Keeper.AfterEpochEnd | x/memory/keeper/epoch_hooks.go:13-33 | records the epoch, then sweeps; a failed sweep is swallowed and what it did stays |
| ApprovalCounts.ApprovalsAdd | x/memory/keeper/lifecycle.go:71-88 | one more stored memory raises the count of its contributor by one, if it counts at all |
| ApprovalCounts.ApprovalCountsOnce | x/memory/keeper/keeper.go:362-395 | an approval counts once, for its contributor, in the recorded epoch and in no other |
| CanonicalBody.BodyInjective | x/memory/keeper/msg_server.go:217-232 | equal signed bodies have all nine fields equal, even when the organisation id contains line breaks |
| CanonicalBody.BodyIsNotMigration | x/memory/keeper/msg_server.go:217-232 | no memory body is an identity migration body |
| Custody.ApprovedIsVerifiable | x/memory/keeper/msg_server.go:119-193 | a record about to be stored reproduces the signed body from its own fields, and its hashes bind its bytes |
| Custody.EpochEndEffect | x/memory/keeper/epoch_hooks.go:13-33 | the hook sets the epoch, drops validity entries and archives memories, and touches nothing else |
| Custody.StepKeeps | x/memory/keeper/keeper.go:109-460 | every action of the chain keeps all approved memories verifiable and only ever archives them |
| Custody.RunKeeps | x/memory/keeper/keeper.go:109-460 | over every run of the whole chain: no approved memory is lost, each verifies from stored fields alone, and only committed to archived can happen |
| Custody.OneApprovalPerBody | x/memory/keeper/msg_server.go:131-144 | one signed body is approved at most once |
| Custody.RootsSelectNothing | x/memory/keeper/keeper.go:566-575 | every commitment carries epoch 0, so over every run the root of an epoch above 0 covers no approved memory |
| Custody.OnlyTheLeaderWrites | x/memory/keeper/msg_server.go:27-42 | apart from the hook and governance, only a signature of the organisation's leader wallet changes the memory store |
| Custody.ApprovedByTheLeader | x/memory/keeper/keeper.go:336-342 | the committing leader of an approval is the leader the registry has |
| Expiry.ExpireAllEffect | x/memory/keeper/validity.go:76-91 | in any order of entries the loop sweeps exactly those before the first one without a memory |
| Expiry.SweepSucceedsIff | x/memory/keeper/validity.go:44-94 | the sweep succeeds if and only if every expired entry has its memory, and then its result has a closed form |
| Expiry.SweepStopsAt | x/memory/keeper/validity.go:76-80 | a failed sweep handled exactly the expired entries below the lowest one without a memory |
| Scenarios.StuckSweep | x/memory/keeper/validity.go:76-80 | for any committed memory: of two expired entries under their own keys the first has no memory, and the sweep leaves both |
| Expiry.SweepRetires | x/memory/keeper/validity.go:44-94 | after a successful sweep no expired entry is left, each one's memory is archived or denied, all else is untouched |
| Expiry.SweepRevives | x/memory/keeper/validity.go:88-111 | sweeping an expired entry makes its memory valid again in that and every epoch, and changes the validity of no other |
| Scenarios.RevivedEntry | x/memory/keeper/validity.go:88-111 | for any committed memory and its entry: invalid before the sweep and valid, in the same epoch, after it |
| Custody.ValidityOnlyShrinks | x/memory/keeper/keeper.go:655-667 | no action of the chain writes validity entries: from a started chain there are none |
| MemoryKeeper.Keeper.IsValidInEpoch | x/memory/keeper/validity.go:96-111 | true without an entry, otherwise exactly inside the entry's window |
| Expiry.SweepAgain | x/memory/keeper/validity.go:44-94 | repeating a sweep changes nothing, and a stuck one stays stuck |
| PendingLimit.ScanMeetsIff | x/memory/keeper/keeper.go:42-44 | the scan meets the commitments of exactly the organisations whose id, closed by a slash, sorts at or after this one |
| PendingLimit.CountSplits | x/memory/keeper/keeper.go:279-290 | the scanned number is the organisation's own commitments plus those of later organisations, all reports, and the marker |
| PendingLimit.LimitHolds | x/memory/keeper/keeper.go:288-290 | a successful submission leaves the organisation's commitments, with the marker, within the limit |
| PendingLimit.LimitOverRuns | x/memory/keeper/keeper.go:288-290 | along every chain run no organisation has more commitments pending than the highest limit in force less the marker: 999 under the default |
| PendingLimit.LimitIsOwnIff | x/memory/keeper/keeper.go:279-290 | the limit counts only the organisation's own commitments if and only if the marker is missing, nothing was reported, and no organisation at or after it has anything pending; never on a started chain |
| Scenarios.ForeignReportCounts | x/memory/keeper/keeper.go:279-290 | wherever one account is well-formed and one contributor can sign: a run after which a report about the first organisation and the marker count against the second, which has nothing pending |
| PendingLimit.ReportsExhaustTheLimit | x/memory/keeper/keeper.go:279-290 | once reports and marker reach the limit, no submission of any organisation succeeds in any continuation until the limit is raised |
| PendingLimit.SubmitKeepsDisjointIff | x/memory/keeper/keeper.go:265-272 | a submission keeps pending and approved keys disjoint if and only if its hash is not approved |
| PendingLimit.ResubmissionStays | x/memory/keeper/keeper.go:265-272 | a commitment resubmitted after its approval stays pending, and in the scan, in every continuation |
| Scenarios.ResubmissionAccepted | x/memory/keeper/keeper.go:265-272 | under the same assumptions: a run that submits an approved hash again, successfully |
| Counters.StepKeeps | x/memory/keeper/keeper.go:134-428 | every action of the chain keeps the three totals in agreement |
| Counters.RunKeeps | x/org/keeper/aggregates.go:13-25 | after every run count/org, the approved keys and the registry's total agree for each organisation, and so do reports |
| Counters.MessageKeepsTotals | x/org/keeper/aggregates.go:59-83 | registry messages keep both totals of every organisation; a new one starts at zero |
| RegistryOnChain.RegistryProjection | x/org/keeper/aggregates.go:59-83 | without the running totals, the registry part of any chain run is the run of its registry messages, so their theorems hold on the chain |
| RegistryOnChain.StepCommutes | x/org/keeper/keeper.go:187-802 | no registry message reads the totals other modules keep in the registry |
| RegistryOnChain.SoundOnChain | x/org/keeper/aggregates.go:59-83 | dense slots, one leader each and exact member counts survive every run of the whole chain, memory messages included |
| RegistryOnChain.ClosedOnChain | x/org/keeper/keeper.go:762-802 | a closed organisation stays closed with the same members over every run of the chain |
| RegistryOnChain.FeesOnChain | x/org/keeper/keeper.go:230-251 | the fee ledger over every run of the chain |
| RegistryOnChain.DistinctOnChain | x/org/keeper/keeper.go:663-760 | leaders are distinct after every prefix of a chain run if and only if no transfer goes to the leader of another organisation |
| Counters.StartAgrees | app/app.go:607-646 | a chain that has just started, without organisations and memories, is in agreement |
| EpochOrder.NoApprovalsAhead | x/memory/keeper/lifecycle.go:78-83 | no approval is stamped with an epoch that has not been recorded |
| EpochOrder.IdleMint | x/emissions/keeper/keeper.go:233-263 | a mint without approvals emits the validator share only and carries the whole budget over |
| EpochOrder.MintOnChain | x/emissions/keeper/keeper.go:197-249 | any mint of an ordered chain, hook or message, is stale or finds no approvals |
| EpochOrder.StepKeepsOrder | app/app.go:418-423 | one step of any ordered chain keeps the order, the lifetime rewards and the unpaid share |
| EpochOrder.StampsStep | x/memory/keeper/keeper.go:386 | only the hook moves the recorded epoch, and new approvals carry it |
| EpochOrder.RunKeepsOrder | app/app.go:418-423 | from any ordered chain, after every run with increasing epochs: minted epoch >= recorded epoch >= every approval stamp, and nobody was credited |
| EpochOrder.NoRewardIsEverPaid | app/app.go:418-423 | from the default genesis: the reward ledger stays empty, 320,000,000,000,000 uvibe stay unpaid, and no claim succeeds |
| Scenarios.ApprovedButNeverPaid | x/memory/keeper/lifecycle.go:53-91 | under the same assumptions: a run in which a memory is approved and counts for the recorded epoch, and the next epoch end pays nothing |
| Chain.Projection | app/app.go:418-423 | the emissions and identity part of any chain run is a run of those modules, so their theorems hold on the chain |
| App.Application.constructor | app/app.go:610-646 | InitChain leaves the default emission genesis, empty registries and the marker |
| App.Application.DispatchEpochEnd | app/app.go:418-423 | one dispatch of the keepers, emissions before memory, is one epoch end of the chain |
| App.Application.Deliver | app/app.go:402-423 | every message and epoch end the keepers carry out is one step of the chain |
| App.Application.DeliverAll | app/app.go:402-423 | so every sequence of actions takes the keepers through a run of the chain |
| App.Application.RunFromGenesis | app/app.go:418-423 | after any actions on a started chain the keepers hold no reward |
| Merkle.ComputeMerkleRoot | x/memory/types/keys.go:180-193 | the hash of the sorted concatenation, nothing for the empty list; the caller's slice is left sorted |
| Merkle.SortSlice | x/memory/types/keys.go:184-186 | the slice ends up in the one ascending arrangement of its contents |
| Merkle.PreImagePermutation | x/memory/types/keys.go:180-193 | the order of the inputs does not matter |
| Merkle.PreImageCanonical | x/memory/types/keys.go:180-193 | for 32-byte hashes two pre-images are equal if and only if the multisets are |
| Merkle.RootCollision | x/memory/types/keys.go:180-193 | equal contents have equal roots, and equal roots of different contents are a hash collision |
| OrgKeeper.Keeper.constructor | x/org/keeper/keeper.go:159-175 | an empty registry at slot 0 |
| OrgKeeper.Keeper.LeaderOwnsOrg | x/org/keeper/keeper.go:220-229 | finds whether the leader already leads an organisation |
| OrgKeeper.Keeper.ChargeFee | x/org/keeper/keeper.go:230-251 | the burned half leaves the supply, the other half reaches the organisation's account, or the fee is refused |
| OrgKeeper.Keeper.HandleRegisterOrg | x/org/keeper/keeper.go:187-293 | takes the next slot, the fee and the leader record in one transaction, or changes nothing |
| OrgKeeper.Keeper.HandleAddMember | x/org/keeper/keeper.go:323-380 | one more member and one more in the total, or nothing |
| OrgKeeper.Keeper.HandleRemoveMember | x/org/keeper/keeper.go:382-439 | one member less, never the leader, or nothing |
| OrgKeeper.Keeper.HandleSetMemberCapabilities | x/org/keeper/keeper.go:625-661 | only the two capability flags of one member change |
| OrgKeeper.Keeper.HandleTransferLeadership | x/org/keeper/keeper.go:663-760 | demotes, then promotes what it reads afresh, also on a transfer to the current leader |
| OrgKeeper.Keeper.HandleCloseOrg | x/org/keeper/keeper.go:762-802 | an active organisation becomes closed, by its leader wallet only |
| OrgKeeper.Keeper.HandleSetServingKey | x/org/keeper/keeper.go:540-582 | only the serving key changes, by the leader wallet only |
| OrgKeeper.Keeper.HandleUpdateParams | x/org/keeper/msg_server.go:187-198 | governance only, and only with a positive slot cap |
| OrgKeeper.Keeper.Deliver | x/org/keeper/msg_server.go:25-389 | every registry message takes the registry one step of its runs |
| OrgKeeper.Keeper.IncrementOrgCommittedMemories | x/org/keeper/aggregates.go:13-18 | the total of committed memories goes up by one, dated epoch 0 |
| OrgKeeper.Keeper.IncrementOrgUpheldReports | x/org/keeper/aggregates.go:20-25 | the total of upheld reports goes up by one, dated epoch 0 |
| OrgKeeper.Keeper.SetOrgLastActivityEpoch | x/org/keeper/aggregates.go:27-31 | only the activity date changes |
| OrgKeeper.Keeper.RecomputeOrgActiveMembers | x/org/keeper/aggregates.go:33-57 | the loop counts the members that are not inactive and overwrites the total |
| OrgInvariant.StepKeeps | x/org/keeper/keeper.go:187-802 | every registry message keeps dense slots, one leader per organisation and exact member counts |
| OrgInvariant.RunKeeps | x/org/keeper/keeper.go:187-802 | the same after every run of registry messages |
| OrgInvariant.EmptyIsSound | x/org/keeper/keeper.go:159-175 | the empty registry satisfies the invariant |
| OrgInvariant.RecountAgrees | x/org/keeper/aggregates.go:33-57 | the running total is what a recount would find |
| OrgInvariant.OneLeader | x/org/keeper/keeper.go:663-760 | each organisation has exactly one leader record, that of its leader |
| OrgInvariant.TransferEffect | x/org/keeper/keeper.go:663-760 | after a transfer exactly the new leader leads, also when it is the old one |
| OrgInvariant.RegisterKeepsDistinct | x/org/keeper/keeper.go:220-228 | registration keeps the leaders of organisations distinct |
| OrgInvariant.TransferKeepsDistinctIff | x/org/keeper/keeper.go:663-760 | a transfer keeps them distinct if and only if the new leader leads no other organisation |
| OrgInvariant.RunKeepsDistinctIff | x/org/keeper/keeper.go:187-802 | leaders are distinct after every prefix of a run if and only if no transfer goes to the leader of another organisation |
| Scenarios.TransferGivesASecondOrg | x/org/keeper/keeper.go:663-760 | for any well-formed account: a run from the empty registry after which one leader has two organisations |
| OrgInvariant.FreshSlot | x/org/keeper/keeper.go:201-218 | the next slot is never taken: the already-exists branch is unreachable |
| OrgInvariant.ClosedForever | x/org/keeper/keeper.go:762-802 | after closing, the organisation stays closed and its set of members is frozen over every run |
| OrgInvariant.FeeLedger | x/org/keeper/keeper.go:230-251 | over every run the supply falls by the burned halves and each account changes by what it received minus what it paid |
| SlotPrice.ComputeAscendingPrice | x/org/keeper/keeper.go:860-886 | the rational loop computes floor(base*(100+slot*percent)/100), or the base price when that does not fit 64 bits |
| SlotPrice.ScaledMonotone | x/org/keeper/keeper.go:867-876 | for all parameters the scaled price moves in one direction, up or down by the signs of their signed readings |
| SlotPrice.NextSlotNotCheaperIff | x/org/keeper/keeper.go:860-886 | for all parameters the next slot is not cheaper if and only if a condition on the signs, the range and the size of the rise holds |
| SlotPrice.NegativePercentFalls | x/org/keeper/keeper.go:870 | with a percentage from 2^63 up every slot whose price fits is cheaper than the one before |
| SlotPrice.PriceFalls | x/org/keeper/keeper.go:870 | the default base price with a percentage of 2^64-10 falls by a tenth |
| SlotPrice.PriceEntersLow | x/org/keeper/keeper.go:870-885 | both parameters from 2^63 up: the price falls from 2^64-100 to 100 |
| SlotPrice.DefaultPricesAscend | x/org/keeper/keeper.go:860-886 | under the default parameters slot k costs 10,000,000 + 2,000,000 k |
| SlotPrice.PriceCollapses | x/org/keeper/keeper.go:880-885 | a price that overflows falls back to the base price |
| StoreKeys.OrgIdsDistinct | x/org/types/slot.go:10-12 | organisation ids are pairwise different and free of slashes and colons |
| StoreKeys.MemberKeysDistinct | x/org/keeper/keeper.go:52-54 | different members have different keys |
| StoreKeys.MemberScanExact | x/org/keeper/aggregates.go:33-40 | the member prefix of an organisation matches exactly its own members |
| StoreKeys.ApprovedKeysDistinct | x/memory/keeper/keeper.go:46-48 | approved keys are unambiguous for any organisation id and hash |
| StoreKeys.PendingKeysDistinct | x/memory/keeper/keeper.go:38-40 | so are pending keys |
| StoreKeys.ValidityKeysDistinct | x/memory/keeper/validity.go:14-20 | validity keys are unambiguous for organisation ids without a colon |
| StoreKeys.LabelledKeysDistinct | x/emissions/keeper/keeper.go:69-95 | so are keys of a label and one text, and emission keys |
| StoreKeys.KindsDistinct | x/memory/keeper/keeper.go:38-66 | keys of different kinds in one store, marker included, never coincide |
| StoreKeys.ReportKeysDistinct | x/memory/keeper/keeper.go:60-62 | report keys are unambiguous |
| StoreKeys.BandwidthKeysDistinct | x/bandwidth/keeper/keeper.go:34-36 | bandwidth keys are unambiguous for any organisation id |
| Varint.SizeIsLength | x/bandwidth/types/state.pb.go:352-354 | the bit-length formula is the length of the encoding |
| Varint.ReadEncoded | x/bandwidth/types/state.pb.go:364-377 | reading an encoded uint64 anywhere in a buffer gives it back with the position after it |
| Varint.EncodeVarint | x/bandwidth/types/state.pb.go:294-304 | fills exactly the bytes before the offset with the encoding and returns where they start |
| Varint.ReadVarint | x/bandwidth/types/state.pb.go:364-377 | the shift loop computes the reader, overflow and end of input included |
| Wire.SkipField | x/bandwidth/types/state.pb.go:655-732 | a well-formed field, groups nested to any depth included, is skipped exactly |
| Wire.SkipState | x/bandwidth/types/state.pb.go:655-732 | the skip loop terminates and computes the skip function, all error cases included |
| Wire.DecodeMeaning | x/bandwidth/types/state.pb.go:358-534 | the decoder computes the meaning of every well-formed message: the last known value of each field |
| Wire.UnknownFieldTolerance | x/bandwidth/types/state.pb.go:514-527 | inserting unknown fields anywhere does not change what is decoded |
| Wire.Unmarshal | x/bandwidth/types/state.pb.go:358-534 | the decode loop computes the decoding function, all error cases included |
| Wire.UnmarshalField | x/bandwidth/types/state.pb.go:362-528 | one tag and its payload, known or skipped |
| BandwidthCodec.StateSizeExact | x/bandwidth/types/state.pb.go:305-331 | Size is the number of bytes of the encoding |
| BandwidthCodec.OverrideSizeExact | x/bandwidth/types/state.pb.go:333-350 | the same for overrides |
| BandwidthCodec.StateRoundTrip | x/bandwidth/types/state.pb.go:199-534 | decoding an encoded state gives it back, for all numbers and all strings below 2^32 bytes |
| BandwidthCodec.OverrideRoundTrip | x/bandwidth/types/state.pb.go:254-654 | the same for overrides |
| BandwidthCodec.MarshalStateToSizedBuffer | x/bandwidth/types/state.pb.go:214-252 | the backward writer fills the end of the buffer with exactly the encoding and touches nothing before it |
| BandwidthCodec.MarshalOverrideToSizedBuffer | x/bandwidth/types/state.pb.go:269-292 | the same for overrides |
| BandwidthCodec.MarshalState | x/bandwidth/types/state.pb.go:199-207 | the exactly sized buffer is filled completely |
| BandwidthCodec.MarshalOverride | x/bandwidth/types/state.pb.go:254-262 | the same for overrides |
| BandwidthCodec.UnmarshalState | x/bandwidth/types/state.pb.go:358-534 | the decoder of states |
| BandwidthCodec.UnmarshalOverride | x/bandwidth/types/state.pb.go:535-654 | the decoder of overrides |
| Bandwidth.Keeper.constructor | x/bandwidth/keeper/keeper.go:21-28 | an empty byte store |
| Bandwidth.Keeper.GetOrInitBandwidthState | x/bandwidth/keeper/keeper.go:69-118 | reads or creates the record through the codec; stored bytes always decode |
| Bandwidth.Keeper.ConsumeMemoryBandwidth | x/bandwidth/keeper/keeper.go:148-170 | accepted exactly below the cap; a refusal still stores the fresh record |
| Bandwidth.Keeper.ConsumeServeBandwidth | x/bandwidth/keeper/keeper.go:172-194 | accepted exactly when the 64-bit sum is within the cap; a refusal still stores the fresh record |
| Bandwidth.Keeper.GetRemainingBandwidth | x/bandwidth/keeper/keeper.go:229-235 | neither subtraction underflows |
| Bandwidth.Keeper.SetBandwidthOverride | x/bandwidth/keeper/keeper.go:214-222 | stores the override, leaving existing records and their caps alone |
| Bandwidth.Keeper.DeleteBandwidthOverride | x/bandwidth/keeper/keeper.go:224-227 | removes the override, leaving existing records and their caps alone |
| Bandwidth.Keeper.PutParams | x/bandwidth/keeper/keeper.go:44-51 | stores the parameters, leaving existing records and their caps alone |
| Bandwidth.Keeper.Deliver | x/bandwidth/keeper/keeper.go:69-235 | every operation on the byte store is one step of the bandwidth runs |
| Bandwidth.Keeper.DeliverAll | x/bandwidth/keeper/keeper.go:69-235 | any sequence of operations is a run, with usage within caps frozen at first touch |
| Bandwidth.RunKeeps | x/bandwidth/keeper/keeper.go:69-227 | over every interleaving of consumption, overrides and parameters, usage stays within caps frozen at first touch |
| Bandwidth.ServeCountedIff | x/bandwidth/keeper/keeper.go:172-194 | an accepted request is added to the usage if and only if the 64-bit sum does not wrap |
| Bandwidth.WrappingRequestAccepted | x/bandwidth/keeper/keeper.go:172-194 | a request of 2^64-1 serves is accepted and lowers the usage by one |
| KeyRange.PrefixEndBytes | x/attestation/keeper/keeper.go:39-52 | the carry loop computes the incremented prefix, or no bound when every byte is 255 |
| KeyRange.ExactScanIff | x/attestation/keeper/keeper.go:39-52 | the range holds exactly the keys with the prefix if and only if the prefix is empty, does not end in 255, or is all 255 |
| Payouts.MintPays | x/emissions/keeper/keeper.go:233-273 | in every sound state, stated on the two states alone: each contributor with approvals at or above the threshold gains, pending and lifetime, (what left the contributor pool + the old rollover) / N, everyone else nothing; the new rollover is below N, or everything when N is 0 |
| Payouts.MintDraws | x/emissions/keeper/keeper.go:206-300 | what leaves each pool is its even share of the epochs left, the contributors' one under the cap; record, elapsed epochs, start epoch and supply are written accordingly |
| Payouts.BudgetFormula | x/emissions/keeper/keeper.go:206-231 | the contributor budget is min(pool / epochs, cap / 365) for a cap of at least 365 and the even share otherwise |
| Payouts.ClaimSucceedsIff | x/emissions/keeper/msg_server.go:56-97 | in every sound state a claim succeeds exactly for the wallet the passkey migrated to, with a pending reward and an account that may receive it |
| Payouts.ClaimPays | x/emissions/keeper/msg_server.go:73-97 | the whole pending reward leaves the module account for the signer's, and for nobody else's; it is no longer pending |
| Payouts.WalletLedger | x/emissions/keeper/msg_server.go:73-97 | over every run each account gains exactly the recorded payments to it, and what was credited is what the module account and the wallets gained together |
| Payouts.WalletsOnChain | x/emissions/keeper/msg_server.go:73-97 | the same for every account over every run of the whole chain |
| Identity.MigrateBindsIff | x/identity/keeper/msg_server.go:23-73 | a migration is accepted exactly when the passkey's own key signed the migration text for that wallet and it was not migrated; only that entry changes |
| History.AliasHistory | x/identity/keeper/msg_server.go:23-73 | over every run of the chain each new alias has a message of the run that its key signed for its wallet; a migrated alias never changes |
| History.SubmitSucceedsIff | x/memory/keeper/msg_server.go:44-106 | a submission is accepted exactly when the leader's wallet signed it for a member who may contribute, it is well-formed and new, and the limit is not reached |
| History.SubmitStores | x/memory/keeper/keeper.go:251-312 | what is stored is what was submitted, dated 0; nothing else changes |
| History.ApproveSucceedsIff | x/memory/keeper/msg_server.go:108-215 | an approval is accepted exactly when the contributor signed what it claims, both hashes match, the leader's wallet signed for the leader, and the blob fits |
| History.ApproveStores | x/memory/keeper/keeper.go:362-407 | field by field: provenance and dates are the commitment's, the capsule the message's, the stamp the store's epoch; the commitment goes and nothing else changes |
| History.ReportAcceptedIff | x/memory/keeper/keeper.go:109-168 | a report is accepted exactly when it is about an approved memory, new, signed by the leader's wallet, and its evidence is within the sizes |
| History.ReportStores | x/memory/keeper/keeper.go:144-168 | the report is stored with the signer as its leader; nothing else changes |
| History.MemoryHistory | x/memory/keeper/keeper.go:251-460 | over every run of the chain each memory has the provenance of a submission made, at that moment, for a member who might contribute, and is what an approval of the run made of it |
| History.ReportHistory | x/memory/keeper/keeper.go:109-168 | over every run no report is lost or rewritten, and each new one was accepted in the run |
| History.ReportsAreAboutMemories | x/memory/keeper/keeper.go:124-142 | after every run every report is about an approved memory |
| Authority.OnlyTheLeaderRules | x/org/keeper/keeper.go:323-802 | a message changes an organisation, or any of its members, only if it is about it and signed by the non-empty wallet of its leader |
| Authority.ChainAuthority | x/org/keeper/keeper.go:323-802 | an organisation that differs after a run of the chain, running totals aside, has such a message in the run, signed by the leader's wallet of that moment |
| Authority.OnlyGovernanceSets | x/emissions/keeper/msg_server.go:22-54 | without governance no module's parameters change, and only an epoch end moves the emission pool |
| Authority.GovernanceSets | x/emissions/keeper/msg_server.go:43-54 | what governance sends is stored exactly under the module's validity rule, and nothing else changes |
| RegistryOutcomes.FeeInForce | x/org/keeper/keeper.go:860-891 | the fee is base * (100 + slots * percent) / 100 by the parameters in force, the base when that is not a positive 64-bit number |
| RegistryOutcomes.RegisterAcceptedIff | x/org/keeper/keeper.go:187-293 | accepted exactly below the slot cap, with the fee in the account, a fitting profile, working grants, and a leader who leads nothing |
| RegistryOutcomes.RegisterOutcome | x/org/keeper/keeper.go:187-293 | the fee leaves the creator, half burned and the rest to the organisation's account; organisation and leader are as registered |
| RegistryOutcomes.AddOutcome | x/org/keeper/keeper.go:323-380 | accepted exactly from the leader of an active organisation for a new member; the record has the sent key and flags |
| RegistryOutcomes.RemoveOutcome | x/org/keeper/keeper.go:382-439 | accepted exactly from the leader of an active organisation for a member that does not lead it; only that record goes |
| RegistryOutcomes.CapabilitiesOutcome | x/org/keeper/keeper.go:625-661 | the two flags of that member become the sent ones, in this order, and nothing else changes |
| RegistryOutcomes.TransferOutcome | x/org/keeper/keeper.go:663-760 | accepted exactly from the leader for a member and a well-formed wallet, in any status; leader and wallet are the new ones |
| RegistryOutcomes.ServingKeyOutcome | x/org/keeper/keeper.go:540-582 | accepted exactly from the leader with a well-formed key and a grant; only the serving key changes |
| RegistryOutcomes.CloseOutcome | x/org/keeper/keeper.go:762-802 | accepted exactly from the leader of an active organisation; only the status changes |
| BandwidthCodec.StateFieldNumbers | x/bandwidth/types/state.pb.go:358-534 | a message with one field decodes to the record with that field, by its number, and zeros elsewhere; all six fields |
| BandwidthCodec.OverrideFieldNumbers | x/bandwidth/types/state.pb.go:535-654 | the same for the three fields of an override |
| BandwidthCodec.StateOnTheWire | x/bandwidth/types/state.pb.go:214-252 | one record with every field set, byte for byte; with the round trip this fixes the writer's numbers too |
| Bandwidth.FirstTouch | x/bandwidth/keeper/keeper.go:69-118 | a first touch takes the override's caps, else the parameters', else 10,000 and 50,000, with no usage |
| Bandwidth.CapsTakeEffect | x/bandwidth/keeper/keeper.go:69-227 | overrides and parameters hold for later first touches only; the caps of a state there is never change |
| Bandwidth.AcceptedIff | x/bandwidth/keeper/keeper.go:148-194 | a memory is accepted exactly below the cap and takes one; serves exactly when the sum modulo 2^64 is within the cap, and take their count |
| Bandwidth.UsageIsAccepted | x/bandwidth/keeper/keeper.go:148-194 | over every run the usage is the number of accepted memories, never above the cap, and modulo 2^64 the accepted serves |
| Merkle.PreImageAscends | x/memory/types/keys.go:180-193 | whatever order the hashes come in, each 32-byte chunk of the hashed bytes is the hash at that place of the list sorted byte by byte |
| Expiry.ValidityWindow | x/memory/keeper/validity.go:96-111 | an entry makes its memory valid exactly from `after` on and, unless 0, up to `until` |
| ApprovalCounts.ApprovalsAre | x/memory/keeper/lifecycle.go:63-91 | a contributor's count is the number of committed memories stamped with the epoch, stated on the store alone |
| CanonicalBody.BodyIsJoin | x/memory/keeper/msg_server.go:217-232 | the signed body is its ten labelled lines joined by line breaks |

## Left out

- Genesis import and export, other than the default emission genesis: the memory, registry and bandwidth stores start empty or in any state that satisfies the stated invariant.
- The Merkle roots stored by the memory epoch hook: the root computation is modelled, the per-organisation store scan around it is not, because it reads records of other kinds as if they were memories.
- Relationships, attestation submission, x/serve and x/reputation: no writer besides genesis, disabled, or used here only through the answers they give.
- Organisation status updates, storage quotas, configuration, serving endpoints and trial allowances: single-field setters. A status update could reopen a closed organisation and is not part of the runs in `OrgInvariant.ClosedForever`.
- Bootstrap credits, gates and the rarity multiplier of x/emissions: not wired into the mint.
- The other generated protobuf files: the same encoder pattern. Records of the modules other than bandwidth are stored as values, not as bytes.
- Application wiring, queries, events and logging, except for the order of the two epoch hooks.
- Bank, fee grants, store iterators and gas of the Cosmos SDK: a balance map with a supply, an answer, and an order on keys.
- Bandwidth.Keeper.DeliverAll: organisation ids are shorter than 2^32 characters, so that every record fits a buffer.
- BandwidthCodec.StateRoundTrip: strings are shorter than 2^32 bytes and buffers shorter than 2^63, as on any machine the code runs on.
- Merkle.SortSlice: says what the library sort leaves in the slice, not how it gets there.
- MemoryKeeper.Keeper.HandleSubmitCommitment: white space in a model id means ASCII white space, and lengths are counted in characters.
- MemoryKeeper.Keeper.AfterEpochEnd: ends after the sweep; the Merkle roots stored afterwards are not part of this model, because the scan behind them decodes records of every other kind as memories. What it selects among the approved memories is `Custody.RootsSelectNothing`.
- Chain.Projection: claimed rewards and registration fees are kept in two balance maps; that a claimed coin could pay a fee is not captured.
