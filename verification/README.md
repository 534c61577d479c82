# Verified model of the sBTC bridge program

The bridge mints sBTC on Solana for bitcoin deposited on other chains and burns it on the way
back. A committee approves mints and limiter changes with Ed25519 signatures weighted by stake; a
limiter bounds what is minted per (chain, token) with a ring of 24 hourly buckets; two levels of
totals, an sBTC supply and three kinds of nonces record what happened. This project models the
program as one state machine whose transactions commit or leave the state untouched, and proves
what holds in every reachable state and over every run.

`dafny verify dfyconfig.toml` checks the whole project.

## How the model is built

- `Common`, `Sums`: integer widths, keys, addresses, errors with the place of an abort, sums.
- `Codec`, `Ed25519`: the Borsh bytes of the signed messages and the pre-instruction frame.
- `Limiter`: the ring as a value (`Admit`) and, as a class over an array, the account the program
  works on. `LimiterRuns` proves the ring equal to a one-counter meter over runs and bounds the
  inflow; `LimiterHours` treats one hour and the catch-up; `LimiterWindow` compares the ring with
  an exact log of the last 24 hours, and `RollingCap` says when the two decide alike.
- `Committee`, `Quorum`: verification as a loop and as a specification, what it means, and what
  follows for sets of signers.
- `Lookup`, `Fees`, `Batches`: account lookup, fee arithmetic, the two batch instructions.
- `State`: the stored accounts and each transaction as a function on them; `Execute`, `Apply`, `Run`.
- `Flows`, `Invariants`, `Conservation`, `Nonces`, `Limits`: the parts of the invariant, each kept
  by every transaction. `Runs` puts them together by induction over runs.
- `Guarantees`: when each transaction commits, in both directions. `Theorems`: the main results.
- `Wire`: the messages and frames byte by byte. `Rules`: when each transaction may commit and what
  exactly it then stores, from the fields of transactions and accounts alone, with every number
  written out. `Refinement`: every run of the program is a run of the rules and the other way round.
  `Refusals`: what each error reports is so.
- `Backing`: the program as written beside the one that writes withdrawals back.
- `Example`: for any keys, cap and fee rate, whole runs from the empty chain in which everything
  commits, among them those that show where the program departs from what one expects of it.
- `Bridge`: the program itself as a class. Handlers load working copies, create accounts and call
  the token program as they go, and store the copies of mutable accounts at the end; `Process`
  undoes a failed handler. Each handler is proved equal to its function in `State`, and `Process`
  keeps the stored accounts equal to the run of everything processed so far.

## Where the program differs from its documentation

- **Rolling cap.** `README.md:32` promises a 24-hour rolling cap. The clear loop starts at the
  slot of the window start itself, which is the slot filled last once the limiter has caught up,
  so each new hour starts from zero. `RollingCapFails` shows it for every cap and
  `TwiceTheCap` in a whole run of the bridge. `RollingCapInRunsIff` and `RollingCapWhenNearIff` say
  exactly when the cap is kept, from the hours and amounts of the mints and the window start the
  limiter showed when the hour began. `InflowBoundInRuns` and `HourBoundInRuns` say what does hold.
- **Totals after a withdrawal.** The withdraw handler subtracts from the chain and token totals and
  emits the reduced values, but neither account is declared mutable
  (`programs/bridge/src/instructions/echo_bridge/withdraw_btc.rs:132-156`), so nothing is stored. The
  model has a flag `writeBack`, false for the program as written, and the ledger theorems are
  proved for both values; `TotalsTrackSupplyInRunsIff` says exactly when the difference shows, and
  `TotalsStay` gives a run in which it does. Written back, a token is never withdrawn beyond what
  was minted from it (`WithdrawalsAreBacked`). `BackedIffSameLog` says exactly when the missing
  write-back matters: a run stays backed if and only if it commits what the program that writes back
  would have committed. As written the guards that passed once pass again (`CommitsAgainIff`), and
  `BurnedBeyondMinted` gives a run that burns more towards a token than was minted from it. Over all
  tokens and on each Solana chain burns never exceed mints (`BurnedWithinMinted`).
- **Funded addresses.** The batch loops create a record when its address holds no lamports, not when
  there is no record (`create_bridge_config.rs:72-73,123-124`, `create_bridge_committee.rs:31-32`).
  Lamports sent there first make the loop skip the record without an error. The model keeps the set of
  funded addresses; `EntriesIff` and `MembersIff` say which records result, `LedgersAgree` what
  remains of the two levels, and `TokenWithoutItsChain` is a run that shows it.
- **Mint nonces.** The documentation speaks of an expected nonce. A mint accepts any nonce of its
  source chain that was not used before; only limiter updates expect a particular one.
- **Emergency freeze.** A required stake of 450 is documented, but no instruction reaches it, and
  with both message types the payload check would fail first (`NoEmergency`).
- **Submitters.** `create_bridge_committee` is written to enable only a submitter whose record is
  not initialised yet, but no handler ever sets that flag (`SubmittersInRuns`). So it enables its
  submitter every time, also one the admin had disabled (`CommitteeEnablesItsSubmitter`, with the
  exact condition under which nothing changes; `SubmitterComesBack` is such a run).
- **Limiter event.** The event of a limiter update shows the nonce after the increment, one more
  than the message carried; receipts in the model keep both.
- **Bridge pause.** No instruction sets a bridge's own pause flag, so it is always clear
  (`BridgesOk`, part of the invariant of every run).

## Assumptions

- The clock does not go back during a run and its reading fits u32.
- The runtime stores a transaction's changes together when it succeeds and undoes all of them when
  it fails; `Process` models this, it is not proved of the runtime.
- Derived addresses are injective in their seeds and never equal a plain key.
- The native Ed25519 program has checked every signature it was given, at the offsets the client
  library uses; the program inspects only part of the header, and the model exactly that part.
  `SignedIsReadIff` says which header makes the checked bytes the ones read, the client's does
  (`SdkFrameNamesItsMessage`), and `ApprovedIsSigned` says what an approval then rests on.
- The token program moves, mints and burns checked u64 amounts, and refuses otherwise. Besides the
  bridge only transfers between holders touch a mint.

## Model

| member | source | states |
|---|---|---|
| Limiter.LimiterAccount.CheckTransfer | programs/bridge/src/instructions/limiter/add_or_update_limiter_with_signatures.rs:152-194 | the call on the array, with its clear loop and machine arithmetic, ends as the value specification says: same decision, same error, same new account; on failure only the clear step has touched the account |
| Limiter.LimiterAccount.ClearAndAdvance | programs/bridge/src/instructions/limiter/add_or_update_limiter_with_signatures.rs:161-175 | the modular clear loop empties exactly the slots of the hours that passed, at most 24 of them counted from the window start, and moves the start that far |
| Limiter.LimiterAccount.SumSlots | programs/bridge/src/instructions/limiter/add_or_update_limiter_with_signatures.rs:181 | the checked u64 sum over the ring aborts exactly when the mathematical sum leaves u64 |
| Limiter.LimiterAccount.SetLimit | programs/bridge/src/instructions/limiter/add_or_update_limiter_with_signatures.rs:46-55 | an update opens a blank account with an empty ring at the current hour, and on an open one changes the cap alone |
| LimiterRuns.AdmitRefinesMeter | programs/bridge/src/instructions/limiter/add_or_update_limiter_with_signatures.rs:156-185 | one call on the 24-slot ring decides as one scalar counter does (reset when the hour is new or the window start is 24 hours back) and keeps ring and counter coupled |
| Refinement.AdmitAnyClock | programs/bridge/src/instructions/limiter/add_or_update_limiter_with_signatures.rs:152-194 | one call on any account at any clock, wrapped or not: it passes if and only if what the slots outside the passed hours hold plus the amount is within the cap, and then each of the 24 slots and the window start are as given |
| LimiterRuns.RingRefinesMeter | programs/bridge/src/instructions/limiter/add_or_update_limiter_with_signatures.rs:156-185 | over every run of updates and transfers with a clock that does not go back, the ring takes exactly the decisions of the one-counter meter and stays coupled to it |
| LimiterRuns.ArithmeticIsPlain | programs/bridge/src/instructions/limiter/add_or_update_limiter_with_signatures.rs:147-185 | in every reachable limiter neither wrapping operation wraps, the ring sum fits u64, no bucket overflows, and a transfer is accepted if and only if cleared sum + amount <= cap over the integers |
| LimiterRuns.InflowSplit | programs/bridge/src/instructions/limiter/add_or_update_limiter_with_signatures.rs:168-185 | over every run, the total accepted is what the ring holds plus what its clear steps took out |
| LimiterRuns.ClearedBound | programs/bridge/src/instructions/limiter/add_or_update_limiter_with_signatures.rs:163-174 | over any stretch of any run, from any reachable account on, what was cleared is at most one cap for each hour the window start moved, the cap bounding what the account held and allowed at first and every later cap |
| LimiterRuns.InflowBound | programs/bridge/src/instructions/limiter/add_or_update_limiter_with_signatures.rs:159-185 | amortised inflow bound over any stretch: from any reachable account on, the total accepted is at most the cap for each clock hour from that account's window start to now |
| LimiterRuns.InflowSinceOpening | programs/bridge/src/instructions/limiter/add_or_update_limiter_with_signatures.rs:46-55 | the stretch that starts with the opening: at most the largest cap ever set for each clock hour begun since |
| LimiterHours.HourBound | programs/bridge/src/instructions/limiter/add_or_update_limiter_with_signatures.rs:159-185 | however the calls of one hour are cut, a limiter found g hours behind accepts in that hour at most max(1, g / 24) caps |
| LimiterHours.HourBoundAttained | programs/bridge/src/instructions/limiter/add_or_update_limiter_with_signatures.rs:159-185 | that bound is exact: so many calls of one full cap are all accepted |
| LimiterHours.CatchUp | programs/bridge/src/instructions/limiter/add_or_update_limiter_with_signatures.rs:163-174 | after k accepted calls in one hour the lag is max(0, g - 24 k): each call lowers it by a full turn or to zero |
| LimiterHours.HourBoundInRuns | programs/bridge/src/instructions/limiter/add_or_update_limiter_with_signatures.rs:152-194 | the hourly bound, its exactness and the catch-up measure in every reachable limiter at the start of an hour |
| LimiterWindow.WindowSplits | programs/bridge/src/instructions/limiter/add_or_update_limiter_with_signatures.rs:159-181 | an exact log of the last 24 hours splits into a prefix the ring has forgotten and a suffix whose total is the cleared ring sum |
| LimiterWindow.NeverOvercounts | programs/bridge/src/instructions/limiter/add_or_update_limiter_with_signatures.rs:159-182 | the cleared ring sum never exceeds the true total of the last 24 hours, so whatever an exact rolling log admits is admitted |
| LimiterWindow.RollingCapFails | README.md:32 | the documented 24-hour rolling cap does not hold, for any positive cap and any hour: a full cap in the opening hour and another in the next are both accepted |
| RollingCap.CountedFromIsCut | programs/bridge/src/instructions/limiter/add_or_update_limiter_with_signatures.rs:159-181 | what the ring still counts is a suffix of the current hour's entries, and where it begins follows in closed form from the window start when the hour began and the number of calls accepted since |
| RollingCap.AgreesWithRollingCapIff | programs/bridge/src/instructions/limiter/add_or_update_limiter_with_signatures.rs:156-185 | exactly when the rolling cap is kept, in hours, amounts and that window start: the ring decides every amount as an exact log of 24 hours would if and only if no positive entry before the cut is in the window, or those after it exceed a lowered cap |
| RollingCap.AgreesWhenNearIff | programs/bridge/src/instructions/limiter/add_or_update_limiter_with_signatures.rs:156-185 | if the hour began less than 48 hours behind: if and only if nothing positive was accepted in the 23 hours before, or the current hour's total exceeds a lowered cap |
| RollingCap.HourInflow | programs/bridge/src/instructions/limiter/add_or_update_limiter_with_signatures.rs:159-185 | as part of any run, an hour without an update accepts at most max(1, g / 24) caps |
| Committee.CountSignatures | programs/bridge/src/instructions/utils/msgs/common.rs:43-79 | the loop over signatures 1 to n, with early exits, duplicate set and checked u16 sum, returns the tally or first error of the recursive specification |
| Committee.NonceAccount.IncrementNonce | programs/bridge/src/instructions/config/state.rs:112-128 | a counter goes up by one or aborts at the u64 maximum; the empty nonce account of a mint never changes |
| Committee.Verify | programs/bridge/src/instructions/utils/msgs/common.rs:26-93 | verification ends as the specification says, and the nonce account in memory has moved exactly when all signatures were counted, even if the stake is then too small |
| Committee.CountedIff | programs/bridge/src/instructions/utils/msgs/common.rs:43-79 | counting member records succeeds if and only if the keys are distinct and their stakes sum to at most 65535, and yields exactly that set and sum; this rests on each record being stored under its own key |
| Committee.ApproveIff | programs/bridge/src/instructions/utils/msgs/common.rs:39-92 | both directions: n signatures are accepted if and only if 1 <= n <= 254, every frame attests exactly the message with matching operation and nonce, every signer has an active supplied record, signers are distinct, required stake <= total <= 65535, and the counter can move; it then moves by one |
| Committee.ShortOfStakeIff | programs/bridge/src/instructions/utils/msgs/common.rs:81-91 | verification refuses for stake if and only if everything but the stake is in order, and then it has already moved the counter in memory |
| Committee.CounterMovesIff | programs/bridge/src/instructions/utils/msgs/common.rs:43-91 | verification leaves the counter in memory moved if and only if all signatures stand, by distinct members whose stake fits u16, and the counter is below its maximum; then it moved by one |
| Refinement.ApprovedIff | programs/bridge/src/instructions/utils/msgs/common.rs:39-92 | a request is approved if and only if 1 to 254 distinct members, known and not blocklisted, vouch for its bytes, their stakes added up reach the required one and stay within 65535, and operation, nonce and counter fit |
| Quorum.OrderDoesNotMatter | programs/bridge/src/instructions/utils/msgs/common.rs:43-92 | permuting the signature instructions never changes whether they are accepted nor the resulting counter |
| Quorum.MoreSignersKeepApproval | programs/bridge/src/instructions/utils/msgs/common.rs:43-92 | further distinct active signers keep an accepted approval accepted while count and stake still fit |
| Quorum.QuorumsOverlap | programs/bridge/src/instructions/utils/msgs/common.rs:65-92 | the common signers of any two approvals under one committee hold at least the two required stakes less the total active stake |
| Quorum.MintQuorumsOverlap | programs/bridge/src/instructions/utils/msgs/common.rs:15-24 | two mint approvals share at least 13332 less the total active stake, so below that total they share a member |
| Codec.FromLEInvertsToLE | programs/bridge/src/instructions/utils/msgs/mint_sbtc_msg.rs:6-17 | fixed-width little-endian decoding inverts encoding for every value in range |
| Codec.MintRoundTrip | programs/bridge/src/instructions/utils/msgs/mint_sbtc_msg.rs:6-17 | decoding the encoding of a mint message gives the message back |
| Codec.MintCanonical | programs/bridge/src/instructions/utils/msgs/mint_sbtc_msg.rs:39-46 | every byte string that decodes is the encoding of its message: short input and trailing bytes are refused |
| Codec.LimitRoundTrip | programs/bridge/src/instructions/utils/msgs/update_limiter_msg.rs:6-15 | the same round trip for limiter messages |
| Codec.LimitCanonical | programs/bridge/src/instructions/utils/msgs/update_limiter_msg.rs:17-24 | the same canonicity for limiter messages |
| Codec.Message.DecodesToThisIff | programs/bridge/src/instructions/utils/ed25519.rs:50-59 | bytes decode to a message if and only if they are its encoding, so comparing decoded messages is comparing bytes |
| Wire.LaidIff | programs/bridge/src/instructions/utils/msgs/mint_sbtc_msg.rs:6-17 | a byte string is the encoding of a mint or limiter message, and reads as it, if and only if every byte is in its place: type, version, nonce from byte 2 with weights 256^i, chains, length prefix, address, key, and the amount in the last eight bytes |
| Wire.ResolvesIff | programs/bridge/src/instructions/utils/ed25519.rs:14-62 | a signer is found if and only if the frame has 1, 0 and 255, 255, 16, 0, 255, 255 at bytes 0, 1 and 4 to 9, 255, 255 at 14, and the message laid out from byte 112; the signer is bytes 16 to 48 |
| Ed25519.ResolveIff | programs/bridge/src/instructions/utils/ed25519.rs:14-62 | an instruction resolves if and only if program, header bytes, length and signed bytes are exactly those that attest the message, and then to the key at 16..48 |
| Ed25519.SdkFrameResolves | programs/bridge/src/instructions/utils/ed25519.rs:10-62 | the frame the client library builds for a message resolves to its own key, and to nothing for any other message of either type |
| Committee.ApprovedIsSigned | programs/bridge/src/instructions/utils/msgs/common.rs:43-92 | what an approval rests on: when every counted frame names the rest of its bytes, as the client's does, the native program has checked the very encoding of the approved message under the key of every signer |
| Lookup.ScanForWithdraw | programs/bridge/src/instructions/echo_bridge/withdraw_btc.rs:222-247 | the single pass with early exit leaves in each variable what a full search would, less the addresses an earlier branch claims |
| Lookup.GetWithdrawAccounts | programs/bridge/src/instructions/echo_bridge/withdraw_btc.rs:201-268 | succeeds if and only if the four addresses are all present and pairwise distinct, and then returns positions of exactly those addresses; otherwise the specified error |
| Lookup.GetMintAccounts | programs/bridge/src/instructions/echo_bridge/mint_sbtc_with_signatures.rs:222-271 | the same for the three addresses of a mint |
| Fees.FeeIsSafe | programs/bridge/src/instructions/echo_bridge/withdraw_btc.rs:66-68 | with a rate below 1e6 the product fits u128, the cast to u64 loses nothing, and the fee is at most the amount, strictly less if that is positive |
| Fees.FeeIsMonotone | programs/bridge/src/instructions/echo_bridge/withdraw_btc.rs:66-68 | a larger amount never costs a smaller fee |
| Fees.FeesOfParts | programs/bridge/src/instructions/echo_bridge/withdraw_btc.rs:66-68 | for any n >= 1 withdrawals at one rate the fees sum to between the fee on the total less n - 1 and the fee on the total |
| Fees.Splitting | programs/bridge/src/instructions/echo_bridge/withdraw_btc.rs:66-68 | the same bound in the program's own u64 fee when the total fits u64 |
| Batches.EntriesIff | programs/bridge/src/instructions/config/create_bridge_config.rs:56-156 | the batch succeeds if and only if every entry names a foreign chain, supplies both addresses, and has a fee below 1e6 if it is the first to create its record; existing records stay, a new id takes its first entry, and an address that holds lamports without a record gets none |
| Batches.MembersIff | programs/bridge/src/instructions/committee/create_bridge_committee.rs:24-61 | the committee loop succeeds if and only if all record addresses are supplied; known members stay, a repeated new key keeps its first stake, and a key whose address holds lamports without a record gets none |
| Guarantees.MintCommitsIff | programs/bridge/src/instructions/echo_bridge/mint_sbtc_with_signatures.rs:31-107 | in every state that keeps the invariant, a mint commits if and only if it is allowed, approved, its accounts are supplied, the supply stays in u64, and cleared ring sum + amount <= cap |
| Guarantees.WithdrawCommitsIff | programs/bridge/src/instructions/echo_bridge/withdraw_btc.rs:27-108 | a withdrawal commits if and only if it is allowed, its accounts are supplied, the user is not the fee recipient and holds the whole amount: other than the withdrawal counter at its maximum, no overflow or underflow can stop it |
| Guarantees.LimitCommitsIff | programs/bridge/src/instructions/limiter/add_or_update_limiter_with_signatures.rs:27-63 | a limiter update commits if and only if it is allowed and approved, and only with the number of updates committed so far as its nonce |
| Guarantees.ConfigCommitsIff | programs/bridge/src/instructions/config/create_bridge_config.rs:26-194 | a configuration commits if and only if it is new, made by the super admin, aligned and every entry fits; it stores its bridge record, an empty mint and what the batch says, and touches nothing else |
| Guarantees.CommitteeCommitsIff | programs/bridge/src/instructions/committee/create_bridge_committee.rs:13-70 | a committee commits if and only if the bridge's admin creates it with at most 255 members, as many stakes and all addresses; it stores what the batch says and an enabled record for its submitter, and touches nothing else |
| Guarantees.MemberCommitsIff | programs/bridge/src/instructions/committee/add_or_update_committee.rs:11-31 | a member update changes the active set by that member alone and its weight to the given stake; the weight of every set without it stays |
| Invariants.QuietKeeps | programs/bridge/src/instructions/config/create_bridge_config.rs:56-156 | every configuration, committee, submitter and holder transaction keeps all records consistent with their keys, every fee below 1e6, chain totals equal to the sums of their tokens, and every total and supply as it was |
| Invariants.MintKeepsConfig | programs/bridge/src/instructions/echo_bridge/mint_sbtc_with_signatures.rs:87-88 | a mint keeps records consistent and each chain total equal to the sum of its tokens |
| Invariants.WithdrawKeepsConfig | programs/bridge/src/instructions/echo_bridge/withdraw_btc.rs:92-93 | so does a withdrawal, whether or not its records are written back |
| Conservation.MintKeepsFlow | programs/bridge/src/instructions/echo_bridge/mint_sbtc_with_signatures.rs:79-88 | a mint keeps every stored total and every supply equal to what the log says, and balances summing to supply |
| Conservation.WithdrawKeepsFlow | programs/bridge/src/instructions/echo_bridge/withdraw_btc.rs:66-93 | so does a withdrawal; the fee transfer changes neither side |
| Conservation.SupplyConserved | programs/bridge/src/instructions/echo_bridge/withdraw_btc.rs:66-93 | supply = minted - burned = sum of balances; written back, supply = chain totals + fees ever charged; not written back, chain totals = supply + burned |
| Conservation.TotalsTrackSupplyIff | programs/bridge/src/instructions/echo_bridge/withdraw_btc.rs:132-156 | supply equals chain totals plus fees if and only if withdrawals are written back or nothing was ever withdrawn |
| Nonces.MintsAreDistinct | programs/bridge/src/instructions/echo_bridge/mint_sbtc_with_signatures.rs:189-201 | no two mints of a log share source chain and nonce |
| Nonces.TotalsBounded | programs/bridge/src/instructions/echo_bridge/mint_sbtc_with_signatures.rs:87-88 | by pigeonhole on u64 nonces, token total <= chain total <= 2^64 * (2^64 - 1) < 2^128 |
| Nonces.RoomForEveryMint | programs/bridge/src/instructions/echo_bridge/mint_sbtc_with_signatures.rs:87-88 | while some nonce of a chain is unused, any u64 amount can still be added to both totals |
| Limits.MintKeepsLimiters | programs/bridge/src/instructions/echo_bridge/mint_sbtc_with_signatures.rs:90 | after a mint every stored limiter is still the ring left by its own token's part of the log, and accepted exactly what the log minted |
| Limits.LimitKeepsLimiters | programs/bridge/src/instructions/limiter/add_or_update_limiter_with_signatures.rs:46-55 | so it is after a limiter update |
| Runs.StepInv | programs/bridge/src/instructions/echo_bridge/mint_sbtc_with_signatures.rs:31-107 | every transaction, committed or failed, keeps the whole invariant |
| Runs.RunInv | programs/bridge/src/instructions/echo_bridge/mint_sbtc_with_signatures.rs:31-107 | every state reachable from the empty chain satisfies the invariant |
| Rules.OneOutcome | programs/bridge/src/lib.rs:40-145 | the rules leave nothing open: two outcomes of one transaction that both follow them are equal in every stored field |
| Refinement.MintCommitsByRule | programs/bridge/src/instructions/echo_bridge/mint_sbtc_with_signatures.rs:31-107 | a mint commits if and only if its submitter, bridge, chain, token, nonce and amount pass, its type is 0, members with 6666 of stake vouch for it, the recipient's accounts are supplied, the supply stays in u64 and the limiter has room |
| Refinement.MintStoresByRule | programs/bridge/src/instructions/echo_bridge/mint_sbtc_with_signatures.rs:54-106 | a committed mint credits its amount to the key in `to_address` on `to_chain_id`, to nobody else and on no other mint; both totals grow by it, the ring takes it in this hour's slot, the nonce is used, the receipt names it all, and nothing else changes |
| Refinement.WithdrawCommitsByRule | programs/bridge/src/instructions/echo_bridge/withdraw_btc.rs:27-66 | a withdrawal commits if and only if it passes the checks, its address has at most 255 bytes, the user is not the fee recipient, the accounts are supplied and the user holds the amount |
| Refinement.WithdrawStoresByRule | programs/bridge/src/instructions/echo_bridge/withdraw_btc.rs:57-106 | a committed withdrawal takes the amount from the user, gives amount * rate / 1000000 of it to the fee recipient whether or not it had an account, and takes the rest out of the supply; nobody else's balance moves, and nothing else is stored but its number, its receipt and, if written back, the totals |
| Refinement.LimitCommitsByRule | programs/bridge/src/instructions/limiter/add_or_update_limiter_with_signatures.rs:27-44 | a limiter update commits if and only if its records pass, its type is 3, it carries the stored counter, and members with 5001 of stake vouch for it |
| Refinement.LimitStoresByRule | programs/bridge/src/instructions/limiter/add_or_update_limiter_with_signatures.rs:46-62 | a committed limiter update moves the counter by one and changes only the cap of an open limiter; a new one starts empty at the current hour, labelled with chain and token of the message |
| Refinement.ConfigCommitsByRule | programs/bridge/src/instructions/config/create_bridge_config.rs:34-126 | a configuration commits if and only if the super admin pays, it is new, the lists have one length, the keys are not all zero, and each entry names another chain, supplies both addresses and has a fee below 1000000 where it creates the record |
| Refinement.ConfigStoresByRule | programs/bridge/src/instructions/config/create_bridge_config.rs:50-156 | a committed configuration stores its bridge record and an empty mint; a token record that is created holds flags, fee and minimum of the first entry naming it and a zero total, a chain record is supported with a zero total, and every other record stays |
| Refinement.CommitteeStoresByRule | programs/bridge/src/instructions/committee/create_bridge_committee.rs:24-67 | a committed committee creates the member records it finds empty, each with its first stake and not blocklisted, keeps all others, and enables its submitter |
| Refinement.StepByRule | programs/bridge/src/lib.rs:40-145 | the next transaction of any run, whichever it is, commits if and only if the rules let it and stores exactly what they say of its own fields; otherwise nothing changes |
| Refinement.TraceIff | programs/bridge/src/lib.rs:40-145 | a sequence of accounts follows the rules from nothing on if and only if it is what the program stores, transaction by transaction |
| Refusals.RefusedApproval | programs/bridge/src/instructions/utils/msgs/common.rs:26-93 | an error of verification reports something that is so: which kind of frame, message, record, member, repetition, stake or counter is at fault |
| Refusals.RefusedForReason | programs/bridge/src/lib.rs:40-145 | in every run, whatever error a transaction is refused with, what that error reports holds of the accounts and the transaction |
| Theorems.MintTotalsNeverOverflow | programs/bridge/src/instructions/echo_bridge/mint_sbtc_with_signatures.rs:87-88 | in every run no mint aborts on a stored total, the ring sum or a bucket, and every total is within its bound |
| Theorems.WithdrawNeverAborts | programs/bridge/src/instructions/echo_bridge/withdraw_btc.rs:66-93 | in every run no withdrawal underflows, and burned + fee = amount with fee < amount unless that is zero in every receipt |
| Theorems.LedgersAgree | programs/bridge/src/instructions/config/create_bridge_config.rs:121-156 | two-level agreement in every run: each token has a chain record unless somebody sent lamports to that record's address, and each chain total is the sum of its token totals |
| Theorems.FundedIff | programs/bridge/src/instructions/config/create_bridge_config.rs:72-73 | in every run an address counts as funded if and only if a transaction of the run sent lamports to it |
| Theorems.TotalsAreFlows | programs/bridge/src/instructions/echo_bridge/mint_sbtc_with_signatures.rs:87-88 | in every run each stored total is what was minted under it, less what was withdrawn if that is written back |
| Theorems.SupplyConservedInRuns | programs/bridge/src/instructions/echo_bridge/withdraw_btc.rs:66-93 | supply conservation in every run, per mint and overall, for both settings of write-back |
| Theorems.TotalsTrackSupplyInRunsIff | programs/bridge/src/instructions/echo_bridge/withdraw_btc.rs:132-156 | with the program as written, the chain totals stand for the circulating supply in a run if and only if the run has no withdrawal of a positive amount |
| Theorems.ExactlyOnce | programs/bridge/src/instructions/echo_bridge/mint_sbtc_with_signatures.rs:189-201 | in every run each (source chain, nonce) mints at most once, limiter updates carry 0, 1, 2, ... in order, and withdrawals are numbered 1, 2, ... across all users |
| Theorems.RefusedForStakeIsNotSpent | programs/bridge/src/instructions/utils/msgs/common.rs:81-91 | a limiter update refused for its stake has moved the counter in memory while the stored one still equals its nonce; brought again with further distinct active signers it commits if and only if their joint stake now suffices and fits u16, and only then is the nonce used |
| Theorems.InflowBoundInRuns | programs/bridge/src/instructions/echo_bridge/mint_sbtc_with_signatures.rs:86-90 | over any stretch of any run, what was minted from a token since the first k transactions is at most the cap for each clock hour from its limiter's window start then to now, the cap bounding the account then and every cap set since |
| Theorems.InflowInSeconds | programs/bridge/src/instructions/limiter/add_or_update_limiter_with_signatures.rs:147-149 | the same by the clock: over any stretch of any run 3600 times what was minted from a token is at most the cap times 3600 and the seconds since its window start |
| Refinement.FullCapFillsTheHour | programs/bridge/src/instructions/limiter/add_or_update_limiter_with_signatures.rs:147-149 | after a mint of the whole cap nothing more can be minted from the token until the clock shows the next multiple of 3600 seconds, for a limiter less than 24 hours behind |
| Theorems.ClearedBoundInRuns | programs/bridge/src/instructions/limiter/add_or_update_limiter_with_signatures.rs:163-185 | over any stretch of any run, that inflow is the growth of the ring sum and at most one cap for each hour the window start moved |
| Theorems.InflowSinceOpeningInRuns | programs/bridge/src/instructions/echo_bridge/mint_sbtc_with_signatures.rs:86-90 | in every run everything ever minted from a token is at most its largest cap for each clock hour begun since its limiter was opened |
| Theorems.HourBoundInRuns | programs/bridge/src/instructions/echo_bridge/mint_sbtc_with_signatures.rs:86-90 | in every run, while its cap is unchanged, what one hour mints from a token is at most max(1, g / 24) caps, g being how far behind its limiter began the hour |
| Theorems.HourHasItsStart | programs/bridge/src/instructions/limiter/add_or_update_limiter_with_signatures.rs:159-181 | every limiter of every run, at every moment, has a transaction count at which the current hour began for it, so the statements about one hour leave no state out |
| Theorems.RefusedOnlyWhenWindowIsFull | programs/bridge/src/instructions/limiter/add_or_update_limiter_with_signatures.rs:181-182 | in every run the limiter refuses an allowed mint only if an exact log of the token's last 24 hours would refuse it too |
| Theorems.RollingCapInRunsIff | programs/bridge/src/instructions/limiter/add_or_update_limiter_with_signatures.rs:159-182 | in every run, from the mints of a token, their number when the hour began and its limiter's window start then: the limiter keeps the rolling cap if and only if the mints before the cut have nothing positive in the window, or those after it exceed a lowered cap |
| Theorems.RollingCapWhenNearIff | programs/bridge/src/instructions/limiter/add_or_update_limiter_with_signatures.rs:159-182 | in every run, for a limiter that began the hour less than 48 hours behind: if and only if nothing positive was minted in the 23 hours before, or this hour's mints exceed a lowered cap |
| Theorems.VerifyIffInRuns | programs/bridge/src/instructions/utils/msgs/common.rs:39-92 | in every run, for every request against the stored committee, the two-way characterisation of approval holds |
| Backing.BackedIffSameLog | programs/bridge/src/instructions/echo_bridge/withdraw_btc.rs:132-156 | exactly when the missing write-back matters: a run never withdraws from a token beyond what was minted from it if and only if at every point it has committed what the program that writes back would have; and then the accounts differ in nothing but the totals |
| Backing.WithdrawalsAreBacked | programs/bridge/src/instructions/echo_bridge/withdraw_btc.rs:140-154 | written back, in every run no token is withdrawn beyond what was minted from it |
| Backing.CommitsAgainIff | programs/bridge/src/instructions/echo_bridge/withdraw_btc.rs:132-156 | a withdrawal that has just committed commits again if and only if the user still holds the amount and the counter can move; written back, also only if the totals left cover it |
| Backing.BurnedWithinMinted | programs/bridge/src/instructions/echo_bridge/withdraw_btc.rs:82-93 | in every run, whatever is written back, no more is burned on a Solana chain or overall than was minted there; towards one token that holds of every log whose withdrawals are backed |
| Theorems.SubmittersInRuns | programs/bridge/src/instructions/committee/add_or_update_submitter.rs:15-21 | in every run each submitter record is stored under the key it names and is never marked initialised |
| Theorems.CommitteeEnablesItsSubmitter | programs/bridge/src/instructions/committee/create_bridge_committee.rs:63-67 | in every run a committed committee creation leaves its submitter enabled and changes no other permission; permissions stay as they were if and only if that submitter was enabled already |
| Example.TwiceTheCap | README.md:32 | for any positive cap, keys and times in consecutive hours there is a run from the empty chain, with signed approvals, in which the last 24 hours hold twice the cap |
| Example.TotalsStay | programs/bridge/src/instructions/echo_bridge/withdraw_btc.rs:132-156 | there is such a run that ends in a withdrawal of a full cap and whose chain and token totals still say two caps while the supply is one cap and the fee |
| Example.BurnedBeyondMinted | programs/bridge/src/instructions/echo_bridge/withdraw_btc.rs:132-156 | as written, whenever the fee on the cap is below half of it there is a run, with two tokens of one chain and fees not counted, that burns more towards one token than was ever minted from it |
| Example.SubmitterComesBack | programs/bridge/src/instructions/committee/create_bridge_committee.rs:63-67 | a run in which the admin disables a submitter and creating the same committee once more enables it |
| Example.TokenWithoutItsChain | programs/bridge/src/instructions/config/create_bridge_config.rs:121-156 | a run in which lamports sent to the address of a chain record make the configuration create the token record and not the chain record, until the admin adds the chain |
| Bridge.Bridge.Process | programs/bridge/src/lib.rs:40-145 | one transaction: it succeeds if and only if the rules let it, stores what they say or leaves the accounts as they were, and an error reports something that is so; the stored accounts are again those of the run so far, so the theorems on runs hold of them |
| Bridge.Bridge.MintSbtcWithSignatures | programs/bridge/src/instructions/echo_bridge/mint_sbtc_with_signatures.rs:31-107 | the handler creates its nonce account before anything is verified, and still commits or fails exactly as the specification whose two-way characterisation is Guarantees.MintCommitsIff |
| Bridge.Bridge.FinishMint | programs/bridge/src/instructions/echo_bridge/mint_sbtc_with_signatures.rs:54-106 | after verification, crediting the recipient before either total or the limiter is checked leads to the same accounts or error as the specification |
| Bridge.Bridge.CreditRecipient | programs/bridge/src/instructions/echo_bridge/mint_sbtc_with_signatures.rs:54-86 | finds the accounts, opens the token account if needed, mints: the amount is new on that mint and belongs to the key in `to_address`, all other balances stay; or the error is as specified |
| Bridge.Bridge.WithdrawBtc | programs/bridge/src/instructions/echo_bridge/withdraw_btc.rs:27-108 | the handler moves its nonce on a working copy first, and commits or fails exactly as the specification characterised by Guarantees.WithdrawCommitsIff, for both settings of write-back |
| Bridge.Bridge.FinishWithdrawal | programs/bridge/src/instructions/echo_bridge/withdraw_btc.rs:66-106 | after the lookup: fee, transfer, burn, totals on working copies, log, and only then the write-back of what is mutable |
| Bridge.Bridge.ChargeUser | programs/bridge/src/instructions/echo_bridge/withdraw_btc.rs:57-89 | the user loses fee and rest, the recipient gains the fee whether or not it had a token account, the rest leaves the supply, all other balances stay; or the token program refuses |
| Bridge.Bridge.AddOrUpdateLimiterWithSignatures | programs/bridge/src/instructions/limiter/add_or_update_limiter_with_signatures.rs:27-63 | the handler stores the moved counter and the updated limiter, or fails, exactly as the specification characterised by Guarantees.LimitCommitsIff |
| Bridge.Bridge.CreateBridgeConfig | programs/bridge/src/instructions/config/create_bridge_config.rs:26-194 | the handler commits or fails exactly as the specification characterised by Guarantees.ConfigCommitsIff |
| Bridge.Bridge.CreateRecords | programs/bridge/src/instructions/config/create_bridge_config.rs:56-156 | the loop, creating records in place as it goes, leaves exactly the records of the recursive specification or its first error |
| Bridge.Bridge.AddOrUpdateChain | programs/bridge/src/instructions/config/add_or_update_chain.rs:12-35 | both branches of the handler, new and existing record, agree with the specification characterised by Guarantees.ChainCommitsIff |
| Bridge.Bridge.AddOrUpdateChainToken | programs/bridge/src/instructions/config/add_or_update_chain_token.rs:12-45 | both branches of the handler agree with the specification characterised by Guarantees.TokenCommitsIff |
| Bridge.Bridge.CreateBridgeCommittee | programs/bridge/src/instructions/committee/create_bridge_committee.rs:13-70 | the handler commits or fails exactly as the specification characterised by Guarantees.CommitteeCommitsIff |
| Bridge.Bridge.CreateMembers | programs/bridge/src/instructions/committee/create_bridge_committee.rs:24-61 | the loop leaves exactly the members of the recursive specification or its first error |
| Bridge.Bridge.AddOrUpdateCommittee | programs/bridge/src/instructions/committee/add_or_update_committee.rs:11-31 | both branches of the handler set the record index to its key and agree with the specification characterised by Guarantees.MemberCommitsIff |
| Bridge.Bridge.AddOrUpdateSubmitter | programs/bridge/src/instructions/committee/add_or_update_submitter.rs:10-23 | both branches of the handler succeed if and only if the admin calls it, and then exactly that key's permission to submit is what was asked for, with the rest kept as Guarantees.SubmitterCommitsIff says |

## Left out

- Ed25519 mathematics: done by Solana's native program, outside the repository.
- Address hashing, bumps and signer seeds: addresses are algebraic terms over the seeds.
- Rent, amounts of lamports, account sizes and discriminators: an account exists or does not, and
  an address was sent lamports or not.
- Ed25519.SignedIsReadIff: compares where the checked and the read bytes lie, and does not say what a
  frame with another offset makes a member approve, because the model assumes the client's offsets.
- The metadata account of an sBTC mint, its name, symbol and decimals.
- Token-program authorities, freezing, closing of accounts, delegates, and burns by holders outside
  the bridge.
- Refusals.RefusedForReason: says that the reported reason holds, not which reason is reported when
  several hold; the functions of `State` and the handlers test in the order of the source.
- Events beyond the receipts: the totals shown in mint and withdraw events, and the limiter's event.
- The order in which Anchor reports several failing account checks at once: missing accounts are
  reported before failing constraints, and those in declaration order.
- Compute budget, transaction size, and the number of accounts a transaction can hold.
- Operations no instruction reaches, the unused helpers of `utils.rs`, and `Upgrade` of the program.
- The TypeScript client, scripts and tests. The unit test of the mint message uses an older layout
  with a fixed-length source address; the model follows the current one.
- Clock readings beyond u32 or going backwards, and the wrapping they would cause in a run; a single
  call is modelled with its wrapping arithmetic.
- Aliasing of account data within one transaction: the accounts are one field holding a record of
  maps, and handlers replace entries of those maps.
