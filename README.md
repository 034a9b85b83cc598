# MinePro staking: a Dafny model

This project models the core of the MinePro staking system on the Internet Computer:

- the staking canister (Rust), made up of
  - its shared state,
  - the dividend-per-share reward accounting,
  - the reentrancy guard,
  - the `init`, `balanceOf`, `totalSupply`, `withdraw`, `stake` and `claimRewards` entry points;
- the web client (TypeScript/React), made up of
  - the call sequencing of its connect, stake, withdraw, claim and transfer handlers,
  - the unlock countdown it displays.

Modules, one per source file:

| module | file | source |
|---|---|---|
| `StakingState` | `state.dfy` | `state.rs`: `State`, `UserInfo`, `GuardState`, pending rewards, cumulative dividends, time until unlock |
| `Guard` | `guard.dfy` | `guard.rs`: `GuardPrincipal::new` and its `Drop` |
| `Staking` | `canister.dfy` | `lib.rs`: the canister entry points and `StakingError` |
| `UnlockTime` | `unlock_time.dfy` | `UnlockTime.tsx`: the countdown text |
| `Client` | `client.dfy` | `App.tsx`: the handlers as call traces |
| `Arith`, `Wrappers` | `arith.dfy`, `wrappers.dfy` | helpers (multiplication/division facts, `Option`/`Result`) |

How the model is built:

- **State.** The canister state is one object of class `StakingState.State`. The entry points are methods that take it, as `read_state`/`mutate_state` hand out the one shared cell. `NumTokens` is `nat`; `u64` fields are a bounded subtype.
- **Calls that change nothing.** `Guard.New`, `Staking.ClaimRewards`, `Staking.Stake` and `Staking.ClaimRewardsInternal` have no `modifies` clause. The verifier therefore proves that they leave the state untouched, as the source does.
- **Ledger calls.** Every `icrc1_transfer` issued by the canister is an input `LedgerReply`: `Replied` (the ledger answered, whether it accepted or refused the transfer) or `Rejected` (the inter-canister call itself failed). The canister only checks `is_err()` on the call, so a reply in which the ledger refuses the transfer still counts as success.
- **Transfer order.** The transfers a call issues are returned in the order they are made.
- **Traps.** A trap is the outcome `Trapped`:
  - an anonymous caller of `claimRewards`;
  - `Nat` underflow of `total_shares -= amount` at lib.rs:114, which happens before anything is written;
  - `amount - fee` at lib.rs:144, which happens after the fee transfer's `await` has committed the lowered stake, so that change stays.
- **Client.** A client handler is a function from the presence of the identity and metadata, the parse results of the typed-in values, and every remote answer (Ok, Err(kind) or a thrown fault), to the ordered calls it issues and how it ends (an alert, quietly, or with an uncaught exception).

What the contracts show about the code as written:

- **The guard never locks.** Nothing in guard.rs or lib.rs ever writes `GuardLocked`, so the guard's promise to turn away a second pending request is not kept. `Guard.SecondRequestAccepted` exhibits two successive `new` calls that both succeed. In addition, `GuardPrincipal::new` returns `Result<(), ()>`, so no guard value exists in lib.rs and its `Drop` never runs there.
- **Claiming pays the same reward again.** `_claim_rewards` computes the cumulative dividends on success and discards the result. `total_excluded` therefore never advances, and `Staking.RepeatedClaimPaysAgain` shows that, from any state in which the caller has a positive pending reward, a second claim pays the same reward again. From `init` as written no such state is reached (no user is ever added and nothing raises `dividends_per_share`), so this shows in code that records stakes or distributes rewards.
- **Stake records nothing.** `stake` has an empty state update and a no-op inbound transfer. Starting from `init` (no users), no entry point ever adds a user, so every `withdraw` of a positive amount answers `InsufficientBalance`; `Staking.StakeThenWithdrawRefused` runs `init`, `stake` and `withdraw` in turn and ends there (the empty update is lib.rs:190-192, the refusal lib.rs:92-101).
- **Name clash.** `stake` is registered under the update name `withdraw`, the same name as `withdraw`. The model keeps them as two separate methods.
- **The Rust source does not compile as written.** The `init` literal names neither `principal_guards` nor `state_guard`, and `State` does not declare `state_guard`. The model adds `stateGuard` and starts it `GuardUnlocked`, with `principalGuards` empty.
- **What the client does not check.**
  - The client talks to one backend canister, fixed by `CANISTER_ID_MINEPRO_STAKING_BACKEND`.
  - No handler waits for or blocks a previous request; a second click issues its calls at once.
  - `handleWithdraw` and `handleClaimRewards` do not check the session; they call as the anonymous principal.
  - No handler checks for a zero amount before calling.

## Model

| member | source | states |
|---|---|---|
| StakingState.DefaultUserInfo | src/minepro_staking_backend/src/state.rs:74-84 | every numeric field of the default position is 0 |
| StakingState.DefaultUserInfoIsIdle | src/minepro_staking_backend/src/state.rs:74-94 | a default position has no pending reward and is already unlocked at any time |
| StakingState.CumulativeDividends | src/minepro_staking_backend/src/state.rs:57-59 | the result is the floor of share times dividends per share over precision (bounded from both sides); it is 0 for no share or no dividends |
| StakingState.CumulativeDividendsMonotone | src/minepro_staking_backend/src/state.rs:57-59 | for fixed dividends per share and precision > 0, more shares never earn less |
| StakingState.PendingRewards | src/minepro_staking_backend/src/state.rs:36-55 | 0 for a principal with no entry or a zero amount; otherwise max(0, cumulative − total_excluded), never above the cumulative dividends |
| StakingState.ExcludedAllMeansNothingPending | src/minepro_staking_backend/src/state.rs:50-52 | when total_excluded equals the cumulative dividends of the amount, nothing is pending |
| StakingState.TimeUntilUnlock | src/minepro_staking_backend/src/state.rs:86-94 | 0 once unlock_time <= now, else unlock_time − now; never more than unlock_time |
| StakingState.State.constructor | src/minepro_staking_backend/src/state.rs:19-33 | a state holds exactly the fields it is built with (the `State` shape plus `stateGuard`) |
| Guard.New | src/minepro_staking_backend/src/guard.rs:25-33 | Err exactly when the guard is GuardLocked; no modifies clause, so no state change |
| Guard.Drop | src/minepro_staking_backend/src/guard.rs:36-42 | afterwards the guard is GuardUnlocked whatever it was and every other field is unchanged, so a second drop changes nothing |
| Guard.SecondRequestAccepted | src/minepro_staking_backend/src/guard.rs:7-33 | from an unlocked state two successive `new` calls both succeed: the promised rejection of a second pending request does not happen |
| Staking.Init | src/minepro_staking_backend/src/lib.rs:33-49 | no users, total shares, rewards and dividends per share 0, precision 10^18 > 0, configuration copied from the arguments |
| Staking.TotalSupply | src/minepro_staking_backend/src/lib.rs:51-54 | the recorded total of shares; a read-only query |
| Staking.StakedAmount | src/minepro_staking_backend/src/lib.rs:92-98 | the stored amount of the principal, 0 without an entry; a positive amount implies an entry |
| Staking.BalanceOf | src/minepro_staking_backend/src/lib.rs:56-66 | the stored amount for the user, or 0 if the user has no entry; a read-only query |
| Staking.NoStakeNothingPending | src/minepro_staking_backend/src/state.rs:36-45 | a principal with nothing staked has no pending reward |
| Staking.EarlyExitFee | src/minepro_staking_backend/src/lib.rs:105-111 | 0 when the position is unlocked, else the floor of amount × leave_early_fee / 100; never above the amount when leave_early_fee <= 100 |
| Staking.FeeAndPayoutMoveAmount | src/minepro_staking_backend/src/lib.rs:122-153 | when the fee does not exceed the amount, the fee transfer (present only for a non-zero fee) and the payout of amount - fee together move exactly the withdrawn amount |
| Staking.AfterWithdraw | src/minepro_staking_backend/src/lib.rs:113-121 | the updated table has the same keys; the caller must have had an entry |
| Staking.AfterWithdrawEffect | src/minepro_staking_backend/src/lib.rs:113-121 | the caller's stake drops by exactly the amount, the caller's pending reward becomes 0, the unlock time is kept, and every other entry is unchanged |
| Staking.ClaimTransfers | src/minepro_staking_backend/src/lib.rs:202-214 | at most one transfer, and none exactly when nothing is pending |
| Staking.ClaimRewardsInternal | src/minepro_staking_backend/src/lib.rs:197-229 | NothingToClaim with no transfer when nothing is pending; otherwise one transfer of the pending reward to the caller, Ok exactly when the ledger replied, TransferTokenFailed when the call was rejected; state unchanged |
| Staking.ClaimRewards | src/minepro_staking_backend/src/lib.rs:68-79 | traps for the anonymous caller; Busy with no transfer while locked; otherwise the outcome and transfer of `_claim_rewards` for the caller; state unchanged |
| Staking.RepeatedClaimPaysAgain | src/minepro_staking_backend/src/lib.rs:217-226 | two successful claims in a row both pay the same positive pending reward, since a claim does not advance total_excluded |
| Staking.Stake | src/minepro_staking_backend/src/lib.rs:166-195 | ZeroAmount before the guard; Busy while locked; otherwise Ok, paying out pending rewards only when the caller already has a stake; state never changes |
| Staking.Withdraw | src/minepro_staking_backend/src/lib.rs:81-164 | ZeroAmount, then Busy, then InsufficientBalance, each with no change and no transfer; past them the caller has an entry, the claim transfer comes first, total shares and the caller's amount drop by exactly the amount, the caller's pending reward becomes 0, other users are untouched, then the fee and payout transfers follow and a failed transfer does not undo the change; with leave_early_fee <= 100 and the fee transfer not rejected, the call never traps at the payout and the transfers after the claim move exactly the withdrawn amount |
| Staking.PayOut | src/minepro_staking_backend/src/lib.rs:122-163 | after the claimed transfers: the fee transfer only for a non-zero fee, TransferTokenFailed when it is rejected, a trap when the fee exceeds the amount, otherwise the payout of amount - fee, whose rejection is TransferTokenFailed; the fee and the payout together move exactly the amount |
| Staking.StakeThenWithdrawRefused | src/minepro_staking_backend/src/lib.rs:188-194 | after `init` and a `stake` of any amount, a `withdraw` of a positive amount answers InsufficientBalance with no transfer |
| UnlockTime.Decimal | src/minepro_staking_frontend/src/components/UnlockTime.tsx:15-18 | a number is written as a non-empty run of digits with no leading zero |
| UnlockTime.DecimalRoundTrip | src/minepro_staking_frontend/src/components/UnlockTime.tsx:15-18 | reading the written digits back gives the number |
| UnlockTime.DecimalInjective | src/minepro_staking_frontend/src/components/UnlockTime.tsx:15-18 | different numbers are written differently |
| UnlockTime.Split | src/minepro_staking_frontend/src/components/UnlockTime.tsx:10-13 | d·86400 + h·3600 + m·60 + s == n with h < 24, m < 60, s < 60 |
| UnlockTime.SplitUnique | src/minepro_staking_frontend/src/components/UnlockTime.tsx:10-13 | any decomposition with hours, minutes and seconds in range is the computed one |
| UnlockTime.UnitDisplay | src/minepro_staking_frontend/src/components/UnlockTime.tsx:15-18 | a zero unit gives no text; 1 gives "1" and the singular word; more gives the digits and the plural |
| UnlockTime.RemoveFirstComma | src/minepro_staking_frontend/src/components/UnlockTime.tsx:20-23 | text without a comma is unchanged, otherwise exactly one character goes |
| UnlockTime.RemoveFirstCommaSkips | src/minepro_staking_frontend/src/components/UnlockTime.tsx:20-23 | a comma-free prefix passes through and the removal applies to the rest |
| UnlockTime.RemoveCommaAfterDigits | src/minepro_staking_frontend/src/components/UnlockTime.tsx:20-23 | in "digits word, " the removed comma is the one after the word |
| UnlockTime.UnlockLabel | src/minepro_staking_frontend/src/components/UnlockTime.tsx:33 | "Unlocked" for input <= 0; for positive input the text starts with "Unlocks in: " followed by the countdown |
| UnlockTime.ShownUnits | src/minepro_staking_frontend/src/components/UnlockTime.tsx:19-28 | at most two units, none exactly for 0, each non-zero, and a second unit is the next smaller after the first |
| UnlockTime.Countdown | src/minepro_staking_frontend/src/components/UnlockTime.tsx:9-29 | the countdown is empty exactly for 0 seconds; otherwise it starts with a digit |
| UnlockTime.CountdownRendersShownUnits | src/minepro_staking_frontend/src/components/UnlockTime.tsx:9-29 | the countdown is exactly the leading non-zero unit and, when non-zero, the next smaller one; the first ends in ", " (unless seconds) and the second, its first comma removed, in " " |
| UnlockTime.UnderAMinuteShowsSeconds | src/minepro_staking_frontend/src/components/UnlockTime.tsx:18-28 | for 0 < n < 60 the countdown is "1 second" or "n seconds" |
| Client.KindName | src/minepro_staking_frontend/src/App.tsx:159-159 | the reason shown for a backend error is a non-empty variant name starting with a capital letter |
| Client.KindNameInjective | src/minepro_staking_frontend/src/App.tsx:159-159 | distinct error variants give distinct reasons, so the alert identifies the error |
| Client.HandleStake | src/minepro_staking_frontend/src/App.tsx:106-169 | no call without identity (alert) or metadata (quiet); fee query first, then approval of amount + fee with the backend as spender; stake called exactly when the approval returned Ok, and a refused or thrown approval ends after the fee query and the approval with its alert; only an Ok stake refreshes user info, once, last; each outcome's alert |
| Client.HandleWithdraw | src/minepro_staking_frontend/src/App.tsx:171-195 | an unparsable amount ends uncaught with no call; otherwise one withdraw call, issued with or without a session, and a refresh exactly on Ok: any other reply leaves the withdraw call the only one |
| Client.HandleClaimRewards | src/minepro_staking_frontend/src/App.tsx:197-221 | one claim call; a refresh exactly on Ok, so any other reply leaves the claim call the only one; Err and thrown faults end with their alerts |
| Client.HandleTransfer | src/minepro_staking_frontend/src/App.tsx:223-251 | a destination or amount that fails to parse means no transfer call and "Transfer token failed"; success exactly on an Ok reply; never a refresh |
| Client.HandleConnect | src/minepro_staking_frontend/src/App.tsx:39-67 | an authenticated session sets the identity with no login; a rejected login leaves the identity as it was with "Login failed" |
| Client.IdentityEffect | src/minepro_staking_frontend/src/App.tsx:253-257 | a refresh whenever the identity changes to a defined one, never while it is undefined |
| Client.FetchUserInfoCalls | src/minepro_staking_frontend/src/App.tsx:93-104 | without an identity no call goes out; with one, its staked balance is queried first and the pending reward only if that succeeded |
| Client.Mount | src/minepro_staking_frontend/src/App.tsx:77-91 | metadata is requested first; an existing session sets the identity and so triggers a refresh |
| Client.ConnectRefreshesWhenSignedIn | src/minepro_staking_frontend/src/App.tsx:39-67 | connecting from the signed-out state refreshes user info exactly when it ends signed in, and ends with "Login failed" otherwise |

## Left out

- Ledger internals: what `icrc1_transfer`, `icrc1_fee` and `icrc2_approve` do on the ledger side; only their answer is an input.
- Interleaving of canister messages at `await` points and concurrent client handlers: each call runs to completion given the answers of its remote calls.
- Rollback of a trap: only the effect on the state the contracts describe is modelled, not the general commit-point semantics.
- The `thread_local!`/`RefCell` plumbing of `read_state`, `mutate_state` and `replace_state`: the state is one object passed to every entry point.
- `principal_guards`: it is kept as a field, but nothing reads or writes it.
- The Candid decoding of the ledger's reply: lib.rs decodes the `icrc1_transfer` reply as `TransferFromError`, and that detail is not modelled.
- The duplicate export: two updates are registered under the name `withdraw`.
- `UnlockTime.Decimal`: writes every whole number in plain digits. JavaScript switches to exponent notation from 10^21 and loses precision above 2^53; neither is modelled.
- The countdown for negative, zero or fractional input: the component computes it but does not show it for input <= 0, and fractional seconds (floating-point `%` and `Math.floor`) are not modelled.
- React rendering and `useState`/`useEffect` scheduling: the effect keyed on the identity is the function `IdentityEffect`.
- `window.alert` and `console.log`: alerts are the `Alert(message)` ending, and console output is dropped.
- `HttpAgent.create` and `AuthClient` construction failures, and actor creation from a malformed canister id.
- Internet Identity's login internals: login is one resolved or rejected step.
- Principal text encoding: `Principal.fromText` is its parse result, an `Option`.
- `BigInt` parsing: it is its parse result, an `Option`.
- What `fetchUserInfo` writes into `userInfo`: the handlers only record that they started it, unawaited. `FetchUserInfoCalls` gives its calls.
- The display-only components `UserInfo.tsx`, `Approve.tsx` and `useTransactionToast.tsx`, the generated interface declarations (used only for the `ErrorKind` and `Metadata` shapes) and `vite-env.d.ts`: none holds logic the core depends on.
