/** The staking canister's entry points (lib.rs), over the shared `State`.

    Each update runs to completion given the outcome of every ledger call it
    makes; those outcomes are parameters. The transfers a call issues are
    returned in order. A trap (a failed `Nat` subtraction, an anonymous
    caller) is the outcome `Trapped`. */
module Staking {
  import opened Wrappers
  import opened StakingState
  import opened Arith
  import Guard

  /** `StakingError`, as the Rust enum declares it. */
  datatype StakingError =
    | Busy
    | ZeroAmount
    | NothingToClaim
    | InsufficientBalance
    | UserDoesNotExist
    | TransferTokenFailed
    | RaceCondition

  /** How an update call ends: with a reply, or with a trap. */
  datatype Outcome = Returned(result: Result<(), StakingError>) | Trapped

  /** The answer to an `icrc1_transfer` inter-canister call: the ledger
      replied, or the call was rejected. `Replied` covers a reply that
      accepts the transfer and one that refuses it alike: the canister only
      tests `is_err()` on the call itself, so both count as success. */
  datatype LedgerReply = Replied | Rejected

  /** An `icrc1_transfer` the canister asks `ledger` to perform. */
  datatype Transfer = Transfer(ledger: Principal, to: Principal, amount: nat)

  datatype InitArgs = InitArgs(
    token: Principal,
    reward: Principal,
    feeRecipient: Principal,
    leaveEarlyFee: nat,
    lockTime: u64)

  /** The anonymous principal, whose textual form is "2vxsx-fae". */
  const ANONYMOUS: Principal := [0x04]

  /** 10^18, the scale of `dividendsPerShare`. */
  const PRECISION: nat := 1_000_000_000_000_000_000

  /** `init`: a fresh state with no users and nothing staked. The Rust
      literal names neither `principal_guards` nor `state_guard`; the model
      starts them empty and unlocked. */
  method Init(args: InitArgs) returns (s: State)
    ensures fresh(s) && s.Valid()
    ensures s.users == map[] && s.principalGuards == {}
    ensures s.totalShares == 0 && s.totalRewards == 0 && s.dividendsPerShare == 0
    ensures s.precision == PRECISION && s.stateGuard == GuardUnlocked
    ensures s.lockTime == args.lockTime && s.leaveEarlyFee == args.leaveEarlyFee
    ensures s.feeRecipient == args.feeRecipient && s.token == args.token && s.reward == args.reward
  {
    s := new State(args.lockTime, args.leaveEarlyFee, args.feeRecipient, args.token, args.reward,
                   map[], {}, 0, 0, 0, PRECISION, GuardUnlocked);
  }

  /** `total_supply`: the shares recorded as staked. */
  function TotalSupply(s: State): (n: nat)
    reads s
    ensures n == s.totalShares
  {
    s.totalShares
  }

  /** The staked amount of `p`, 0 for a principal without an entry; the
      read that `balance_of`, `withdraw`, `stake` and `_claim_rewards` share. */
  function StakedAmount(users: map<Principal, UserInfo>, p: Principal): (a: nat)
    ensures p !in users ==> a == 0
    ensures p in users ==> a == users[p].amount
    ensures a > 0 ==> p in users
  {
    if p in users then users[p].amount else 0
  }

  /** `balance_of`: what `user` has staked. */
  function BalanceOf(s: State, user: Principal): (b: nat)
    reads s
    ensures user !in s.users ==> b == 0
    ensures user in s.users ==> b == s.users[user].amount
  {
    StakedAmount(s.users, user)
  }

  /** A principal with nothing staked has nothing to claim. */
  lemma NoStakeNothingPending(users: map<Principal, UserInfo>, p: Principal,
                              dividendsPerShare: nat, precision: nat)
    requires precision > 0
    requires StakedAmount(users, p) == 0
    ensures PendingRewards(users, p, dividendsPerShare, precision) == 0
  {
  }

  /** The early-exit fee `withdraw` charges on `amount` when the position
      still has `timeLeft` before it unlocks. */
  function EarlyExitFee(amount: nat, leaveEarlyFee: nat, timeLeft: u64): (fee: nat)
    ensures timeLeft == 0 ==> fee == 0
    ensures timeLeft > 0 ==> fee * 100 <= amount * leaveEarlyFee < (fee + 1) * 100
    ensures leaveEarlyFee <= 100 ==> fee <= amount
  {
    if timeLeft == 0 then 0
    else
      amount * leaveEarlyFee / 100
  }

  /** The tokens a sequence of transfers moves in all. */
  function TotalMoved(ts: seq<Transfer>): nat
  {
    if ts == [] then 0 else TotalMoved(ts[..|ts| - 1]) + ts[|ts| - 1].amount
  }

  /** Past the claimed rewards, a withdrawal's fee transfer (if any) and
      its payout together move exactly the withdrawn amount. */
  lemma FeeAndPayoutMoveAmount(claimed: seq<Transfer>, token: Principal, recipient: Principal,
                               caller: Principal, amount: nat, fee: nat)
    requires fee <= amount
    ensures var feeTransfer := if fee > 0 then [Transfer(token, recipient, fee)] else [];
      TotalMoved((claimed + feeTransfer + [Transfer(token, caller, amount - fee)])[|claimed|..]) == amount
  {
    var feeTransfer := if fee > 0 then [Transfer(token, recipient, fee)] else [];
    var tail := feeTransfer + [Transfer(token, caller, amount - fee)];
    assert (claimed + feeTransfer + [Transfer(token, caller, amount - fee)])[|claimed|..] == tail;
    assert tail[..|tail| - 1] == feeTransfer;
    if fee > 0 {
      assert feeTransfer[..0] == [];
      assert TotalMoved(feeTransfer) == fee;
    }
    assert TotalMoved(tail) == TotalMoved(feeTransfer) + (amount - fee);
  }

  /** The user table after `caller` withdraws `amount`: the amount drops and
      `totalExcluded` is reset to what the remaining amount has earned. */
  function AfterWithdraw(users: map<Principal, UserInfo>, caller: Principal, amount: nat,
                         dividendsPerShare: nat, precision: nat): (r: map<Principal, UserInfo>)
    requires precision > 0
    requires amount > 0 && StakedAmount(users, caller) >= amount
    ensures r.Keys == users.Keys + {caller}
    ensures caller in users
  {
    var user := users[caller];
    var remaining := user.amount - amount;
    users[caller := user.(amount := remaining,
                          totalExcluded := remaining * dividendsPerShare / precision)]
  }

  /** A withdrawal lowers the caller's stake by exactly `amount`, leaves
      nothing pending for the caller, and leaves every other entry alone. */
  lemma AfterWithdrawEffect(users: map<Principal, UserInfo>, caller: Principal, amount: nat,
                            dividendsPerShare: nat, precision: nat)
    requires precision > 0
    requires amount > 0 && StakedAmount(users, caller) >= amount
    ensures var r := AfterWithdraw(users, caller, amount, dividendsPerShare, precision);
      && StakedAmount(r, caller) + amount == StakedAmount(users, caller)
      && PendingRewards(r, caller, dividendsPerShare, precision) == 0
      && r[caller].unlockTime == users[caller].unlockTime
      && (forall q :: q != caller ==> (q in r <==> q in users) && (q in r ==> r[q] == users[q]))
  {
    var r := AfterWithdraw(users, caller, amount, dividendsPerShare, precision);
    ExcludedAllMeansNothingPending(r, caller, dividendsPerShare, precision);
  }

  /** The one transfer `_claim_rewards` issues for `user`, or none when
      nothing is pending. */
  function ClaimTransfers(s: State, user: Principal, caller: Principal): (t: seq<Transfer>)
    reads s
    requires s.Valid()
    ensures |t| <= 1
    ensures t == [] <==> PendingRewards(s.users, user, s.dividendsPerShare, s.precision) == 0
  {
    var pending := PendingRewards(s.users, user, s.dividendsPerShare, s.precision);
    if pending == 0 then [] else [Transfer(s.token, caller, pending)]
  }

  /** `_claim_rewards`: pays `user`'s pending reward to `caller`. It only
      reads the state; the cumulative dividends it computes on success are
      discarded, so `totalExcluded` is not advanced. */
  method ClaimRewardsInternal(s: State, user: Principal, caller: Principal, reply: LedgerReply)
    returns (r: Result<(), StakingError>, transfers: seq<Transfer>)
    requires s.Valid()
    ensures var pending := PendingRewards(s.users, user, s.dividendsPerShare, s.precision);
      && (pending == 0 ==> r == Err(NothingToClaim) && transfers == [])
      && (pending > 0 ==> transfers == [Transfer(s.token, caller, pending)])
      && (pending > 0 ==> (r == Ok(()) <==> reply.Replied?))
      && (pending > 0 && reply.Rejected? ==> r == Err(TransferTokenFailed))
  {
    var userAmount := StakedAmount(s.users, user);
    var amount := PendingRewards(s.users, user, s.dividendsPerShare, s.precision);
    if amount == 0 {
      return Err(NothingToClaim), [];
    }
    transfers := [Transfer(s.token, caller, amount)];
    match reply {
      case Replied =>
        var discarded := CumulativeDividends(userAmount, s.dividendsPerShare, s.precision);
      case Rejected =>
        return Err(TransferTokenFailed), transfers;
    }
    return Ok(()), transfers;
  }

  /** `claim_rewards`: traps for the anonymous caller, answers `Busy` while
      the lock is held, and otherwise is `_claim_rewards` for the caller. */
  method ClaimRewards(s: State, caller: Principal, reply: LedgerReply)
    returns (out: Outcome, transfers: seq<Transfer>)
    requires s.Valid()
    ensures caller == ANONYMOUS ==> out == Trapped && transfers == []
    ensures caller != ANONYMOUS && s.stateGuard == GuardLocked ==>
      out == Returned(Err(Busy)) && transfers == []
    ensures caller != ANONYMOUS && s.stateGuard == GuardUnlocked ==>
      var pending := PendingRewards(s.users, caller, s.dividendsPerShare, s.precision);
      && transfers == ClaimTransfers(s, caller, caller)
      && (pending == 0 ==> out == Returned(Err(NothingToClaim)))
      && (pending > 0 && reply.Replied? ==> out == Returned(Ok(())))
      && (pending > 0 && reply.Rejected? ==> out == Returned(Err(TransferTokenFailed)))
  {
    if caller == ANONYMOUS {
      return Trapped, [];
    }
    var guard := Guard.New(s);
    if guard.Err? {
      return Returned(Err(Busy)), [];
    }
    var r;
    r, transfers := ClaimRewardsInternal(s, caller, caller, reply);
    out := Returned(r);
  }

  /** Because a successful claim changes nothing, claiming again pays the
      same pending reward a second time. */
  method RepeatedClaimPaysAgain(s: State, caller: Principal, first: LedgerReply, second: LedgerReply)
    returns (out1: Outcome, paid1: seq<Transfer>, out2: Outcome, paid2: seq<Transfer>)
    requires s.Valid() && s.stateGuard == GuardUnlocked && caller != ANONYMOUS
    requires PendingRewards(s.users, caller, s.dividendsPerShare, s.precision) > 0
    requires first.Replied? && second.Replied?
    ensures out1 == out2 == Returned(Ok(()))
    ensures paid1 == paid2 && |paid1| == 1 && paid1[0].to == caller && paid1[0].amount > 0
  {
    out1, paid1 := ClaimRewards(s, caller, first);
    out2, paid2 := ClaimRewards(s, caller, second);
  }

  /** `stake`. Its state update is empty and the inbound transfer is a
      no-op, so it never changes the state (no `modifies` clause); it only
      pays out pending rewards when the caller already has a stake. */
  method Stake(s: State, caller: Principal, amount: nat, claimReply: LedgerReply)
    returns (out: Outcome, transfers: seq<Transfer>)
    requires s.Valid()
    ensures amount == 0 ==> out == Returned(Err(ZeroAmount)) && transfers == []
    ensures amount > 0 && s.stateGuard == GuardLocked ==>
      out == Returned(Err(Busy)) && transfers == []
    ensures amount > 0 && s.stateGuard == GuardUnlocked ==>
      && out == Returned(Ok(()))
      && transfers == (if StakedAmount(s.users, caller) > 0 then ClaimTransfers(s, caller, caller) else [])
  {
    if amount == 0 {
      return Returned(Err(ZeroAmount)), [];
    }
    var guard := Guard.New(s);
    if guard.Err? {
      return Returned(Err(Busy)), [];
    }
    transfers := [];
    var userAmount := StakedAmount(s.users, caller);
    if userAmount > 0 {
      var ignored;
      ignored, transfers := ClaimRewardsInternal(s, caller, caller, claimReply);
    }
    return Returned(Ok(())), transfers;
  }

  /** `withdraw`. The checks come in order (zero amount, lock, balance)
      and each failing one returns before anything happens. Past them, the
      pending reward is claimed (its outcome ignored), the fee is fixed,
      the stake is lowered, then the fee and the payout are transferred;
      a failed transfer does not undo the lowered stake. */
  method Withdraw(s: State, caller: Principal, amount: nat, now: u64,
                  claimReply: LedgerReply, feeReply: LedgerReply, sendReply: LedgerReply)
    returns (out: Outcome, transfers: seq<Transfer>)
    requires s.Valid()
    modifies s
    ensures s.Valid()
    ensures s.lockTime == old(s.lockTime) && s.leaveEarlyFee == old(s.leaveEarlyFee)
    ensures s.feeRecipient == old(s.feeRecipient) && s.token == old(s.token) && s.reward == old(s.reward)
    ensures s.principalGuards == old(s.principalGuards) && s.totalRewards == old(s.totalRewards)
    ensures s.dividendsPerShare == old(s.dividendsPerShare) && s.precision == old(s.precision)
    ensures s.stateGuard == old(s.stateGuard)
    // the three checks, in order, each without effect
    ensures amount == 0 ==>
      out == Returned(Err(ZeroAmount)) && transfers == []
      && s.users == old(s.users) && s.totalShares == old(s.totalShares)
    ensures amount > 0 && old(s.stateGuard) == GuardLocked ==>
      out == Returned(Err(Busy)) && transfers == []
      && s.users == old(s.users) && s.totalShares == old(s.totalShares)
    ensures amount > 0 && old(s.stateGuard) == GuardUnlocked && old(StakedAmount(s.users, caller)) < amount ==>
      out == Returned(Err(InsufficientBalance)) && transfers == []
      && s.users == old(s.users) && s.totalShares == old(s.totalShares)
    // past the checks: the claim is attempted first
    ensures amount > 0 && old(s.stateGuard) == GuardUnlocked && old(StakedAmount(s.users, caller)) >= amount ==>
      && caller in old(s.users)
      && |transfers| >= |old(ClaimTransfers(s, caller, caller))|
      && transfers[..|old(ClaimTransfers(s, caller, caller))|] == old(ClaimTransfers(s, caller, caller))
    // lowering total shares below zero traps before any change
    ensures amount > 0 && old(s.stateGuard) == GuardUnlocked && old(StakedAmount(s.users, caller)) >= amount
            && old(s.totalShares) < amount ==>
      out == Trapped && transfers == old(ClaimTransfers(s, caller, caller))
      && s.users == old(s.users) && s.totalShares == old(s.totalShares)
    // otherwise the stake is lowered, whatever the transfers then do
    ensures amount > 0 && old(s.stateGuard) == GuardUnlocked && old(StakedAmount(s.users, caller)) >= amount
            && old(s.totalShares) >= amount ==>
      var fee := EarlyExitFee(amount, old(s.leaveEarlyFee), TimeUntilUnlock(old(s.users)[caller], now));
      var claimed := old(ClaimTransfers(s, caller, caller));
      var feeTransfer := if fee > 0 then [Transfer(old(s.token), old(s.feeRecipient), fee)] else [];
      && s.totalShares == old(s.totalShares) - amount
      && s.users == AfterWithdraw(old(s.users), caller, amount, old(s.dividendsPerShare), old(s.precision))
      && PendingRewards(s.users, caller, s.dividendsPerShare, s.precision) == 0
      && (fee > 0 && feeReply.Rejected? ==>
            out == Returned(Err(TransferTokenFailed)) && transfers == claimed + feeTransfer)
      && (!(fee > 0 && feeReply.Rejected?) && fee > amount ==>
            out == Trapped && transfers == claimed + feeTransfer)
      && (!(fee > 0 && feeReply.Rejected?) && fee <= amount ==>
            transfers == claimed + feeTransfer + [Transfer(old(s.token), caller, amount - fee)]
            && out == (if sendReply.Rejected? then Returned(Err(TransferTokenFailed)) else Returned(Ok(()))))
    // with a rate of at most 100% there is no trap at the payout, and the fee
    // and the payout together move exactly the withdrawn amount
    ensures amount > 0 && old(s.stateGuard) == GuardUnlocked && old(StakedAmount(s.users, caller)) >= amount
            && old(s.totalShares) >= amount && old(s.leaveEarlyFee) <= 100
            && !(EarlyExitFee(amount, old(s.leaveEarlyFee), TimeUntilUnlock(old(s.users)[caller], now)) > 0
                 && feeReply.Rejected?) ==>
      && out != Trapped
      && TotalMoved(transfers[|old(ClaimTransfers(s, caller, caller))|..]) == amount
  {
    if amount == 0 {
      return Returned(Err(ZeroAmount)), [];
    }
    var guard := Guard.New(s);
    if guard.Err? {
      return Returned(Err(Busy)), [];
    }
    var userAmount := StakedAmount(s.users, caller);
    if userAmount < amount {
      return Returned(Err(InsufficientBalance)), [];
    }

    var ignored;
    ignored, transfers := ClaimRewardsInternal(s, caller, caller, claimReply);
    assert transfers == ClaimTransfers(s, caller, caller);

    var fee := EarlyExitFee(amount, s.leaveEarlyFee, TimeUntilUnlock(s.users[caller], now));

    if s.totalShares < amount {
      return Trapped, transfers;
    }
    s.totalShares := s.totalShares - amount;
    s.users := AfterWithdraw(s.users, caller, amount, s.dividendsPerShare, s.precision);
    ExcludedAllMeansNothingPending(s.users, caller, s.dividendsPerShare, s.precision);

    out, transfers := PayOut(s.token, s.feeRecipient, caller, amount, fee, feeReply, sendReply, transfers);
  }

  /** The tail of `withdraw` once the stake is lowered: the fee transfer
      (only for a non-zero fee), then the payout of `amount - fee`, which
      traps when the fee exceeds the amount. `claimed` is what was already
      transferred. */
  method PayOut(token: Principal, feeRecipient: Principal, caller: Principal, amount: nat, fee: nat,
                feeReply: LedgerReply, sendReply: LedgerReply, claimed: seq<Transfer>)
    returns (out: Outcome, transfers: seq<Transfer>)
    ensures |transfers| >= |claimed| && transfers[..|claimed|] == claimed
    ensures var feeTransfer := if fee > 0 then [Transfer(token, feeRecipient, fee)] else [];
      && (fee > 0 && feeReply.Rejected? ==>
            out == Returned(Err(TransferTokenFailed)) && transfers == claimed + feeTransfer)
      && (!(fee > 0 && feeReply.Rejected?) && fee > amount ==>
            out == Trapped && transfers == claimed + feeTransfer)
      && (!(fee > 0 && feeReply.Rejected?) && fee <= amount ==>
            transfers == claimed + feeTransfer + [Transfer(token, caller, amount - fee)]
            && out == (if sendReply.Rejected? then Returned(Err(TransferTokenFailed)) else Returned(Ok(())))
            && TotalMoved(transfers[|claimed|..]) == amount)
  {
    transfers := claimed;
    if fee > 0 {
      transfers := transfers + [Transfer(token, feeRecipient, fee)];
      if feeReply.Rejected? {
        return Returned(Err(TransferTokenFailed)), transfers;
      }
    }

    if fee > amount {
      return Trapped, transfers;
    }
    FeeAndPayoutMoveAmount(claimed, token, feeRecipient, caller, amount, fee);
    transfers := transfers + [Transfer(token, caller, amount - fee)];
    if sendReply.Rejected? {
      return Returned(Err(TransferTokenFailed)), transfers;
    }
    return Returned(Ok(())), transfers;
  }

  /** From `init`, staking any amount and then withdrawing a positive
      amount is refused for lack of balance: `stake` records nothing, so
      no user ever has a balance to withdraw. */
  method StakeThenWithdrawRefused(args: InitArgs, caller: Principal, staked: nat, amount: nat, now: u64,
                                  claimReply: LedgerReply, feeReply: LedgerReply, sendReply: LedgerReply)
    returns (out: Outcome, transfers: seq<Transfer>)
    requires amount > 0
    ensures out == Returned(Err(InsufficientBalance)) && transfers == []
  {
    var s := Init(args);
    var stakeOut, stakeTransfers := Stake(s, caller, staked, claimReply);
    out, transfers := Withdraw(s, caller, amount, now, claimReply, feeReply, sendReply);
  }
}
