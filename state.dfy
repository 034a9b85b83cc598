/** The canister's shared state (state.rs): the user table, the reward
    accounting by dividends per share, and the unlock countdown of a position.
    `NumTokens` is an unbounded natural number; `u64` fields are bounded. */
module StakingState {
  import opened Arith

  /** A principal as its raw bytes. */
  type Principal = seq<bv8>

  const U64_LIMIT: nat := 0x1_0000_0000_0000_0000

  type u64 = x: nat | x < U64_LIMIT

  /** The two-state reentrancy lock. */
  datatype GuardState = GuardUnlocked | GuardLocked

  /** One staker's position. */
  datatype UserInfo = UserInfo(
    amount: nat,
    unlockTime: u64,
    totalExcluded: nat,
    tokenToClaim: nat,
    rewardsToClaim: nat,
    feeToClaim: nat)

  /** `UserInfo::default`: an empty position. */
  function DefaultUserInfo(): (u: UserInfo)
    ensures u.amount == 0 && u.unlockTime == 0 && u.totalExcluded == 0
    ensures u.tokenToClaim == 0 && u.rewardsToClaim == 0 && u.feeToClaim == 0
  {
    UserInfo(0, 0, 0, 0, 0, 0)
  }

  /** `State::get_cumulative_dividends`: what `share` has earned since the
      start, at the current dividends per share (scaled by `precision`). */
  function CumulativeDividends(share: nat, dividendsPerShare: nat, precision: nat): (r: nat)
    requires precision > 0
    ensures share == 0 || dividendsPerShare == 0 ==> r == 0
    ensures r * precision <= share * dividendsPerShare < (r + 1) * precision
  {
    share * dividendsPerShare / precision
  }

  /** For a fixed state, more shares never earn less. */
  lemma CumulativeDividendsMonotone(a: nat, b: nat, dividendsPerShare: nat, precision: nat)
    requires precision > 0
    requires a <= b
    ensures CumulativeDividends(a, dividendsPerShare, precision)
         <= CumulativeDividends(b, dividendsPerShare, precision)
  {
    var ra := CumulativeDividends(a, dividendsPerShare, precision);
    var rb := CumulativeDividends(b, dividendsPerShare, precision);
    MulMonotone(a, b, dividendsPerShare);
    if ra > rb {
      assert (rb + 1) * precision <= ra * precision by {
        MulMonotone(rb + 1, ra, precision);
      }
      assert false;
    }
  }

  /** `State::pending_rewards`: the reward `p` can still claim. */
  function PendingRewards(users: map<Principal, UserInfo>, p: Principal,
                          dividendsPerShare: nat, precision: nat): (r: nat)
    requires precision > 0
    ensures p !in users ==> r == 0
    ensures p in users && users[p].amount == 0 ==> r == 0
    ensures p in users ==>
      var cumulative := CumulativeDividends(users[p].amount, dividendsPerShare, precision);
      r <= cumulative &&
      r == if cumulative <= users[p].totalExcluded then 0 else cumulative - users[p].totalExcluded
  {
    if p !in users then 0
    else
      var user := users[p];
      if user.amount == 0 then 0
      else
        var totalDividends := CumulativeDividends(user.amount, dividendsPerShare, precision);
        if totalDividends <= user.totalExcluded then 0
        else totalDividends - user.totalExcluded
  }

  /** Excluding exactly what a position has earned leaves nothing to claim. */
  lemma ExcludedAllMeansNothingPending(users: map<Principal, UserInfo>, p: Principal,
                                       dividendsPerShare: nat, precision: nat)
    requires precision > 0
    requires p in users
    requires users[p].totalExcluded == CumulativeDividends(users[p].amount, dividendsPerShare, precision)
    ensures PendingRewards(users, p, dividendsPerShare, precision) == 0
  {
  }

  /** `UserInfo::time_until_unlock` with the clock reading `now`. */
  function TimeUntilUnlock(u: UserInfo, now: u64): (r: u64)
    ensures u.unlockTime <= now ==> r == 0
    ensures now < u.unlockTime ==> r + now == u.unlockTime
    ensures r <= u.unlockTime
  {
    if u.unlockTime < now then 0 else u.unlockTime - now
  }

  /** A default position has no pending reward and is already unlocked. */
  lemma DefaultUserInfoIsIdle(p: Principal, users: map<Principal, UserInfo>,
                              dividendsPerShare: nat, precision: nat, now: u64)
    requires precision > 0
    ensures PendingRewards(users[p := DefaultUserInfo()], p, dividendsPerShare, precision) == 0
    ensures TimeUntilUnlock(DefaultUserInfo(), now) == 0
  {
  }

  /** `State`, the one shared record every canister call reads or mutates.
      `stateGuard` is the field guard.rs reads and writes. */
  class State {
    var lockTime: u64
    var leaveEarlyFee: nat
    var feeRecipient: Principal
    var token: Principal
    var reward: Principal

    var users: map<Principal, UserInfo>
    var principalGuards: set<Principal>

    var totalRewards: nat
    var totalShares: nat
    var dividendsPerShare: nat
    var precision: nat

    var stateGuard: GuardState

    /** Every division by `precision` in the canister is defined. */
    ghost predicate Valid()
      reads this
    {
      precision > 0
    }

    /** The struct literal: every field given. */
    constructor (lockTime: u64, leaveEarlyFee: nat, feeRecipient: Principal, token: Principal,
                 reward: Principal, users: map<Principal, UserInfo>, principalGuards: set<Principal>,
                 totalRewards: nat, totalShares: nat, dividendsPerShare: nat, precision: nat,
                 stateGuard: GuardState)
      ensures this.lockTime == lockTime && this.leaveEarlyFee == leaveEarlyFee
      ensures this.feeRecipient == feeRecipient && this.token == token && this.reward == reward
      ensures this.users == users && this.principalGuards == principalGuards
      ensures this.totalRewards == totalRewards && this.totalShares == totalShares
      ensures this.dividendsPerShare == dividendsPerShare && this.precision == precision
      ensures this.stateGuard == stateGuard
    {
      this.lockTime := lockTime;
      this.leaveEarlyFee := leaveEarlyFee;
      this.feeRecipient := feeRecipient;
      this.token := token;
      this.reward := reward;
      this.users := users;
      this.principalGuards := principalGuards;
      this.totalRewards := totalRewards;
      this.totalShares := totalShares;
      this.dividendsPerShare := dividendsPerShare;
      this.precision := precision;
      this.stateGuard := stateGuard;
    }
  }
}
