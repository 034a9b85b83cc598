/** The client's workflows (App.tsx) as functions from the answers of the
    remote calls to the ordered trace of calls issued and how the handler
    ends. Each handler runs to completion; its inputs are whether a session
    identity and the backend's metadata are present, how the typed-in amounts
    and principals parse, and what every remote call answers. */
module Client {
  import opened Wrappers
  import StakingState

  type Principal = StakingState.Principal

  /** The staking errors as the client's interface declarations list them
      (one more than the canister's enum: `NoShare`). */
  datatype ErrorKind =
    | NothingToClaim
    | NoShare
    | Busy
    | ZeroAmount
    | InsufficientBalance
    | RaceCondition
    | TransferTokenFailed
    | UserDoesNotExist

  /** `Object.keys(res.Err)[0]`: the variant's name. */
  function KindName(k: ErrorKind): (name: string)
    ensures |name| > 0 && 'A' <= name[0] <= 'Z'
  {
    match k
    case NothingToClaim => "NothingToClaim"
    case NoShare => "NoShare"
    case Busy => "Busy"
    case ZeroAmount => "ZeroAmount"
    case InsufficientBalance => "InsufficientBalance"
    case RaceCondition => "RaceCondition"
    case TransferTokenFailed => "TransferTokenFailed"
    case UserDoesNotExist => "UserDoesNotExist"
  }

  /** Distinct error kinds give distinct alert texts. */
  lemma KindNameInjective(a: ErrorKind, b: ErrorKind)
    requires KindName(a) == KindName(b)
    ensures a == b
  {
  }

  /** What a backend update returning `Result` gives back: `{Ok}`,
      `{Err: kind}`, or a thrown fault. */
  datatype BackendReply = ReplyOk | ReplyErr(kind: ErrorKind) | Thrown

  /** What an ICRC ledger update (`icrc2_approve`, `icrc1_transfer`) gives back. */
  datatype IcrcReply = LedgerOk | LedgerErr | LedgerThrown

  /** What `icrc1_fee` gives back. */
  datatype FeeReply = Fee(value: nat) | FeeThrown

  datatype Metadata = Metadata(
    token: Principal,
    reward: Principal,
    leaveEarlyFee: nat,
    feeRecipient: Principal,
    lockTime: nat)

  /** A remote call, in the order the client issues it. `FetchUserInfo`
      marks that the handler started a user-info refresh without awaiting it. */
  datatype Call =
    | GetMetadata
    | Login
    | Icrc1Fee(ledger: Principal)
    | Icrc2Approve(ledger: Principal, spender: Principal, amount: int)
    | StakeCall(amount: int)
    | WithdrawCall(amount: int)
    | ClaimRewardsCall
    | Icrc1Transfer(ledger: Principal, to: Principal, amount: int)
    | BalanceOfCall(user: Principal)
    | PendingRewardsCall
    | FetchUserInfo

  /** How a handler ends: with an alert, silently, or with an exception it
      does not catch (an unhandled rejection). */
  datatype Ending = Alert(message: string) | Quiet | Uncaught

  datatype Run = Run(calls: seq<Call>, ending: Ending)

  /** `handleStake`. `amount` is `BigInt(stakeAmount)`, `None` when that
      throws; `backend` is the staking canister, the approval's spender. */
  function HandleStake(identity: Option<Principal>, metadata: Option<Metadata>, amount: Option<int>,
                       backend: Principal, fee: FeeReply, approve: IcrcReply, stake: BackendReply): (run: Run)
    // nothing is called without a session and metadata
    ensures identity.None? ==> run == Run([], Alert("You need to login first"))
    ensures identity.Some? && metadata.None? ==> run == Run([], Quiet)
    ensures identity.Some? && metadata.Some? && amount.None? ==> run == Run([], Uncaught)
    // the fee is queried first, then `amount + fee` approved for the backend
    ensures |run.calls| >= 1 ==>
      identity.Some? && metadata.Some? && amount.Some? && run.calls[0] == Icrc1Fee(metadata.value.token)
    ensures |run.calls| >= 2 ==>
      fee.Fee? && run.calls[1] == Icrc2Approve(metadata.value.token, backend, amount.value + fee.value)
    ensures identity.Some? && metadata.Some? && amount.Some? && fee.FeeThrown? ==>
      run.ending == Uncaught && |run.calls| == 1
    // stake is called exactly when the approval succeeded
    ensures |run.calls| >= 3 <==>
      identity.Some? && metadata.Some? && amount.Some? && fee.Fee? && approve == LedgerOk
    ensures |run.calls| >= 3 ==> run.calls[2] == StakeCall(amount.value)
    ensures |run.calls| == 2 ==> run.ending == Alert("Approve token failed")
    ensures identity.Some? && metadata.Some? && amount.Some? && fee.Fee? && approve != LedgerOk ==>
      run == Run([Icrc1Fee(metadata.value.token),
                  Icrc2Approve(metadata.value.token, backend, amount.value + fee.value)],
                 Alert("Approve token failed"))
    ensures |run.calls| >= 3 && stake != ReplyOk ==> |run.calls| == 3
    // only an Ok stake refreshes the user info, once, as the last step
    ensures FetchUserInfo in run.calls <==> |run.calls| >= 3 && stake == ReplyOk
    ensures FetchUserInfo in run.calls ==> |run.calls| == 4 && run.calls[3] == FetchUserInfo
    ensures |run.calls| >= 3 ==> run.ending == match stake
      case ReplyOk => Alert("Stake success")
      case ReplyErr(k) => Alert("Stake failed, reason: " + KindName(k))
      case Thrown => Alert("Stake failed")
  {
    if identity.None? then Run([], Alert("You need to login first"))
    else if metadata.None? then Run([], Quiet)
    else if amount.None? then Run([], Uncaught)
    else
      var token := metadata.value.token;
      var a := amount.value;
      match fee
      case FeeThrown => Run([Icrc1Fee(token)], Uncaught)
      case Fee(f) =>
        var approved := [Icrc1Fee(token), Icrc2Approve(token, backend, a + f)];
        if approve != LedgerOk then Run(approved, Alert("Approve token failed"))
        else
          var staked := approved + [StakeCall(a)];
          match stake
          case ReplyErr(k) => Run(staked, Alert("Stake failed, reason: " + KindName(k)))
          case Thrown => Run(staked, Alert("Stake failed"))
          case ReplyOk => Run(staked + [FetchUserInfo], Alert("Stake success"))
  }

  /** `handleWithdraw`. There is no session check: without an identity
      the call goes out under the anonymous principal. */
  function HandleWithdraw(amount: Option<int>, reply: BackendReply): (run: Run)
    ensures amount.None? ==> run == Run([], Uncaught)
    ensures amount.Some? ==> |run.calls| >= 1 && run.calls[0] == WithdrawCall(amount.value)
    ensures FetchUserInfo in run.calls <==> amount.Some? && reply == ReplyOk
    ensures FetchUserInfo in run.calls ==> run.calls == [WithdrawCall(amount.value), FetchUserInfo]
    ensures amount.Some? && reply != ReplyOk ==> run.calls == [WithdrawCall(amount.value)]
    ensures amount.Some? ==> run.ending == match reply
      case ReplyOk => Alert("Withdraw success")
      case ReplyErr(k) => Alert("Withdraw failed, reason: " + KindName(k))
      case Thrown => Alert("Withdraw failed")
  {
    match amount
    case None => Run([], Uncaught)
    case Some(a) =>
      match reply
      case ReplyErr(k) => Run([WithdrawCall(a)], Alert("Withdraw failed, reason: " + KindName(k)))
      case Thrown => Run([WithdrawCall(a)], Alert("Withdraw failed"))
      case ReplyOk => Run([WithdrawCall(a), FetchUserInfo], Alert("Withdraw success"))
  }

  /** `handleClaimRewards`: one call, no session check. */
  function HandleClaimRewards(reply: BackendReply): (run: Run)
    ensures |run.calls| >= 1 && run.calls[0] == ClaimRewardsCall
    ensures FetchUserInfo in run.calls <==> reply == ReplyOk
    ensures FetchUserInfo in run.calls ==> run.calls == [ClaimRewardsCall, FetchUserInfo]
    ensures reply != ReplyOk ==> run.calls == [ClaimRewardsCall]
    ensures run.ending == match reply
      case ReplyOk => Alert("Claimed rewards success")
      case ReplyErr(k) => Alert("Claim rewards failed, reason: " + KindName(k))
      case Thrown => Alert("Claim rewards failed")
  {
    match reply
    case ReplyErr(k) => Run([ClaimRewardsCall], Alert("Claim rewards failed, reason: " + KindName(k)))
    case Thrown => Run([ClaimRewardsCall], Alert("Claim rewards failed"))
    case ReplyOk => Run([ClaimRewardsCall, FetchUserInfo], Alert("Claimed rewards success"))
  }

  /** `handleTransfer`. `to` is `Principal.fromText(transferTokenTo)` and
      `amount` is `BigInt(transferAmount)`, each `None` when it throws;
      both are evaluated before the transfer is sent. */
  function HandleTransfer(ledger: Principal, to: Option<Principal>, amount: Option<int>,
                          reply: IcrcReply): (run: Run)
    ensures to.None? || amount.None? ==> run == Run([], Alert("Transfer token failed"))
    ensures to.Some? && amount.Some? ==> run.calls == [Icrc1Transfer(ledger, to.value, amount.value)]
    ensures FetchUserInfo !in run.calls
    ensures run.ending == Alert("Transfer token success") <==> to.Some? && amount.Some? && reply == LedgerOk
    ensures run.ending != Alert("Transfer token success") ==> run.ending == Alert("Transfer token failed")
  {
    if to.None? || amount.None? then Run([], Alert("Transfer token failed"))
    else
      var calls := [Icrc1Transfer(ledger, to.value, amount.value)];
      if reply == LedgerOk then Run(calls, Alert("Transfer token success"))
      else Run(calls, Alert("Transfer token failed"))
  }

  /** The identity after `handleConnect`, the calls it made and how it ended. */
  datatype Connection = Connection(identity: Option<Principal>, calls: seq<Call>, ending: Ending)

  /** `handleConnect`. `session` is the identity of a still-authenticated
      session, if any; `loginResolved` whether the login handshake resolved;
      `afterLogin` the identity of the session once it has. */
  function HandleConnect(identity: Option<Principal>, session: Option<Principal>,
                         loginResolved: bool, afterLogin: Option<Principal>): (c: Connection)
    ensures session.Some? ==> c == Connection(session, [], Quiet)
    ensures Login in c.calls <==> session.None?
    ensures session.None? ==> c.calls == [Login]
    ensures session.None? && !loginResolved ==> c.identity == identity && c.ending == Alert("Login failed")
    ensures session.None? && loginResolved ==>
      c.identity == (if afterLogin.Some? then afterLogin else identity)
    ensures c.ending == Quiet <==> session.Some? || (loginResolved && afterLogin.Some?)
    ensures c.ending != Quiet ==> c.ending == Alert("Login failed") && c.identity == identity
  {
    if session.Some? then Connection(session, [], Quiet)
    else if !loginResolved then Connection(identity, [Login], Alert("Login failed"))
    else if afterLogin.Some? then Connection(afterLogin, [Login], Quiet)
    else Connection(identity, [Login], Alert("Login failed"))
  }

  /** The effect keyed on the identity: refresh the user info whenever the
      identity changes to a defined one, and never while it is undefined. */
  function IdentityEffect(before: Option<Principal>, after: Option<Principal>): (calls: seq<Call>)
    ensures after.None? ==> calls == []
    ensures after.Some? && after != before ==> calls == [FetchUserInfo]
    ensures after == before ==> calls == []
  {
    if after.Some? && after != before then [FetchUserInfo] else []
  }

  /** `fetchUserInfo`: the staked balance of the identity, then its pending
      reward. Without an identity it throws before any call. */
  function FetchUserInfoCalls(identity: Option<Principal>, balanceThrown: bool): (calls: seq<Call>)
    ensures identity.None? ==> calls == []
    ensures identity.Some? ==> |calls| >= 1 && calls[0] == BalanceOfCall(identity.value)
    ensures PendingRewardsCall in calls <==> identity.Some? && !balanceThrown
    ensures identity.Some? && balanceThrown ==> calls == [BalanceOfCall(identity.value)]
    ensures identity.Some? && !balanceThrown ==> calls == [BalanceOfCall(identity.value), PendingRewardsCall]
  {
    match identity
    case None => []
    case Some(p) => [BalanceOfCall(p)] + (if balanceThrown then [] else [PendingRewardsCall])
  }

  /** The mount effect: metadata is requested, and an existing session
      sets the identity, which in turn refreshes the user info. */
  function Mount(session: Option<Principal>): (c: Connection)
    ensures c.identity == session
    ensures |c.calls| >= 1 && c.calls[0] == GetMetadata
    ensures FetchUserInfo in c.calls <==> session.Some?
    ensures c.calls == [GetMetadata] + (if session.Some? then [FetchUserInfo] else []) && c.ending == Quiet
  {
    Connection(session, [GetMetadata] + IdentityEffect(None, session), Quiet)
  }

  /** Connecting from the signed-out state refreshes the user info exactly
      when it ends with an identity. */
  lemma ConnectRefreshesWhenSignedIn(session: Option<Principal>, loginResolved: bool, afterLogin: Option<Principal>)
    ensures var c := HandleConnect(None, session, loginResolved, afterLogin);
      (IdentityEffect(None, c.identity) == [FetchUserInfo] <==> c.identity.Some?)
      && (c.identity.None? ==> c.ending == Alert("Login failed"))
  {
  }
}
