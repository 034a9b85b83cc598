/** The reentrancy guard (guard.rs) over `State.stateGuard`.

    Its doc comment promises to refuse a second pending request, but `New`
    only inspects the lock and nothing here ever sets `GuardLocked`; the
    members below make that visible. */
module Guard {
  import opened Wrappers
  import opened StakingState

  /** `GuardPrincipal::new`: fails exactly when the lock is held. Having no
      `modifies` clause, it provably leaves the whole state as it was. */
  method New(s: State) returns (r: Result<(), ()>)
    ensures r.Err? <==> s.stateGuard == GuardLocked
  {
    if s.stateGuard == GuardLocked {
      return Err(());
    }
    return Ok(());
  }

  /** `Drop for GuardPrincipal`: releases the lock whatever it was, and
      touches nothing else; so dropping twice leaves what dropping once does. */
  method Drop(s: State)
    modifies s
    ensures s.stateGuard == GuardUnlocked
    ensures s.lockTime == old(s.lockTime) && s.leaveEarlyFee == old(s.leaveEarlyFee)
    ensures s.feeRecipient == old(s.feeRecipient) && s.token == old(s.token) && s.reward == old(s.reward)
    ensures s.users == old(s.users) && s.principalGuards == old(s.principalGuards)
    ensures s.totalRewards == old(s.totalRewards) && s.totalShares == old(s.totalShares)
    ensures s.dividendsPerShare == old(s.dividendsPerShare) && s.precision == old(s.precision)
  {
    s.stateGuard := GuardUnlocked;
  }

  /** The promised exclusion does not hold: from an unlocked state, a
      second `New` issued while the first request is still pending is
      accepted as well. */
  method SecondRequestAccepted(s: State) returns (first: Result<(), ()>, second: Result<(), ()>)
    requires s.stateGuard == GuardUnlocked
    ensures first.Ok? && second.Ok?
  {
    first := New(s);
    second := New(s);
  }
}
