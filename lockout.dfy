/**
 The failed-attempt lockout of the login view: `failedAttempts` and
 `isBlocked`. A failed submission adds one to the count and blocks at five;
 the cool-down timer puts both back to `(0, false)`; a successful one leaves
 them alone. Between events the state satisfies `Inv`: the view is blocked
 exactly when the count is five, and the count never exceeds five.
 */
module Lockout {

  /** The count at which the account is blocked. */
  const MaxFailedAttempts: nat := 5

  datatype Lockout = Lockout(failedAttempts: nat, blocked: bool)

  const Unlocked := Lockout(0, false)

  ghost predicate Inv(l: Lockout) {
    l.failedAttempts <= MaxFailedAttempts &&
    (l.blocked <==> l.failedAttempts == MaxFailedAttempts)
  }

  /** Whether the failure that brings the count to `newAttempts` blocks. */
  predicate BlocksAt(newAttempts: nat) {
    newAttempts >= MaxFailedAttempts
  }

  /** A rejected login: the count goes up by one and the view is blocked once
      the new count reaches five (an existing block is never lifted here). */
  function RecordFailure(l: Lockout): (r: Lockout)
    ensures r.failedAttempts == l.failedAttempts + 1
    ensures r.blocked <==> l.blocked || r.failedAttempts >= MaxFailedAttempts
  {
    var n := l.failedAttempts + 1;
    Lockout(n, if BlocksAt(n) then true else l.blocked)
  }

  /** A failure recorded while not blocked keeps the invariant, and it blocks
      exactly when it is the fifth. */
  lemma RecordFailureKeepsInv(l: Lockout)
    requires Inv(l) && !l.blocked
    ensures Inv(RecordFailure(l))
    ensures RecordFailure(l).blocked <==> l.failedAttempts == MaxFailedAttempts - 1
  {
  }

  /** The state after `k` consecutive failures. */
  function Failures(l: Lockout, k: nat): Lockout
    decreases k
  {
    if k == 0 then l else Failures(RecordFailure(l), k - 1)
  }

  /** From a fresh (or just unblocked) state, the first four failures leave
      the view open with the count at the number of failures, and the fifth
      blocks it. */
  lemma {:induction false} FailuresFromUnlocked(k: nat)
    requires k <= MaxFailedAttempts
    ensures Failures(Unlocked, k) == Lockout(k, k == MaxFailedAttempts)
    ensures Inv(Failures(Unlocked, k))
  {
    FailuresCount(Unlocked, k);
  }

  /** One more failure after `k` failures is the state after `k + 1`: the
      view's failed submissions, taken one at a time, walk through
      `Failures`. */
  lemma {:induction false} FailuresStep(l: Lockout, k: nat)
    ensures Failures(l, k + 1) == RecordFailure(Failures(l, k))
    decreases k
  {
    if k > 0 {
      FailuresStep(RecordFailure(l), k - 1);
    }
  }

  lemma {:induction false} FailuresCount(l: Lockout, k: nat)
    requires Inv(l) && l.failedAttempts + k <= MaxFailedAttempts
    ensures Failures(l, k) == Lockout(l.failedAttempts + k, l.failedAttempts + k == MaxFailedAttempts)
    decreases k
  {
    if k > 0 {
      RecordFailureKeepsInv(l);
      FailuresCount(RecordFailure(l), k - 1);
    }
  }
}
