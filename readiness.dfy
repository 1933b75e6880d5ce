/** The readiness wait that every long-running stage of the development
    scripts uses (development/scripts/rpiNbdDiskServer.ts:139-147 and
    183-191, development/rpiNbdRamServer.ts:109-117 and 153-161,
    development/scripts/rpi9pServer.ts:80-88 and 124-132): at most 30 polls;
    each poll first checks whether the process has exited, then sleeps one
    second, then looks for the readiness line in the output captured so far. */
module Readiness {
  import opened Common

  const MaxPolls: nat := 30

  /** What the environment shows at each poll: whether the process has
      already exited (read before the sleep) and the text captured so far
      (read after it). */
  datatype Observation = Observation(exited: nat -> bool, captured: nat -> string)

  datatype Readiness =
    | Ready(poll: nat)          // the line appeared at this poll
    | ExitedEarly(poll: nat)    // "... exited before it was even ready"
    | TimedOut                  // "Timed out while waiting ... to be ready"

  /** No poll before `k` saw the process exit or the readiness line. */
  predicate Quiet(obs: Observation, pattern: string, k: nat) {
    forall j :: 0 <= j < k ==> !obs.exited(j) && !Contains(obs.captured(j), pattern)
  }

  /** `r` is the outcome the polls of `obs` lead to. */
  predicate Explains(r: Readiness, obs: Observation, pattern: string) {
    match r
    case Ready(k) => k < MaxPolls && Quiet(obs, pattern, k) && !obs.exited(k) && Contains(obs.captured(k), pattern)
    case ExitedEarly(k) => k < MaxPolls && Quiet(obs, pattern, k) && obs.exited(k)
    case TimedOut => Quiet(obs, pattern, MaxPolls)
  }

  /** The polls determine the outcome: at most one outcome explains them. */
  lemma ExplainsUnique(r1: Readiness, r2: Readiness, obs: Observation, pattern: string)
    requires Explains(r1, obs, pattern) && Explains(r2, obs, pattern)
    ensures r1 == r2
  {
  }

  /** Some poll within the bound sees the readiness line first. */
  ghost predicate BecomesReady(obs: Observation, pattern: string) {
    exists k :: Explains(Ready(k), obs, pattern)
  }

  /** Whatever outcome explains the polls, it is `Ready` exactly when the
      process becomes ready. */
  lemma ReadyOutcome(r: Readiness, obs: Observation, pattern: string)
    requires Explains(r, obs, pattern)
    ensures r.Ready? <==> BecomesReady(obs, pattern)
  {
    if !r.Ready? && BecomesReady(obs, pattern) {
      var k :| Explains(Ready(k), obs, pattern);
      ExplainsUnique(r, Ready(k), obs, pattern);
    }
  }

  /** The `for(let i = 0; i < 30; i++)` loop: an exit seen before a sleep
      fails, the line seen after a sleep (even on the 30th poll) succeeds,
      and thirty quiet polls time out. */
  method WaitForText(obs: Observation, pattern: string) returns (r: Readiness)
    ensures Explains(r, obs, pattern)
  {
    var i := 0;
    while i < MaxPolls
      invariant 0 <= i <= MaxPolls
      invariant Quiet(obs, pattern, i)
    {
      if obs.exited(i) {
        return ExitedEarly(i);
      }
      if Contains(obs.captured(i), pattern) {
        return Ready(i);
      }
      if i == MaxPolls - 1 {
        return TimedOut;
      }
      i := i + 1;
    }
    return TimedOut;
  }
}
