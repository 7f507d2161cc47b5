/** What the drain does with a message whose send failed. */
module RetryPolicy {

  datatype Policy = Policy(maxRetries: nat, enableDlq: bool, dlqTopic: string)

  datatype Decision = Retry | DeadLetter(topic: string) | Fail

  function AttemptsSoFar(retryCount: int): nat {
    if retryCount < 0 then 0 else retryCount
  }

  predicate ShouldRetry(policy: Policy, attempt: nat) {
    attempt < policy.maxRetries
  }

  function EvaluatePublishFailure(retryCount: int, policy: Policy): Decision {
    if ShouldRetry(policy, AttemptsSoFar(retryCount)) then Retry
    else if policy.enableDlq then DeadLetter(policy.dlqTopic)
    else Fail
  }

  /** The ladder: retry while the count, taken as zero if it is negative, is below the
      maximum; then give up, to the dead-letter topic if that is enabled. */
  lemma LadderExactly(retryCount: int, policy: Policy)
    ensures var d := EvaluatePublishFailure(retryCount, policy);
            && (d.Retry? <==> policy.maxRetries > 0 && retryCount < policy.maxRetries)
            && (d.Fail? <==> !d.Retry? && !policy.enableDlq)
            && (d.DeadLetter? ==> policy.enableDlq && d.topic == policy.dlqTopic)
  {
  }

  /** How many more failed sends the measure of progress allows a message. */
  function AttemptsLeft(retryCount: int, policy: Policy): (n: nat)
    ensures n >= 1
  {
    if AttemptsSoFar(retryCount) < policy.maxRetries
    then policy.maxRetries - AttemptsSoFar(retryCount) + 1
    else 1
  }

  /** How often the ladder says `Retry` when every further send fails. */
  function RetriesTaken(retryCount: nat, policy: Policy): nat
    decreases if retryCount < policy.maxRetries then policy.maxRetries - retryCount else 0
  {
    if EvaluatePublishFailure(retryCount, policy).Retry? then RetriesTaken(retryCount + 1, policy) + 1 else 0
  }

  /** The measure is exact: all but the last of these failures are retried. */
  lemma {:induction false} AttemptsAreFailures(retryCount: nat, policy: Policy)
    ensures AttemptsLeft(retryCount, policy) == RetriesTaken(retryCount, policy) + 1
    decreases if retryCount < policy.maxRetries then policy.maxRetries - retryCount else 0
  {
    if retryCount < policy.maxRetries {
      AttemptsAreFailures(retryCount + 1, policy);
    }
  }
}
