/** Queue transitions and retry delays (bridge_core/queue_policy.py). */
module QueuePolicy {
  import opened Wrappers
  import opened Store

  function AllowedTargets(state: QueueState): set<QueueState> {
    match state
    case Unassigned => {QueueState.Queued, QueueState.Rejected}
    case Queued => {QueueState.Inflight, QueueState.Rejected, QueueState.Dead}
    case Inflight => {QueueState.Sent, QueueState.Retry, QueueState.Rejected, QueueState.Dead}
    case Retry => {QueueState.Inflight, QueueState.Dead}
    case Sent => {}
    case Rejected => {}
    case Dead => {}
  }

  /** validate_queue_transition */
  predicate Allowed(current: QueueState, target: QueueState) {
    current != target && target in AllowedTargets(current)
  }

  predicate Terminal(state: QueueState) {
    state.Sent? || state.Rejected? || state.Dead?
  }

  function Power2(n: nat): (p: nat)
    ensures p >= 1
  {
    if n == 0 then 1 else 2 * Power2(n - 1)
  }

  function Min(a: int, b: int): int {
    if a <= b then a else b
  }

  predicate ValidRetrySettings(initial: int, maximum: int) {
    1 <= initial <= maximum
  }

  /** calculate_retry_delay_seconds */
  function RetryDelay(attemptNumber: int, initial: int, maximum: int): Result<int> {
    if attemptNumber < 1 then Err("Attempt number must be at least 1.")
    else if initial < 1 then Err("Initial retry seconds must be at least 1.")
    else if maximum < initial then Err("Maximum retry seconds cannot be less than initial seconds.")
    else Ok(Min(initial * Power2(attemptNumber - 1), maximum))
  }

  /**
    The delay stays within the settings, doubles until the cap, never decreases,
    and stays at the cap once it has reached it.
   */
  lemma {:induction false} RetryDelayShape(k: nat, initial: int, maximum: int)
    requires k >= 1 && ValidRetrySettings(initial, maximum)
    ensures
      var d, next := RetryDelay(k, initial, maximum).value, RetryDelay(k + 1, initial, maximum).value;
      && initial <= d <= maximum
      && d <= next
      && next == Min(2 * d, maximum)
      && RetryDelay(1, initial, maximum).value == initial
  {
    var p := initial * Power2(k - 1);
    assert Power2(k) == 2 * Power2(k - 1);
    assert initial * Power2(k) == 2 * p by {
      Regroup(initial, Power2(k - 1));
    }
    assert p >= initial by {
      Grows(initial, Power2(k - 1));
    }
    assert Power2(0) == 1;
  }

  lemma Regroup(a: int, b: int)
    ensures a * (2 * b) == 2 * (a * b)
  {
  }

  lemma Grows(a: int, b: int)
    requires a >= 1 && b >= 1
    ensures a * b >= a
  {
    assert a * b == a + a * (b - 1);
  }

  /** There is a delay exactly for positive attempt numbers and settings 1 <= initial <= maximum. */
  lemma {:induction false} RetryDelayIff(k: int, initial: int, maximum: int)
    ensures RetryDelay(k, initial, maximum).Ok? <==> k >= 1 && 1 <= initial <= maximum
    ensures ValidRetrySettings(initial, maximum) <==> RetryDelay(1, initial, maximum).Ok?
  {
  }

  lemma {:induction false} RetryDelayMonotone(j: nat, k: nat, initial: int, maximum: int)
    requires 1 <= j <= k && ValidRetrySettings(initial, maximum)
    ensures RetryDelay(j, initial, maximum).value <= RetryDelay(k, initial, maximum).value
    ensures RetryDelay(j, initial, maximum).value == maximum ==> RetryDelay(k, initial, maximum).value == maximum
    decreases k - j
  {
    if j < k {
      RetryDelayMonotone(j, k - 1, initial, maximum);
      RetryDelayShape(k - 1, initial, maximum);
      RetryDelayShape(k, initial, maximum);
    }
  }

  /**
    The table, by the state that is entered: INFLIGHT and RETRY come from each
    other, attempts start from QUEUED too, and only an attempt ends in SENT. A
    terminal state is never left, and every other one can be.
   */
  lemma {:induction false} TransitionTable(current: QueueState, target: QueueState)
    ensures
      Allowed(current, target) <==>
      match target
      case Unassigned => false
      case Queued => current.Unassigned?
      case Inflight => current.Queued? || current.Retry?
      case Sent => current.Inflight?
      case Retry => current.Inflight?
      case Rejected => current.Unassigned? || current.Queued? || current.Inflight?
      case Dead => current.Queued? || current.Inflight? || current.Retry?
    ensures Allowed(current, target) ==> !Terminal(current)
    ensures Terminal(current) <==> forall t :: !Allowed(current, t)
    ensures target.Sent? && Allowed(current, target) ==> current.Inflight?
    ensures target.Inflight? && Allowed(current, target) ==> current.Queued? || current.Retry?
  {
    if !Terminal(current) {
      assert Allowed(current, if current.Unassigned? then QueueState.Queued
                              else if current.Inflight? then QueueState.Sent else QueueState.Inflight);
    }
  }
}
