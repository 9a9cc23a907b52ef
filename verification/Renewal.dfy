/**
 What to do about ONE subscription at ONE instant (connector_service/subscription_renewal.py).

 Instants and durations are integers counting microseconds, the resolution of Python's
 `datetime` and `timedelta`; every instant is already in UTC.
 */
module Renewal {
  import opened Wrappers

  const SECOND := 1_000_000
  const MINUTE := 60 * SECOND
  const HOUR := 60 * MINUTE
  const DAY := 24 * HOUR

  datatype SubscriptionState = Active | Suspended | Expired

  datatype RenewalAction = Nothing | Renew | Reactivate | Recreate

  datatype RenewalPolicy = RenewalPolicy(maxLifetime: int, margin: int, supportsReactivate: bool) {
    function NextExpiry(now: int): int { now + maxLifetime }
  }

  const GRAPH_POLICY := RenewalPolicy(4320 * MINUTE, 90 * MINUTE, false)
  const WORKSPACE_EVENTS_POLICY := RenewalPolicy(7 * DAY, 6 * HOUR, true)

  function Decide(state: SubscriptionState, expiresAt: int, now: int, policy: RenewalPolicy): RenewalAction {
    if state.Expired? || expiresAt <= now then Recreate
    else if state.Suspended? then
      if policy.supportsReactivate then Reactivate else Recreate
    else if expiresAt - now <= policy.margin then Renew
    else Nothing
  }

  // ---------------------------------------------------------------------------
  // Backoff
  // ---------------------------------------------------------------------------

  /** base * 2**n, by repeated doubling as the loop does it. */
  function Doubled(base: int, n: nat): int { if n == 0 then base else 2 * Doubled(base, n - 1) }

  const MAX_DOUBLINGS := 32

  /** The formula the documentation describes: double every time, then stop at the ceiling. */
  function PlainBackoff(attempt: int, base: int, ceiling: int): int
    requires attempt >= 1
  {
    Min(Doubled(base, attempt - 1), ceiling)
  }

  /** What the code computes: the same, with at most 32 doublings. */
  function Backoff(attempt: int, base: int, ceiling: int): int
    requires attempt >= 1
  {
    Min(Doubled(base, Min(attempt - 1, MAX_DOUBLINGS)), ceiling)
  }

  /** The loop counts the doublings that stay useful before the ceiling is reached. A base that
      is negative and already above the ceiling is never doubled. */
  method BackoffDelay(attempt: int, base: int, ceiling: int) returns (r: Result<int, string>)
    ensures r.Failure? <==> attempt < 1
    ensures attempt >= 1 && (base >= 0 || base < ceiling) ==> r == Success(Backoff(attempt, base, ceiling))
    ensures attempt >= 1 && base < 0 && base >= ceiling ==> r == Success(ceiling)
  {
    if attempt < 1 {
      return Failure("the attempt number starts at 1");
    }
    var usefulDoublings := 0;
    var step := base;
    while step < ceiling && usefulDoublings < MAX_DOUBLINGS
      invariant 0 <= usefulDoublings <= MAX_DOUBLINGS
      invariant step == Doubled(base, usefulDoublings)
      invariant base < 0 ==> step <= base
      invariant base >= ceiling ==> usefulDoublings == 0
      decreases MAX_DOUBLINGS - usefulDoublings
    {
      step := step * 2;
      usefulDoublings := usefulDoublings + 1;
    }
    var exponent := Min(attempt - 1, usefulDoublings);
    if base >= 0 && exponent < Min(attempt - 1, MAX_DOUBLINGS) {
      DoublingGrows(base, usefulDoublings, Min(attempt - 1, MAX_DOUBLINGS));
    }
    r := Success(Min(Doubled(base, exponent), ceiling));
  }

  lemma {:induction false} DoublingGrows(base: int, m: nat, n: nat)
    requires base >= 0 && m <= n
    ensures base <= Doubled(base, m) <= Doubled(base, n)
    ensures base > 0 && m < n ==> Doubled(base, m) < Doubled(base, n)
  {
    if m < n {
      DoublingGrows(base, m, n - 1);
    } else if n > 0 {
      DoublingGrows(base, n - 1, n - 1);
    }
  }

  /** Capping the exponent changes nothing exactly while the cap is out of reach or the ceiling
      is already met at 32 doublings. */
  lemma BackoffRefinesPlainFormula(attempt: int, base: int, ceiling: int)
    requires attempt >= 1 && base > 0
    ensures Backoff(attempt, base, ceiling) == PlainBackoff(attempt, base, ceiling)
            <==> (attempt <= 33 || ceiling <= Doubled(base, 32))
  {
    if attempt > MAX_DOUBLINGS + 1 {
      DoublingGrows(base, MAX_DOUBLINGS, attempt - 1);
    }
  }

  lemma BackoffMonotoneAndBounded(attempt: int, later: int, base: int, ceiling: int)
    requires 1 <= attempt <= later && base >= 0
    ensures Backoff(attempt, base, ceiling) <= Backoff(later, base, ceiling) <= ceiling
  {
    DoublingGrows(base, Min(attempt - 1, MAX_DOUBLINGS), Min(later - 1, MAX_DOUBLINGS));
  }

  /** `backoff_delay` with its default base and ceiling. */
  function DefaultBackoff(attempt: int): int
    requires attempt >= 1
  {
    Backoff(attempt, 30 * SECOND, 30 * MINUTE)
  }

  lemma {:induction false} DefaultBackoffTable()
    ensures DefaultBackoff(1) == 30 * SECOND
    ensures DefaultBackoff(2) == 60 * SECOND
    ensures DefaultBackoff(3) == 120 * SECOND
    ensures DefaultBackoff(4) == 240 * SECOND
    ensures DefaultBackoff(5) == 480 * SECOND
    ensures DefaultBackoff(6) == 960 * SECOND
    ensures DefaultBackoff(7) == 1800 * SECOND
  {
    var base := 30 * SECOND;
    assert Doubled(base, 1) == 2 * base && Doubled(base, 2) == 4 * base && Doubled(base, 3) == 8 * base;
    assert Doubled(base, 4) == 16 * base && Doubled(base, 5) == 32 * base && Doubled(base, 6) == 64 * base;
  }
}
