/** How many workers a test needs and how its request rate is split among them
    (internal/scheduler/rps.go), and the tick interval a worker derives from its share
    (internal/execution/scheduler.go). */
module LoadShare {
  import opened Domain
  import opened Sums

  const NANOS_PER_SECOND := 1_000_000_000

  /** The least number of workers whose joint capacity covers the rate. */
  function RequiredWorkers(rps: int, capacityRps: int): (r: Result<int>)
    ensures r.Ok? <==> rps > 0 && capacityRps > 0
    ensures r.Ok? ==> r.value >= 1 && (r.value - 1) * capacityRps < rps <= r.value * capacityRps
  {
    if rps <= 0 || capacityRps <= 0 then Err(ErrValidation)
    else
      var n := (rps + capacityRps - 1) / capacityRps;
      DivisionBounds(rps + capacityRps - 1, capacityRps);
      Ok(n)
  }

  /** `RequiredWorkers` where it cannot fail. */
  function Required(rps: int, capacityRps: int): (n: nat)
    requires rps > 0 && capacityRps > 0
    ensures n >= 1
  {
    RequiredWorkers(rps, capacityRps).value
  }

  lemma DivisionBounds(a: int, b: int)
    requires a >= 0 && b > 0
    ensures a / b * b <= a < (a / b + 1) * b
  {
    assert a == a / b * b + a % b;
  }

  lemma QuotientBetween(a: int, b: int, c: int)
    requires b > 0 && b <= a <= b * c
    ensures 1 <= a / b <= c
    ensures a / b == c ==> a % b == 0
  {
    var q, r := a / b, a % b;
    assert a == q * b + r;
    if q == c {
      assert q * b == b * c;
    }
  }

  lemma RateCoversWorkers(rps: int, n: int, capacityRps: int)
    requires n >= 1 && capacityRps >= 1 && (n - 1) * capacityRps < rps
    ensures rps >= n
  {
    MultiplyMonotone(1, capacityRps, n - 1);
  }

  lemma MultiplyMonotone(a: int, b: int, c: int)
    requires a <= b && c >= 0
    ensures a * c <= b * c
  {
  }

  lemma RequiredIsLeast(rps: int, capacityRps: int, m: int)
    requires rps > 0 && capacityRps > 0
    ensures m * capacityRps >= rps <==> m >= Required(rps, capacityRps)
  {
    var n := Required(rps, capacityRps);
    if m >= n {
      MultiplyMonotone(n, m, capacityRps);
    } else {
      MultiplyMonotone(m, n - 1, capacityRps);
    }
  }

  /** The split itself: the first totalRps % workerCount workers carry one request more. */
  function Shares(totalRps: int, workerCount: nat): (s: seq<int>)
    requires workerCount > 0
    ensures |s| == workerCount
  {
    seq(workerCount, i => totalRps / workerCount + (if i < totalRps % workerCount then 1 else 0))
  }

  method DistributeRPS(totalRps: int, workerCount: int) returns (r: Result<array<int>>)
    ensures r.Ok? <==> totalRps > 0 && workerCount > 0
    ensures r.Ok? ==> fresh(r.value) && r.value[..] == Shares(totalRps, workerCount)
  {
    if totalRps <= 0 || workerCount <= 0 {
      return Err(ErrValidation);
    }
    var base := totalRps / workerCount;
    var remainder := totalRps % workerCount;
    var allocations := new int[workerCount];
    for i := 0 to allocations.Length
      invariant forall j :: 0 <= j < i ==> allocations[j] == Shares(totalRps, workerCount)[j]
    {
      allocations[i] := base;
      if i < remainder {
        allocations[i] := allocations[i] + 1;
      }
    }
    r := Ok(allocations);
  }

  lemma {:induction false} SharesPrefixSum(totalRps: int, n: nat, k: nat)
    requires n > 0 && k <= n
    ensures SeqSum(Shares(totalRps, n)[..k])
         == k * (totalRps / n) + (if k < totalRps % n then k else totalRps % n)
  {
    if k > 0 {
      SharesPrefixSum(totalRps, n, k - 1);
      var s := Shares(totalRps, n);
      assert s[..k][..k - 1] == s[..k - 1];
      assert (k - 1) * (totalRps / n) + totalRps / n == k * (totalRps / n);
    }
  }

  /** No request per second is lost or invented by the split. */
  lemma SharesConserveRate(totalRps: int, n: nat)
    requires n > 0
    ensures SeqSum(Shares(totalRps, n)) == totalRps
  {
    SharesPrefixSum(totalRps, n, n);
    assert Shares(totalRps, n)[..n] == Shares(totalRps, n);
  }

  /** The split is as even as integers allow. */
  lemma SharesAreEven(totalRps: int, n: nat, i: nat, j: nat)
    requires n > 0 && i <= j < n
    ensures Shares(totalRps, n)[j] <= Shares(totalRps, n)[i] <= Shares(totalRps, n)[j] + 1
  {
  }

  lemma SharesBetween(total: int, n: nat, bound: int, i: nat)
    requires 0 < n <= total <= n * bound && i < n
    ensures 1 <= Shares(total, n)[i] <= bound
  {
    QuotientBetween(total, n, bound);
  }

  /** With the required number of workers every share is positive and within one worker's capacity. */
  lemma SharesFitCapacity(rps: int, capacityRps: int, i: nat)
    requires rps > 0 && capacityRps > 0 && i < Required(rps, capacityRps)
    ensures 1 <= Shares(rps, Required(rps, capacityRps))[i] <= capacityRps
  {
    var n := Required(rps, capacityRps);
    RateCoversWorkers(rps, n, capacityRps);
    SharesBetween(rps, n, capacityRps, i);
  }

  /** time.Second / time.Duration(rps), a whole number of nanoseconds. */
  function TickInterval(rps: int): int
    requires rps > 0
  {
    NANOS_PER_SECOND / rps
  }

  /** The interval is the longest whole number of nanoseconds at which the rate fits one second. */
  lemma IntervalIsGreatest(rps: int, d: int)
    requires rps > 0
    ensures rps * d <= NANOS_PER_SECOND <==> d <= TickInterval(rps)
  {
    var q := TickInterval(rps);
    DivisionBounds(NANOS_PER_SECOND, rps);
    if d <= q {
      MultiplyMonotone(d, q, rps);
    } else {
      MultiplyMonotone(q + 1, d, rps);
    }
  }

  /** A ticker with a zero period panics: this cannot happen to a share of at most 10^9, and the
      ticks of one second then cover at least the share. */
  lemma ShareGivesUsableTicker(rps: int, capacityRps: int, i: nat)
    requires rps > 0 && 0 < capacityRps <= NANOS_PER_SECOND && i < Required(rps, capacityRps)
    ensures var share := Shares(rps, Required(rps, capacityRps))[i];
            share > 0 && TickInterval(share) > 0 && share * TickInterval(share) <= NANOS_PER_SECOND
  {
    SharesFitCapacity(rps, capacityRps, i);
    var share := Shares(rps, Required(rps, capacityRps))[i];
    DivisionBounds(NANOS_PER_SECOND, share);
  }
}
