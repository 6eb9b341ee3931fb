/** The autoscaling calculator, over exact reals and unbounded integers. */
module Hpa {
  datatype Config = Config(minReplicas: int, maxReplicas: int, itemsPerPod: int, cpuThreshold: real, memThreshold: real)

  datatype Metrics = Metrics(queueDepth: int, currentReplicas: int, cpu: real, memory: real)

  datatype Action = ScaleUp | ScaleDown | NoChange

  datatype Reason = CpuBased | MemoryBased | QueueBased | ScalingDown | WithinRange

  datatype Decision = Decision(desired: int, action: Action, reason: Reason, queueBased: int)

  /** What a deployment configures: a range, a positive batch size and positive thresholds. */
  predicate Sound(h: Config) {
    0 <= h.minReplicas <= h.maxReplicas && h.itemsPerPod > 0 && h.cpuThreshold > 0.0 && h.memThreshold > 0.0
  }

  /** What a decision needs so that no division is by zero. */
  predicate Computable(h: Config) {
    h.itemsPerPod != 0 && h.cpuThreshold != 0.0 && h.memThreshold != 0.0
  }

  predicate InRange(h: Config, n: int) {
    h.minReplicas <= n <= h.maxReplicas
  }

  /** Go's integer division truncates toward zero. */
  function GoDiv(a: int, b: int): int
    requires b != 0
  {
    if a >= 0 then a / b else -((-a) / b)
  }

  /** Go's conversion of a float to an integer truncates toward zero. */
  function Truncate(x: real): int {
    if x >= 0.0 then x.Floor else -((-x).Floor)
  }

  function Clamp(h: Config, n: int): int {
    if n < h.minReplicas then h.minReplicas else if n > h.maxReplicas then h.maxReplicas else n
  }

  function QueueReplicas(h: Config, queueDepth: int): int
    requires h.itemsPerPod != 0
  {
    if queueDepth == 0 then h.minReplicas
    else Clamp(h, GoDiv(queueDepth + h.itemsPerPod - 1, h.itemsPerPod))
  }

  /** The queue rule, said without division: within the range, enough pods for the queue unless
      at the maximum, and one pod less would not do unless at the minimum. */
  lemma QueueReplicasMeaning(h: Config, q: int)
    requires Sound(h)
    ensures var n := QueueReplicas(h, q);
            && InRange(h, n)
            && (n == h.maxReplicas || n * h.itemsPerPod >= q)
            && (n == h.minReplicas || (n - 1) * h.itemsPerPod < q)
            && (q <= 0 ==> n == h.minReplicas)
  {
    if q < 0 {
      NegativeDepth(q, h.itemsPerPod);
      MoreIsEnough(0, h.minReplicas, h.itemsPerPod);
    } else if q > 0 {
      var needed := (q + h.itemsPerPod - 1) / h.itemsPerPod;
      CeilingBounds(q, h.itemsPerPod, needed);
      MoreIsEnough(needed, h.minReplicas, h.itemsPerPod);
      MoreIsEnough(h.maxReplicas - 1, needed - 1, h.itemsPerPod);
    } else {
      MoreIsEnough(0, h.minReplicas, h.itemsPerPod);
    }
  }

  lemma NegativeDepth(q: int, k: int)
    requires q < 0 && k > 0
    ensures GoDiv(q + k - 1, k) <= 0
  {
    var a := q + k - 1;
    if a >= 0 {
      assert a / k == 0;
    } else {
      assert (-a) / k >= 0;
    }
  }

  lemma CeilingBounds(q: nat, k: int, needed: int)
    requires k > 0 && needed == (q + k - 1) / k
    ensures (needed - 1) * k < q <= needed * k
  {
    assert q + k - 1 == needed * k + (q + k - 1) % k;
    assert (needed - 1) * k == needed * k - k;
  }

  lemma MoreIsEnough(n: int, m: int, k: int)
    requires k > 0
    ensures n <= m ==> n * k <= m * k
  {
    if n <= m {
      assert (m - n) * k >= 0;
      assert m * k == n * k + (m - n) * k;
    }
  }

  /** Replicas in proportion to the usage of one resource. */
  function UsageReplicas(h: Config, current: int, usage: real, threshold: real): int
    requires threshold != 0.0
  {
    if usage == 0.0 then h.minReplicas
    else Clamp(h, Truncate(Scaled(current, usage, threshold)))
  }

  function CpuReplicas(h: Config, m: Metrics): int
    requires h.cpuThreshold != 0.0
  {
    UsageReplicas(h, m.currentReplicas, m.cpu, h.cpuThreshold)
  }

  function MemoryReplicas(h: Config, m: Metrics): int
    requires h.memThreshold != 0.0
  {
    UsageReplicas(h, m.currentReplicas, m.memory, h.memThreshold)
  }

  predicate ShouldScaleUp(h: Config, m: Metrics)
    requires h.itemsPerPod != 0
  {
    || m.cpu > h.cpuThreshold
    || m.memory > h.memThreshold
    || QueueReplicas(h, m.queueDepth) > m.currentReplicas
  }

  predicate ShouldScaleDown(h: Config, m: Metrics)
    requires h.itemsPerPod != 0
  {
    && m.currentReplicas > h.minReplicas
    && !ShouldScaleUp(h, m)
    && (|| m.cpu < h.cpuThreshold * 0.5
        || m.memory < h.memThreshold * 0.5
        || (QueueReplicas(h, m.queueDepth) < m.currentReplicas && m.cpu < h.cpuThreshold * 0.6))
  }

  function Desired(h: Config, m: Metrics): int
    requires Computable(h)
  {
    var queue, cpu, memory := QueueReplicas(h, m.queueDepth), CpuReplicas(h, m), MemoryReplicas(h, m);
    if ShouldScaleUp(h, m) then
      if cpu > queue then cpu else if memory > queue then memory else queue
    else if ShouldScaleDown(h, m) then if queue < h.minReplicas then h.minReplicas else queue
    else m.currentReplicas
  }

  method MakeScalingDecision(h: Config, m: Metrics) returns (d: Decision)
    requires Computable(h)
    ensures d.desired == Desired(h, m) && d.queueBased == QueueReplicas(h, m.queueDepth)
    ensures d.action == if ShouldScaleUp(h, m) then ScaleUp else if ShouldScaleDown(h, m) then ScaleDown else NoChange
    ensures d.action == ScaleUp ==>
              d.reason == (if CpuReplicas(h, m) > d.queueBased then CpuBased
                           else if MemoryReplicas(h, m) > d.queueBased then MemoryBased else QueueBased)
    ensures d.action == ScaleDown ==> d.desired <= m.currentReplicas
    ensures d.action == ScaleUp <==> m.cpu > h.cpuThreshold || m.memory > h.memThreshold || d.queueBased > m.currentReplicas
    ensures d.action == NoChange ==> d.desired == m.currentReplicas && d.reason == WithinRange
    ensures d.action == ScaleDown ==> d.reason == ScalingDown
    ensures Measured(h, m) ==>
              (d.action == ScaleDown <==>
                 && m.currentReplicas > h.minReplicas && d.queueBased <= m.currentReplicas
                 && m.cpu <= h.cpuThreshold && m.memory <= h.memThreshold
                 && (|| 2.0 * m.cpu < h.cpuThreshold
                     || 2.0 * m.memory < h.memThreshold
                     || (d.queueBased < m.currentReplicas && 5.0 * m.cpu < 3.0 * h.cpuThreshold)))
    ensures Measured(h, m) && d.action == ScaleDown ==> d.desired == d.queueBased
    ensures h.minReplicas <= h.maxReplicas && InRange(h, m.currentReplicas) ==> InRange(h, d.desired)
  {
    d := Decision(0, NoChange, WithinRange, QueueReplicas(h, m.queueDepth));
    if ShouldScaleUp(h, m) {
      d := d.(desired := d.queueBased);
      var cpuBased := CpuReplicas(h, m);
      var memBased := MemoryReplicas(h, m);
      if cpuBased > d.desired {
        d := d.(desired := cpuBased, reason := CpuBased);
      } else if memBased > d.desired {
        d := d.(desired := memBased, reason := MemoryBased);
      } else {
        d := d.(reason := QueueBased);
      }
      d := d.(action := ScaleUp);
    } else if ShouldScaleDown(h, m) {
      d := d.(desired := d.queueBased);
      if d.desired < h.minReplicas {
        d := d.(desired := h.minReplicas);
      }
      d := d.(action := ScaleDown, reason := ScalingDown);
    } else {
      d := d.(desired := m.currentReplicas);
    }
  }

  // ----- usage above and below the threshold -----

  function Scaled(n: int, x: real, limit: real): real
    requires limit != 0.0
  {
    n as real * (x / limit)
  }

  lemma ScaledBounds(n: int, x: real, limit: real)
    requires n >= 0 && limit > 0.0 && x >= 0.0
    ensures Scaled(n, x, limit) >= 0.0
    ensures x >= limit ==> Scaled(n, x, limit) >= n as real
    ensures x <= limit ==> Scaled(n, x, limit) <= n as real
  {
    var ratio, r := x / limit, n as real;
    assert ratio * limit == x;
    assert ratio >= 0.0;
    assert (ratio - 1.0) * limit == x - limit;
    if x >= limit {
      Sign(ratio - 1.0, limit);
      Product(r, ratio - 1.0);
    }
    if x <= limit {
      assert (1.0 - ratio) * limit == limit - x;
      Sign(1.0 - ratio, limit);
      Product(r, 1.0 - ratio);
    }
    Product(r, ratio);
    assert r * (ratio - 1.0) == r * ratio - r;
  }

  lemma Sign(d: real, limit: real)
    requires limit > 0.0 && d * limit >= 0.0
    ensures d >= 0.0
  {
    if d < 0.0 {
      Product(-d, limit);
    }
  }

  lemma Product(x: real, y: real)
    requires x >= 0.0 && y >= 0.0
    ensures x * y >= 0.0
    ensures x > 0.0 && y > 0.0 ==> x * y > 0.0
  {
  }

  /** Usage above the threshold never asks for fewer replicas, usage at or below it never for
      more. */
  lemma UsageDirection(h: Config, n: int, usage: real, threshold: real)
    requires Sound(h) && InRange(h, n) && threshold > 0.0 && usage >= 0.0
    ensures InRange(h, UsageReplicas(h, n, usage, threshold))
    ensures usage > threshold ==> UsageReplicas(h, n, usage, threshold) >= n
    ensures usage <= threshold ==> UsageReplicas(h, n, usage, threshold) <= n
  {
    ScaledBounds(n, usage, threshold);
  }

  lemma ScaledTimesLimit(n: int, x: real, limit: real)
    requires limit > 0.0
    ensures Scaled(n, x, limit) * limit == n as real * x
  {
    var ratio := x / limit;
    assert ratio * limit == x;
    assert n as real * ratio * limit == n as real * (ratio * limit);
  }

  lemma RealOrder(a: real, b: real, limit: real)
    requires limit > 0.0
    ensures a <= b ==> a * limit <= b * limit
    ensures a < b ==> a * limit < b * limit
  {
    if a <= b {
      Product(b - a, limit);
      assert (b - a) * limit == b * limit - a * limit;
    }
  }

  /** The usage rule, said without division: within the range, the most replicas whose load at the
      threshold is no more than the load measured, unless at the maximum or the minimum. */
  lemma UsageMeaning(h: Config, n: int, usage: real, threshold: real)
    requires Sound(h) && InRange(h, n) && threshold > 0.0 && usage >= 0.0
    ensures var r := UsageReplicas(h, n, usage, threshold);
            && InRange(h, r)
            && (r == h.maxReplicas || n as real * usage < (r + 1) as real * threshold)
            && (r == h.minReplicas || r as real * threshold <= n as real * usage)
  {
    var r, x := UsageReplicas(h, n, usage, threshold), Scaled(n, usage, threshold);
    UsageAround(h, n, usage, threshold);
    ScaledTimesLimit(n, usage, threshold);
    if r != h.maxReplicas {
      RealOrder(x, (r + 1) as real, threshold);
    }
    if r != h.minReplicas {
      RealOrder(r as real, x, threshold);
    }
  }

  /** The figure is the scaled count cut off, unless at the maximum or the minimum. */
  lemma UsageAround(h: Config, n: int, usage: real, threshold: real)
    requires Sound(h) && InRange(h, n) && threshold > 0.0 && usage >= 0.0
    ensures var r, x := UsageReplicas(h, n, usage, threshold), Scaled(n, usage, threshold);
            InRange(h, r) && (r == h.maxReplicas || x < (r + 1) as real) && (r == h.minReplicas || r as real <= x)
  {
    ScaledBounds(n, usage, threshold);
    if usage == 0.0 {
      NoUsage(n, threshold);
    }
  }

  lemma NoUsage(n: int, threshold: real)
    requires threshold > 0.0
    ensures Scaled(n, 0.0, threshold) == 0.0
  {
    assert 0.0 / threshold == 0.0;
  }

  predicate Measured(h: Config, m: Metrics) {
    Sound(h) && InRange(h, m.currentReplicas) && m.cpu >= 0.0 && m.memory >= 0.0
  }

  /** A scale-up for CPU or for the queue never lowers the replica count. */
  lemma CpuOrQueueNeverLowers(h: Config, m: Metrics)
    requires Measured(h, m)
    requires m.cpu > h.cpuThreshold || QueueReplicas(h, m.queueDepth) > m.currentReplicas
    ensures Desired(h, m) >= m.currentReplicas
  {
    UsageDirection(h, m.currentReplicas, m.cpu, h.cpuThreshold);
  }

  /** A scale-up for memory alone lowers the replica count exactly when the CPU figure lies
      strictly between the queue figure and the current count, because it then hides the memory
      figure. */
  lemma MemoryScaleUpLowersIff(h: Config, m: Metrics)
    requires Measured(h, m)
    requires m.memory > h.memThreshold && m.cpu <= h.cpuThreshold
    ensures Desired(h, m) < m.currentReplicas
       <==> QueueReplicas(h, m.queueDepth) < CpuReplicas(h, m) < m.currentReplicas
  {
    UsageDirection(h, m.currentReplicas, m.cpu, h.cpuThreshold);
    UsageDirection(h, m.currentReplicas, m.memory, h.memThreshold);
  }

  /** Under an idle load, with neither resource above its threshold and one of them under half of it,
      one decision brings every count to the queue's figure. */
  lemma IdleReachesQueue(h: Config, m: Metrics)
    requires Measured(h, m) && m.cpu <= h.cpuThreshold && m.memory <= h.memThreshold
    requires 2.0 * m.cpu < h.cpuThreshold || 2.0 * m.memory < h.memThreshold
    ensures Desired(h, m) == QueueReplicas(h, m.queueDepth)
  {
    QueueReplicasMeaning(h, m.queueDepth);
    UsageDirection(h, m.currentReplicas, m.cpu, h.cpuThreshold);
    UsageDirection(h, m.currentReplicas, m.memory, h.memThreshold);
  }

  /** Nothing is scaled down while CPU is at least 60% and memory at least 50% of their
      thresholds. */
  lemma NoScaleDownInBand(h: Config, m: Metrics)
    requires Measured(h, m) && m.cpu >= h.cpuThreshold * 0.6 && m.memory >= h.memThreshold * 0.5
    ensures !ShouldScaleDown(h, m)
    ensures Desired(h, m) < m.currentReplicas ==> m.memory > h.memThreshold && m.cpu <= h.cpuThreshold
  {
    if m.cpu > h.cpuThreshold || QueueReplicas(h, m.queueDepth) > m.currentReplicas {
      CpuOrQueueNeverLowers(h, m);
    }
  }

  // ----- how the usage figure grows with the count -----

  lemma ScaledMonotone(a: int, b: int, x: real, limit: real)
    requires 0 <= a <= b && limit > 0.0 && x >= 0.0
    ensures 0.0 <= Scaled(a, x, limit) <= Scaled(b, x, limit)
    ensures x >= limit ==> Scaled(b, x, limit) - b as real >= Scaled(a, x, limit) - a as real
  {
    ScaledBounds(a, x, limit);
    ScaledBounds(b - a, x, limit);
    assert (b - a) as real == b as real - a as real;
    assert Scaled(b, x, limit) == Scaled(a, x, limit) + Scaled(b - a, x, limit) by {
      var ratio := x / limit;
      assert (b as real - a as real) * ratio == b as real * ratio - a as real * ratio;
    }
  }

  lemma ScaledStrict(n: int, x: real, limit: real)
    requires n > 0 && limit > 0.0 && 0.0 <= x < limit
    ensures Scaled(n, x, limit) < n as real
  {
    var gap, r := 1.0 - x / limit, n as real;
    assert x / limit * limit == x;
    assert gap * limit == limit - x;
    Sign(gap, limit);
    assert gap != 0.0;
    Product(r, gap);
    assert r * gap == r - r * (x / limit);
  }

  lemma ScaledAtThreshold(n: int, limit: real)
    requires limit > 0.0
    ensures Scaled(n, limit, limit) == n as real
  {
    assert limit / limit == 1.0;
  }

  /** A larger count never gets a smaller usage figure. */
  lemma UsageMonotone(h: Config, a: int, b: int, usage: real, threshold: real)
    requires Sound(h) && 0 <= a <= b && threshold > 0.0 && usage >= 0.0
    ensures UsageReplicas(h, a, usage, threshold) <= UsageReplicas(h, b, usage, threshold)
  {
    ScaledMonotone(a, b, usage, threshold);
  }

  /** Usage below the threshold lowers every count above the minimum; usage at it keeps the
      count. */
  lemma UsageBelow(h: Config, n: int, usage: real, threshold: real)
    requires Sound(h) && InRange(h, n) && threshold > 0.0 && 0.0 <= usage <= threshold
    ensures usage < threshold && n > h.minReplicas ==> UsageReplicas(h, n, usage, threshold) < n
    ensures usage == threshold ==> UsageReplicas(h, n, usage, threshold) == n
  {
    if usage == threshold {
      ScaledAtThreshold(n, threshold);
    } else if n > h.minReplicas {
      ScaledStrict(n, usage, threshold);
      ScaledBounds(n, usage, threshold);
    }
  }

  /** Usage above the threshold that raises one count raises every larger count below the
      maximum. */
  lemma GrowthPersists(h: Config, a: int, b: int, usage: real, threshold: real)
    requires Sound(h) && InRange(h, a) && a <= b < h.maxReplicas && usage > threshold > 0.0
    requires UsageReplicas(h, a, usage, threshold) > a
    ensures UsageReplicas(h, b, usage, threshold) > b
  {
    ScaledMonotone(a, b, usage, threshold);
    assert Scaled(a, usage, threshold) >= (a + 1) as real;
    assert Scaled(b, usage, threshold) >= (b + 1) as real;
  }

  // ----- repeated decisions -----

  function Applied(h: Config, m: Metrics): Metrics
    requires Computable(h)
  {
    m.(currentReplicas := Desired(h, m))
  }

  function Repeated(h: Config, m: Metrics, k: nat): Metrics
    requires Computable(h)
  {
    if k == 0 then m else Applied(h, Repeated(h, m, k - 1))
  }

  predicate Settled(h: Config, m: Metrics)
    requires Computable(h)
  {
    Desired(h, m) == m.currentReplicas
  }

  /** Repeating the decision under unchanged load reaches a count that it keeps. */
  ghost predicate Settles(h: Config, m: Metrics)
    requires Computable(h)
  {
    exists k: nat :: Settled(h, Repeated(h, m, k))
  }

  lemma {:induction false} RepeatedShift(h: Config, m: Metrics, k: nat)
    requires Computable(h)
    ensures Repeated(h, Applied(h, m), k) == Repeated(h, m, k + 1)
  {
    if k > 0 {
      RepeatedShift(h, m, k - 1);
    }
  }

  lemma SettlesNow(h: Config, m: Metrics)
    requires Computable(h) && Settled(h, m)
    ensures Settles(h, m)
  {
    assert Settled(h, Repeated(h, m, 0));
  }

  lemma SettlesLater(h: Config, m: Metrics)
    requires Computable(h) && Settles(h, Applied(h, m))
    ensures Settles(h, m)
  {
    var k: nat :| Settled(h, Repeated(h, Applied(h, m), k));
    RepeatedShift(h, m, k);
    assert Settled(h, Repeated(h, m, k + 1));
  }

  /** With CPU and memory at or below their thresholds, one decision reaches a fixed point: the
      queue's figure, or the current count if nothing triggers. */
  lemma QuietFixedPoint(h: Config, m: Metrics)
    requires Measured(h, m) && m.cpu <= h.cpuThreshold && m.memory <= h.memThreshold
    ensures Settled(h, Applied(h, m))
    ensures Desired(h, m) == QueueReplicas(h, m.queueDepth) || Desired(h, m) == m.currentReplicas
  {
    UsageDirection(h, m.currentReplicas, m.cpu, h.cpuThreshold);
    UsageDirection(h, m.currentReplicas, m.memory, h.memThreshold);
  }

  /** Under this load no count is ever lowered. */
  ghost predicate Climbs(h: Config, m: Metrics)
    requires Computable(h)
  {
    forall n :: InRange(h, n) ==> n <= Desired(h, m.(currentReplicas := n)) <= h.maxReplicas
  }

  lemma ClimbsOn(h: Config, m: Metrics)
    requires Measured(h, m) && Climbs(h, m)
    ensures Measured(h, Applied(h, m)) && Climbs(h, Applied(h, m))
    ensures m.currentReplicas <= Desired(h, m) <= h.maxReplicas
  {
    assert m == m.(currentReplicas := m.currentReplicas);
    var next := Applied(h, m);
    forall n | InRange(h, n) ensures n <= Desired(h, next.(currentReplicas := n)) <= h.maxReplicas {
      assert next.(currentReplicas := n) == m.(currentReplicas := n);
    }
  }

  /** Decisions that only climb settle within as many steps as there is room to the maximum. */
  lemma {:induction false} ClimbSettles(h: Config, m: Metrics) returns (n: nat)
    requires Measured(h, m) && Climbs(h, m)
    ensures n <= h.maxReplicas - m.currentReplicas && Settled(h, Repeated(h, m, n))
    decreases h.maxReplicas - m.currentReplicas
  {
    ClimbsOn(h, m);
    if Settled(h, m) {
      n := 0;
    } else {
      var k := ClimbSettles(h, Applied(h, m));
      RepeatedShift(h, m, k);
      n := k + 1;
    }
  }

  /** With CPU above its threshold, repeated decisions only climb, so they settle. */
  lemma BusySettles(h: Config, m: Metrics) returns (n: nat)
    requires Measured(h, m) && m.cpu > h.cpuThreshold
    ensures Climbs(h, m)
    ensures n <= h.maxReplicas - m.currentReplicas && Settled(h, Repeated(h, m, n))
  {
    forall c | InRange(h, c)
      ensures c <= Desired(h, m.(currentReplicas := c)) <= h.maxReplicas
    {
      CpuOrQueueNeverLowers(h, m.(currentReplicas := c));
    }
    n := ClimbSettles(h, m);
  }

  // ----- memory alone above its threshold -----

  predicate MemoryOnly(h: Config, m: Metrics) {
    Measured(h, m) && m.memory > h.memThreshold && m.cpu <= h.cpuThreshold
  }

  /** The CPU figure, the memory figure and the decision at another count. */
  function CpuAt(h: Config, m: Metrics, n: int): int
    requires Computable(h)
  {
    CpuReplicas(h, m.(currentReplicas := n))
  }

  function MemoryAt(h: Config, m: Metrics, n: int): int
    requires Computable(h)
  {
    MemoryReplicas(h, m.(currentReplicas := n))
  }

  /** The decision under memory pressure, with the range and direction of both figures. */
  lemma MemoryOnlyDecision(h: Config, m: Metrics)
    requires MemoryOnly(h, m)
    ensures var q, n := QueueReplicas(h, m.queueDepth), m.currentReplicas;
            && CpuAt(h, m, n) == CpuReplicas(h, m) && MemoryAt(h, m, n) == MemoryReplicas(h, m)
            && h.minReplicas <= CpuAt(h, m, n) <= n <= MemoryAt(h, m, n) <= h.maxReplicas
            && InRange(h, q)
            && Desired(h, m) == (if CpuAt(h, m, n) > q then CpuAt(h, m, n)
                                 else if MemoryAt(h, m, n) > q then MemoryAt(h, m, n) else q)
            && MemoryOnly(h, Applied(h, m))
  {
    assert m.(currentReplicas := m.currentReplicas) == m;
    UsageDirection(h, m.currentReplicas, m.cpu, h.cpuThreshold);
    UsageDirection(h, m.currentReplicas, m.memory, h.memThreshold);
  }

  /** At the CPU threshold the CPU figure is the count itself, so every count above the queue's
      figure is kept. */
  lemma AtThresholdSettles(h: Config, m: Metrics)
    requires MemoryOnly(h, m) && m.cpu == h.cpuThreshold
    ensures Settles(h, m)
  {
    var m1 := Applied(h, m);
    MemoryOnlyDecision(h, m);
    MemoryOnlyDecision(h, m1);
    var m2 := Applied(h, m1);
    MemoryOnlyDecision(h, m2);
    UsageBelow(h, m.currentReplicas, m.cpu, h.cpuThreshold);
    UsageBelow(h, m1.currentReplicas, m.cpu, h.cpuThreshold);
    UsageBelow(h, m2.currentReplicas, m.cpu, h.cpuThreshold);
    SettlesNow(h, m2);
    SettlesLater(h, m1);
    SettlesLater(h, m);
  }

  /** A CPU figure that stays under the queue's figure at the maximum never hides the memory
      figure, so decisions climb. */
  lemma HiddenCpuSettles(h: Config, m: Metrics)
    requires MemoryOnly(h, m) && CpuAt(h, m, h.maxReplicas) <= QueueReplicas(h, m.queueDepth)
    ensures Settles(h, m)
  {
    forall c | InRange(h, c)
      ensures c <= Desired(h, m.(currentReplicas := c)) <= h.maxReplicas
    {
      MemoryOnlyDecision(h, m.(currentReplicas := c));
      UsageMonotone(h, c, h.maxReplicas, m.cpu, h.cpuThreshold);
    }
    var n := ClimbSettles(h, m);
  }

  /** A figure of at most q, below the maximum, comes from a product below q + 1. */
  lemma FigureBelow(h: Config, n: int, usage: real, threshold: real, q: int)
    requires Sound(h) && InRange(h, n) && threshold > 0.0 && usage > 0.0
    requires h.minReplicas <= q < h.maxReplicas
    ensures UsageReplicas(h, n, usage, threshold) <= q <==> Scaled(n, usage, threshold) < (q + 1) as real
  {
    ScaledBounds(n, usage, threshold);
  }

  /** Above the threshold the figure is at most the product. */
  lemma FigureReached(h: Config, n: int, usage: real, threshold: real)
    requires Sound(h) && InRange(h, n) && usage >= threshold > 0.0
    ensures UsageReplicas(h, n, usage, threshold) as real <= Scaled(n, usage, threshold)
  {
    ScaledBounds(n, usage, threshold);
  }

  /** If memory would keep q + 1 and CPU asks for at most q at n, then CPU asks for at most q + 1
      at the count that memory asks for at n. */
  lemma SmallStep(h: Config, m: Metrics, q: int, n: int)
    requires MemoryOnly(h, m) && InRange(h, q) && q + 1 < h.maxReplicas && InRange(h, n) && m.cpu > 0.0
    requires MemoryAt(h, m, q + 1) <= q + 1 && CpuAt(h, m, n) <= q
    ensures CpuAt(h, m, MemoryAt(h, m, n)) <= q + 1
  {
    var next := MemoryAt(h, m, n);
    UsageDirection(h, n, m.memory, h.memThreshold);
    FigureReached(h, n, m.memory, h.memThreshold);
    FigureBelow(h, q + 1, m.memory, h.memThreshold, q + 1);
    FigureBelow(h, n, m.cpu, h.cpuThreshold, q);
    ScaledJump(n, next, q + 1, m.memory, h.memThreshold, m.cpu, h.cpuThreshold);
    FigureBelow(h, next, m.cpu, h.cpuThreshold, q + 1);
  }

  lemma ScaledJump(n: int, next: int, q: int, memory: real, memLimit: real, cpu: real, cpuLimit: real)
    requires n >= 0 && next >= 0 && memory > memLimit > 0.0 && cpu > 0.0 && cpuLimit > 0.0
    requires next as real <= Scaled(n, memory, memLimit) && Scaled(n, cpu, cpuLimit) < q as real
    requires Scaled(q, memory, memLimit) < (q + 1) as real
    ensures Scaled(next, cpu, cpuLimit) < (q + 1) as real
  {
    ScaledBounds(1, memory, memLimit);
    ScaledBounds(1, cpu, cpuLimit);
    JumpBound(n, next, q, memory / memLimit, cpu / cpuLimit);
  }

  lemma JumpBound(n: int, next: int, q: int, up: real, down: real)
    requires n >= 0 && next >= 0 && down >= 0.0 && up >= 1.0
    requires next as real <= n as real * up && n as real * down < q as real && q as real * up < q as real + 1.0
    ensures next as real * down < q as real + 1.0
  {
    var gap, rest := n as real * up - next as real, q as real - n as real * down;
    Product(gap, down);
    Product(rest, up);
    assert gap * down == n as real * up * down - next as real * down;
    assert rest * up == q as real * up - n as real * down * up;
    assert n as real * up * down == n as real * down * up;
  }

  /** CPU is strictly below its threshold, and its figure at the maximum exceeds the queue's, so
      that it hides the memory figure there. */
  predicate CpuHides(h: Config, m: Metrics)
    requires Computable(h)
  {
    m.cpu < h.cpuThreshold && CpuAt(h, m, h.maxReplicas) > QueueReplicas(h, m.queueDepth)
  }

  lemma CpuHidesRoom(h: Config, m: Metrics)
    requires MemoryOnly(h, m) && CpuHides(h, m)
    ensures QueueReplicas(h, m.queueDepth) + 1 < h.maxReplicas && m.cpu > 0.0
  {
    MemoryOnlyDecision(h, m);
    UsageBelow(h, h.maxReplicas, m.cpu, h.cpuThreshold);
  }

  /** When memory would keep one replica more than the queue asks for, that count is kept. */
  lemma FirstCountAboveIsSettled(h: Config, m: Metrics)
    requires MemoryOnly(h, m) && CpuHides(h, m)
    requires m.currentReplicas == QueueReplicas(h, m.queueDepth) + 1
    requires MemoryAt(h, m, m.currentReplicas) <= m.currentReplicas
    ensures Settles(h, m)
  {
    MemoryOnlyDecision(h, m);
    UsageBelow(h, m.currentReplicas, m.cpu, h.cpuThreshold);
    SettlesNow(h, m);
  }

  /** The first count at which CPU asks for more than the queue is answered by exactly one replica
      above the queue's figure, which is kept. */
  lemma OvershootSettles(h: Config, m: Metrics)
    requires MemoryOnly(h, m) && CpuHides(h, m)
    requires var q := QueueReplicas(h, m.queueDepth);
             MemoryAt(h, m, q + 1) <= q + 1 && CpuReplicas(h, m) <= q < CpuReplicas(h, Applied(h, m))
    ensures Settles(h, Applied(h, m))
  {
    var q, next := QueueReplicas(h, m.queueDepth), Applied(h, m);
    MemoryOnlyDecision(h, m);
    MemoryOnlyDecision(h, next);
    CpuHidesRoom(h, m);
    SmallStep(h, m, q, m.currentReplicas);
    SameLoad(h, m, next);
    var last := Applied(h, next);
    SameLoad(h, m, last);
    FirstCountAboveIsSettled(h, last);
    SettlesLater(h, next);
  }

  /** While CPU asks for no more than the queue, the count climbs; the first count at which CPU
      asks for more is answered by exactly one replica above the queue's figure. */
  lemma {:induction false} ClimbingSettles(h: Config, m: Metrics)
    requires MemoryOnly(h, m) && CpuHides(h, m)
    requires var q := QueueReplicas(h, m.queueDepth);
             MemoryAt(h, m, q + 1) <= q + 1 && CpuReplicas(h, m) <= q
    ensures Settles(h, m)
    decreases h.maxReplicas - m.currentReplicas
  {
    var q, next := QueueReplicas(h, m.queueDepth), Applied(h, m);
    MemoryOnlyDecision(h, m);
    if Settled(h, m) {
      SettlesNow(h, m);
    } else {
      SameLoad(h, m, next);
      if CpuReplicas(h, next) <= q {
        ClimbingSettles(h, next);
      } else {
        OvershootSettles(h, m);
      }
      SettlesLater(h, m);
    }
  }

  /** The figures depend on the load and the count asked about, not on the current count. */
  lemma SameLoad(h: Config, m: Metrics, m': Metrics)
    requires Computable(h) && m' == m.(currentReplicas := m'.currentReplicas)
    ensures forall n :: CpuAt(h, m', n) == CpuAt(h, m, n) && MemoryAt(h, m', n) == MemoryAt(h, m, n)
    ensures CpuHides(h, m') == CpuHides(h, m)
  {
    assert forall n :: m'.(currentReplicas := n) == m.(currentReplicas := n);
  }

  lemma {:induction false} DescendingSettles(h: Config, m: Metrics)
    requires MemoryOnly(h, m) && CpuHides(h, m)
    requires var q := QueueReplicas(h, m.queueDepth); MemoryAt(h, m, q + 1) <= q + 1
    ensures Settles(h, m)
    decreases m.currentReplicas
  {
    var q := QueueReplicas(h, m.queueDepth);
    MemoryOnlyDecision(h, m);
    if CpuReplicas(h, m) <= q {
      ClimbingSettles(h, m);
    } else {
      UsageBelow(h, m.currentReplicas, m.cpu, h.cpuThreshold);
      SameLoad(h, m, Applied(h, m));
      DescendingSettles(h, Applied(h, m));
      SettlesLater(h, m);
    }
  }

  /** A load that raises the first count above the queue's figure and is hidden by CPU at the
      maximum: from any count above the queue's, the next count is different and again above. */
  lemma KeepsMoving(h: Config, m: Metrics)
    requires MemoryOnly(h, m) && CpuHides(h, m)
    requires var q := QueueReplicas(h, m.queueDepth); MemoryAt(h, m, q + 1) > q + 1 && m.currentReplicas > q
    ensures Desired(h, m) > QueueReplicas(h, m.queueDepth) && !Settled(h, m)
  {
    var q, n := QueueReplicas(h, m.queueDepth), m.currentReplicas;
    MemoryOnlyDecision(h, m);
    if CpuReplicas(h, m) > q {
      UsageBelow(h, n, m.cpu, h.cpuThreshold);
    } else {
      GrowthPersists(h, q + 1, n, m.memory, h.memThreshold);
    }
  }

  lemma {:induction false} NeverSettles(h: Config, m: Metrics, k: nat)
    requires MemoryOnly(h, m) && CpuHides(h, m)
    requires var q := QueueReplicas(h, m.queueDepth); MemoryAt(h, m, q + 1) > q + 1 && m.currentReplicas > q
    ensures !Settled(h, Repeated(h, m, k))
    decreases k
  {
    KeepsMoving(h, m);
    if k > 0 {
      MemoryOnlyDecision(h, m);
      SameLoad(h, m, Applied(h, m));
      NeverSettles(h, Applied(h, m), k - 1);
      RepeatedShift(h, m, k - 1);
    }
  }

  /** Once above the queue's figure the count never settles. */
  lemma MovesFromNext(h: Config, m: Metrics, k: nat)
    requires MemoryOnly(h, m) && CpuHides(h, m)
    requires var q := QueueReplicas(h, m.queueDepth); MemoryAt(h, m, q + 1) > q + 1 && Desired(h, m) > q
    ensures !Settled(h, Repeated(h, m, k))
  {
    MemoryOnlyDecision(h, m);
    SameLoad(h, m, Applied(h, m));
    if m.currentReplicas > QueueReplicas(h, m.queueDepth) {
      NeverSettles(h, m, k);
    } else if k > 0 {
      NeverSettles(h, Applied(h, m), k - 1);
      RepeatedShift(h, m, k - 1);
    }
  }

  /** Once above the queue's figure the count never settles, and it gets there unless memory asks for
      no more than the queue's figure now and keeps that figure. */
  lemma MovingSettlesIff(h: Config, m: Metrics)
    requires MemoryOnly(h, m) && CpuHides(h, m)
    requires var q := QueueReplicas(h, m.queueDepth); MemoryAt(h, m, q + 1) > q + 1
    ensures var q := QueueReplicas(h, m.queueDepth);
            Settles(h, m) <==> MemoryReplicas(h, m) <= q && MemoryAt(h, m, q) == q
  {
    var q, next := QueueReplicas(h, m.queueDepth), Applied(h, m);
    MemoryOnlyDecision(h, m);
    SameLoad(h, m, next);
    MemoryOnlyDecision(h, next);
    if Desired(h, m) > q {
      forall k: nat ensures !Settled(h, Repeated(h, m, k)) {
        MovesFromNext(h, m, k);
      }
    } else if MemoryAt(h, m, q) == q {
      SettlesNow(h, next);
      SettlesLater(h, m);
    } else {
      var last := Applied(h, next);
      SameLoad(h, m, last);
      assert m.currentReplicas == q ==> m == next;
      forall k: nat ensures !Settled(h, Repeated(h, m, k)) {
        if k > 0 {
          MovesFromNext(h, next, k - 1);
          RepeatedShift(h, m, k - 1);
        }
      }
    }
  }

  /** Memory alone above its threshold: repeated decisions settle exactly when CPU sits at its
      threshold, or the CPU figure never exceeds the queue's, or memory would keep one replica more
      than the queue asks for, or memory asks for no more than the queue's figure now and keeps it. */
  lemma MemoryOnlySettlesIff(h: Config, m: Metrics)
    requires MemoryOnly(h, m)
    ensures var q := QueueReplicas(h, m.queueDepth);
            Settles(h, m) <==>
              || m.cpu == h.cpuThreshold
              || CpuAt(h, m, h.maxReplicas) <= q
              || MemoryAt(h, m, q + 1) <= q + 1
              || (MemoryReplicas(h, m) <= q && MemoryAt(h, m, q) == q)
  {
    var q := QueueReplicas(h, m.queueDepth);
    if m.cpu == h.cpuThreshold {
      AtThresholdSettles(h, m);
    } else if CpuAt(h, m, h.maxReplicas) <= q {
      HiddenCpuSettles(h, m);
    } else if MemoryAt(h, m, q + 1) <= q + 1 {
      DescendingSettles(h, m);
    } else {
      MovingSettlesIff(h, m);
    }
  }

  /** With memory alone above its threshold decisions need not settle: here they alternate
      between two and four replicas for ever. */
  lemma {:induction false} MemoryOscillates(k: nat)
    ensures var h, m := Config(1, 100, 10, 100.0, 100.0), Metrics(0, 4, 50.0, 200.0);
            MemoryOnly(h, m) && Repeated(h, m, 2 * k).currentReplicas == 4 && Repeated(h, m, 2 * k + 1).currentReplicas == 2
            && Repeated(h, m, 2 * k) == m
  {
    var h, m := Config(1, 100, 10, 100.0, 100.0), Metrics(0, 4, 50.0, 200.0);
    FourToTwo();
    if k > 0 {
      MemoryOscillates(k - 1);
      assert Repeated(h, m, 2 * (k - 1) + 1) == m.(currentReplicas := 2);
      assert 2 * k == 2 * (k - 1) + 1 + 1;
      assert Repeated(h, m, 2 * k) == Applied(h, Repeated(h, m, 2 * (k - 1) + 1));
    }
    assert Repeated(h, m, 2 * k + 1) == Applied(h, Repeated(h, m, 2 * k));
  }

  lemma FourToTwo()
    ensures var h, m := Config(1, 100, 10, 100.0, 100.0), Metrics(0, 4, 50.0, 200.0);
            Sound(h) && Desired(h, m) == 2 && Desired(h, m.(currentReplicas := 2)) == 4
  {
    var h, m := Config(1, 100, 10, 100.0, 100.0), Metrics(0, 4, 50.0, 200.0);
    assert 50.0 / 100.0 == 0.5 && 200.0 / 100.0 == 2.0;
    assert 4 as real * 0.5 == 2.0 && 2 as real * 0.5 == 1.0 && 2 as real * 2.0 == 4.0 && 4 as real * 2.0 == 8.0;
  }
}
