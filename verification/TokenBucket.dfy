/** The gateway's token-bucket rate limiter, over exact reals and a monotone clock. */
module TokenBuckets {
  /** A bucket as last touched at time `last`. */
  datatype Bucket = Bucket(capacity: real, rate: real, tokens: real, last: real)

  predicate Usable(b: Bucket) {
    b.tokens >= 0.0 && b.capacity >= 0.0 && b.rate >= 0.0
  }

  predicate Valid(b: Bucket) {
    Usable(b) && b.tokens <= b.capacity
  }

  function Min(x: real, y: real): real {
    if x <= y then x else y
  }

  /** Tokens that flow in during d seconds. */
  function Gain(rate: real, d: real): real {
    d * rate
  }

  /** The lazy refill. */
  function Refill(b: Bucket, now: real): Bucket {
    b.(tokens := Min(b.capacity, b.tokens + Gain(b.rate, now - b.last)), last := now)
  }

  /** consume: refill, then grant `amount` tokens if that many are there. */
  predicate Grants(b: Bucket, now: real, amount: int) {
    Refill(b, now).tokens >= amount as real
  }

  function Consume(b: Bucket, now: real, amount: int): Bucket {
    var r := Refill(b, now);
    if Grants(b, now, amount) then r.(tokens := r.tokens - amount as real) else r
  }

  /** A consume, said on the fields and the clock: granted exactly when the amount is within the
      capacity and within what was left plus what has flowed in since; a grant takes the amount. */
  lemma ConsumeMeaning(b: Bucket, now: real, amount: int)
    ensures var level := if b.tokens + (now - b.last) * b.rate <= b.capacity then b.tokens + (now - b.last) * b.rate else b.capacity;
            && (Grants(b, now, amount)
                <==> amount as real <= b.capacity && amount as real <= b.tokens + (now - b.last) * b.rate)
            && Consume(b, now, amount)
               == Bucket(b.capacity, b.rate, if Grants(b, now, amount) then level - amount as real else level, now)
  {
  }

  lemma GainNonNegative(d: real, rate: real)
    requires d >= 0.0 && rate >= 0.0
    ensures Gain(rate, d) >= 0.0
  {
  }

  lemma RefillValid(b: Bucket, now: real)
    requires Usable(b) && now >= b.last
    ensures Valid(Refill(b, now)) && Refill(b, now).tokens >= Min(b.capacity, b.tokens)
  {
    GainNonNegative(now - b.last, b.rate);
  }

  /** Refilling at an intermediate time makes no difference: lazy refill is the continuously
      refilled bucket, looked at when needed. */
  lemma RefillComposes(b: Bucket, mid: real, now: real)
    requires Usable(b) && b.last <= mid <= now
    ensures Refill(Refill(b, mid), now) == Refill(b, now)
  {
    GainNonNegative(mid - b.last, b.rate);
    GainNonNegative(now - mid, b.rate);
    assert Gain(b.rate, now - b.last) == Gain(b.rate, mid - b.last) + Gain(b.rate, now - mid);
  }

  // ----- runs of one bucket -----

  /** A consume call, or a read of `remaining` or `reset_in`, which also refills. */
  datatype Op = Take(now: real, amount: int) | Read(now: real)

  function Step(b: Bucket, op: Op): Bucket {
    match op
    case Take(now, amount) => Consume(b, now, amount)
    case Read(now) => Refill(b, now)
  }

  /** The clock never goes back. */
  predicate InOrder(from: real, ops: seq<Op>)
    decreases |ops|
  {
    ops != [] ==> from <= ops[0].now && InOrder(ops[0].now, ops[1..])
  }

  function Exec(b: Bucket, ops: seq<Op>): Bucket
    decreases |ops|
  {
    if ops == [] then b else Exec(Step(b, ops[0]), ops[1..])
  }

  /** The answers of the consume calls, in order. */
  function Decisions(b: Bucket, ops: seq<Op>): seq<bool>
    decreases |ops|
  {
    if ops == [] then []
    else (if ops[0].Take? then [Grants(b, ops[0].now, ops[0].amount)] else []) + Decisions(Step(b, ops[0]), ops[1..])
  }

  /** The tokens granted at times between s and e. */
  function GrantedWithin(b: Bucket, ops: seq<Op>, s: real, e: real): real
    decreases |ops|
  {
    if ops == [] then 0.0
    else
      (if s <= ops[0].now <= e then GrantedBy(b, ops[0]) else 0.0)
      + GrantedWithin(Step(b, ops[0]), ops[1..], s, e)
  }

  /** What one operation grants. */
  function GrantedBy(b: Bucket, op: Op): real {
    if op.Take? && Grants(b, op.now, op.amount) then op.amount as real else 0.0
  }

  lemma StepUsable(b: Bucket, op: Op)
    requires Usable(b) && op.now >= b.last
    ensures Usable(Step(b, op)) && Step(b, op).last == op.now
    ensures Step(b, op).capacity == b.capacity && Step(b, op).rate == b.rate
    ensures Valid(Step(b, op)) <==> (op.Take? ==> Refill(b, op.now).tokens - op.amount as real <= b.capacity)
  {
    RefillValid(b, op.now);
  }

  predicate NonNegative(ops: seq<Op>) {
    forall i :: 0 <= i < |ops| && ops[i].Take? ==> ops[i].amount >= 0
  }

  /** In every run the bucket never holds less than nothing. It holds more than its capacity only
      right after a negative amount: never if there is none, and any refill cuts it back. */
  lemma {:induction false} RunValid(b: Bucket, ops: seq<Op>, now: real)
    requires Usable(b) && InOrder(b.last, ops) && now >= Exec(b, ops).last
    ensures Usable(Exec(b, ops)) && Exec(b, ops).capacity == b.capacity && Exec(b, ops).rate == b.rate
    ensures Valid(b) && NonNegative(ops) ==> Valid(Exec(b, ops))
    ensures Valid(Refill(Exec(b, ops), now))
    decreases |ops|
  {
    if ops != [] {
      RefillValid(b, ops[0].now);
      StepUsable(b, ops[0]);
      RunValid(Step(b, ops[0]), ops[1..], now);
    } else {
      RefillValid(b, now);
    }
  }

  /** Nothing is granted within an interval that is over. */
  lemma {:induction false} NothingAfter(b: Bucket, ops: seq<Op>, s: real, e: real)
    requires Usable(b) && InOrder(b.last, ops) && e < b.last
    ensures GrantedWithin(b, ops, s, e) == 0.0
    decreases |ops|
  {
    if ops != [] {
      StepUsable(b, ops[0]);
      NothingAfter(Step(b, ops[0]), ops[1..], s, e);
    }
  }

  lemma Split(x: real, y: real, rate: real)
    ensures Gain(rate, x + y) == Gain(rate, x) + Gain(rate, y)
  {
  }

  /** What one operation grants leaves the bucket. */
  lemma GrantedByLeaves(b: Bucket, op: Op)
    ensures Step(b, op).tokens == Refill(b, op.now).tokens - GrantedBy(b, op)
  {
  }

  /** From the last touch on, at most what the bucket then holds plus the refill until e. */
  lemma {:induction false} GrantedSince(b: Bucket, ops: seq<Op>, s: real, e: real)
    requires Usable(b) && InOrder(b.last, ops) && s <= b.last <= e
    ensures GrantedWithin(b, ops, s, e) <= b.tokens + Gain(b.rate, e - b.last)
    decreases |ops|
  {
    GainNonNegative(e - b.last, b.rate);
    if ops != [] {
      var op := ops[0];
      var c := Step(b, op);
      StepUsable(b, op);
      if op.now > e {
        NothingAfter(c, ops[1..], s, e);
      } else {
        GrantedSince(c, ops[1..], s, e);
        GrantedByLeaves(b, op);
        Split(e - op.now, op.now - b.last, b.rate);
        assert e - b.last == e - op.now + (op.now - b.last);
      }
    }
  }

  /** In every run and every time interval, at most the capacity plus the refill of the
      interval is granted. */
  lemma {:induction false} GrantBound(b: Bucket, ops: seq<Op>, s: real, e: real)
    requires Usable(b) && InOrder(b.last, ops) && s <= e
    ensures GrantedWithin(b, ops, s, e) <= b.capacity + Gain(b.rate, e - s)
    decreases |ops|
  {
    GainNonNegative(e - s, b.rate);
    if ops != [] {
      var op := ops[0];
      var c := Step(b, op);
      StepUsable(b, op);
      if op.now < s {
        GrantBound(c, ops[1..], s, e);
      } else if op.now > e {
        NothingAfter(c, ops[1..], s, e);
      } else {
        GrantedSince(c, ops[1..], s, e);
        GrantedByLeaves(b, op);
        GainNonNegative(op.now - s, b.rate);
        Split(e - op.now, op.now - s, b.rate);
        assert e - s == e - op.now + (op.now - s);
      }
    }
  }

  // ----- what is surely granted -----

  function Instant(now: real, n: nat): seq<Op> {
    if n == 0 then [] else [Take(now, 1)] + Instant(now, n - 1)
  }

  lemma RefillAgain(b: Bucket)
    requires Valid(b)
    ensures Refill(b, b.last) == b
  {
    var zero := b.last - b.last;
    assert Gain(b.rate, zero) == 0.0;
  }

  /** What one request for a token leaves at the same instant. */
  lemma LevelAfterOne(b: Bucket, now: real)
    requires Usable(b) && now >= b.last
    ensures var b', level := Consume(b, now, 1), Refill(b, now).tokens;
            && Valid(b') && b'.last == now && b'.capacity == b.capacity && b'.rate == b.rate
            && Refill(b', now).tokens == (if level >= 1.0 then level - 1.0 else level)
  {
    RefillValid(b, now);
    RefillAgain(Consume(b, now, 1));
  }

  lemma {:induction false} InstantByLevel(b: Bucket, now: real, n: nat, i: nat)
    requires Usable(b) && now >= b.last && i < n
    ensures |Decisions(b, Instant(now, n))| == n
    ensures Decisions(b, Instant(now, n))[i] <==> (i + 1) as real <= Refill(b, now).tokens
    decreases n
  {
    LevelAfterOne(b, now);
    assert Instant(now, n)[1..] == Instant(now, n - 1);
    if n > 1 {
      InstantByLevel(Consume(b, now, 1), now, n - 1, if i == 0 then 0 else i - 1);
    }
  }

  /** Of requests for one token at one instant, exactly those are granted, the first ones, for which
      the bucket has enough: the i-th if and only if it holds i + 1 tokens then. */
  lemma InstantGrantsIff(b: Bucket, now: real, n: nat, i: nat)
    requires Usable(b) && now >= b.last && i < n
    ensures |Decisions(b, Instant(now, n))| == n
    ensures Decisions(b, Instant(now, n))[i]
       <==> (i + 1) as real <= b.capacity && (i + 1) as real <= b.tokens + (now - b.last) * b.rate
  {
    InstantByLevel(b, now, n, i);
    ConsumeMeaning(b, now, i + 1);
  }

  /** The bucket holds a token by then, said on its fields. */
  predicate HasToken(b: Bucket, now: real) {
    1.0 <= b.capacity && 1.0 <= b.tokens + (now - b.last) * b.rate
  }

  lemma GrantsToken(b: Bucket, now: real)
    ensures Grants(b, now, 1) <==> HasToken(b, now)
  {
    var inflow := (now - b.last) * b.rate;
    assert Gain(b.rate, now - b.last) == inflow;
  }

  /** A grant to one who found a token, and one more token by the next time. */
  lemma NextToken(b: Bucket, now: real, next: real)
    requires Usable(b) && now >= b.last && HasToken(b, now) && (next - now) * b.rate >= 1.0
    ensures var b' := Consume(b, now, 1);
            Usable(b') && b'.last == now && b'.capacity == b.capacity && b'.rate == b.rate && HasToken(b', next)
  {
    GrantsToken(b, now);
    StepUsable(b, Take(now, 1));
  }

  /** Requests for one token, in time order, each at least the time of one token after the one
      before. */
  predicate Spaced(rate: real, ops: seq<Op>)
    decreases |ops|
  {
    ops != [] ==>
      && ops[0] == Take(ops[0].now, 1)
      && (|ops| > 1 ==> ops[1].now >= ops[0].now && (ops[1].now - ops[0].now) * rate >= 1.0)
      && Spaced(rate, ops[1..])
  }

  /** Whoever finds a token and then asks no faster than tokens flow in is never refused. */
  lemma {:induction false} SpacedNeverRefused(b: Bucket, ops: seq<Op>)
    requires Usable(b) && Spaced(b.rate, ops)
    requires ops != [] ==> ops[0].now >= b.last && HasToken(b, ops[0].now)
    ensures |Decisions(b, ops)| == |ops| && forall i :: 0 <= i < |ops| ==> Decisions(b, ops)[i]
    decreases |ops|
  {
    if ops != [] {
      GrantsToken(b, ops[0].now);
      StepUsable(b, ops[0]);
      if |ops| > 1 {
        NextToken(b, ops[0].now, ops[1].now);
      }
      SpacedNeverRefused(Step(b, ops[0]), ops[1..]);
    }
  }

  /** One request after every step of time. */
  function Every(t: real, step: real, k: nat): seq<Op>
    decreases k
  {
    if k == 0 then [] else [Take(t + step, 1)] + Every(t + step, step, k - 1)
  }

  function After(t: real, step: real, k: nat): real
    decreases k
  {
    if k == 0 then t else After(t + step, step, k - 1)
  }

  lemma {:induction false} AfterLength(t: real, step: real, k: nat, rate: real)
    requires Gain(rate, step) == 1.0
    ensures Gain(rate, After(t, step, k) - t) == k as real
    decreases k
  {
    if k > 0 {
      AfterLength(t + step, step, k - 1, rate);
      var rest := After(t + step, step, k - 1) - (t + step);
      Split(rest, step, rate);
      assert After(t, step, k) - t == rest + step;
    } else {
      var zero := t - t;
      assert Gain(rate, zero) == 0.0;
    }
  }

  lemma {:induction false} AfterLater(t: real, step: real, k: nat)
    requires step >= 0.0
    ensures After(t, step, k) >= t
    decreases k
  {
    if k > 0 {
      AfterLater(t + step, step, k - 1);
    }
  }

  lemma {:induction false} EveryGranted(b: Bucket, step: real, k: nat, s: real, e: real)
    requires Usable(b) && b.capacity >= 1.0 && step > 0.0 && Gain(b.rate, step) == 1.0
    requires s <= b.last && After(b.last, step, k) <= e
    ensures GrantedWithin(b, Every(b.last, step, k), s, e) == k as real
    decreases k
  {
    if k > 0 {
      var op := Take(b.last + step, 1);
      var ops := Every(b.last, step, k);
      assert op.now - b.last == step;
      assert Refill(b, op.now).tokens >= 1.0;
      StepUsable(b, op);
      AfterLater(op.now, step, k - 1);
      assert ops[0] == op && ops[1..] == Every(op.now, step, k - 1);
      EveryGranted(Step(b, op), step, k - 1, s, e);
    }
  }

  lemma {:induction false} InstantGranted(b: Bucket, now: real, n: nat, rest: seq<Op>, e: real)
    requires Usable(b) && b.last <= now <= e && n as real <= Refill(b, now).tokens
    ensures var b' := Exec(b, Instant(now, n));
            && Usable(b') && b'.capacity == b.capacity && b'.rate == b.rate && (n > 0 ==> b'.last == now)
            && GrantedWithin(b, Instant(now, n) + rest, now, e) == n as real + GrantedWithin(b', rest, now, e)
    decreases n
  {
    var all := Instant(now, n) + rest;
    if n == 0 {
      assert all == rest;
    } else {
      LevelAfterOne(b, now);
      assert Instant(now, n)[1..] == Instant(now, n - 1);
      assert all[0] == Take(now, 1) && all[1..] == Instant(now, n - 1) + rest;
      InstantGranted(Consume(b, now, 1), now, n - 1, rest, e);
    }
  }

  lemma FullStaysFull(b: Bucket, now: real)
    requires Usable(b) && b.tokens == b.capacity && now >= b.last
    ensures Refill(b, now).tokens == b.capacity
  {
    GainNonNegative(now - b.last, b.rate);
  }

  /** The bound of GrantBound is reached: a full bucket grants its capacity at once and then one more
      after every step, which is the capacity plus the refill of the interval. */
  lemma GrantBoundReached(b: Bucket, s: real, n: nat, step: real, k: nat)
    requires n >= 1 && b.capacity == n as real == b.tokens && b.rate > 0.0 && b.last <= s
    requires step > 0.0 && Gain(b.rate, step) == 1.0
    ensures GrantedWithin(b, Instant(s, n) + Every(s, step, k), s, After(s, step, k))
         == b.capacity + Gain(b.rate, After(s, step, k) - s)
  {
    var e := After(s, step, k);
    FullStaysFull(b, s);
    AfterLater(s, step, k);
    InstantGranted(b, s, n, Every(s, step, k), e);
    EveryGranted(Exec(b, Instant(s, n)), step, k, s, e);
    AfterLength(s, step, k, b.rate);
  }

  /** The run without its reads. */
  function Takes(ops: seq<Op>): seq<Op>
    decreases |ops|
  {
    if ops == [] then [] else (if ops[0].Take? then [ops[0]] else []) + Takes(ops[1..])
  }

  /** b is c refilled at some time since. */
  predicate Touched(c: Bucket, b: Bucket) {
    c.last <= b.last && b == Refill(c, b.last)
  }

  /** Reads never change a later decision: leaving them out gives the same answers. */
  lemma {:induction false} ReadsAreInvisible(b: Bucket, c: Bucket, ops: seq<Op>)
    requires Usable(b) && Usable(c) && InOrder(b.last, ops) && (b == c || Touched(c, b))
    ensures Decisions(b, ops) == Decisions(c, Takes(ops))
    decreases |ops|
  {
    if ops != [] {
      var op := ops[0];
      StepUsable(b, op);
      if b != c {
        RefillComposes(c, b.last, op.now);
      }
      if op.Take? {
        assert Refill(b, op.now) == Refill(c, op.now);
        assert ([op] + Takes(ops[1..]))[1..] == Takes(ops[1..]);
        StepUsable(c, op);
        ReadsAreInvisible(Step(b, op), Step(c, op), ops[1..]);
      } else {
        assert Takes(ops) == Takes(ops[1..]) && Decisions(b, ops) == Decisions(Step(b, op), ops[1..]);
        ReadsAreInvisible(Step(b, op), c, ops[1..]);
      }
    }
  }

  /** reset_in: seconds until full; the division fails for a bucket that never refills. */
  datatype Seconds = DivisionByZero | In(seconds: real)

  function ResetIn(b: Bucket): Seconds {
    if b.capacity - b.tokens <= 0.0 then In(0.0)
    else if b.rate == 0.0 then DivisionByZero
    else In((b.capacity - b.tokens) / b.rate)
  }

  /** Python's rounding to two digits, ties to even. */
  function Rounded(x: real): (r: real)
    ensures -0.005 <= r - x <= 0.005
  {
    var y := x * 100.0;
    var f := y.Floor;
    var rest := y - f as real;
    var n := if rest < 0.5 || (rest == 0.5 && f % 2 == 0) then f else f + 1;
    n as real / 100.0
  }

  function Displayed(s: Seconds): Seconds {
    if s.In? then In(Rounded(s.seconds)) else s
  }

  /** Python's int() of a float. */
  function Whole(x: real): int {
    if x >= 0.0 then x.Floor else -((-x).Floor)
  }

  /** An untouched bucket is full after reset_in seconds and at no earlier time. */
  lemma ResetInIsExact(b: Bucket, wait: real)
    requires Usable(b) && wait >= 0.0
    ensures Refill(b, b.last + wait).tokens == b.capacity
       <==> ResetIn(b).In? && wait >= ResetIn(b).seconds
  {
    var missing := b.capacity - b.tokens;
    assert b.last + wait - b.last == wait;
    GainNonNegative(wait, b.rate);
    if missing > 0.0 && b.rate > 0.0 {
      GainReaches(b.rate, wait, missing);
    }
  }

  /** The inflow of a time reaches an amount exactly when the time is the amount over the rate. */
  lemma GainReaches(rate: real, wait: real, missing: real)
    requires rate > 0.0
    ensures Gain(rate, wait) >= missing <==> wait >= missing / rate
  {
    var r := missing / rate;
    assert Gain(rate, r) == missing;
    if wait >= r {
      GainNonNegative(wait - r, rate);
      assert Gain(rate, wait) == Gain(rate, wait - r) + Gain(rate, r);
    } else {
      assert Gain(rate, r - wait) > 0.0;
      assert Gain(rate, r) == Gain(rate, r - wait) + Gain(rate, wait);
    }
  }

  class TokenBucket {
    const capacity: real
    const refillRate: real
    var tokens: real
    var lastRefill: real

    function View(): Bucket
      reads this
    {
      Bucket(capacity, refillRate, tokens, lastRefill)
    }

    constructor (capacity: nat, refillRate: real, now: real)
      ensures View() == Bucket(capacity as real, refillRate, capacity as real, now)
    {
      this.capacity, this.refillRate := capacity as real, refillRate;
      tokens, lastRefill := capacity as real, now;
    }

    method RefillNow(now: real)
      modifies this
      ensures View() == Refill(old(View()), now)
      ensures tokens == (if old(tokens) + (now - old(lastRefill)) * refillRate <= capacity
                         then old(tokens) + (now - old(lastRefill)) * refillRate else capacity)
    {
      var elapsed := now - lastRefill;
      tokens := Min(capacity, tokens + elapsed * refillRate);
      lastRefill := now;
    }

    method ConsumeNow(amount: int, now: real) returns (allowed: bool)
      modifies this
      ensures allowed == Grants(old(View()), now, amount)
      ensures View() == Consume(old(View()), now, amount)
      ensures allowed <==> amount as real <= capacity
                           && amount as real <= old(tokens) + (now - old(lastRefill)) * refillRate
    {
      RefillNow(now);
      if tokens >= amount as real {
        tokens := tokens - amount as real;
        return true;
      }
      return false;
    }

    method Remaining(now: real) returns (r: int)
      modifies this
      ensures View() == Refill(old(View()), now) && r == Whole(View().tokens)
      ensures tokens >= 0.0 ==> r as real <= tokens < (r + 1) as real
    {
      RefillNow(now);
      r := Whole(tokens);
    }

    method ResetInNow(now: real) returns (r: Seconds)
      modifies this
      ensures View() == Refill(old(View()), now) && r == Displayed(ResetIn(View()))
    {
      RefillNow(now);
      var deficit := capacity - tokens;
      if deficit <= 0.0 {
        return In(0.0);
      }
      if refillRate == 0.0 {
        return DivisionByZero;
      }
      r := In(Rounded(deficit / refillRate));
    }
  }
}
