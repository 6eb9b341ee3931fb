/** The orchestrator's per-tenant rate limiter: counters with expiry in a shared store, one per
    minute and one per hour. Times are the store's clock, in seconds. */
module RedisLimiter {
  import opened Options

  // ----- keys -----

  datatype Kind = Minute | Hour

  function Length(k: Kind): nat {
    match k
    case Minute => 60
    case Hour => 3600
  }

  function Label(k: Kind): string {
    match k
    case Minute => "ratelimit:minute:"
    case Hour => "ratelimit:hour:"
  }

  function Digit(d: nat): char
    requires d < 10
  {
    "0123456789"[d]
  }

  function Decimal(n: nat): (s: string)
    ensures s != [] && ':' !in s
  {
    if n < 10 then [Digit(n)] else Decimal(n / 10) + [Digit(n % 10)]
  }

  function Key(k: Kind, tenant: string, window: nat): string {
    Label(k) + tenant + ":" + Decimal(window)
  }

  lemma DigitInjective(a: nat, b: nat)
    requires a < 10 && b < 10 && Digit(a) == Digit(b)
    ensures a == b
  {
  }

  lemma {:induction false} DecimalInjective(m: nat, n: nat)
    requires Decimal(m) == Decimal(n)
    ensures m == n
    decreases m
  {
    var s := Decimal(m);
    if m >= 10 {
      LongDecimal(m);
    }
    if n >= 10 {
      LongDecimal(n);
    }
    if m < 10 && n < 10 {
      DigitInjective(m, n);
    } else if m >= 10 && n >= 10 {
      assert s[..|s| - 1] == Decimal(m / 10) && s[..|s| - 1] == Decimal(n / 10);
      DecimalInjective(m / 10, n / 10);
      assert s[|s| - 1] == Digit(m % 10) == Digit(n % 10);
      DigitInjective(m % 10, n % 10);
    }
  }

  lemma LongDecimal(n: nat)
    requires n >= 10
    ensures |Decimal(n)| >= 2
  {
  }

  lemma NoLaterColon(a: string, x: string)
    requires ':' !in x
    ensures forall i :: |a| < i < |a + ":" + x| ==> (a + ":" + x)[i] != ':'
  {
    forall i | |a| < i < |a + ":" + x| ensures (a + ":" + x)[i] != ':' {
      assert (a + ":" + x)[i] == x[i - |a| - 1];
    }
  }

  /** The last colon separates the tenant from the window number. */
  lemma SplitAtLastColon(a: string, x: string, b: string, y: string)
    requires a + ":" + x == b + ":" + y && ':' !in x && ':' !in y
    ensures a == b && x == y
  {
    var s := a + ":" + x;
    NoLaterColon(a, x);
    NoLaterColon(b, y);
    assert s[|a|] == ':' && s[|b|] == ':';
    assert a == s[..|a|] && b == s[..|b|];
    assert x == s[|a| + 1..] && y == s[|b| + 1..];
  }

  /** Different kind, tenant or window, different key, even for tenants that contain colons. */
  lemma KeyInjective(k: Kind, s: string, v: nat, l: Kind, t: string, w: nat)
    requires Key(k, s, v) == Key(l, t, w)
    ensures k == l && s == t && v == w
  {
    var p, q := Label(k) + s, Label(l) + t;
    SplitAtLastColon(p, Decimal(v), q, Decimal(w));
    DecimalInjective(v, w);
    assert p[10] == Label(k)[10] && q[10] == Label(l)[10];
    assert s == p[|Label(k)|..] && t == q[|Label(l)|..];
  }

  // ----- the store -----

  datatype Entry = Entry(count: nat, expiry: Option<real>)

  type Store = map<string, Entry>

  predicate Live(st: Store, key: string, t: real) {
    key in st && (st[key].expiry.Some? ==> t < st[key].expiry.value)
  }

  function Incr(st: Store, key: string, t: real): Store {
    if Live(st, key, t) then st[key := st[key].(count := st[key].count + 1)] else st[key := Entry(1, None)]
  }

  function Expire(st: Store, key: string, t: real, ttl: real): Store {
    if Live(st, key, t) then st[key := st[key].(expiry := Some(t + ttl))] else st
  }

  // ----- requests -----

  /** A request at time t. A pipeline that fails may have applied its first few commands. */
  datatype Request = Request(tenant: string, t: real, ok: bool, applied: nat)

  function Window(k: Kind, t: real): nat
    requires t >= 0.0
  {
    t.Floor / Length(k)
  }

  predicate Timed(rs: seq<Request>) {
    forall i :: 0 <= i < |rs| ==> rs[i].t >= 0.0
  }

  predicate Applied(r: Request, command: nat) {
    r.tenant != "" && (r.ok || command < r.applied)
  }

  /** The pipeline: increment both counters, then set both expiries. */
  function Apply(st: Store, r: Request): Store
    requires r.t >= 0.0
  {
    var mk, hk := Key(Minute, r.tenant, Window(Minute, r.t)), Key(Hour, r.tenant, Window(Hour, r.t));
    var s1 := if Applied(r, 0) then Incr(st, mk, r.t) else st;
    var s2 := if Applied(r, 1) then Incr(s1, hk, r.t) else s1;
    var s3 := if Applied(r, 2) then Expire(s2, mk, r.t, 120.0) else s2;
    if Applied(r, 3) then Expire(s3, hk, r.t, 7200.0) else s3
  }

  function After(rs: seq<Request>): Store
    requires Timed(rs)
  {
    if rs == [] then map[] else Apply(After(rs[..|rs| - 1]), rs[|rs| - 1])
  }

  /** How many of the requests incremented the counter of that kind, tenant and window. */
  function Count(rs: seq<Request>, k: Kind, tenant: string, w: nat): nat
    requires Timed(rs)
  {
    if rs == [] then 0
    else Count(rs[..|rs| - 1], k, tenant, w) + (if Hits(rs[|rs| - 1], k, tenant, w) then 1 else 0)
  }

  predicate Hits(r: Request, k: Kind, tenant: string, w: nat)
    requires r.t >= 0.0
  {
    r.tenant == tenant && Window(k, r.t) == w && Applied(r, if k == Minute then 0 else 1)
  }

  // ----- counters count -----

  /** The end of a window, before which no counter of that window may expire. */
  function WindowEnd(k: Kind, w: nat): real {
    ((w + 1) * Length(k)) as real
  }

  predicate EntryOk(st: Store, k: Kind, tenant: string, w: nat, n: nat) {
    var key := Key(k, tenant, w);
    && (key !in st ==> n == 0)
    && (key in st ==> st[key].count == n && (st[key].expiry.Some? ==> st[key].expiry.value >= WindowEnd(k, w)))
  }

  lemma WindowBounds(k: Kind, t: real)
    requires t >= 0.0
    ensures (Window(k, t) * Length(k)) as real <= t < WindowEnd(k, Window(k, t))
  {
    var f, n := t.Floor, Length(k);
    assert f == (f / n) * n + f % n;
    assert (f / n + 1) * n == (f / n) * n + n;
    assert (f / n) * n <= f < (f / n + 1) * n;
    assert f as real <= t < (f + 1) as real;
  }

  lemma IncrOk(st: Store, k: Kind, tenant: string, t: real, n: nat)
    requires t >= 0.0 && EntryOk(st, k, tenant, Window(k, t), n)
    ensures EntryOk(Incr(st, Key(k, tenant, Window(k, t)), t), k, tenant, Window(k, t), n + 1)
    ensures Live(Incr(st, Key(k, tenant, Window(k, t)), t), Key(k, tenant, Window(k, t)), t)
  {
    WindowBounds(k, t);
  }

  lemma ExpireOk(st: Store, k: Kind, tenant: string, t: real, n: nat)
    requires t >= 0.0 && EntryOk(st, k, tenant, Window(k, t), n)
    ensures EntryOk(Expire(st, Key(k, tenant, Window(k, t)), t, (2 * Length(k)) as real), k, tenant, Window(k, t), n)
  {
    WindowBounds(k, t);
    ExpiryIsLate(k, Window(k, t), t);
  }

  /** Twice a window's length from any time in it is past its end. */
  lemma ExpiryIsLate(k: Kind, w: nat, t: real)
    requires (w * Length(k)) as real <= t
    ensures t + (2 * Length(k)) as real >= WindowEnd(k, w)
  {
    assert (w + 1) * Length(k) == w * Length(k) + Length(k);
  }

  lemma OtherKey(st: Store, st': Store, key: string, k: Kind, tenant: string, w: nat, n: nat)
    requires EntryOk(st, k, tenant, w, n) && key != Key(k, tenant, w)
    requires forall x :: x != key ==> (x in st <==> x in st')
    requires forall x :: x != key && x in st && x in st' ==> st'[x] == st[x]
    ensures EntryOk(st', k, tenant, w, n)
  {
  }

  /** An increment leaves every other counter alone and counts its own. */
  lemma IncrCounts(st: Store, j: Kind, r: Request, k: Kind, tenant: string, w: nat, n: nat)
    requires r.t >= 0.0 && EntryOk(st, k, tenant, w, n)
    ensures var mine := j == k && r.tenant == tenant && Window(k, r.t) == w;
            EntryOk(Incr(st, Key(j, r.tenant, Window(j, r.t)), r.t), k, tenant, w, if mine then n + 1 else n)
  {
    var key := Key(j, r.tenant, Window(j, r.t));
    if key == Key(k, tenant, w) {
      KeyInjective(j, r.tenant, Window(j, r.t), k, tenant, w);
      IncrOk(st, k, tenant, r.t, n);
    } else {
      OtherKey(st, Incr(st, key, r.t), key, k, tenant, w, n);
    }
  }

  lemma ExpireCounts(st: Store, j: Kind, r: Request, k: Kind, tenant: string, w: nat, n: nat)
    requires r.t >= 0.0 && EntryOk(st, k, tenant, w, n)
    ensures EntryOk(Expire(st, Key(j, r.tenant, Window(j, r.t)), r.t, (2 * Length(j)) as real), k, tenant, w, n)
  {
    var key := Key(j, r.tenant, Window(j, r.t));
    if key == Key(k, tenant, w) {
      KeyInjective(j, r.tenant, Window(j, r.t), k, tenant, w);
      ExpireOk(st, k, tenant, r.t, n);
    } else {
      OtherKey(st, Expire(st, key, r.t, (2 * Length(j)) as real), key, k, tenant, w, n);
    }
  }

  lemma ApplyCounts(st: Store, r: Request, k: Kind, tenant: string, w: nat, n: nat)
    requires r.t >= 0.0 && EntryOk(st, k, tenant, w, n)
    ensures EntryOk(Apply(st, r), k, tenant, w, if Hits(r, k, tenant, w) then n + 1 else n)
  {
    var mk, hk := Key(Minute, r.tenant, Window(Minute, r.t)), Key(Hour, r.tenant, Window(Hour, r.t));
    var s1 := if Applied(r, 0) then Incr(st, mk, r.t) else st;
    var n1 := if k == Minute && Hits(r, k, tenant, w) then n + 1 else n;
    IncrCounts(st, Minute, r, k, tenant, w, n);
    assert EntryOk(s1, k, tenant, w, n1);
    var s2 := if Applied(r, 1) then Incr(s1, hk, r.t) else s1;
    var n2 := if Hits(r, k, tenant, w) then n + 1 else n;
    IncrCounts(s1, Hour, r, k, tenant, w, n1);
    assert EntryOk(s2, k, tenant, w, n2);
    var s3 := if Applied(r, 2) then Expire(s2, mk, r.t, 120.0) else s2;
    ExpireCounts(s2, Minute, r, k, tenant, w, n2);
    assert EntryOk(s3, k, tenant, w, n2);
    ExpireCounts(s3, Hour, r, k, tenant, w, n2);
  }

  /** Every counter is exactly the number of requests that incremented it: expiry never clears a
      counter before its window is over. */
  lemma {:induction false} CountersCount(rs: seq<Request>, k: Kind, tenant: string, w: nat)
    requires Timed(rs)
    ensures EntryOk(After(rs), k, tenant, w, Count(rs, k, tenant, w))
    decreases |rs|
  {
    if rs != [] {
      var n := |rs| - 1;
      CountersCount(rs[..n], k, tenant, w);
      ApplyCounts(After(rs[..n]), rs[n], k, tenant, w, Count(rs[..n], k, tenant, w));
    }
  }

  // ----- answers -----

  datatype Limits = Limits(perMinute: int, perHour: int)

  datatype Answer = Accepted | MinuteLimited | HourLimited | Error

  function Decide(lim: Limits, minute: nat, hour: nat): Answer {
    if minute > lim.perMinute then MinuteLimited else if hour > lim.perHour then HourLimited else Accepted
  }

  /** The answer to the i-th request of a history. */
  function AnswerTo(lim: Limits, rs: seq<Request>, i: nat): Answer
    requires Timed(rs) && i < |rs|
  {
    var r := rs[i];
    if r.tenant == "" || !r.ok then Error
    else Decide(lim, Count(rs[..i + 1], Minute, r.tenant, Window(Minute, r.t)),
                Count(rs[..i + 1], Hour, r.tenant, Window(Hour, r.t)))
  }

  /** The answer by the counts up to the request: an error without a tenant or a working store; else
      limited by the minute when more than perMinute were counted in its minute window, else by the
      hour when more than perHour in its hour window, else accepted. */
  lemma AnswerMeaning(lim: Limits, rs: seq<Request>, i: nat)
    requires Timed(rs) && i < |rs|
    ensures var r, answer := rs[i], AnswerTo(lim, rs, i);
            var minute := Count(rs[..i + 1], Minute, r.tenant, Window(Minute, r.t));
            var hour := Count(rs[..i + 1], Hour, r.tenant, Window(Hour, r.t));
            && (answer == Error <==> r.tenant == "" || !r.ok)
            && (answer == MinuteLimited <==> r.tenant != "" && r.ok && minute > lim.perMinute)
            && (answer == HourLimited <==> r.tenant != "" && r.ok && minute <= lim.perMinute && hour > lim.perHour)
            && (answer == Accepted <==> r.tenant != "" && r.ok && minute <= lim.perMinute && hour <= lim.perHour)
  {
  }

  function OfTenant(rs: seq<Request>, tenant: string): seq<Request> {
    if rs == [] then []
    else OfTenant(rs[..|rs| - 1], tenant) + (if rs[|rs| - 1].tenant == tenant then [rs[|rs| - 1]] else [])
  }

  lemma {:induction false} OfTenantTimed(rs: seq<Request>, tenant: string)
    requires Timed(rs)
    ensures Timed(OfTenant(rs, tenant))
    decreases |rs|
  {
    if rs != [] {
      OfTenantTimed(rs[..|rs| - 1], tenant);
    }
  }

  lemma {:induction false} CountOfTenant(rs: seq<Request>, k: Kind, tenant: string, w: nat)
    requires Timed(rs)
    ensures Timed(OfTenant(rs, tenant)) && Count(OfTenant(rs, tenant), k, tenant, w) == Count(rs, k, tenant, w)
    decreases |rs|
  {
    OfTenantTimed(rs, tenant);
    if rs != [] {
      var n := |rs| - 1;
      CountOfTenant(rs[..n], k, tenant, w);
      if rs[n].tenant == tenant {
        CountSnoc(OfTenant(rs[..n], tenant), rs[n], k, tenant, w);
      } else {
        assert OfTenant(rs, tenant) == OfTenant(rs[..n], tenant);
      }
    }
  }

  /** Tenants do not affect each other: leaving out all other tenants' requests leaves a tenant's
      acceptances in every span as they were. */
  lemma {:induction false} TenantsAreIndependent(lim: Limits, rs: seq<Request>, tenant: string, a: real, e: real)
    requires Timed(rs)
    ensures Timed(OfTenant(rs, tenant))
    ensures AcceptedWithin(lim, OfTenant(rs, tenant), tenant, a, e) == AcceptedWithin(lim, rs, tenant, a, e)
    decreases |rs|
  {
    if rs != [] {
      var n := |rs| - 1;
      TenantsAreIndependent(lim, rs[..n], tenant, a, e);
      OfTenantTimed(rs, tenant);
      if rs[n].tenant == tenant {
        SameAnswer(lim, rs, tenant);
      } else {
        assert OfTenant(rs, tenant) == OfTenant(rs[..n], tenant);
      }
    }
  }

  lemma SameAnswer(lim: Limits, rs: seq<Request>, tenant: string)
    requires Timed(rs) && rs != [] && rs[|rs| - 1].tenant == tenant
    ensures var mine := OfTenant(rs, tenant);
            && Timed(mine) && mine != [] && mine[|mine| - 1] == rs[|rs| - 1]
            && mine[..|mine| - 1] == OfTenant(rs[..|rs| - 1], tenant)
            && AnswerTo(lim, mine, |mine| - 1) == AnswerTo(lim, rs, |rs| - 1)
  {
    var mine, r := OfTenant(rs, tenant), rs[|rs| - 1];
    assert mine[..|mine| - 1] == OfTenant(rs[..|rs| - 1], tenant);
    CountOfTenant(rs, Minute, tenant, Window(Minute, r.t));
    CountOfTenant(rs, Hour, tenant, Window(Hour, r.t));
    assert rs[..|rs|] == rs && mine[..|mine|] == mine;
  }

  /** How many requests of a tenant were accepted in a window. */
  function AcceptedIn(lim: Limits, rs: seq<Request>, k: Kind, tenant: string, w: nat): nat
    requires Timed(rs)
  {
    if rs == [] then 0
    else
      var n := |rs| - 1;
      AcceptedIn(lim, rs[..n], k, tenant, w)
      + (if rs[n].tenant == tenant && Window(k, rs[n].t) == w && AnswerTo(lim, rs, n) == Accepted then 1 else 0)
  }

  /** What a limit allows: nothing if it is negative. */
  function Bound(limit: int): nat {
    if limit < 0 then 0 else limit
  }

  /** With fixed limits no window accepts more than its limit. */
  lemma {:induction false} WindowBound(lim: Limits, rs: seq<Request>, k: Kind, tenant: string, w: nat)
    requires Timed(rs)
    ensures AcceptedIn(lim, rs, k, tenant, w) <= Count(rs, k, tenant, w)
    ensures AcceptedIn(lim, rs, k, tenant, w) <= Bound(if k == Minute then lim.perMinute else lim.perHour)
    decreases |rs|
  {
    if rs != [] {
      var n := |rs| - 1;
      WindowBound(lim, rs[..n], k, tenant, w);
      assert rs[..n + 1] == rs;
    }
  }

  lemma {:induction false} CountGrows(rs: seq<Request>, i: nat, j: nat, k: Kind, tenant: string, w: nat)
    requires Timed(rs) && i <= j <= |rs|
    ensures Count(rs[..i], k, tenant, w) <= Count(rs[..j], k, tenant, w)
    decreases j - i
  {
    if i < j {
      assert rs[..j][..j - 1] == rs[..j - 1];
      CountGrows(rs, i, j - 1, k, tenant, w);
    }
  }

  lemma HourOfMinute(t: real)
    requires t >= 0.0
    ensures Window(Hour, t) == Window(Minute, t) / 60
  {
    assert forall x: nat :: x / 60 / 60 == x / 3600;
  }

  /** Within a minute window the accepted requests come first: if one is accepted, so is every
      earlier one of the same tenant and window whose pipeline went through. */
  lemma AcceptancesArePrefix(lim: Limits, rs: seq<Request>, i: nat, j: nat)
    requires Timed(rs) && i < j < |rs| && rs[i].tenant == rs[j].tenant && rs[i].ok
    requires Window(Minute, rs[i].t) == Window(Minute, rs[j].t)
    requires AnswerTo(lim, rs, j) == Accepted
    ensures AnswerTo(lim, rs, i) == Accepted
  {
    var tenant := rs[i].tenant;
    HourOfMinute(rs[i].t);
    HourOfMinute(rs[j].t);
    CountGrows(rs, i + 1, j + 1, Minute, tenant, Window(Minute, rs[i].t));
    CountGrows(rs, i + 1, j + 1, Hour, tenant, Window(Hour, rs[i].t));
  }

  // ----- any sixty seconds -----

  /** Requests of a tenant accepted at times between a and e. */
  function AcceptedWithin(lim: Limits, rs: seq<Request>, tenant: string, a: real, e: real): nat
    requires Timed(rs)
  {
    if rs == [] then 0
    else
      var n := |rs| - 1;
      AcceptedWithin(lim, rs[..n], tenant, a, e)
      + (if rs[n].tenant == tenant && a <= rs[n].t <= e && AnswerTo(lim, rs, n) == Accepted then 1 else 0)
  }

  lemma WindowMonotone(t: real, u: real)
    requires 0.0 <= t <= u
    ensures Window(Minute, t) <= Window(Minute, u)
    ensures u <= t + 60.0 ==> Window(Minute, u) <= Window(Minute, t) + 1
  {
    assert t.Floor <= u.Floor;
    if u <= t + 60.0 {
      assert u.Floor <= t.Floor + 60;
      assert (t.Floor + 60) / 60 == t.Floor / 60 + 1;
    }
  }

  lemma {:induction false} SpanSplits(lim: Limits, rs: seq<Request>, tenant: string, a: real, e: real)
    requires Timed(rs) && 0.0 <= a <= e <= a + 60.0
    ensures var v, w := Window(Minute, a), Window(Minute, e);
            AcceptedWithin(lim, rs, tenant, a, e)
            <= AcceptedIn(lim, rs, Minute, tenant, v) + (if w == v then 0 else AcceptedIn(lim, rs, Minute, tenant, w))
    decreases |rs|
  {
    if rs != [] {
      var n := |rs| - 1;
      SpanSplits(lim, rs[..n], tenant, a, e);
      if a <= rs[n].t <= e {
        WindowMonotone(a, rs[n].t);
        WindowMonotone(rs[n].t, e);
        WindowMonotone(a, e);
      }
    }
  }

  /** In any sixty seconds at most twice the minute limit is accepted. */
  lemma SixtySecondBound(lim: Limits, rs: seq<Request>, tenant: string, a: real)
    requires Timed(rs) && a >= 0.0 && lim.perMinute >= 0
    ensures AcceptedWithin(lim, rs, tenant, a, a + 60.0) <= 2 * lim.perMinute
  {
    SpanSplits(lim, rs, tenant, a, a + 60.0);
    WindowBound(lim, rs, Minute, tenant, Window(Minute, a));
    WindowBound(lim, rs, Minute, tenant, Window(Minute, a + 60.0));
  }

  function Min(a: nat, b: nat): nat {
    if a <= b then a else b
  }

  /** The most that a span of at most sixty seconds can accept. */
  function SpanCap(lim: Limits, a: real, e: real): nat
    requires 0.0 <= a <= e
  {
    var m, h := Bound(lim.perMinute), Bound(lim.perHour);
    if Window(Minute, a) == Window(Minute, e) then Min(m, h)
    else if Window(Hour, a) == Window(Hour, e) then Min(2 * m, h)
    else 2 * Min(m, h)
  }

  lemma {:induction false} MinuteWithinHour(lim: Limits, rs: seq<Request>, tenant: string, w: nat)
    requires Timed(rs)
    ensures AcceptedIn(lim, rs, Minute, tenant, w) <= AcceptedIn(lim, rs, Hour, tenant, w / 60)
    decreases |rs|
  {
    if rs != [] {
      var n := |rs| - 1;
      MinuteWithinHour(lim, rs[..n], tenant, w);
      HourOfMinute(rs[n].t);
    }
  }

  /** A minute window accepts at most the smaller limit. */
  lemma MinuteCap(lim: Limits, rs: seq<Request>, tenant: string, w: nat)
    requires Timed(rs)
    ensures AcceptedIn(lim, rs, Minute, tenant, w) <= Min(Bound(lim.perMinute), Bound(lim.perHour))
  {
    MinuteWithinHour(lim, rs, tenant, w);
    WindowBound(lim, rs, Minute, tenant, w);
    WindowBound(lim, rs, Hour, tenant, w / 60);
  }

  lemma {:induction false} SpanWithinHour(lim: Limits, rs: seq<Request>, tenant: string, a: real, e: real)
    requires Timed(rs) && 0.0 <= a <= e && Window(Hour, a) == Window(Hour, e)
    ensures AcceptedWithin(lim, rs, tenant, a, e) <= AcceptedIn(lim, rs, Hour, tenant, Window(Hour, a))
    decreases |rs|
  {
    if rs != [] {
      var n := |rs| - 1;
      SpanWithinHour(lim, rs[..n], tenant, a, e);
      if a <= rs[n].t <= e {
        assert a.Floor <= rs[n].t.Floor <= e.Floor;
      }
    }
  }

  lemma SpanBound(lim: Limits, rs: seq<Request>, tenant: string, a: real, e: real)
    requires Timed(rs) && 0.0 <= a <= e <= a + 60.0
    ensures AcceptedWithin(lim, rs, tenant, a, e) <= SpanCap(lim, a, e)
  {
    SpanSplits(lim, rs, tenant, a, e);
    MinuteCap(lim, rs, tenant, Window(Minute, a));
    MinuteCap(lim, rs, tenant, Window(Minute, e));
    if Window(Hour, a) == Window(Hour, e) {
      SpanWithinHour(lim, rs, tenant, a, e);
      WindowBound(lim, rs, Hour, tenant, Window(Hour, a));
    }
  }

  /** m requests at time a and then n at time e. */
  function Bursts(tenant: string, a: real, m: nat, e: real, n: nat): seq<Request> {
    if n > 0 then Bursts(tenant, a, m, e, n - 1) + [Request(tenant, e, true, 4)]
    else if m > 0 then Bursts(tenant, a, m - 1, e, 0) + [Request(tenant, a, true, 4)]
    else []
  }

  lemma CountSnoc(rs: seq<Request>, r: Request, k: Kind, tenant: string, w: nat)
    requires Timed(rs) && r.t >= 0.0
    ensures Timed(rs + [r])
    ensures Count(rs + [r], k, tenant, w) == Count(rs, k, tenant, w) + (if Hits(r, k, tenant, w) then 1 else 0)
  {
    assert (rs + [r])[..|rs|] == rs;
  }

  /** One more request of the tenant that finds room in both its windows is accepted. */
  lemma AcceptedSnoc(lim: Limits, rs: seq<Request>, r: Request, a: real, e: real)
    requires Timed(rs) && r.t >= 0.0 && r.tenant != "" && r.ok && a <= r.t <= e
    requires Count(rs, Minute, r.tenant, Window(Minute, r.t)) < lim.perMinute
    requires Count(rs, Hour, r.tenant, Window(Hour, r.t)) < lim.perHour
    ensures Timed(rs + [r])
    ensures AcceptedWithin(lim, rs + [r], r.tenant, a, e) == AcceptedWithin(lim, rs, r.tenant, a, e) + 1
  {
    var all := rs + [r];
    CountSnoc(rs, r, Minute, r.tenant, Window(Minute, r.t));
    CountSnoc(rs, r, Hour, r.tenant, Window(Hour, r.t));
    assert all[..|rs|] == rs && all[..|rs| + 1] == all;
    assert AnswerTo(lim, all, |rs|) == Accepted;
  }

  lemma {:induction false} BurstsCount(tenant: string, a: real, m: nat, e: real, n: nat, k: Kind, w: nat)
    requires tenant != "" && 0.0 <= a <= e
    ensures Timed(Bursts(tenant, a, m, e, n))
    ensures Count(Bursts(tenant, a, m, e, n), k, tenant, w)
         == (if Window(k, a) == w then m else 0) + (if Window(k, e) == w then n else 0)
    decreases m + n
  {
    if n > 0 {
      BurstsCount(tenant, a, m, e, n - 1, k, w);
      CountSnoc(Bursts(tenant, a, m, e, n - 1), Request(tenant, e, true, 4), k, tenant, w);
    } else if m > 0 {
      BurstsCount(tenant, a, m - 1, e, 0, k, w);
      CountSnoc(Bursts(tenant, a, m - 1, e, 0), Request(tenant, a, true, 4), k, tenant, w);
    }
  }

  /** m and n requests at the ends of a span stay within the limit of one kind of window. */
  predicate Fits(k: Kind, limit: int, a: real, m: nat, e: real, n: nat)
    requires 0.0 <= a <= e
  {
    if Window(k, a) == Window(k, e) then m + n <= limit || m + n == 0
    else (m <= limit || m == 0) && (n <= limit || n == 0)
  }

  /** Before the last request the counter has room for it. */
  lemma RoomForLast(k: Kind, limit: int, tenant: string, a: real, m: nat, e: real, n: nat)
    requires tenant != "" && 0.0 <= a <= e && n > 0 && Fits(k, limit, a, m, e, n)
    ensures Timed(Bursts(tenant, a, m, e, n - 1))
    ensures Count(Bursts(tenant, a, m, e, n - 1), k, tenant, Window(k, e)) < limit
    ensures Fits(k, limit, a, m, e, n - 1)
  {
    BurstsCount(tenant, a, m, e, n - 1, k, Window(k, e));
  }

  lemma RoomForFirst(k: Kind, limit: int, tenant: string, a: real, m: nat, e: real)
    requires tenant != "" && 0.0 <= a <= e && m > 0 && Fits(k, limit, a, m, e, 0)
    ensures Timed(Bursts(tenant, a, m - 1, e, 0))
    ensures Count(Bursts(tenant, a, m - 1, e, 0), k, tenant, Window(k, a)) < limit
    ensures Fits(k, limit, a, m - 1, e, 0)
  {
    BurstsCount(tenant, a, m - 1, e, 0, k, Window(k, a));
  }

  predicate BothFit(lim: Limits, a: real, m: nat, e: real, n: nat)
    requires 0.0 <= a <= e
  {
    Fits(Minute, lim.perMinute, a, m, e, n) && Fits(Hour, lim.perHour, a, m, e, n)
  }

  lemma LastAccepted(lim: Limits, tenant: string, a: real, m: nat, e: real, n: nat)
    requires tenant != "" && 0.0 <= a <= e && n > 0 && BothFit(lim, a, m, e, n)
    ensures BothFit(lim, a, m, e, n - 1)
    ensures Timed(Bursts(tenant, a, m, e, n - 1)) && Timed(Bursts(tenant, a, m, e, n))
    ensures AcceptedWithin(lim, Bursts(tenant, a, m, e, n), tenant, a, e)
         == AcceptedWithin(lim, Bursts(tenant, a, m, e, n - 1), tenant, a, e) + 1
  {
    RoomForLast(Minute, lim.perMinute, tenant, a, m, e, n);
    RoomForLast(Hour, lim.perHour, tenant, a, m, e, n);
    AcceptedSnoc(lim, Bursts(tenant, a, m, e, n - 1), Request(tenant, e, true, 4), a, e);
  }

  lemma FirstAccepted(lim: Limits, tenant: string, a: real, m: nat, e: real)
    requires tenant != "" && 0.0 <= a <= e && m > 0 && BothFit(lim, a, m, e, 0)
    ensures BothFit(lim, a, m - 1, e, 0)
    ensures Timed(Bursts(tenant, a, m - 1, e, 0)) && Timed(Bursts(tenant, a, m, e, 0))
    ensures AcceptedWithin(lim, Bursts(tenant, a, m, e, 0), tenant, a, e)
         == AcceptedWithin(lim, Bursts(tenant, a, m - 1, e, 0), tenant, a, e) + 1
  {
    RoomForFirst(Minute, lim.perMinute, tenant, a, m, e);
    RoomForFirst(Hour, lim.perHour, tenant, a, m, e);
    AcceptedSnoc(lim, Bursts(tenant, a, m - 1, e, 0), Request(tenant, a, true, 4), a, e);
  }

  lemma {:induction false} BurstsAccepted(lim: Limits, tenant: string, a: real, m: nat, e: real, n: nat)
    requires tenant != "" && 0.0 <= a <= e && BothFit(lim, a, m, e, n)
    ensures Timed(Bursts(tenant, a, m, e, n))
    ensures AcceptedWithin(lim, Bursts(tenant, a, m, e, n), tenant, a, e) == m + n
    decreases m + n
  {
    if n > 0 {
      LastAccepted(lim, tenant, a, m, e, n);
      BurstsAccepted(lim, tenant, a, m, e, n - 1);
    } else if m > 0 {
      FirstAccepted(lim, tenant, a, m, e);
      BurstsAccepted(lim, tenant, a, m - 1, e, 0);
    }
  }

  /** A span of at most sixty seconds accepts at most its cap in every history, and exactly its cap
      in some: twice the minute limit if it crosses a minute and the hour limit leaves room. */
  lemma SpanCapIsMaximum(lim: Limits, tenant: string, a: real, e: real)
    requires tenant != "" && 0.0 <= a <= e <= a + 60.0
    ensures forall rs :: Timed(rs) ==> AcceptedWithin(lim, rs, tenant, a, e) <= SpanCap(lim, a, e)
    ensures exists rs :: Timed(rs) && AcceptedWithin(lim, rs, tenant, a, e) == SpanCap(lim, a, e)
  {
    forall rs | Timed(rs) ensures AcceptedWithin(lim, rs, tenant, a, e) <= SpanCap(lim, a, e) {
      SpanBound(lim, rs, tenant, a, e);
    }
    var m := Min(Bound(lim.perMinute), Bound(lim.perHour));
    HourOfMinute(a);
    HourOfMinute(e);
    BurstsAccepted(lim, tenant, a, m, e, SpanCap(lim, a, e) - m);
  }

  /** The "sliding window" promise, at most perMinute acceptances in the span from a to e for
      every history, holds exactly when the span lies within one minute window, or nothing is ever
      accepted, or the hour limit is too small for the excess. */
  lemma SlidingPromiseIff(lim: Limits, tenant: string, a: real, e: real)
    requires tenant != "" && 0.0 <= a <= e <= a + 60.0
    ensures (forall rs :: Timed(rs) ==> AcceptedWithin(lim, rs, tenant, a, e) <= Bound(lim.perMinute))
       <==> || Window(Minute, a) == Window(Minute, e)
            || lim.perMinute <= 0
            || (if Window(Hour, a) == Window(Hour, e) then lim.perHour else 2 * lim.perHour) <= lim.perMinute
  {
    SpanCapIsMaximum(lim, tenant, a, e);
    var rs :| Timed(rs) && AcceptedWithin(lim, rs, tenant, a, e) == SpanCap(lim, a, e);
  }

  // ----- the object -----

  class RateLimiter {
    var store: Store
    var limits: Limits
    ghost var history: seq<Request>

    ghost predicate Tracks()
      reads this
    {
      Timed(history) && store == After(history)
    }

    constructor ()
      ensures Tracks() && history == [] && limits == Limits(100, 1000)
    {
      store, limits, history := map[], Limits(100, 1000), [];
    }

    /** The stored counters decide as the history does. `later` is the clock when the waiting time
        is computed. */
    method Allow(r: Request, later: real) returns (answer: Answer, wait: real)
      requires Tracks() && r.t >= 0.0
      modifies this
      ensures Tracks() && history == old(history) + [r] && limits == old(limits)
      ensures answer == AnswerTo(limits, history, |history| - 1)
      ensures wait == match answer
                      case MinuteLimited => WindowEnd(Minute, Window(Minute, r.t)) - later
                      case HourLimited => WindowEnd(Hour, Window(Hour, r.t)) - later
                      case _ => 0.0
    {
      LastAnswer(limits, history, r);
      history := history + [r];
      if r.tenant == "" {
        return Error, 0.0;
      }
      store := Apply(store, r);
      if !r.ok {
        return Error, 0.0;
      }
      StoredCount(old(history), r, Minute);
      StoredCount(old(history), r, Hour);
      var minute := store[Key(Minute, r.tenant, Window(Minute, r.t))].count;
      var hour := store[Key(Hour, r.tenant, Window(Hour, r.t))].count;
      if minute > limits.perMinute {
        return MinuteLimited, WindowEnd(Minute, Window(Minute, r.t)) - later;
      }
      if hour > limits.perHour {
        return HourLimited, WindowEnd(Hour, Window(Hour, r.t)) - later;
      }
      return Accepted, 0.0;
    }

    /** The counters and the history they stand for are kept, so that the next request is judged
        on all requests so far. */
    method SetLimits(perMinute: int, perHour: int)
      requires Tracks()
      modifies this`limits
      ensures Tracks() && limits == Limits(perMinute, perHour)
    {
      limits := Limits(perMinute, perHour);
    }
  }

  /** A limited request waits until the first time that is not in its window. */
  lemma WindowLasts(k: Kind, t: real)
    requires t >= 0.0
    ensures forall u :: u >= t ==> (Window(k, u) == Window(k, t) <==> u < WindowEnd(k, Window(k, t)))
  {
    forall u | u >= t ensures Window(k, u) == Window(k, t) <==> u < WindowEnd(k, Window(k, t)) {
      WindowBounds(k, t);
      WindowBounds(k, u);
      var v, w := Window(k, t), Window(k, u);
      assert v <= w by { assert t.Floor <= u.Floor; }
      if v < w {
        assert (v + 1) * Length(k) <= w * Length(k);
      }
    }
  }

  /** A request that goes through leaves both its counters to expire twice their window's length
      later. */
  lemma ExpiryRefreshed(st: Store, r: Request, k: Kind)
    requires r.t >= 0.0 && r.tenant != "" && r.ok
    ensures var key := Key(k, r.tenant, Window(k, r.t));
            key in Apply(st, r) && Apply(st, r)[key].expiry == Some(r.t + (if k == Minute then 120.0 else 7200.0))
  {
    var mk, hk := Key(Minute, r.tenant, Window(Minute, r.t)), Key(Hour, r.tenant, Window(Hour, r.t));
    if mk == hk {
      KeyInjective(Minute, r.tenant, Window(Minute, r.t), Hour, r.tenant, Window(Hour, r.t));
    }
  }

  lemma LastAnswer(lim: Limits, rs: seq<Request>, r: Request)
    requires Timed(rs) && r.t >= 0.0
    ensures Timed(rs + [r]) && After(rs + [r]) == Apply(After(rs), r)
    ensures AnswerTo(lim, rs + [r], |rs|)
         == if r.tenant == "" || !r.ok then Error
            else Decide(lim, Count(rs + [r], Minute, r.tenant, Window(Minute, r.t)),
                        Count(rs + [r], Hour, r.tenant, Window(Hour, r.t)))
  {
    var all := rs + [r];
    assert all[..|rs|] == rs && all[..|rs| + 1] == all;
  }

  /** The counter a request reads back is the number of requests so far in its window. */
  lemma StoredCount(rs: seq<Request>, r: Request, k: Kind)
    requires Timed(rs) && r.t >= 0.0 && r.tenant != "" && r.ok
    ensures Timed(rs + [r])
    ensures var key := Key(k, r.tenant, Window(k, r.t));
            && key in Apply(After(rs), r)
            && Apply(After(rs), r)[key].count == Count(rs + [r], k, r.tenant, Window(k, r.t))
  {
    var w := Window(k, r.t);
    CountersCount(rs, k, r.tenant, w);
    ApplyCounts(After(rs), r, k, r.tenant, w, Count(rs, k, r.tenant, w));
    CountSnoc(rs, r, k, r.tenant, w);
  }
}
