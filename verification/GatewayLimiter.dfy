/** The gateway's per-client rate limiter: one token bucket per client, sized by the role the
    client had when it was first seen. */
module GatewayLimiter {
  import opened TokenBuckets

  type Client = string

  /** Requests per minute. */
  function RoleLimit(role: string): (n: nat)
    ensures n == (match role case "admin" => 200 case "user" => 60 case "readonly" => 10 case _ => 10)
  {
    if role == "admin" then 200 else if role == "user" then 60 else 10
  }

  function NewBucket(role: string, now: real): (b: Bucket)
    ensures Valid(b) && b.last == now
    ensures b.tokens == b.capacity == b.rate * 60.0 == RoleLimit(role) as real
  {
    Bucket(RoleLimit(role) as real, RoleLimit(role) as real / 60.0, RoleLimit(role) as real, now)
  }

  lemma NewBucketAllows(role: string, now: real)
    ensures Grants(NewBucket(role, now), now, 1)
  {
    var b := NewBucket(role, now);
    var zero := now - b.last;
    assert zero * b.rate == 0.0;
    GrantsToken(b, now);
  }

  /** One request: consume one token at `now`, read `remaining` at `mid` and `reset_in` at `end`. */
  datatype Request = Request(client: Client, role: string, now: real, mid: real, end: real)

  function Ops(r: Request): seq<Op> {
    [Take(r.now, 1), Read(r.mid), Read(r.end)]
  }

  /** The bucket a request finds. */
  function Found(buckets: map<Client, Bucket>, r: Request): Bucket {
    if r.client in buckets then buckets[r.client] else NewBucket(r.role, r.now)
  }

  predicate Allowed(buckets: map<Client, Bucket>, r: Request) {
    Grants(Found(buckets, r), r.now, 1)
  }

  function Check(buckets: map<Client, Bucket>, r: Request): map<Client, Bucket> {
    buckets[r.client := TokenBuckets.Exec(Found(buckets, r), Ops(r))]
  }

  function Run(buckets: map<Client, Bucket>, rs: seq<Request>): map<Client, Bucket>
    decreases |rs|
  {
    if rs == [] then buckets else Run(Check(buckets, rs[0]), rs[1..])
  }

  /** The answers given to one client. */
  function Answers(buckets: map<Client, Bucket>, rs: seq<Request>, c: Client): seq<bool>
    decreases |rs|
  {
    if rs == [] then []
    else (if rs[0].client == c then [Allowed(buckets, rs[0])] else []) + Answers(Check(buckets, rs[0]), rs[1..], c)
  }

  function Of(rs: seq<Request>, c: Client): seq<Request>
    decreases |rs|
  {
    if rs == [] then [] else (if rs[0].client == c then [rs[0]] else []) + Of(rs[1..], c)
  }

  /** Clients do not affect each other: a client's answers and bucket are the same when every
      other client's requests are left out, in every interleaving. */
  lemma {:induction false} ClientsAreIndependent(m: map<Client, Bucket>, n: map<Client, Bucket>, rs: seq<Request>, c: Client)
    requires c in m <==> c in n
    requires c in m ==> m[c] == n[c]
    ensures Answers(m, rs, c) == Answers(n, Of(rs, c), c)
    ensures c in Run(m, rs) <==> c in Run(n, Of(rs, c))
    ensures c in Run(m, rs) ==> Run(m, rs)[c] == Run(n, Of(rs, c))[c]
    decreases |rs|
  {
    if rs != [] {
      var r := rs[0];
      if r.client == c {
        assert ([r] + Of(rs[1..], c))[1..] == Of(rs[1..], c);
        ClientsAreIndependent(Check(m, r), Check(n, r), rs[1..], c);
      } else {
        assert Of(rs, c) == Of(rs[1..], c) && Answers(m, rs, c) == Answers(Check(m, r), rs[1..], c);
        ClientsAreIndependent(Check(m, r), n, rs[1..], c);
      }
    }
  }

  // ----- the bound for one client -----

  predicate Ordered(from: real, rs: seq<Request>)
    decreases |rs|
  {
    rs != [] ==> from <= rs[0].now <= rs[0].mid <= rs[0].end && Ordered(rs[0].end, rs[1..])
  }

  function AllOps(rs: seq<Request>): seq<Op>
    decreases |rs|
  {
    if rs == [] then [] else Ops(rs[0]) + AllOps(rs[1..])
  }

  /** Requests of client c allowed at times between s and e. */
  function AllowedWithin(m: map<Client, Bucket>, rs: seq<Request>, c: Client, s: real, e: real): nat
    decreases |rs|
  {
    if rs == [] then 0
    else (if rs[0].client == c && s <= rs[0].now <= e && Allowed(m, rs[0]) then 1 else 0)
         + AllowedWithin(Check(m, rs[0]), rs[1..], c, s, e)
  }

  lemma OpsRun(b: Bucket, r: Request, rest: seq<Op>, s: real, e: real)
    ensures var b' := TokenBuckets.Exec(b, Ops(r));
            GrantedWithin(b, Ops(r) + rest, s, e)
            == (if s <= r.now <= e && Grants(b, r.now, 1) then 1.0 else 0.0) + GrantedWithin(b', rest, s, e)
  {
    var ops := Ops(r);
    var all := ops + rest;
    var b1 := Consume(b, r.now, 1);
    var b2 := Refill(b1, r.mid);
    var b3 := Refill(b2, r.end);
    assert all[1..] == [Read(r.mid), Read(r.end)] + rest;
    assert all[1..][1..] == [Read(r.end)] + rest;
    assert all[1..][1..][1..] == rest;
    assert ops[1..] == [Read(r.mid), Read(r.end)] && ops[1..][1..] == [Read(r.end)] && ops[1..][1..][1..] == [];
    assert TokenBuckets.Exec(b2, ops[1..][1..]) == b3;
    assert TokenBuckets.Exec(b1, ops[1..]) == b3;
    assert GrantedWithin(b2, all[1..][1..], s, e) == GrantedWithin(b3, rest, s, e);
    assert GrantedWithin(b1, all[1..], s, e) == GrantedWithin(b2, all[1..][1..], s, e);
  }

  lemma {:induction false} AllowedIsGranted(m: map<Client, Bucket>, rs: seq<Request>, c: Client, s: real, e: real)
    requires c in m && forall i :: 0 <= i < |rs| ==> rs[i].client == c
    ensures AllowedWithin(m, rs, c, s, e) as real == GrantedWithin(m[c], AllOps(rs), s, e)
    decreases |rs|
  {
    if rs != [] {
      OpsRun(m[c], rs[0], AllOps(rs[1..]), s, e);
      AllowedIsGranted(Check(m, rs[0]), rs[1..], c, s, e);
    }
  }

  lemma {:induction false} OpsInOrder(from: real, rs: seq<Request>)
    requires Ordered(from, rs)
    ensures InOrder(from, AllOps(rs))
    decreases |rs|
  {
    if rs != [] {
      OpsInOrder(rs[0].end, rs[1..]);
      var r, rest := rs[0], AllOps(rs[1..]);
      var all := Ops(r) + rest;
      assert all[1..] == [Read(r.mid), Read(r.end)] + rest;
      assert all[1..][1..] == [Read(r.end)] + rest;
      assert all[1..][1..][1..] == rest;
      assert InOrder(r.now, all[1..]) by {
        assert InOrder(r.mid, all[1..][1..]);
      }
    }
  }

  lemma {:induction false} AllowedOnlyOf(m: map<Client, Bucket>, n: map<Client, Bucket>, rs: seq<Request>, c: Client, s: real, e: real)
    requires c in m <==> c in n
    requires c in m ==> m[c] == n[c]
    ensures AllowedWithin(m, rs, c, s, e) == AllowedWithin(n, Of(rs, c), c, s, e)
    ensures forall i :: 0 <= i < |Of(rs, c)| ==> Of(rs, c)[i].client == c
    decreases |rs|
  {
    if rs != [] {
      if rs[0].client == c {
        assert ([rs[0]] + Of(rs[1..], c))[1..] == Of(rs[1..], c);
        AllowedOnlyOf(Check(m, rs[0]), Check(n, rs[0]), rs[1..], c, s, e);
      } else {
        assert Of(rs, c) == Of(rs[1..], c);
        AllowedOnlyOf(Check(m, rs[0]), n, rs[1..], c, s, e);
      }
    }
  }

  lemma {:induction false} OfOrdered(from: real, rs: seq<Request>, c: Client)
    requires Ordered(from, rs)
    ensures Ordered(from, Of(rs, c))
    decreases |rs|
  {
    if rs != [] {
      OfOrdered(rs[0].end, rs[1..], c);
      if rs[0].client == c {
        assert ([rs[0]] + Of(rs[1..], c))[1..] == Of(rs[1..], c);
      } else {
        assert Of(rs, c) == Of(rs[1..], c);
        LaterOrdered(from, rs[0].end, Of(rs[1..], c));
      }
    }
  }

  lemma LaterOrdered(from: real, later: real, rs: seq<Request>)
    requires from <= later && Ordered(later, rs)
    ensures Ordered(from, rs)
  {
  }

  /** Whatever the other clients do, a client whose bucket has limit L per minute is allowed at
      most L + L * d / 60 requests in any span of d seconds: twice its limit in a minute. */
  lemma ClientBound(m: map<Client, Bucket>, rs: seq<Request>, c: Client, s: real, e: real)
    requires c in m && Usable(m[c]) && Ordered(m[c].last, rs) && s <= e
    ensures AllowedWithin(m, rs, c, s, e) as real <= m[c].capacity + Gain(m[c].rate, e - s)
  {
    AllowedOnlyOf(m, m, rs, c, s, e);
    OfOrdered(m[c].last, rs, c);
    OpsInOrder(m[c].last, Of(rs, c));
    AllowedIsGranted(m, Of(rs, c), c, s, e);
    GrantBound(m[c], AllOps(Of(rs, c)), s, e);
  }

  /** A client the limiter has not seen gets a full bucket for the role of its first request,
      and then the same bound holds with that role's limit. */
  lemma NewClientBound(m: map<Client, Bucket>, rs: seq<Request>, c: Client, from: real, s: real, e: real)
    requires c !in m && Ordered(from, rs) && s <= e && Of(rs, c) != []
    ensures var limit := RoleLimit(Of(rs, c)[0].role) as real;
            AllowedWithin(m, rs, c, s, e) as real <= limit + Gain(limit / 60.0, e - s)
  {
    var mine := Of(rs, c);
    AllowedOnlyOf(m, m, rs, c, s, e);
    OfOrdered(from, rs, c);
    var full := NewBucket(mine[0].role, mine[0].now);
    var m' := m[c := full];
    assert Check(m, mine[0]) == Check(m', mine[0]);
    assert AllowedWithin(m, mine, c, s, e) == AllowedWithin(m', mine, c, s, e);
    assert Ordered(full.last, mine);
    ClientBound(m', mine, c, s, e);
  }

  // ----- what is surely allowed -----

  /** A request on a bucket with at least k + 1 tokens is allowed and leaves at least k. */
  lemma TokensLeft(b: Bucket, r: Request, k: nat)
    requires Usable(b) && b.last <= r.now <= r.mid <= r.end
    requires (k + 1) as real <= b.tokens && (k + 1) as real <= b.capacity
    ensures Grants(b, r.now, 1)
    ensures var b' := TokenBuckets.Exec(b, Ops(r));
            Usable(b') && b'.last == r.end && b'.capacity == b.capacity && b'.rate == b.rate && b'.tokens >= k as real
  {
    var b1 := Consume(b, r.now, 1);
    GainNonNegative(r.now - b.last, b.rate);
    ConsumeMeaning(b, r.now, 1);
    RefillValid(b1, r.mid);
    RefillValid(Refill(b1, r.mid), r.end);
    ExecOps(b, r);
  }

  lemma {:induction false} TokensSuffice(m: map<Client, Bucket>, rs: seq<Request>, c: Client)
    requires c in m && Usable(m[c]) && Ordered(m[c].last, rs) && (forall i :: 0 <= i < |rs| ==> rs[i].client == c)
    requires |rs| as real <= m[c].tokens && |rs| as real <= m[c].capacity
    ensures |Answers(m, rs, c)| == |rs| && forall i :: 0 <= i < |rs| ==> Answers(m, rs, c)[i]
    decreases |rs|
  {
    if rs != [] {
      TokensLeft(m[c], rs[0], |rs| - 1);
      TokensSuffice(Check(m, rs[0]), rs[1..], c);
    }
  }

  /** Whatever the other clients do and whenever they come, a new client's first requests are all
      allowed, as many as the limit of its first role. */
  lemma FirstRequestsAllowed(m: map<Client, Bucket>, rs: seq<Request>, c: Client, from: real)
    requires c !in m && Ordered(from, rs) && Of(rs, c) != [] && |Of(rs, c)| <= RoleLimit(Of(rs, c)[0].role)
    ensures |Answers(m, rs, c)| == |Of(rs, c)| && forall i :: 0 <= i < |Of(rs, c)| ==> Answers(m, rs, c)[i]
  {
    var mine := Of(rs, c);
    ClientsAreIndependent(m, m, rs, c);
    AllowedOnlyOf(m, m, rs, c, 0.0, 0.0);
    OfOrdered(from, rs, c);
    var full := NewBucket(mine[0].role, mine[0].now);
    var m' := m[c := full];
    assert Check(m, mine[0]) == Check(m', mine[0]);
    assert Answers(m, mine, c) == Answers(m', mine, c);
    assert Ordered(full.last, mine);
    TokensSuffice(m', mine, c);
  }

  /** Each request at least the time of one token after the one before. */
  predicate Unhurried(rate: real, rs: seq<Request>)
    decreases |rs|
  {
    |rs| > 1 ==> (rs[1].now - rs[0].now) * rate >= 1.0 && Unhurried(rate, rs[1..])
  }

  lemma NextFindsToken(b: Bucket, r: Request, next: real)
    requires Usable(b) && b.last <= r.now <= r.mid <= r.end <= next
    requires HasToken(b, r.now) && (next - r.now) * b.rate >= 1.0
    ensures Grants(b, r.now, 1)
    ensures var b' := TokenBuckets.Exec(b, Ops(r));
            Usable(b') && b'.last == r.end && b'.rate == b.rate && HasToken(b', next)
  {
    GrantsToken(b, r.now);
    NextToken(b, r.now, next);
    ExecOps(b, r);
    ReadsKeepToken(Consume(b, r.now, 1), r.mid, r.end, next);
  }

  /** Reading a bucket in the meantime does not lose a token. */
  lemma ReadsKeepToken(b: Bucket, mid: real, end: real, next: real)
    requires Usable(b) && b.last <= mid <= end <= next && HasToken(b, next)
    ensures var b' := Refill(Refill(b, mid), end);
            Usable(b') && b'.last == end && b'.rate == b.rate && HasToken(b', next)
  {
    RefillValid(b, end);
    RefillComposes(b, mid, end);
    RefillComposes(b, end, next);
    GrantsToken(b, next);
    GrantsToken(Refill(b, end), next);
  }

  lemma {:induction false} AloneNeverRefused(m: map<Client, Bucket>, rs: seq<Request>, c: Client)
    requires c in m && Usable(m[c]) && Ordered(m[c].last, rs)
    requires (forall i :: 0 <= i < |rs| ==> rs[i].client == c) && Unhurried(m[c].rate, rs)
    requires rs != [] ==> HasToken(m[c], rs[0].now)
    ensures |Answers(m, rs, c)| == |rs| && forall i :: 0 <= i < |rs| ==> Answers(m, rs, c)[i]
    decreases |rs|
  {
    if rs != [] {
      GrantsToken(m[c], rs[0].now);
      if |rs| > 1 {
        NextFindsToken(m[c], rs[0], rs[1].now);
        AloneNeverRefused(Check(m, rs[0]), rs[1..], c);
      } else {
        assert rs[1..] == [];
      }
    }
  }

  /** A client that finds a token and then asks no faster than its rate is never refused, whatever
      the other clients do. */
  lemma UnhurriedNeverRefused(m: map<Client, Bucket>, rs: seq<Request>, c: Client)
    requires c in m && Usable(m[c]) && Ordered(m[c].last, rs) && Unhurried(m[c].rate, Of(rs, c))
    requires Of(rs, c) != [] ==> HasToken(m[c], Of(rs, c)[0].now)
    ensures |Answers(m, rs, c)| == |Of(rs, c)| && forall i :: 0 <= i < |Of(rs, c)| ==> Answers(m, rs, c)[i]
  {
    ClientsAreIndependent(m, m, rs, c);
    AllowedOnlyOf(m, m, rs, c, 0.0, 0.0);
    OfOrdered(m[c].last, rs, c);
    AloneNeverRefused(m, Of(rs, c), c);
  }

  /** Every first request is allowed, and a later one exactly when its bucket holds a token by
      then. */
  lemma AllowedMeaning(m: map<Client, Bucket>, r: Request)
    ensures Allowed(m, r) <==> (r.client in m ==> HasToken(m[r.client], r.now))
  {
    if r.client in m {
      GrantsToken(m[r.client], r.now);
    } else {
      NewBucketAllows(r.role, r.now);
    }
  }

  // ----- the object -----

  class RateLimiter {
    var buckets: map<Client, TokenBucket>

    /** No two clients share a bucket. */
    ghost predicate Unshared()
      reads this
    {
      forall c, d :: c in buckets && d in buckets && c != d ==> buckets[c] != buckets[d]
    }

    ghost function View(): map<Client, Bucket>
      reads this, buckets.Values
    {
      map c | c in buckets :: buckets[c].View()
    }

    constructor ()
      ensures Unshared() && View() == map[]
    {
      buckets := map[];
    }

    method GetBucket(client: Client, role: string, now: real) returns (b: TokenBucket)
      requires Unshared()
      modifies this
      ensures Unshared() && client in buckets && buckets[client] == b
      ensures forall d :: d in old(buckets) ==> d in buckets && buckets[d] == old(buckets[d])
      ensures buckets.Keys == old(buckets).Keys + {client}
      ensures client in old(buckets) ==> buckets == old(buckets)
      ensures client !in old(buckets) ==> fresh(b) && b.View() == NewBucket(role, now)
    {
      if client !in buckets {
        var limit := RoleLimit(role);
        var added := new TokenBucket(limit, limit as real / 60.0, now);
        buckets := buckets[client := added];
      }
      b := buckets[client];
    }

    method CheckNow(r: Request) returns (allowed: bool, remaining: int, reset: Seconds)
      requires Unshared()
      modifies this, buckets.Values
      ensures Unshared() && View() == Check(old(View()), r)
      ensures allowed == Allowed(old(View()), r)
      ensures allowed <==> (r.client in old(View()) ==> HasToken(old(View())[r.client], r.now))
      ensures remaining == Whole(Refill(Consume(Found(old(View()), r), r.now, 1), r.mid).tokens)
      ensures reset == Displayed(ResetIn(View()[r.client]))
    {
      ghost var before := View();
      var b := GetBucket(r.client, r.role, r.now);
      allowed := b.ConsumeNow(1, r.now);
      remaining := b.Remaining(r.mid);
      reset := b.ResetInNow(r.end);
      AllowedMeaning(before, r);
      ExecOps(Found(before, r), r);
      ViewUpdated(this, before, r);
    }
  }

  /** The view of a limiter in which only the bucket of the request changed. */
  lemma ViewUpdated(l: RateLimiter, before: map<Client, Bucket>, r: Request)
    requires l.buckets.Keys == before.Keys + {r.client}
    requires forall c :: c in before && c != r.client ==> l.buckets[c].View() == before[c]
    requires l.buckets[r.client].View() == TokenBuckets.Exec(Found(before, r), Ops(r))
    ensures l.View() == Check(before, r)
  {
    var after := Check(before, r);
    assert l.View().Keys == after.Keys;
    assert forall c :: c in after ==> l.View()[c] == after[c];
  }

  lemma ExecOps(b: Bucket, r: Request)
    ensures TokenBuckets.Exec(b, Ops(r)) == Refill(Refill(Consume(b, r.now, 1), r.mid), r.end)
  {
    var ops := Ops(r);
    assert ops[1..] == [Read(r.mid), Read(r.end)] && ops[1..][1..] == [Read(r.end)] && ops[1..][1..][1..] == [];
    assert TokenBuckets.Exec(Refill(Consume(b, r.now, 1), r.mid), ops[1..][1..])
        == Refill(Refill(Consume(b, r.now, 1), r.mid), r.end);
  }
}
