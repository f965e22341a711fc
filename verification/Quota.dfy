/** The durable quota: one bucket per principal, operation and aligned window, incremented by a
    conditional upsert, and the access dependency that spends it after checking the scope. */
module Quota {
  import opened Results

  datatype Operation = PredictiveEvaluate | OrchestrationApi

  /** A technical principal: the operations its scopes admit, and its quota. */
  datatype Principal = Principal(id: nat, scopes: set<Operation>, limit: int, window: int)

  datatype Key = Key(principal: nat, operation: Operation, windowStart: int)

  type Buckets = map<Key, nat>

  predicate Positive(p: Principal) { p.limit > 0 && p.window > 0 }

  /** Time is counted in whole ticks; the window is aligned to the epoch. */
  function WindowStart(at: int, window: int): int
    requires window > 0
  {
    at / window * window
  }

  function KeyAt(p: Principal, operation: Operation, at: int): Key
    requires p.window > 0
  {
    Key(p.id, operation, WindowStart(at, p.window))
  }

  function Used(b: Buckets, k: Key): nat { if k in b then b[k] else 0 }

  // ----- one call

  datatype Response = Granted | Forbidden | TooManyRequests | Unavailable

  datatype Call = Call(principal: Principal, operation: Operation, at: int, fault: bool)

  function Respond(b: Buckets, c: Call): Response {
    if c.operation !in c.principal.scopes then Forbidden
    else if c.fault || !Positive(c.principal) then Unavailable
    else if Used(b, KeyAt(c.principal, c.operation, c.at)) < c.principal.limit then Granted
    else TooManyRequests
  }

  function Spend(b: Buckets, c: Call): Buckets {
    if Respond(b, c) != Granted then b
    else var k := KeyAt(c.principal, c.operation, c.at); b[k := Used(b, k) + 1]
  }

  datatype QuotaError = InvalidQuota | AuthorityFailure

  class Repository {
    var buckets: Buckets

    constructor ()
      ensures buckets == map[]
    {
      buckets := map[];
    }

    /** Inserts the bucket at 1, or increments it under the condition that it is below the limit; no
        row comes back when the condition fails. */
    method ConsumeQuota(p: Principal, operation: Operation, now: int, fault: bool) returns (r: Result<bool, QuotaError>)
      modifies this
      ensures r.Err? <==> fault || !Positive(p)
      ensures r.Ok? ==> (r.value <==> Used(old(buckets), KeyAt(p, operation, now)) < p.limit)
      ensures r != Ok(true) ==> buckets == old(buckets)
      ensures r == Ok(true) ==>
        var k := KeyAt(p, operation, now); buckets == old(buckets)[k := Used(old(buckets), k) + 1]
    {
      if p.limit <= 0 || p.window <= 0 { return Err(InvalidQuota); }
      if fault { return Err(AuthorityFailure); }
      var k := KeyAt(p, operation, now);
      if k !in buckets {
        buckets := buckets[k := 1];
        return Ok(true);
      }
      if buckets[k] < p.limit {
        buckets := buckets[k := buckets[k] + 1];
        return Ok(true);
      }
      return Ok(false);
    }

    method CurrentUsage(p: Principal, operation: Operation, now: int) returns (used: nat)
      requires p.window > 0
      ensures used == Used(buckets, KeyAt(p, operation, now))
    {
      var k := KeyAt(p, operation, now);
      used := if k in buckets then buckets[k] else 0;
    }
  }

  /** Scope, then quota, then the operation; a failing quota authority is reported as such. */
  method RequireAccess(c: Call, repository: Repository) returns (r: Response)
    modifies repository
    ensures r == Respond(old(repository.buckets), c)
    ensures repository.buckets == Spend(old(repository.buckets), c)
  {
    if c.operation !in c.principal.scopes { return Forbidden; }
    var granted := repository.ConsumeQuota(c.principal, c.operation, c.at, c.fault);
    if granted.Err? { return Unavailable; }
    if !granted.value { return TooManyRequests; }
    return Granted;
  }

  // ----- any sequence of calls

  function Run(calls: seq<Call>): Buckets {
    if calls == [] then map[] else Spend(Run(calls[..|calls| - 1]), calls[|calls| - 1])
  }

  /** What the k-th call was answered. */
  function Answer(calls: seq<Call>, k: nat): Response
    requires k < |calls|
  {
    Respond(Run(calls[..k]), calls[k])
  }

  /** Every call of a principal states the same quota. */
  ghost predicate SameQuota(calls: seq<Call>, p: Principal) {
    forall c | c in calls && c.principal.id == p.id :: c.principal.limit == p.limit && c.principal.window == p.window
  }

  /** The call of this principal and operation falls in [from, to). */
  predicate Falls(c: Call, p: Principal, operation: Operation, from: int, to: int) {
    c.principal.id == p.id && c.operation == operation && from <= c.at < to
  }

  /** Calls granted to a principal for an operation within [from, to), at whatever position of the
      sequence: the instants need not be in order. */
  function Grants(calls: seq<Call>, p: Principal, operation: Operation, from: int, to: int): nat {
    if calls == [] then 0 else
    var n := |calls| - 1;
    Grants(calls[..n], p, operation, from, to)
    + if Answer(calls, n) == Granted && Falls(calls[n], p, operation, from, to) then 1 else 0
  }

  lemma OneMore(calls: seq<Call>, c: Call, p: Principal, operation: Operation, from: int, to: int)
    ensures Run(calls + [c]) == Spend(Run(calls), c)
    ensures Grants(calls + [c], p, operation, from, to) == Grants(calls, p, operation, from, to)
              + if Respond(Run(calls), c) == Granted && Falls(c, p, operation, from, to) then 1 else 0
  {
    assert (calls + [c])[..|calls|] == calls;
  }

  lemma WindowIff(at: int, window: int, k: int)
    requires window > 0
    ensures WindowStart(at, window) == k * window <==> k * window <= at < (k + 1) * window
  {
    var q := at / window;
    assert q * window <= at < q * window + window;
    if k < q { Scale(k + 1, q, window); }
    if q < k { Scale(q + 1, k, window); }
    assert (k + 1) * window == k * window + window;
  }

  lemma Scale(a: int, b: int, window: int)
    requires a <= b && window > 0
    ensures a * window <= b * window
  {
  }

  /** In an aligned window the grants are exactly what the bucket has used, and never exceed the
      limit, for every interleaving of calls at any instants. */
  lemma {:induction false} GrantsEqualUsed(calls: seq<Call>, p: Principal, operation: Operation, k: int)
    requires Positive(p) && SameQuota(calls, p)
    ensures Grants(calls, p, operation, k * p.window, (k + 1) * p.window)
         == Used(Run(calls), Key(p.id, operation, k * p.window))
    ensures Used(Run(calls), Key(p.id, operation, k * p.window)) <= p.limit
  {
    if calls != [] {
      var n := |calls| - 1;
      var last := calls[n];
      assert last in calls;
      GrantsEqualUsed(calls[..n], p, operation, k);
      if last.principal.id == p.id { WindowIff(last.at, p.window, k); }
    }
  }

  lemma {:induction false} GrantsSplit(calls: seq<Call>, p: Principal, operation: Operation, from: int, mid: int,
                                       to: int)
    requires from <= mid <= to
    ensures Grants(calls, p, operation, from, to)
         == Grants(calls, p, operation, from, mid) + Grants(calls, p, operation, mid, to)
  {
    if calls != [] { GrantsSplit(calls[..|calls| - 1], p, operation, from, mid, to); }
  }

  /** Any interval as long as the window contains at most twice the limit. */
  lemma AnyIntervalBound(calls: seq<Call>, p: Principal, operation: Operation, from: int)
    requires Positive(p) && SameQuota(calls, p)
    ensures Grants(calls, p, operation, from, from + p.window) <= 2 * p.limit
  {
    var k := from / p.window;
    var lo, mid, hi := k * p.window, (k + 1) * p.window, (k + 2) * p.window;
    WindowIff(from, p.window, k);
    assert mid == lo + p.window && hi == mid + p.window;
    GrantsEqualUsed(calls, p, operation, k);
    GrantsEqualUsed(calls, p, operation, k + 1);
    GrantsSplit(calls, p, operation, lo, mid, hi);
    GrantsSplit(calls, p, operation, lo, from, hi);
    GrantsSplit(calls, p, operation, from, from + p.window, hi);
  }

  // ----- the bound is reached

  function Burst(c: Call, n: nat): seq<Call> { if n == 0 then [] else Burst(c, n - 1) + [c] }

  lemma {:induction false} BurstMembers(c: Call, n: nat)
    ensures |Burst(c, n)| == n && forall x | x in Burst(c, n) :: x == c
  {
    if n > 0 { BurstMembers(c, n - 1); }
  }

  /** One more call to a bucket below the limit. */
  lemma GrantedStep(before: seq<Call>, c: Call, from: int, to: int)
    requires Positive(c.principal) && c.operation in c.principal.scopes && !c.fault && from <= c.at < to
    requires Used(Run(before), KeyAt(c.principal, c.operation, c.at)) < c.principal.limit
    ensures Grants(before + [c], c.principal, c.operation, from, to)
         == Grants(before, c.principal, c.operation, from, to) + 1
    ensures Run(before + [c]) == Spend(Run(before), c) && Respond(Run(before), c) == Granted
  {
    hide KeyAt, Run, Grants;
    OneMore(before, c, c.principal, c.operation, from, to);
  }

  lemma SpendUsed(b: Buckets, c: Call, k: Key)
    requires Positive(c.principal) && Respond(b, c) == Granted
    ensures Used(Spend(b, c), k) == Used(b, k) + if k == KeyAt(c.principal, c.operation, c.at) then 1 else 0
  {
  }

  /** A burst into a fresh window is granted call by call up to the limit. */
  lemma {:induction false} BurstIsGranted(before: seq<Call>, c: Call, n: nat, from: int, to: int, other: Key)
    requires Positive(c.principal) && c.operation in c.principal.scopes && !c.fault && n <= c.principal.limit
    requires Used(Run(before), KeyAt(c.principal, c.operation, c.at)) == 0 && from <= c.at < to
    requires other != KeyAt(c.principal, c.operation, c.at)
    ensures var calls := before + Burst(c, n);
            && Grants(calls, c.principal, c.operation, from, to)
               == Grants(before, c.principal, c.operation, from, to) + n
            && Used(Run(calls), KeyAt(c.principal, c.operation, c.at)) == n
            && Used(Run(calls), other) == Used(Run(before), other)
  {
    hide KeyAt, Run, Grants, Respond, Spend, Used;
    if n == 0 {
      assert before + Burst(c, 0) == before;
    } else {
      BurstIsGranted(before, c, n - 1, from, to, other);
      var shorter := before + Burst(c, n - 1);
      assert before + Burst(c, n) == shorter + [c];
      GrantedStep(shorter, c, from, to);
      SpendUsed(Run(shorter), c, KeyAt(c.principal, c.operation, c.at));
      SpendUsed(Run(shorter), c, other);
    }
  }

  lemma TwoBursts(late: Call, early: Call, from: int, to: int)
    requires late.principal == early.principal && late.operation == early.operation
    requires Positive(late.principal) && late.operation in late.principal.scopes && !late.fault && !early.fault
    requires KeyAt(late.principal, late.operation, late.at) != KeyAt(early.principal, early.operation, early.at)
    requires from <= late.at < to && from <= early.at < to
    ensures var n := late.principal.limit; var calls := Burst(late, n) + Burst(early, n);
            SameQuota(calls, late.principal) && Grants(calls, late.principal, late.operation, from, to) == 2 * n
  {
    assert Grants([], late.principal, late.operation, from, to) == 0 && Run([]) == map[];
    hide KeyAt, Run, Grants;
    var n := late.principal.limit;
    var first := Burst(late, n);
    BurstMembers(late, n);
    BurstMembers(early, n);
    assert [] + first == first;
    var lateKey := KeyAt(late.principal, late.operation, late.at);
    var earlyKey := KeyAt(early.principal, early.operation, early.at);
    BurstIsGranted([], late, n, from, to, earlyKey);
    BurstIsGranted(first, early, n, from, to, lateKey);
  }

  /** Twice the limit is reached in every interval of window length that does not start on a window:
      a full burst at its start and another in the first tick of the next window. */
  lemma BoundIsTight(p: Principal, operation: Operation, from: int) returns (calls: seq<Call>)
    requires Positive(p) && operation in p.scopes && WindowStart(from, p.window) != from
    ensures SameQuota(calls, p) && Grants(calls, p, operation, from, from + p.window) == 2 * p.limit
  {
    var k := from / p.window;
    var next := (k + 1) * p.window;
    WindowIff(from, p.window, k);
    WindowIff(next, p.window, k + 1);
    Scale(k + 2, k + 2, p.window);
    assert next == WindowStart(from, p.window) + p.window;
    assert (k + 2) * p.window == next + p.window;
    var late, early := Call(p, operation, from, false), Call(p, operation, next, false);
    assert from < next < from + p.window;
    hide Grants, Burst, SameQuota;
    TwoBursts(late, early, from, from + p.window);
    calls := Burst(late, p.limit) + Burst(early, p.limit);
  }

  /** An interval of window length holds at most the limit, for every sequence of calls, exactly when
      it starts on a window. */
  lemma IntervalBoundIff(p: Principal, operation: Operation, from: int)
    requires Positive(p) && operation in p.scopes
    ensures (forall calls | SameQuota(calls, p) :: Grants(calls, p, operation, from, from + p.window) <= p.limit)
       <==> WindowStart(from, p.window) == from
  {
    hide Grants, SameQuota;
    if WindowStart(from, p.window) == from {
      var k := from / p.window;
      assert (k + 1) * p.window == from + p.window;
      forall calls | SameQuota(calls, p) ensures Grants(calls, p, operation, from, from + p.window) <= p.limit {
        GrantsEqualUsed(calls, p, operation, k);
      }
    } else {
      var calls := BoundIsTight(p, operation, from);
      assert Grants(calls, p, operation, from, from + p.window) > p.limit;
    }
  }

  /** What the usage of the current window says of the calls made so far: it is the number of grants
      in that window, and another call would be granted exactly while it is below the limit. */
  lemma UsageCountsGrants(calls: seq<Call>, p: Principal, operation: Operation, now: int)
    requires Positive(p) && SameQuota(calls, p) && operation in p.scopes
    ensures var start := WindowStart(now, p.window);
            Used(Run(calls), KeyAt(p, operation, now)) == Grants(calls, p, operation, start, start + p.window)
    ensures Respond(Run(calls), Call(p, operation, now, false))
         == if Used(Run(calls), KeyAt(p, operation, now)) < p.limit then Granted else TooManyRequests
  {
    var k := now / p.window;
    assert (k + 1) * p.window == WindowStart(now, p.window) + p.window;
    GrantsEqualUsed(calls, p, operation, k);
  }

  // ----- who pays

  /** Only a granted call spends, exactly one unit of its own bucket. A principal without the scope
      is refused as such whatever its quota, and a failing authority is never reported as an
      exhausted quota: 429 means the bucket of this very window is full. */
  lemma OneCall(b: Buckets, c: Call, k: Key)
    ensures Respond(b, c) == Forbidden <==> c.operation !in c.principal.scopes
    ensures Respond(b, c) == Unavailable <==>
      c.operation in c.principal.scopes && (c.fault || c.principal.limit <= 0 || c.principal.window <= 0)
    ensures Respond(b, c) == Granted <==>
      && c.operation in c.principal.scopes && !c.fault && c.principal.limit > 0 && c.principal.window > 0
      && Used(b, KeyAt(c.principal, c.operation, c.at)) < c.principal.limit
    ensures Respond(b, c) == TooManyRequests <==>
      && c.operation in c.principal.scopes && !c.fault && c.principal.limit > 0 && c.principal.window > 0
      && Used(b, KeyAt(c.principal, c.operation, c.at)) >= c.principal.limit
    ensures Used(Spend(b, c), k) ==
      Used(b, k) + if Respond(b, c) == Granted && k == KeyAt(c.principal, c.operation, c.at) then 1 else 0
    ensures Respond(b, c) != Granted ==> Spend(b, c) == b
  {
  }

  /** The calls of one principal for one operation. */
  function Only(calls: seq<Call>, id: nat, operation: Operation): seq<Call> {
    if calls == [] then [] else
    var n := |calls| - 1;
    Only(calls[..n], id, operation)
    + if calls[n].principal.id == id && calls[n].operation == operation then [calls[n]] else []
  }

  /** The buckets of one principal and operation are those of its own calls alone: nothing another
      principal or the other operation does can spend or spare them. */
  lemma {:induction false} BucketsAreIsolated(calls: seq<Call>, id: nat, operation: Operation, start: int)
    ensures Used(Run(calls), Key(id, operation, start))
         == Used(Run(Only(calls, id, operation)), Key(id, operation, start))
  {
    if calls != [] {
      var n := |calls| - 1;
      var init, last := calls[..n], calls[n];
      BucketsAreIsolated(init, id, operation, start);
      OneCall(Run(init), last, Key(id, operation, start));
      if last.principal.id == id && last.operation == operation {
        var own := Only(init, id, operation);
        assert Only(calls, id, operation) == own + [last];
        OneMore(own, last, last.principal, operation, 0, 0);
        if last.principal.window > 0 {
          BucketsAreIsolated(init, id, operation, WindowStart(last.at, last.principal.window));
        }
        assert Respond(Run(own), last) == Respond(Run(init), last);
        OneCall(Run(own), last, Key(id, operation, start));
      } else {
        assert Only(calls, id, operation) == Only(init, id, operation);
      }
    }
  }
}
