/** The fixed-window rate limiter: its Redis script, the middleware that fails open, and what they guarantee together. */
module RateLimiter {
  import opened Domain
  import opened Decimal
  import opened CacheKeys
  import opened Sorting

  // ----- the counters in Redis and the script

  datatype Counter = Counter(count: int, expiresAt: Option<int>)

  type Counters = map<string, Counter>

  /** The configured limits; the window is a duration in nanoseconds. */
  datatype Limits = Limits(limit: int, windowNs: int)

  /** `Duration.Milliseconds` drops the fraction. */
  function Milliseconds(ns: int): int {
    if ns >= 0 then ns / 1_000_000 else -((-ns) / 1_000_000)
  }

  predicate Alive(c: Counter, now: int) {
    c.expiresAt.Some? ==> now < c.expiresAt.value
  }

  function Stored(counters: Counters, key: string, now: int): Option<Counter> {
    if key in counters && Alive(counters[key], now) then Some(counters[key]) else None
  }

  /** INCR: a missing or expired key counts from zero, without an expiry. */
  function Increment(counters: Counters, key: string, now: int): Counters {
    var c := Stored(counters, key, now);
    counters[key := if c.None? then Counter(1, None) else c.value.(count := c.value.count + 1)]
  }

  /** PEXPIRE: a time that is not positive deletes the key. */
  function ExpireIn(counters: Counters, key: string, now: int, ms: int): Counters {
    if key !in counters then counters
    else if ms <= 0 then counters - {key}
    else counters[key := counters[key].(expiresAt := Some(now + ms))]
  }

  /** What one run of the script leaves, and the count it returns. */
  function Script(counters: Counters, key: string, now: int, ms: int): (Counters, int) {
    var counted := Increment(counters, key, now);
    var count := counted[key].count;
    (if count == 1 then ExpireIn(counted, key, now, ms) else counted, count)
  }

  // ----- requests and what becomes of them

  /** How the call to Redis ends: with a reply, without effect, or with its effect and an error all the same. */
  datatype Fault = NoFault | NotRun | ReplyLost

  datatype Request = Request(at: int, userID: int, fault: Fault)

  datatype Verdict = Unauthorized | Admitted | Rejected | AdmittedOnError

  predicate Passes(v: Verdict) {
    v.Admitted? || v.AdmittedOnError?
  }

  function AfterRequest(l: Limits, counters: Counters, r: Request): Counters {
    if r.userID <= 0 || r.fault.NotRun? then counters
    else Script(counters, RateLimitKey(r.userID), r.at, Milliseconds(l.windowNs)).0
  }

  function VerdictOf(l: Limits, counters: Counters, r: Request): Verdict {
    if r.userID <= 0 then Unauthorized
    else if !r.fault.NoFault? then AdmittedOnError
    else if Script(counters, RateLimitKey(r.userID), r.at, Milliseconds(l.windowNs)).1 <= l.limit then Admitted
    else Rejected
  }

  /** The verdicts of a run of requests, from some state of the counters. */
  function Verdicts(l: Limits, counters: Counters, requests: seq<Request>): (verdicts: seq<Verdict>)
    ensures |verdicts| == |requests|
    decreases |requests|
  {
    if requests == [] then []
    else [VerdictOf(l, counters, requests[0])] + Verdicts(l, AfterRequest(l, counters, requests[0]), requests[1..])
  }

  function StateAfter(l: Limits, counters: Counters, requests: seq<Request>): Counters
    decreases |requests|
  {
    if requests == [] then counters else StateAfter(l, AfterRequest(l, counters, requests[0]), requests[1..])
  }

  /** Time does not go backwards. */
  predicate InTimeOrder(requests: seq<Request>) {
    forall i, j :: 0 <= i <= j < |requests| ==> requests[i].at <= requests[j].at
  }

  /** How often a user has been counted in the window that is open, if one is. */
  function CountedBefore(counters: Counters, userID: int, now: int): int {
    var key := RateLimitKey(userID);
    if key in counters && (counters[key].expiresAt.Some? ==> now < counters[key].expiresAt.value) then counters[key].count else 0
  }

  // ----- the adapter and the middleware

  /** The Redis server, as the limiter sees it: one script run at a time. */
  class RateLimiterClient {
    var counters: Counters

    constructor ()
      ensures counters == map[]
    {
      counters := map[];
    }

    /** The script; Redis runs it as one step. */
    method RunScript(key: string, ms: int, now: int) returns (count: int)
      modifies this
      ensures (counters, count) == Script(old(counters), key, now, ms)
    {
      if key in counters && Alive(counters[key], now) {
        counters := counters[key := counters[key].(count := counters[key].count + 1)];
      } else {
        counters := counters[key := Counter(1, None)];
      }
      count := counters[key].count;
      if count == 1 {
        if ms <= 0 {
          counters := counters - {key};
        } else {
          counters := counters[key := counters[key].(expiresAt := Some(now + ms))];
        }
      }
    }
  }

  class Limiter {
    const client: RateLimiterClient
    const limit: int
    const window: int

    constructor (client: RateLimiterClient, limit: int, window: int)
      ensures this.client == client && this.limit == limit && this.window == window
    {
      this.client := client;
      this.limit := limit;
      this.window := window;
    }

    function Settings(): Limits {
      Limits(limit, window)
    }

    /** The script's count against the limit; without a reply there is no decision. */
    method Allow(userID: int, now: int, fault: Fault) returns (r: Result<bool>)
      modifies client
      ensures
        var (counted, count) := Script(old(client.counters), RateLimitKey(userID), now, Milliseconds(window));
        && client.counters == (if fault.NotRun? then old(client.counters) else counted)
        && r == (if fault.NoFault? then Ok(count <= limit) else Err(Infrastructure))
    {
      if fault.NotRun? {
        return Err(Infrastructure);
      }
      var count := client.RunScript(RateLimitKey(userID), Milliseconds(window), now);
      if fault.ReplyLost? {
        return Err(Infrastructure);
      }
      r := Ok(count <= limit);
    }

    /** The middleware: an unknown user is turned away, and an error of the limiter lets the request pass. */
    method Limit(user: Option<int>, now: int, fault: Fault) returns (verdict: Verdict)
      modifies client
      ensures
        var r := Request(now, if user.Some? then user.value else 0, fault);
        && verdict == VerdictOf(Settings(), old(client.counters), r)
        && client.counters == AfterRequest(Settings(), old(client.counters), r)
      ensures user.None? || user.value <= 0 ==> verdict == Unauthorized && client.counters == old(client.counters)
      ensures user.Some? && user.value > 0 && !fault.NoFault? ==> verdict == AdmittedOnError && Passes(verdict)
      ensures user.Some? && user.value > 0 && fault.NoFault? ==>
        verdict == if CountedBefore(old(client.counters), user.value, now) < limit then Admitted else Rejected
    {
      if user.None? || user.value <= 0 {
        return Unauthorized;
      }
      var allowed := Allow(user.value, now, fault);
      if allowed.Err? {
        return AdmittedOnError;
      }
      if !allowed.value {
        return Rejected;
      }
      verdict := Admitted;
    }
  }

  // ----- a live counter has an expiry

  predicate Expiring(counters: Counters) {
    forall key :: key in counters ==> counters[key].expiresAt.Some? && counters[key].count >= 1
  }

  lemma ScriptExpiring(counters: Counters, key: string, now: int, ms: int)
    requires Expiring(counters)
    ensures Expiring(Script(counters, key, now, ms).0)
  {
  }

  /** No counter is ever stored without an expiry, so no user stays locked out. */
  lemma {:induction false} CountersExpire(l: Limits, counters: Counters, requests: seq<Request>)
    requires Expiring(counters)
    ensures Expiring(StateAfter(l, counters, requests))
    decreases |requests|
  {
    if requests != [] {
      var r := requests[0];
      ScriptExpiring(counters, RateLimitKey(r.userID), r.at, Milliseconds(l.windowNs));
      CountersExpire(l, AfterRequest(l, counters, r), requests[1..]);
    }
  }

  // ----- users do not affect each other

  lemma RateLimitKeyInjective(a: int, b: int)
    requires RateLimitKey(a) == RateLimitKey(b)
    ensures a == b
  {
    SplitRateLimitKey(a);
    SplitRateLimitKey(b);
    hide RateLimitKey;
    assert ["rate_limit", "user", FormatInt(a)][2] == FormatInt(a);
    FormatIntInjective(a, b);
  }

  lemma SplitRateLimitKey(a: int)
    ensures Split(RateLimitKey(a)) == ["rate_limit", "user", FormatInt(a)]
  {
    SplitJoin(["rate_limit", "user", FormatInt(a)]);
  }

  function OfUser(userID: int): Request -> bool {
    (r: Request) => r.userID == userID
  }

  predicate SameCounter(a: Counters, b: Counters, key: string) {
    (key in a <==> key in b) && (key in a ==> a[key] == b[key])
  }

  lemma OtherUser(l: Limits, counters: Counters, r: Request, userID: int)
    requires r.userID != userID
    ensures SameCounter(AfterRequest(l, counters, r), counters, RateLimitKey(userID))
  {
    if RateLimitKey(r.userID) == RateLimitKey(userID) {
      RateLimitKeyInjective(r.userID, userID);
    }
    hide RateLimitKey;
  }

  lemma SameUser(l: Limits, a: Counters, b: Counters, r: Request)
    requires SameCounter(a, b, RateLimitKey(r.userID))
    ensures SameCounter(AfterRequest(l, a, r), AfterRequest(l, b, r), RateLimitKey(r.userID))
    ensures VerdictOf(l, a, r) == VerdictOf(l, b, r)
  {
    hide RateLimitKey;
  }

  /** The verdicts of one user's requests, in order. */
  function VerdictsOfUser(requests: seq<Request>, verdicts: seq<Verdict>, userID: int): seq<Verdict>
    requires |requests| == |verdicts|
  {
    if requests == [] then []
    else (if requests[0].userID == userID then [verdicts[0]] else []) + VerdictsOfUser(requests[1..], verdicts[1..], userID)
  }

  /** What a user is told does not depend on the requests of others: it is as if the user were alone. */
  lemma {:induction false} UsersAreIndependent(l: Limits, a: Counters, b: Counters, requests: seq<Request>, userID: int)
    requires SameCounter(a, b, RateLimitKey(userID))
    ensures VerdictsOfUser(requests, Verdicts(l, a, requests), userID) == Verdicts(l, b, Filter(OfUser(userID), requests))
    decreases |requests|
  {
    hide AfterRequest, VerdictOf, RateLimitKey;
    if requests != [] {
      var r := requests[0];
      var mine := Filter(OfUser(userID), requests[1..]);
      assert Verdicts(l, a, requests)[0] == VerdictOf(l, a, r);
      assert Verdicts(l, a, requests)[1..] == Verdicts(l, AfterRequest(l, a, r), requests[1..]);
      if r.userID == userID {
        assert Filter(OfUser(userID), requests) == [r] + mine;
        SameUser(l, a, b, r);
        UsersAreIndependent(l, AfterRequest(l, a, r), AfterRequest(l, b, r), requests[1..], userID);
        assert ([r] + mine)[1..] == mine;
      } else {
        OtherUser(l, a, r, userID);
        UsersAreIndependent(l, AfterRequest(l, a, r), b, requests[1..], userID);
        assert Filter(OfUser(userID), requests) == [] + mine == mine;
        assert VerdictsOfUser(requests, Verdicts(l, a, requests), userID)
            == [] + VerdictsOfUser(requests[1..], Verdicts(l, a, requests)[1..], userID);
      }
    }
  }

  // ----- exactly the first `limit` requests of each window

  /** The first request of the window that request i belongs to: windows open with a request and last `ms`. */
  function Opening(requests: seq<Request>, ms: int, i: nat): (o: nat)
    requires i < |requests|
    ensures o <= i
  {
    if i == 0 then 0
    else
      var o := Opening(requests, ms, i - 1);
      if requests[i].at < requests[o].at + ms then o else i
  }

  /** The requests from an opening on, up to a request of its window, all belong to its window. */
  lemma {:induction false} WindowIsContiguous(requests: seq<Request>, ms: int, i: nat, j: nat)
    requires i < |requests| && Opening(requests, ms, i) <= j <= i
    ensures Opening(requests, ms, j) == Opening(requests, ms, i)
  {
    if j < i {
      OpeningStep(requests, ms, i);
      OpeningBelow(requests, ms, i);
      hide Opening;
      WindowIsContiguous(requests, ms, i - 1, j);
    }
  }

  lemma OpeningBelow(requests: seq<Request>, ms: int, i: nat)
    requires i < |requests|
    ensures Opening(requests, ms, i) <= i
  {
  }

  /** A window opens only after the one before has ended. */
  lemma {:induction false} WindowsApart(requests: seq<Request>, ms: int, i: nat)
    requires i < |requests| && Opening(requests, ms, i) > 0
    ensures var o := Opening(requests, ms, i); requests[o].at >= requests[Opening(requests, ms, o - 1)].at + ms
  {
    OpeningStep(requests, ms, i);
    hide Opening;
    if Opening(requests, ms, i) != i {
      WindowsApart(requests, ms, i - 1);
    }
  }

  /** A request is in the window of its opening: no earlier than it, and less than the window's length later. */
  lemma OpeningMeaning(requests: seq<Request>, ms: int, i: nat)
    requires InTimeOrder(requests) && ms >= 1 && i < |requests|
    ensures var o := Opening(requests, ms, i); requests[o].at <= requests[i].at < requests[o].at + ms
  {
    OpeningStep(requests, ms, i);
    OpeningBelow(requests, ms, i);
    InOrder(requests, Opening(requests, ms, i), i);
    hide Opening, InTimeOrder;
  }

  lemma InOrder(requests: seq<Request>, i: nat, j: nat)
    requires InTimeOrder(requests) && i <= j < |requests|
    ensures requests[i].at <= requests[j].at
  {
  }

  lemma OpeningStep(requests: seq<Request>, ms: int, i: nat)
    requires i < |requests|
    ensures Opening(requests, ms, i) ==
      if i == 0 then 0
      else if requests[i].at < requests[Opening(requests, ms, i - 1)].at + ms then Opening(requests, ms, i - 1)
      else i
  {
  }

  predicate OneUser(requests: seq<Request>, userID: int) {
    userID > 0 && forall i :: 0 <= i < |requests| ==> requests[i].userID == userID && requests[i].fault.NoFault?
  }

  lemma StateSnoc(l: Limits, counters: Counters, requests: seq<Request>, i: nat)
    requires i < |requests|
    ensures StateAfter(l, counters, requests[..i + 1]) == AfterRequest(l, StateAfter(l, counters, requests[..i]), requests[i])
    ensures Verdicts(l, counters, requests)[i] == VerdictOf(l, StateAfter(l, counters, requests[..i]), requests[i])
    decreases |requests|
  {
    hide AfterRequest, VerdictOf;
    if i == 0 {
      assert requests[..1][1..] == [];
    } else {
      var next := AfterRequest(l, counters, requests[0]);
      assert requests[..i + 1][1..] == requests[1..][..i] && requests[..i][1..] == requests[1..][..i - 1];
      StateSnoc(l, next, requests[1..], i - 1);
    }
  }

  /** The counter holds the place of the request in its window, and expires when the window ends. */
  predicate AtPlace(l: Limits, requests: seq<Request>, userID: int, i: nat, counters: Counters)
    requires i < |requests|
  {
    var o := Opening(requests, Milliseconds(l.windowNs), i);
    && RateLimitKey(userID) in counters
    && counters[RateLimitKey(userID)] == Counter(i - o + 1, Some(requests[o].at + Milliseconds(l.windowNs)))
  }

  lemma PlaceStep(l: Limits, requests: seq<Request>, userID: int, i: nat, before: Counters)
    requires i < |requests| && userID > 0 && requests[i].userID == userID && !requests[i].fault.NotRun?
    requires Milliseconds(l.windowNs) >= 1
    requires if i == 0 then RateLimitKey(userID) !in before else AtPlace(l, requests, userID, i - 1, before)
    ensures AtPlace(l, requests, userID, i, AfterRequest(l, before, requests[i]))
    ensures requests[i].fault.NoFault? ==>
      VerdictOf(l, before, requests[i]) == if i - Opening(requests, Milliseconds(l.windowNs), i) < l.limit then Admitted else Rejected
  {
    hide RateLimitKey, Opening, Milliseconds, AfterRequest, VerdictOf;
    var ms := Milliseconds(l.windowNs);
    OpeningStep(requests, ms, i);
    if i > 0 {
      OpeningBelow(requests, ms, i - 1);
      CounterStep(l, before, requests[i], i - Opening(requests, ms, i - 1), requests[Opening(requests, ms, i - 1)].at + ms);
    } else {
      CounterStep(l, before, requests[i], 0, 0);
    }
  }

  /** What holds after the first requests of a user alone, and what request i is told. */
  lemma {:induction false} CounterIsPlace(l: Limits, requests: seq<Request>, userID: int, i: nat)
    requires OneUser(requests, userID) && Milliseconds(l.windowNs) >= 1 && i < |requests|
    ensures AtPlace(l, requests, userID, i, StateAfter(l, map[], requests[..i + 1]))
    ensures Verdicts(l, map[], requests)[i]
         == if i - Opening(requests, Milliseconds(l.windowNs), i) < l.limit then Admitted else Rejected
  {
    StateSnoc(l, map[], requests, i);
    hide AtPlace, Opening, Verdicts, Milliseconds, AfterRequest, VerdictOf;
    if i > 0 {
      CounterIsPlace(l, requests, userID, i - 1);
      assert requests[..i - 1 + 1] == requests[..i];
    } else {
      assert requests[..0] == [];
    }
    PlaceStep(l, requests, userID, i, StateAfter(l, map[], requests[..i]));
  }

  /** One request of a user whose counter is at n, in a window that ends at some time, or who has no counter. */
  lemma CounterStep(l: Limits, counters: Counters, r: Request, n: int, end: int)
    requires r.userID > 0 && !r.fault.NotRun? && Milliseconds(l.windowNs) >= 1 && n >= 0
    requires var key := RateLimitKey(r.userID);
      if n == 0 then key !in counters else key in counters && counters[key] == Counter(n, Some(end))
    ensures
      var key := RateLimitKey(r.userID);
      var continues := n > 0 && r.at < end;
      && key in AfterRequest(l, counters, r)
      && AfterRequest(l, counters, r)[key]
           == (if continues then Counter(n + 1, Some(end)) else Counter(1, Some(r.at + Milliseconds(l.windowNs))))
      && (r.fault.NoFault? ==> VerdictOf(l, counters, r) == if (if continues then n + 1 else 1) <= l.limit then Admitted else Rejected)
  {
    hide RateLimitKey, Milliseconds;
  }

  // ----- the bound over any interval

  /** Whole windows that cover an interval. */
  function Windows(d: int, ms: int): nat
    requires ms >= 1
  {
    if d <= 0 then 0 else 1 + Windows(d - ms, ms)
  }

  /** The requests of a user in an interval that the middleware lets pass. */
  function PassedIn(l: Limits, counters: Counters, requests: seq<Request>, userID: int, from: int, until: int): nat
    decreases |requests|
  {
    if requests == [] then 0
    else
      var r := requests[0];
      (if r.userID == userID && from <= r.at < until && Passes(VerdictOf(l, counters, r)) then 1 else 0)
      + PassedIn(l, AfterRequest(l, counters, r), requests[1..], userID, from, until)
  }

  /** The requests of a user in an interval for which the limiter fails. */
  function FaultsIn(requests: seq<Request>, userID: int, from: int, until: int): nat {
    if requests == [] then 0
    else
      (if requests[0].userID == userID && from <= requests[0].at < until && !requests[0].fault.NoFault? then 1 else 0)
      + FaultsIn(requests[1..], userID, from, until)
  }

  /** How many more requests of a user can be admitted before some time. */
  function Budget(l: Limits, counter: Option<Counter>, now: int, until: int): int
    requires Milliseconds(l.windowNs) >= 1
  {
    var ms := Milliseconds(l.windowNs);
    if counter.None? || counter.value.expiresAt.None? then l.limit * Windows(until - now, ms)
    else if now >= until then 0
    else (if counter.value.count < l.limit then l.limit - counter.value.count else 0)
         + l.limit * Windows(until - counter.value.expiresAt.value, ms)
  }

  lemma {:induction false} WindowsGrow(a: int, b: int, ms: int)
    requires ms >= 1 && a <= b
    ensures Windows(a, ms) <= Windows(b, ms)
    decreases if b > 0 then b else 0
  {
    if a > 0 {
      WindowsGrow(a - ms, b - ms, ms);
    }
  }

  lemma WindowsScaled(limit: nat, a: nat, b: nat)
    requires a <= b
    ensures limit * a <= limit * b
  {
  }

  lemma BudgetLater(l: Limits, counters: Counters, key: string, now: int, later: int, until: int)
    requires Milliseconds(l.windowNs) >= 1 && l.limit >= 0 && Expiring(counters) && now <= later
    ensures Budget(l, Stored(counters, key, later), later, until) <= Budget(l, Stored(counters, key, now), now, until)
    ensures Budget(l, Stored(counters, key, now), now, until) >= 0
  {
    var ms := Milliseconds(l.windowNs);
    hide Milliseconds;
    WindowsOrder(l.limit, until - later, until - now, ms);
    if key in counters {
      var e := counters[key].expiresAt.value;
      hide Expiring;
      if e <= later {
        WindowsOrder(l.limit, until - later, until - e, ms);
      }
      hide Windows;
    }
  }

  lemma WindowsOrder(limit: nat, a: int, b: int, ms: int)
    requires ms >= 1 && a <= b
    ensures limit * Windows(a, ms) <= limit * Windows(b, ms)
  {
    WindowsGrow(a, b, ms);
    WindowsScaled(limit, Windows(a, ms), Windows(b, ms));
  }

  /** A request uses up its budget. */
  lemma BudgetSpent(l: Limits, counters: Counters, r: Request, until: int)
    requires Milliseconds(l.windowNs) >= 1 && l.limit >= 0 && Expiring(counters) && r.userID > 0
    requires !r.fault.NotRun? && r.at < until
    ensures
      var key := RateLimitKey(r.userID);
      Budget(l, Stored(AfterRequest(l, counters, r), key, r.at), r.at, until) + (if VerdictOf(l, counters, r).Admitted? then 1 else 0)
        <= Budget(l, Stored(counters, key, r.at), r.at, until)
  {
    hide RateLimitKey;
    var ms := Milliseconds(l.windowNs);
    assert Windows(until - r.at, ms) == 1 + Windows(until - r.at - ms, ms);
    assert l.limit * Windows(until - r.at, ms) == l.limit + l.limit * Windows(until - r.at - ms, ms);
    hide Windows, Milliseconds;
  }

  /** From the start of the interval on, what passes is within the budget, apart from faults. */
  lemma {:induction false} PassedWithinBudget(l: Limits, counters: Counters, requests: seq<Request>, userID: int, from: int, until: int, now: int)
    requires Milliseconds(l.windowNs) >= 1 && l.limit >= 0 && Expiring(counters) && userID > 0
    requires InTimeOrder(requests) && (forall i :: 0 <= i < |requests| ==> requests[i].at >= now)
    ensures PassedIn(l, counters, requests, userID, from, until)
         <= Budget(l, Stored(counters, RateLimitKey(userID), now), now, until) + FaultsIn(requests, userID, from, until)
    decreases |requests|
  {
    var key := RateLimitKey(userID);
    if requests == [] {
      BudgetLater(l, counters, key, now, now, until);
    } else {
      var r := requests[0];
      var next := AfterRequest(l, counters, r);
      AfterExpiring(l, counters, r);
      PassedWithinBudget(l, next, requests[1..], userID, from, until, r.at);
      BudgetLater(l, counters, key, now, r.at, until);
      RequestBudget(l, counters, r, userID, until);
      hide AfterRequest, VerdictOf, RateLimitKey, Budget, Stored, Milliseconds;
      assert InTimeOrder(requests[1..]);
    }
  }

  lemma AfterExpiring(l: Limits, counters: Counters, r: Request)
    requires Expiring(counters)
    ensures Expiring(AfterRequest(l, counters, r))
  {
    ScriptExpiring(counters, RateLimitKey(r.userID), r.at, Milliseconds(l.windowNs));
    hide RateLimitKey, Script;
  }

  /** Whoever makes it, a request costs a user no more than what passes of it. */
  lemma RequestBudget(l: Limits, counters: Counters, r: Request, userID: int, until: int)
    requires Milliseconds(l.windowNs) >= 1 && l.limit >= 0 && Expiring(counters) && userID > 0
    ensures
      var key := RateLimitKey(userID);
      var cost := if r.userID == userID && r.at < until && VerdictOf(l, counters, r).Admitted? then 1 else 0;
      Budget(l, Stored(AfterRequest(l, counters, r), key, r.at), r.at, until) + cost
        <= Budget(l, Stored(counters, key, r.at), r.at, until)
  {
    if r.userID != userID {
      OtherUser(l, counters, r, userID);
      hide RateLimitKey, AfterRequest, VerdictOf, Budget;
    } else if r.fault.NotRun? {
    } else if r.at < until {
      BudgetSpent(l, counters, r, until);
    } else {
      SpentLate(l, counters, r, until);
    }
  }

  lemma SpentLate(l: Limits, counters: Counters, r: Request, until: int)
    requires Milliseconds(l.windowNs) >= 1 && l.limit >= 0 && Expiring(counters) && r.at >= until
    ensures Budget(l, Stored(counters, RateLimitKey(r.userID), r.at), r.at, until) == 0
    ensures Budget(l, Stored(AfterRequest(l, counters, r), RateLimitKey(r.userID), r.at), r.at, until) == 0
  {
    hide RateLimitKey, Milliseconds;
  }

  /** Before the interval nothing counts. */
  lemma {:induction false} PassedWithinWindows(l: Limits, counters: Counters, requests: seq<Request>, userID: int, from: int, until: int)
    requires Milliseconds(l.windowNs) >= 1 && l.limit >= 0 && Expiring(counters) && userID > 0
    requires InTimeOrder(requests)
    ensures PassedIn(l, counters, requests, userID, from, until)
         <= l.limit * (1 + Windows(until - from, Milliseconds(l.windowNs))) + FaultsIn(requests, userID, from, until)
    decreases |requests|
  {
    hide AfterRequest, VerdictOf, RateLimitKey;
    if requests != [] && requests[0].at < from {
      AfterExpiring(l, counters, requests[0]);
      assert InTimeOrder(requests[1..]);
      PassedWithinWindows(l, AfterRequest(l, counters, requests[0]), requests[1..], userID, from, until);
    } else if requests != [] {
      PassedWithinBudget(l, counters, requests, userID, from, until, from);
      BudgetBounded(l, counters, RateLimitKey(userID), from, until);
    }
  }

  lemma BudgetBounded(l: Limits, counters: Counters, key: string, now: int, until: int)
    requires Milliseconds(l.windowNs) >= 1 && l.limit >= 0 && Expiring(counters)
    ensures Budget(l, Stored(counters, key, now), now, until) <= l.limit * (1 + Windows(until - now, Milliseconds(l.windowNs)))
  {
    var ms := Milliseconds(l.windowNs);
    assert l.limit * (1 + Windows(until - now, ms)) == l.limit + l.limit * Windows(until - now, ms);
    if key in counters && Alive(counters[key], now) {
      var e := counters[key].expiresAt.value;
      WindowsGrow(until - e, until - now, ms);
      WindowsScaled(l.limit, Windows(until - e, ms), Windows(until - now, ms));
    }
  }

  lemma {:induction false} WindowsExact(k: nat, ms: int)
    requires ms >= 1
    ensures Windows(k * ms, ms) == k
  {
    if k > 0 {
      WindowsExact(k - 1, ms);
      assert k * ms - ms == (k - 1) * ms;
    }
  }

  /**
   * In every run, the requests of a user that pass in any half-open interval of k windows are at most
   * (k + 1) times the limit, plus one for each failure of the limiter in that interval.
   */
  lemma PassedInAnyInterval(l: Limits, requests: seq<Request>, userID: int, from: int, k: nat)
    requires l.limit > 0 && Milliseconds(l.windowNs) >= 1 && userID > 0
    requires InTimeOrder(requests)
    ensures
      var until := from + k * Milliseconds(l.windowNs);
      PassedIn(l, map[], requests, userID, from, until) <= (k + 1) * l.limit + FaultsIn(requests, userID, from, until)
  {
    var until := from + k * Milliseconds(l.windowNs);
    PassedWithinWindows(l, map[], requests, userID, from, until);
    WindowsExact(k, Milliseconds(l.windowNs));
    assert l.limit * (1 + k) == (k + 1) * l.limit;
  }

  // ----- exactness for every user of a shared limiter

  lemma {:induction false} FilterInTimeOrder(requests: seq<Request>, userID: int)
    requires InTimeOrder(requests)
    ensures InTimeOrder(Filter(OfUser(userID), requests))
  {
    if requests != [] {
      FilterInTimeOrder(requests[1..], userID);
      var rest := Filter(OfUser(userID), requests[1..]);
      assert forall i :: 0 <= i < |rest| ==> rest[i] in requests[1..];
      assert forall r :: r in requests[1..] ==> requests[0].at <= r.at;
    }
  }

  /** The windows of a sequence of requests: contiguous, of the given length, each beginning at or after the end of the one before. */
  ghost predicate WindowAt(requests: seq<Request>, ms: int, i: nat)
    requires i < |requests|
  {
    var opening := Opening(requests, ms, i);
    && requests[opening].at <= requests[i].at < requests[opening].at + ms
    && (forall j: nat :: opening <= j <= i ==> Opening(requests, ms, j) == opening)
    && (opening > 0 ==> requests[opening].at >= requests[Opening(requests, ms, opening - 1)].at + ms)
  }

  lemma WindowsMeanWindows(requests: seq<Request>, ms: int, i: nat)
    requires InTimeOrder(requests) && ms >= 1 && i < |requests|
    ensures WindowAt(requests, ms, i)
  {
    var opening := Opening(requests, ms, i);
    OpeningMeaning(requests, ms, i);
    forall j: nat | opening <= j <= i ensures Opening(requests, ms, j) == opening {
      WindowIsContiguous(requests, ms, i, j);
    }
    if opening > 0 {
      WindowsApart(requests, ms, i);
    }
  }

  /**
   * Among any other users, and without failures, each window of a user admits exactly its first `limit`
   * requests. A window opens with the first request at or after the end of the one before, which is
   * admitted; rejected requests do not prolong it. Every counter that is stored has an expiry.
   */
  lemma LimiterIsExact(l: Limits, requests: seq<Request>, userID: int, i: nat)
    requires l.limit > 0 && Milliseconds(l.windowNs) >= 1 && userID > 0
    requires InTimeOrder(requests) && forall r :: r in requests && r.userID == userID ==> r.fault.NoFault?
    requires i < |Filter(OfUser(userID), requests)|
    ensures
      var mine := Filter(OfUser(userID), requests);
      var verdicts := VerdictsOfUser(requests, Verdicts(l, map[], requests), userID);
      var opening := Opening(mine, Milliseconds(l.windowNs), i);
      && |verdicts| == |mine|
      && verdicts[i] == (if i - opening < l.limit then Admitted else Rejected)
      && WindowAt(mine, Milliseconds(l.windowNs), i)
      && (i > 0 && mine[i].at >= mine[Opening(mine, Milliseconds(l.windowNs), i - 1)].at + Milliseconds(l.windowNs) ==>
            opening == i && verdicts[i].Admitted?)
    ensures Expiring(StateAfter(l, map[], requests))
  {
    var mine := Filter(OfUser(userID), requests);
    CountersExpire(l, map[], requests);
    UsersAreIndependent(l, map[], map[], requests, userID);
    FilterInTimeOrder(requests, userID);
    assert OneUser(mine, userID) by {
      forall j | 0 <= j < |mine| ensures mine[j].userID == userID && mine[j].fault.NoFault? {
        assert mine[j] in mine;
      }
    }
    CounterIsPlace(l, mine, userID, i);
    WindowsMeanWindows(mine, Milliseconds(l.windowNs), i);
    hide Verdicts, VerdictsOfUser, Filter, InTimeOrder, Milliseconds, WindowAt, StateAfter, Expiring;
    OpeningStep(mine, Milliseconds(l.windowNs), i);
  }

  // ----- what each request of a run is told, failures included

  /** The requests of a user that the script counts, with or without a reply. */
  function CountedOf(userID: int): Request -> bool {
    (r: Request) => r.userID == userID && !r.fault.NotRun?
  }

  /** The counter stands at the place of the user's last counted request. */
  predicate Placed(l: Limits, requests: seq<Request>, userID: int, counters: Counters) {
    var counted := Filter(CountedOf(userID), requests);
    if counted == [] then RateLimitKey(userID) !in counters else AtPlace(l, counted, userID, |counted| - 1, counters)
  }

  lemma FilterSnoc(userID: int, requests: seq<Request>, r: Request)
    ensures Filter(CountedOf(userID), requests + [r])
         == Filter(CountedOf(userID), requests) + if CountedOf(userID)(r) then [r] else []
  {
    FilterAppend(CountedOf(userID), requests, [r]);
    assert [r][1..] == [];
  }

  lemma {:induction false} OpeningPrefix(requests: seq<Request>, ms: int, r: Request, i: nat)
    requires i < |requests|
    ensures Opening(requests + [r], ms, i) == Opening(requests, ms, i)
  {
    if i > 0 {
      OpeningPrefix(requests, ms, r, i - 1);
    }
  }

  lemma PlaceInLonger(l: Limits, requests: seq<Request>, userID: int, r: Request, i: nat, counters: Counters)
    requires i < |requests| && AtPlace(l, requests, userID, i, counters)
    ensures AtPlace(l, requests + [r], userID, i, counters)
  {
    OpeningPrefix(requests, Milliseconds(l.windowNs), r, i);
    OpeningBelow(requests, Milliseconds(l.windowNs), i);
    hide Opening, Milliseconds, RateLimitKey;
  }

  lemma CountedStep(l: Limits, requests: seq<Request>, userID: int, before: Counters, r: Request)
    requires Milliseconds(l.windowNs) >= 1 && userID > 0 && CountedOf(userID)(r) && Placed(l, requests, userID, before)
    ensures Placed(l, requests + [r], userID, AfterRequest(l, before, r))
    ensures
      var counted := Filter(CountedOf(userID), requests + [r]);
      var i := |counted| - 1;
      && i >= 0
      && (r.fault.NoFault? ==>
            VerdictOf(l, before, r) == if i - Opening(counted, Milliseconds(l.windowNs), i) < l.limit then Admitted else Rejected)
  {
    var counted := Filter(CountedOf(userID), requests);
    FilterSnoc(userID, requests, r);
    hide Filter, AfterRequest, VerdictOf, Opening, Milliseconds, RateLimitKey, AtPlace;
    if counted != [] {
      PlaceInLonger(l, counted, userID, r, |counted| - 1, before);
    }
    PlaceStep(l, counted + [r], userID, |counted|, before);
  }

  lemma PlacedStep(l: Limits, requests: seq<Request>, userID: int, before: Counters, r: Request)
    requires Milliseconds(l.windowNs) >= 1 && userID > 0 && Placed(l, requests, userID, before)
    ensures Placed(l, requests + [r], userID, AfterRequest(l, before, r))
  {
    if CountedOf(userID)(r) {
      CountedStep(l, requests, userID, before, r);
    } else {
      UncountedStep(l, requests, userID, before, r);
    }
  }

  lemma UncountedStep(l: Limits, requests: seq<Request>, userID: int, before: Counters, r: Request)
    requires Placed(l, requests, userID, before) && !CountedOf(userID)(r)
    ensures Placed(l, requests + [r], userID, AfterRequest(l, before, r))
  {
    FilterSnoc(userID, requests, r);
    assert Filter(CountedOf(userID), requests) + [] == Filter(CountedOf(userID), requests);
    if r.userID != userID {
      OtherUser(l, before, r, userID);
    } else {
      UnansweredExactly(l, before, r);
    }
    hide Filter, Opening, Milliseconds, RateLimitKey, AfterRequest;
  }

  lemma {:induction false} RunPlaced(l: Limits, requests: seq<Request>, userID: int, k: nat)
    requires Milliseconds(l.windowNs) >= 1 && userID > 0 && k <= |requests|
    ensures Placed(l, requests[..k], userID, StateAfter(l, map[], requests[..k]))
    decreases k
  {
    if k == 0 {
      assert requests[..0] == [];
    } else {
      RunPlaced(l, requests, userID, k - 1);
      StateSnoc(l, map[], requests, k - 1);
      assert requests[..k] == requests[..k - 1] + [requests[k - 1]];
      hide Placed, AfterRequest, VerdictOf, StateAfter, Verdicts, Milliseconds;
      PlacedStep(l, requests[..k - 1], userID, StateAfter(l, map[], requests[..k - 1]), requests[k - 1]);
    }
  }

  /**
   * What every request of every run is told. An unknown user is turned away and counts nothing; when the limiter
   * fails, the request passes; and otherwise it is admitted exactly when it is among the first `limit` requests
   * that were counted in its window, those without a reply included.
   */
  lemma VerdictsExactly(l: Limits, requests: seq<Request>, k: nat, ms: int)
    requires k < |requests| && ms >= 1 && ms * 1_000_000 <= l.windowNs < (ms + 1) * 1_000_000
    ensures
      var r, verdict := requests[k], Verdicts(l, map[], requests)[k];
      var before, after := StateAfter(l, map[], requests[..k]), StateAfter(l, map[], requests[..k + 1]);
      var counted := Filter(CountedOf(r.userID), requests[..k + 1]);
      && (r.userID <= 0 ==> verdict == Unauthorized && !Passes(verdict) && after == before)
      && (r.userID > 0 && !r.fault.NoFault? ==> verdict == AdmittedOnError && Passes(verdict))
      && (r.fault.NotRun? ==> after == before)
      && (r.userID > 0 && r.fault.NoFault? ==>
            && counted != []
            && verdict == (if |counted| - 1 - Opening(counted, ms, |counted| - 1) < l.limit then Admitted else Rejected)
            && Passes(Admitted) && !Passes(Rejected)
            && (InTimeOrder(requests) ==> WindowAt(counted, ms, |counted| - 1)))
  {
    var r := requests[k];
    StateSnoc(l, map[], requests, k);
    hide StateAfter, Verdicts, Filter, WindowAt, VerdictOf, AfterRequest, InTimeOrder, Opening;
    if r.userID > 0 && r.fault.NoFault? {
      AnsweredExactly(l, requests, k, ms);
    }
    UnansweredExactly(l, StateAfter(l, map[], requests[..k]), r);
  }

  lemma UnansweredExactly(l: Limits, counters: Counters, r: Request)
    ensures r.userID <= 0 ==> VerdictOf(l, counters, r) == Unauthorized && AfterRequest(l, counters, r) == counters
    ensures r.userID > 0 && !r.fault.NoFault? ==> VerdictOf(l, counters, r) == AdmittedOnError
    ensures r.fault.NotRun? ==> AfterRequest(l, counters, r) == counters
  {
    hide Script;
  }

  lemma AnsweredExactly(l: Limits, requests: seq<Request>, k: nat, ms: int)
    requires k < |requests| && ms >= 1 && ms * 1_000_000 <= l.windowNs < (ms + 1) * 1_000_000
    requires requests[k].userID > 0 && requests[k].fault.NoFault?
    ensures
      var counted := Filter(CountedOf(requests[k].userID), requests[..k + 1]);
      && counted != []
      && Verdicts(l, map[], requests)[k] == (if |counted| - 1 - Opening(counted, ms, |counted| - 1) < l.limit then Admitted else Rejected)
      && (InTimeOrder(requests) ==> WindowAt(counted, ms, |counted| - 1))
  {
    hide Placed, AfterRequest, VerdictOf, StateAfter, Verdicts, Milliseconds, Filter, Opening, WindowAt, InTimeOrder, CountedOf;
    var r, prefix := requests[k], requests[..k];
    assert requests[..k + 1] == prefix + [r];
    MillisecondsAre(l.windowNs, ms);
    StateSnoc(l, map[], requests, k);
    RunPlaced(l, requests, r.userID, k);
    assert CountedOf(r.userID)(r) by { IsCounted(r); }
    CountedStep(l, prefix, r.userID, StateAfter(l, map[], prefix), r);
    if InTimeOrder(requests) {
      CountedWindow(requests, k, r.userID, ms);
    }
  }

  lemma MillisecondsAre(ns: int, ms: int)
    requires ms >= 1 && ms * 1_000_000 <= ns < (ms + 1) * 1_000_000
    ensures Milliseconds(ns) == ms
  {
  }

  lemma IsCounted(r: Request)
    requires !r.fault.NotRun?
    ensures CountedOf(r.userID)(r)
  {
  }

  lemma CountedWindow(requests: seq<Request>, k: nat, userID: int, ms: int)
    requires InTimeOrder(requests) && ms >= 1 && k < |requests| && Filter(CountedOf(userID), requests[..k + 1]) != []
    ensures var counted := Filter(CountedOf(userID), requests[..k + 1]); WindowAt(counted, ms, |counted| - 1)
  {
    assert InTimeOrder(requests[..k + 1]);
    hide WindowAt, Filter;
    CountedInOrder(requests[..k + 1], userID);
    WindowsMeanWindows(Filter(CountedOf(userID), requests[..k + 1]), ms, |Filter(CountedOf(userID), requests[..k + 1])| - 1);
  }

  lemma {:induction false} CountedInOrder(requests: seq<Request>, userID: int)
    requires InTimeOrder(requests)
    ensures InTimeOrder(Filter(CountedOf(userID), requests))
  {
    if requests != [] {
      CountedInOrder(requests[1..], userID);
      var rest := Filter(CountedOf(userID), requests[1..]);
      assert forall i :: 0 <= i < |rest| ==> rest[i] in requests[1..];
      assert forall r :: r in requests[1..] ==> requests[0].at <= r.at;
    }
  }

  // ----- windows of less than a millisecond

  /** n requests of one user at one moment. */
  function Burst(userID: int, at: int, n: nat): seq<Request> {
    seq(n, i => Request(at, userID, NoFault))
  }

  /** A counter whose expiry is not positive is deleted in the script that creates it. */
  lemma {:induction false} NothingCounted(l: Limits, userID: int, at: int, n: nat)
    requires l.limit > 0 && 0 < l.windowNs < 1_000_000 && userID > 0
    ensures forall i :: 0 <= i < n ==> Verdicts(l, map[], Burst(userID, at, n))[i].Admitted?
  {
    if n > 0 {
      var burst := Burst(userID, at, n);
      assert burst[1..] == Burst(userID, at, n - 1);
      assert AfterRequest(l, map[], burst[0]) == map[] by {
        hide RateLimitKey;
      }
      NothingCounted(l, userID, at, n - 1);
    }
  }

  /**
   * The configuration accepts every positive window, but a window is a limit only from one millisecond on:
   * with a shorter one, and only then, any number of requests at one moment is admitted.
   */
  lemma UnlimitedExactly(l: Limits, userID: int, at: int)
    requires l.limit > 0 && l.windowNs > 0 && userID > 0
    ensures (forall n: nat, i: nat :: i < n ==> Verdicts(l, map[], Burst(userID, at, n))[i].Admitted?)
            <==> l.windowNs < 1_000_000
  {
    if l.windowNs < 1_000_000 {
      forall n: nat, i: nat | i < n ensures Verdicts(l, map[], Burst(userID, at, n))[i].Admitted? {
        NothingCounted(l, userID, at, n);
      }
    } else {
      var n := l.limit + 1;
      var burst := Burst(userID, at, n);
      CounterIsPlace(l, burst, userID, l.limit);
      OpeningOfBurst(userID, at, n, Milliseconds(l.windowNs), l.limit);
      assert !Verdicts(l, map[], burst)[l.limit].Admitted?;
    }
  }

  lemma {:induction false} OpeningOfBurst(userID: int, at: int, n: nat, ms: int, i: nat)
    requires i < n && ms >= 1
    ensures Opening(Burst(userID, at, n), ms, i) == 0
  {
    if i > 0 {
      OpeningOfBurst(userID, at, n, ms, i - 1);
    }
  }
}
