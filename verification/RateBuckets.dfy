/**
 The publish rate limit: a token bucket per user, kept in constant space.

 The bucket holds 20 tokens and gains 10 a second. Amounts are in hundredths of a token, so a
 millisecond adds exactly one and a call costs 100.
 */
module RateBuckets {
  import opened Options

  type UserId = nat
  type Time = int // milliseconds

  const COST := 100
  const FULL := 20 * COST

  datatype Bucket = Bucket(tokens: int, updatedAt: Time)

  /** What the bucket holds at `now`, before the call at `now` is served. */
  function Level(b: Option<Bucket>, now: Time): int {
    match b
    case None => FULL
    case Some(bucket) =>
      var refilled := bucket.tokens + (now - bucket.updatedAt);
      if refilled < FULL then refilled else FULL
  }

  function Served(b: Option<Bucket>, now: Time): Bucket {
    var level := Level(b, now);
    Bucket(if level < COST then level else level - COST, now)
  }

  // ---------------------------------------------------------------- histories of one user

  datatype Call = Call(at: Time, admitted: bool)

  predicate InOrder(times: seq<Time>) {
    forall i, j :: 0 <= i < j < |times| ==> times[i] <= times[j]
  }

  /** How many calls of `h` from position `j` on were admitted. */
  function AdmittedFrom(h: seq<Call>, j: nat): nat
    decreases |h| - j
  {
    if j >= |h| then 0 else (if h[j].admitted then 1 else 0) + AdmittedFrom(h, j + 1)
  }

  /** The reference rule, over the whole history: for every earlier call, the calls admitted since
      it and this one fit in the burst plus what the elapsed time allows. */
  predicate WithinAllWindows(h: seq<Call>, now: Time) {
    forall j :: 0 <= j < |h| ==> COST * (AdmittedFrom(h, j) + 1) <= FULL + (now - h[j].at)
  }

  /** Every call judged by the reference rule. */
  function ByRule(times: seq<Time>): (h: seq<Call>)
    ensures |h| == |times|
    ensures forall i :: 0 <= i < |h| ==> h[i].at == times[i]
  {
    if times == [] then []
    else
      var now := times[|times| - 1];
      var h := ByRule(times[..|times| - 1]);
      h + [Call(now, WithinAllWindows(h, now))]
  }

  /** Every call judged by the bucket alone. */
  function ByBucket(times: seq<Time>): (seq<Call>, Option<Bucket>) {
    if times == [] then ([], None)
    else
      var now := times[|times| - 1];
      var (h, b) := ByBucket(times[..|times| - 1]);
      (h + [Call(now, Level(b, now) >= COST)], Some(Served(b, now)))
  }

  lemma {:induction false} AdmittedAfter(h: seq<Call>, c: Call, j: nat)
    requires j <= |h|
    ensures AdmittedFrom(h + [c], j) == AdmittedFrom(h, j) + (if c.admitted then 1 else 0)
    decreases |h| - j
  {
    if j < |h| {
      assert (h + [c])[j] == h[j];
      AdmittedAfter(h, c, j + 1);
    } else {
      assert (h + [c])[j] == c;
      assert AdmittedFrom(h + [c], j + 1) == 0;
    }
  }

  /** The room the window opened by call `j` leaves at `now`. */
  function Room(h: seq<Call>, j: nat, now: Time): int
    requires j < |h|
  {
    FULL - COST * AdmittedFrom(h, j) + (now - h[j].at)
  }

  /** The bucket's content is the least room of any window. */
  ghost predicate Tracks(h: seq<Call>, b: Option<Bucket>) {
    match b
    case None => h == []
    case Some(bucket) =>
      && (forall j :: 0 <= j < |h| ==> bucket.tokens <= Room(h, j, bucket.updatedAt))
      && (exists j :: 0 <= j < |h| && bucket.tokens == Room(h, j, bucket.updatedAt))
  }

  lemma OneCall(h: seq<Call>, b: Option<Bucket>, now: Time)
    requires Tracks(h, b)
    requires b.Some? ==> b.value.updatedAt <= now
    ensures Level(b, now) >= COST <==> WithinAllWindows(h, now)
    ensures Tracks(h + [Call(now, WithinAllWindows(h, now))], Some(Served(b, now)))
  {
    forall j | 0 <= j < |h| && b.Some?
      ensures Room(h, j, now) == Room(h, j, b.value.updatedAt) + (now - b.value.updatedAt)
      ensures COST * (AdmittedFrom(h, j) + 1) <= FULL + (now - h[j].at) <==> Room(h, j, now) >= COST
    {
    }
    var c := Call(now, WithinAllWindows(h, now));
    var h' := h + [c];
    var spent := if c.admitted then COST else 0;
    forall j | 0 <= j < |h|
      ensures Room(h', j, now) == Room(h, j, now) - spent
    {
      AdmittedAfter(h, c, j);
    }
    AdmittedAfter(h, c, |h|);
    assert Room(h', |h|, now) == FULL - spent;
    if b.Some? {
      var w :| 0 <= w < |h| && b.value.tokens == Room(h, w, b.value.updatedAt);
      assert Room(h, w, now) == b.value.tokens + (now - b.value.updatedAt);
      assert Room(h', w, now) == Room(h, w, now) - spent;
    }
  }

  /** The bucket decides every call exactly as the rule over all windows does. */
  lemma {:induction false} BucketRefinesRule(times: seq<Time>)
    requires InOrder(times)
    ensures ByBucket(times).0 == ByRule(times)
    ensures Tracks(ByRule(times), ByBucket(times).1)
    ensures times != [] ==> ByBucket(times).1.Some? && ByBucket(times).1.value.updatedAt == times[|times| - 1]
  {
    if times != [] {
      BucketRefinesRule(times[..|times| - 1]);
      var (h, b) := ByBucket(times[..|times| - 1]);
      OneCall(h, b, times[|times| - 1]);
    }
  }

  // ---------------------------------------------------------------- what the rule promises

  /** How many of the calls at positions i..j (both included) were admitted. */
  function AdmittedBetween(h: seq<Call>, i: nat, j: nat): nat
    requires i <= j < |h|
  {
    AdmittedFrom(h[..j + 1], i)
  }

  /** How a call is judged does not depend on later ones. */
  lemma {:induction false} RulePrefix(times: seq<Time>, n: nat)
    requires n <= |times|
    ensures ByRule(times)[..n] == ByRule(times[..n])
  {
    if n < |times| {
      var m := |times| - 1;
      RulePrefix(times[..m], n);
      assert times[..m][..n] == times[..n];
      assert ByRule(times)[..n] == ByRule(times[..m])[..n];
    } else {
      assert times[..n] == times;
    }
  }

  lemma {:induction false} SpanToEnd(times: seq<Time>, i: nat)
    requires InOrder(times) && i < |times|
    ensures COST * AdmittedFrom(ByRule(times), i) <= FULL + (times[|times| - 1] - times[i])
  {
    var n := |times| - 1;
    var h := ByRule(times[..n]);
    AdmittedAfter(h, ByRule(times)[n], i);
    if i < n {
      SpanToEnd(times[..n], i);
    }
  }

  /** No span of T seconds admits more than 20 + 10 T calls. */
  lemma EverySpanBounded(times: seq<Time>, i: nat, j: nat)
    requires InOrder(times)
    requires i <= j < |times|
    ensures 100 * AdmittedBetween(ByRule(times), i, j) <= 2000 + (times[j] - times[i])
  {
    RulePrefix(times, j + 1);
    SpanToEnd(times[..j + 1], i);
  }

  /** A call that comes at least 100 ms after the caller's previous one is never refused, whatever
      happened before that. */
  lemma SpacedCallAdmitted(times: seq<Time>)
    requires InOrder(times) && times != []
    requires |times| > 1 ==> times[|times| - 1] - times[|times| - 2] >= 100
    ensures ByRule(times)[|times| - 1].admitted
  {
    var n := |times| - 1;
    var h := ByRule(times[..n]);
    forall j | 0 <= j < |h|
      ensures COST * (AdmittedFrom(h, j) + 1) <= FULL + (times[n] - h[j].at)
    {
      SpanToEnd(times[..n], j);
    }
    assert WithinAllWindows(h, times[n]);
  }

  /** The bound is reached: of calls that all come at one instant exactly the first 20 pass. */
  lemma {:induction false} BurstIsTwenty(times: seq<Time>, t: Time)
    requires forall i :: 0 <= i < |times| ==> times[i] == t
    ensures forall i :: 0 <= i < |times| ==> (ByRule(times)[i].admitted <==> i < 20)
    ensures AdmittedFrom(ByRule(times), 0) == if |times| < 20 then |times| else 20
  {
    if times != [] {
      var n := |times| - 1;
      BurstIsTwenty(times[..n], t);
      var h := ByRule(times[..n]);
      forall j | 0 <= j < |h|
        ensures AdmittedFrom(h, j) <= AdmittedFrom(h, 0)
      {
        AdmittedShrinks(h, 0, j);
      }
      AdmittedAfter(h, ByRule(times)[n], 0);
    }
  }

  /** And the rate is reached and not exceeded: once 20 calls at one instant have emptied the bucket, the
      next call passes if and only if it comes 100 ms later or more. */
  lemma NextAfterBurst(t: Time, now: Time)
    requires t <= now
    ensures ByRule(seq(20, _ => t) + [now])[20].admitted <==> now - t >= 100
    ensures |ByBucket(seq(20, _ => t) + [now]).0| == 21
    ensures ByBucket(seq(20, _ => t) + [now]).0[20].admitted <==> now - t >= 100
  {
    var burst := seq(20, _ => t);
    var times := burst + [now];
    var h := ByRule(burst);
    assert times[..20] == burst;
    BurstIsTwenty(burst, t);
    BucketRefinesRule(times);
    assert h[0].at == t && AdmittedFrom(h, 0) == 20;
    forall j | 0 <= j < |h|
      ensures AdmittedFrom(h, j) <= 20 && h[j].at == t
    {
      AdmittedShrinks(h, 0, j);
    }
    assert WithinAllWindows(h, now) <==> now - t >= 100;
  }

  lemma {:induction false} AdmittedShrinks(h: seq<Call>, i: nat, j: nat)
    requires i <= j
    ensures AdmittedFrom(h, j) <= AdmittedFrom(h, i)
    decreases j - i
  {
    if i < j {
      AdmittedShrinks(h, i + 1, j);
    }
  }

  // ---------------------------------------------------------------- many users

  datatype Attempt = Attempt(user: UserId, at: Time)
  datatype Entry = Entry(user: UserId, call: Call)

  function BucketOf(buckets: map<UserId, Bucket>, user: UserId): Option<Bucket> {
    if user in buckets then Some(buckets[user]) else None
  }

  /** The calls of all users in arrival order, each decided from its own user's bucket. */
  function Serve(attempts: seq<Attempt>): (seq<Entry>, map<UserId, Bucket>) {
    if attempts == [] then ([], map[])
    else
      var a := attempts[|attempts| - 1];
      var (log, buckets) := Serve(attempts[..|attempts| - 1]);
      var b := BucketOf(buckets, a.user);
      (log + [Entry(a.user, Call(a.at, Level(b, a.at) >= COST))], buckets[a.user := Served(b, a.at)])
  }

  function TimesOf(attempts: seq<Attempt>, user: UserId): seq<Time> {
    if attempts == [] then []
    else
      var a := attempts[|attempts| - 1];
      var rest := TimesOf(attempts[..|attempts| - 1], user);
      if a.user == user then rest + [a.at] else rest
  }

  function CallsOf(log: seq<Entry>, user: UserId): seq<Call> {
    if log == [] then []
    else
      var e := log[|log| - 1];
      var rest := CallsOf(log[..|log| - 1], user);
      if e.user == user then rest + [e.call] else rest
  }

  /** Users do not share tokens: in any interleaving a user's calls are decided by the rule applied
      to that user's calls alone. */
  lemma {:induction false} UsersAreIndependent(attempts: seq<Attempt>, user: UserId)
    requires InOrder(TimesOf(attempts, user))
    ensures CallsOf(Serve(attempts).0, user) == ByRule(TimesOf(attempts, user))
    ensures BucketOf(Serve(attempts).1, user) == ByBucket(TimesOf(attempts, user)).1
  {
    if attempts != [] {
      var n := |attempts| - 1;
      var a := attempts[n];
      var times := TimesOf(attempts, user);
      var log := Serve(attempts[..n]).0;
      if a.user == user {
        assert times[..|times| - 1] == TimesOf(attempts[..n], user);
      }
      UsersAreIndependent(attempts[..n], user);
      BucketRefinesRule(times);
      assert Serve(attempts).0[..|log|] == log;
    }
  }

  /** The limiter as the gateway keeps it. */
  class RateLimiter {
    var buckets: map<UserId, Bucket>

    constructor ()
      ensures buckets == Serve([]).1
    {
      buckets := map[];
    }

    method Consume(user: UserId, now: Time) returns (ok: bool)
      modifies this
      ensures var held := if user in old(buckets) then old(buckets)[user].tokens + now - old(buckets)[user].updatedAt
                          else 2000;
              && (ok <==> held >= 100)
              && user in buckets && buckets[user].updatedAt == now
              && buckets[user].tokens == (if held > 2000 then 2000 else held) - (if ok then 100 else 0)
      ensures ok == (Level(BucketOf(old(buckets), user), now) >= COST)
      ensures buckets == old(buckets)[user := Served(BucketOf(old(buckets), user), now)]
    {
      var bucket := if user in buckets then buckets[user] else Bucket(FULL, now);
      var tokens := bucket.tokens + (now - bucket.updatedAt);
      if tokens > FULL {
        tokens := FULL;
      }
      if tokens < COST {
        buckets := buckets[user := Bucket(tokens, now)];
        return false;
      }
      buckets := buckets[user := Bucket(tokens - COST, now)];
      return true;
    }
  }
}
