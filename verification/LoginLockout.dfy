/**
 Login lockout: a sliding window over the `auth.login.fail` rows of the audit log.

 The rows are kept in the order they are written. Nothing is ever deleted: a successful login
 marks rows as reset, and rows age out of the window.
 */
module LoginLockout {
  import opened Options

  type TenantId = nat
  type Email = string
  type Ip = string
  type Time = int // milliseconds

  datatype Row = Row(tenant: TenantId, email: Email, ip: Option<Ip>, at: Time, reset: bool)

  datatype Policy = Policy(window: Time, emailThreshold: int, ipThreshold: int)

  /** `numFromEnv` lets only positive numbers through. */
  predicate Valid(p: Policy) {
    p.window > 0 && p.emailThreshold > 0 && p.ipThreshold > 0
  }

  /** The two counters a failure goes to. */
  datatype Scope = ByEmail(tenant: TenantId, email: Email) | ByIp(tenant: TenantId, ip: Ip)
  {
    predicate Covers(row: Row) {
      match this
      case ByEmail(tenant, email) => row.tenant == tenant && row.email == email
      case ByIp(tenant, ip) => row.tenant == tenant && row.ip == Some(ip)
    }

    function Threshold(p: Policy): int {
      if ByEmail? then p.emailThreshold else p.ipThreshold
    }
  }

  function Count(rows: seq<Row>, test: Row -> bool): nat {
    if rows == [] then 0
    else Count(rows[..|rows| - 1], test) + (if test(rows[|rows| - 1]) then 1 else 0)
  }

  function Counted(scope: Scope, since: Time): Row -> bool {
    (row: Row) => scope.Covers(row) && row.at >= since && !row.reset
  }

  /** What the count query behind `isLoginLocked` returns for a scope. */
  function Failures(rows: seq<Row>, scope: Scope, since: Time): nat {
    Count(rows, Counted(scope, since))
  }

  predicate Full(rows: seq<Row>, p: Policy, scope: Scope, now: Time) {
    Failures(rows, scope, now - p.window) >= scope.Threshold(p)
  }

  // ---------------------------------------------------------------- one login

  /** What the user, membership and subscription tables say of the attempt. */
  datatype Credentials = TenantUnknown | Bad | NoMembership | NotEntitled | Good

  /** `page` is the list of row positions the database returns to `resetLoginFailures`. */
  datatype Attempt = Attempt(tenant: TenantId, email: Email, ip: Option<Ip>, at: Time,
                             credentials: Credentials, page: seq<nat>)
  {
    function Account(): Scope { ByEmail(tenant, email) }
  }

  datatype Verdict = Refused | LockedOut | InvalidCredentials | NoAccess | Inactive | Accepted

  predicate Locked(rows: seq<Row>, p: Policy, a: Attempt) {
    Full(rows, p, a.Account(), a.at) || (a.ip.Some? && Full(rows, p, ByIp(a.tenant, a.ip.value), a.at))
  }

  function Judge(rows: seq<Row>, p: Policy, a: Attempt): Verdict {
    if a.credentials.TenantUnknown? then Refused
    else if Locked(rows, p, a) then LockedOut
    else match a.credentials
      case Bad => InvalidCredentials
      case NoMembership => NoAccess
      case NotEntitled => Inactive
      case Good => Accepted
  }

  const PAGE := 100

  /** The positions `findMany` may return: recent rows of the account, reset or not. */
  function Recent(rows: seq<Row>, scope: Scope, since: Time): set<nat> {
    set i | 0 <= i < |rows| && scope.Covers(rows[i]) && rows[i].at >= since
  }

  /** A legal answer: distinct recent rows, all of them or any 100, in no stated order. */
  ghost predicate LegalPage(rows: seq<Row>, scope: Scope, since: Time, page: seq<nat>) {
    var recent := Recent(rows, scope, since);
    && (forall i :: 0 <= i < |page| ==> page[i] in recent)
    && (forall i, j :: 0 <= i < j < |page| ==> page[i] != page[j])
    && |page| == if |recent| < PAGE then |recent| else PAGE
  }

  function Reset(rows: seq<Row>, page: seq<nat>): seq<Row> {
    seq(|rows|, i requires 0 <= i < |rows| => if i in page then rows[i].(reset := true) else rows[i])
  }

  function After(rows: seq<Row>, p: Policy, a: Attempt): seq<Row> {
    match Judge(rows, p, a)
    case InvalidCredentials => rows + [Row(a.tenant, a.email, a.ip, a.at, false)]
    case Accepted => Reset(rows, a.page)
    case _ => rows
  }

  function Run(rows: seq<Row>, p: Policy, trace: seq<Attempt>): seq<Row> {
    if trace == [] then rows
    else After(Run(rows, p, trace[..|trace| - 1]), p, trace[|trace| - 1])
  }

  ghost predicate PageFits(rows: seq<Row>, p: Policy, a: Attempt) {
    Judge(rows, p, a).Accepted? ==> LegalPage(rows, a.Account(), a.at - p.window, a.page)
  }

  function LastTime(trace: seq<Attempt>, start: Time): Time {
    if trace == [] then start else trace[|trace| - 1].at
  }

  /** The clock never goes back and every page used is one the database may return. */
  ghost predicate Legal(rows: seq<Row>, p: Policy, trace: seq<Attempt>, start: Time) {
    trace != [] ==>
      var earlier, a := trace[..|trace| - 1], trace[|trace| - 1];
      && Legal(rows, p, earlier, start)
      && LastTime(earlier, start) <= a.at
      && PageFits(Run(rows, p, earlier), p, a)
  }

  // ---------------------------------------------------------------- counting

  /** A test that implies another, row by row, counts no more. */
  lemma {:induction false} CountLeast(rows: seq<Row>, rows': seq<Row>, test: Row -> bool, test': Row -> bool)
    requires |rows| == |rows'|
    requires forall i :: 0 <= i < |rows| ==> test(rows[i]) ==> test'(rows'[i])
    ensures Count(rows, test) <= Count(rows', test')
  {
    if rows != [] {
      var n := |rows| - 1;
      CountLeast(rows[..n], rows'[..n], test, test');
    }
  }

  lemma CountOneMore(rows: seq<Row>, row: Row, test: Row -> bool)
    ensures Count(rows + [row], test) == Count(rows, test) + (if test(row) then 1 else 0)
  {
    assert (rows + [row])[..|rows|] == rows;
  }

  // ---------------------------------------------------------------- who gets in

  /** The failures of an account, and of an address, since a moment. */
  function EmailFailures(rows: seq<Row>, tenant: TenantId, email: Email, since: Time): set<nat> {
    set i | 0 <= i < |rows| && rows[i].tenant == tenant && rows[i].email == email
            && rows[i].at >= since && !rows[i].reset
  }

  function IpFailures(rows: seq<Row>, tenant: TenantId, ip: Ip, since: Time): set<nat> {
    set i | 0 <= i < |rows| && rows[i].tenant == tenant && rows[i].ip == Some(ip)
            && rows[i].at >= since && !rows[i].reset
  }

  function Where(rows: seq<Row>, test: Row -> bool): set<nat> { set i | 0 <= i < |rows| && test(rows[i]) }

  lemma {:induction false} CountIsSize(rows: seq<Row>, test: Row -> bool)
    ensures Count(rows, test) == |Where(rows, test)|
  {
    if rows != [] {
      var n := |rows| - 1;
      CountIsSize(rows[..n], test);
      assert forall i :: 0 <= i < n ==> rows[..n][i] == rows[i];
      assert Where(rows, test) == if test(rows[n]) then Where(rows[..n], test) + {n} else Where(rows[..n], test);
    }
  }

  /** Exactly which attempts succeed, and what an attempt writes: good credentials are refused while the
      account or the address has reached its threshold, and a failure is recorded for bad ones only. */
  lemma LoginExactly(rows: seq<Row>, p: Policy, a: Attempt)
    ensures var since := a.at - p.window;
            var unlocked := && |EmailFailures(rows, a.tenant, a.email, since)| < p.emailThreshold
                            && (a.ip.Some? ==> |IpFailures(rows, a.tenant, a.ip.value, since)| < p.ipThreshold);
            && (Judge(rows, p, a).Accepted? <==> a.credentials.Good? && unlocked)
            && (if a.credentials.Bad? && unlocked then
                  After(rows, p, a) == rows + [Row(a.tenant, a.email, a.ip, a.at, false)]
                else if a.credentials.Good? && unlocked then
                  && |After(rows, p, a)| == |rows|
                  && forall i :: 0 <= i < |rows| ==>
                       After(rows, p, a)[i] == rows[i].(reset := rows[i].reset || i in a.page)
                else After(rows, p, a) == rows)
  {
    var since := a.at - p.window;
    CountIsSize(rows, Counted(a.Account(), since));
    assert Where(rows, Counted(a.Account(), since)) == EmailFailures(rows, a.tenant, a.email, since);
    if a.ip.Some? {
      CountIsSize(rows, Counted(ByIp(a.tenant, a.ip.value), since));
      assert Where(rows, Counted(ByIp(a.tenant, a.ip.value), since)) == IpFailures(rows, a.tenant, a.ip.value, since);
    }
  }

  // ---------------------------------------------------------------- the rate bound

  predicate InBound(rows: seq<Row>, p: Policy, scope: Scope, now: Time) {
    Failures(rows, scope, now - p.window) <= scope.Threshold(p)
  }

  /** From `now` on, no counter is above its threshold. */
  ghost predicate Bounded(rows: seq<Row>, p: Policy, now: Time) {
    && (forall i :: 0 <= i < |rows| ==> rows[i].at <= now)
    && (forall scope: Scope, t: Time :: t >= now ==> InBound(rows, p, scope, t))
  }

  lemma AttemptKeepsBound(rows: seq<Row>, p: Policy, a: Attempt, before: Time)
    requires Valid(p) && Bounded(rows, p, before) && before <= a.at
    ensures Bounded(After(rows, p, a), p, a.at)
  {
    var rows' := After(rows, p, a);
    forall scope: Scope, t: Time | t >= a.at
      ensures InBound(rows', p, scope, t)
    {
      assert InBound(rows, p, scope, t);
      match Judge(rows, p, a) {
        case InvalidCredentials =>
          var row := rows'[|rows|];
          CountOneMore(rows, row, Counted(scope, t - p.window));
          if scope.Covers(row) {
            CountLeast(rows, rows, Counted(scope, t - p.window), Counted(scope, a.at - p.window));
            assert !Full(rows, p, scope, a.at);
          }
        case Accepted =>
          CountLeast(rows', rows, Counted(scope, t - p.window), Counted(scope, t - p.window));
        case _ =>
      }
    }
  }

  /** In every reachable state, for every account and every address of every tenant, the failures
      still counted in the window are at most the threshold. */
  lemma LockoutBound(p: Policy, trace: seq<Attempt>, start: Time, now: Time, scope: Scope)
    requires Valid(p) && Legal([], p, trace, start) && LastTime(trace, start) <= now
    ensures Failures(Run([], p, trace), scope, now - p.window) <= scope.Threshold(p)
  {
    RunBounded(p, trace, start);
    assert InBound(Run([], p, trace), p, scope, now);
  }

  lemma {:induction false} RunBounded(p: Policy, trace: seq<Attempt>, start: Time)
    requires Valid(p) && Legal([], p, trace, start)
    ensures Bounded(Run([], p, trace), p, LastTime(trace, start))
  {
    if trace != [] {
      RunBounded(p, trace[..|trace| - 1], start);
      AttemptKeepsBound(Run([], p, trace[..|trace| - 1]), p, trace[|trace| - 1], LastTime(trace[..|trace| - 1], start));
    }
  }

  /** No attempt of the trace is a successful login to the account. */
  ghost predicate NoSuccess(rows: seq<Row>, p: Policy, trace: seq<Attempt>, account: Scope) {
    trace != [] ==>
      var earlier, a := trace[..|trace| - 1], trace[|trace| - 1];
      && NoSuccess(rows, p, earlier, account)
      && (a.Account() == account ==> !Judge(Run(rows, p, earlier), p, a).Accepted?)
  }

  function In(scope: Scope, lo: Time, hi: Time): Row -> bool {
    (row: Row) => scope.Covers(row) && lo <= row.at <= hi
  }

  lemma {:induction false} CountSuffix(rows: seq<Row>, from: nat, test: Row -> bool)
    requires from <= |rows|
    ensures Count(rows[from..], test) <= Count(rows, test)
  {
    if from < |rows| {
      var n := |rows| - 1;
      CountSuffix(rows[..n], from, test);
      assert rows[from..][..n - from] == rows[..n][from..];
    }
  }

  /** The failures of `account` written since position `from` are all unreset, and no interval one
      window long from `lo` holds more of them than the threshold. */
  ghost predicate FewGuesses(rows: seq<Row>, from: nat, p: Policy, account: Scope, lo: Time) {
    && from <= |rows|
    && (forall i :: from <= i < |rows| && account.Covers(rows[i]) ==> !rows[i].reset)
    && Count(rows[from..], In(account, lo, lo + p.window)) <= p.emailThreshold
  }

  lemma OneMoreGuess(rows: seq<Row>, from: nat, p: Policy, account: Scope, lo: Time, a: Attempt)
    requires Valid(p) && account.ByEmail? && FewGuesses(rows, from, p, account, lo)
    requires Judge(rows, p, a).InvalidCredentials?
    ensures FewGuesses(After(rows, p, a), from, p, account, lo)
  {
    var test := In(account, lo, lo + p.window);
    var row := Row(a.tenant, a.email, a.ip, a.at, false);
    assert After(rows, p, a)[from..] == rows[from..] + [row];
    CountOneMore(rows[from..], row, test);
    if test(row) {
      var counted := Counted(account, a.at - p.window);
      CountLeast(rows[from..], rows[from..], test, counted);
      CountSuffix(rows, from, counted);
      assert !Full(rows, p, account, a.at);
    }
  }

  lemma OthersReset(rows: seq<Row>, from: nat, p: Policy, account: Scope, lo: Time, a: Attempt)
    requires account.ByEmail? && FewGuesses(rows, from, p, account, lo)
    requires a.Account() != account && LegalPage(rows, a.Account(), a.at - p.window, a.page)
    ensures FewGuesses(Reset(rows, a.page), from, p, account, lo)
  {
    var rows' := Reset(rows, a.page);
    var test := In(account, lo, lo + p.window);
    CountLeast(rows'[from..], rows[from..], test, test);
    forall i | from <= i < |rows| && account.Covers(rows[i])
      ensures i !in a.page
    {
    }
  }

  /** Between two successful logins to an account, every interval one window long holds at most the
      threshold of recorded failures for it: a guesser gets no more tries than that. */
  lemma {:induction false} GuessesBetweenLogins(rows: seq<Row>, p: Policy, trace: seq<Attempt>, start: Time,
                                                account: Scope, lo: Time)
    requires Valid(p) && account.ByEmail?
    requires Legal(rows, p, trace, start) && NoSuccess(rows, p, trace, account)
    ensures FewGuesses(Run(rows, p, trace), |rows|, p, account, lo)
  {
    if trace != [] {
      var earlier, a := trace[..|trace| - 1], trace[|trace| - 1];
      GuessesBetweenLogins(rows, p, earlier, start, account, lo);
      var before := Run(rows, p, earlier);
      match Judge(before, p, a) {
        case InvalidCredentials => OneMoreGuess(before, |rows|, p, account, lo, a);
        case Accepted => OthersReset(before, |rows|, p, account, lo, a);
        case _ =>
      }
    }
  }

  // ---------------------------------------------------------------- a lock opens by itself

  /** Every attempt of the trace on `account` found the account's own counter full. */
  ghost predicate StaysFull(rows: seq<Row>, p: Policy, trace: seq<Attempt>, account: Scope) {
    trace != [] ==>
      var earlier, a := trace[..|trace| - 1], trace[|trace| - 1];
      && StaysFull(rows, p, earlier, account)
      && (a.Account() == account ==> Full(Run(rows, p, earlier), p, account, a.at))
  }

  /** While an account is locked no failure is recorded for it and none of its rows changes. */
  lemma {:induction false} LockedAddsNothing(rows: seq<Row>, p: Policy, trace: seq<Attempt>, start: Time,
                                             account: Scope, since: Time)
    requires account.ByEmail? && Legal(rows, p, trace, start) && StaysFull(rows, p, trace, account)
    ensures Failures(Run(rows, p, trace), account, since) == Failures(rows, account, since)
  {
    if trace != [] {
      var earlier, a := trace[..|trace| - 1], trace[|trace| - 1];
      LockedAddsNothing(rows, p, earlier, start, account, since);
      var before := Run(rows, p, earlier);
      var counted := Counted(account, since);
      match Judge(before, p, a) {
        case InvalidCredentials =>
          CountOneMore(before, Row(a.tenant, a.email, a.ip, a.at, false), counted);
        case Accepted =>
          var after := Reset(before, a.page);
          forall i | 0 <= i < |before| && account.Covers(before[i])
            ensures i !in a.page
          {
          }
          CountLeast(after, before, counted, counted);
          CountLeast(before, after, counted, counted);
        case _ =>
      }
    }
  }

  /** An account lock opens again within one window: however often the locked account is tried, from
      one window after the last counted failure on its counter is below the threshold. */
  lemma LockOpens(rows: seq<Row>, p: Policy, trace: seq<Attempt>, start: Time, account: Scope, now: Time)
    requires Valid(p) && account.ByEmail?
    requires forall i :: 0 <= i < |rows| ==> rows[i].at <= start
    requires Legal(rows, p, trace, start) && StaysFull(rows, p, trace, account)
    requires now > start + p.window
    ensures !Full(Run(rows, p, trace), p, account, now)
  {
    NothingCounted(rows, account, now - p.window);
    LockedAddsNothing(rows, p, trace, start, account, now - p.window);
    NotFull(Run(rows, p, trace), p, account, now);
  }

  lemma NotFull(rows: seq<Row>, p: Policy, scope: Scope, now: Time)
    requires Valid(p) && Failures(rows, scope, now - p.window) == 0
    ensures !Full(rows, p, scope, now)
  {
  }

  lemma {:induction false} NothingCounted(rows: seq<Row>, scope: Scope, since: Time)
    requires forall i :: 0 <= i < |rows| ==> rows[i].at < since
    ensures Failures(rows, scope, since) == 0
  {
    if rows != [] {
      NothingCounted(rows[..|rows| - 1], scope, since);
    }
  }

  // ---------------------------------------------------------------- what a successful login resets

  lemma {:induction false} CountWitness(rows: seq<Row>, test: Row -> bool)
    ensures Count(rows, test) > 0 <==> exists i :: 0 <= i < |rows| && test(rows[i])
  {
    if rows != [] {
      var n := |rows| - 1;
      CountWitness(rows[..n], test);
      if i :| 0 <= i < |rows| && test(rows[i]) {
        assert i < n ==> test(rows[..n][i]);
      }
    }
  }

  /** Any number of distinct elements of a set, as a list. */
  lemma {:induction false} Listed(s: set<nat>, n: nat) returns (page: seq<nat>)
    requires n <= |s|
    ensures |page| == n
    ensures forall i :: 0 <= i < n ==> page[i] in s
    ensures forall i, j :: 0 <= i < j < n ==> page[i] != page[j]
  {
    if n == 0 {
      return [];
    }
    var x :| x in s;
    var rest := Listed(s - {x}, n - 1);
    page := rest + [x];
  }

  /** A list of |s| distinct elements of s holds all of s. */
  lemma {:induction false} ListsAll(s: set<nat>, page: seq<nat>)
    requires |page| == |s|
    requires forall i :: 0 <= i < |page| ==> page[i] in s
    requires forall i, j :: 0 <= i < j < |page| ==> page[i] != page[j]
    ensures forall x :: x in s ==> x in page
  {
    if page != [] {
      var n := |page| - 1;
      ListsAll(s - {page[n]}, page[..n]);
      forall x | x in s
        ensures x in page
      {
        if x != page[n] {
          assert x in page[..n];
        }
      }
    }
  }

  ghost predicate AlwaysCleared(rows: seq<Row>, scope: Scope, since: Time) {
    forall page :: LegalPage(rows, scope, since, page) ==> Failures(Reset(rows, page), scope, since) == 0
  }

  /** A successful login is meant to clear the account's counter. It does so, whatever rows the
      database returns, exactly when at most 100 recent rows exist or nothing was counted: rows that
      were reset before still take up places among the 100. */
  lemma ResetClears(rows: seq<Row>, scope: Scope, since: Time)
    ensures AlwaysCleared(rows, scope, since) <==>
            |Recent(rows, scope, since)| <= 100 || Failures(rows, scope, since) == 0
  {
    var recent := Recent(rows, scope, since);
    var counted := Counted(scope, since);
    if |recent| <= PAGE || Failures(rows, scope, since) == 0 {
      forall page | LegalPage(rows, scope, since, page)
        ensures Failures(Reset(rows, page), scope, since) == 0
      {
        SmallPageClears(rows, scope, since, page);
      }
    } else {
      CountWitness(rows, counted);
      var kept :| 0 <= kept < |rows| && counted(rows[kept]);
      var page := Listed(recent - {kept}, PAGE);
      assert kept !in page;
      assert LegalPage(rows, scope, since, page);
      assert counted(Reset(rows, page)[kept]);
      CountWitness(Reset(rows, page), counted);
      assert !AlwaysCleared(rows, scope, since);
    }
  }

  lemma SmallPageClears(rows: seq<Row>, scope: Scope, since: Time, page: seq<nat>)
    requires LegalPage(rows, scope, since, page)
    requires |Recent(rows, scope, since)| <= PAGE || Failures(rows, scope, since) == 0
    ensures Failures(Reset(rows, page), scope, since) == 0
  {
    var counted := Counted(scope, since);
    if |Recent(rows, scope, since)| <= PAGE {
      ListsAll(Recent(rows, scope, since), page);
      forall i | 0 <= i < |rows|
        ensures !counted(Reset(rows, page)[i])
      {
        assert i in Recent(rows, scope, since) ==> i in page;
      }
      CountWitness(Reset(rows, page), counted);
    } else {
      CountLeast(Reset(rows, page), rows, counted, counted);
    }
  }

  // How more than 100 recent rows come about: wrong and right passwords in turn, within one window.

  const DEFAULTS := Policy(300 * 1000, 5, 20)
  const FAILURE := Row(0, "a", None, 0, false)
  const SPENT := FAILURE.(reset := true)

  function Upto(k: nat): (page: seq<nat>)
    ensures |page| == k && forall i :: 0 <= i < k ==> page[i] == i
  {
    seq(k, i => i)
  }

  function Spent(k: nat): (rows: seq<Row>)
    ensures |rows| == k && forall i :: 0 <= i < k ==> rows[i] == SPENT
  {
    seq(k, _ => SPENT)
  }

  const ACCOUNT := ByEmail(0, "a")
  const SINCE := -DEFAULTS.window

  function Wrong(): Attempt { Attempt(0, "a", None, 0, Bad, []) }
  function Right(k: nat): Attempt { Attempt(0, "a", None, 0, Good, Upto(if k < PAGE then k else PAGE)) }

  /** `k` times a wrong password and then the right one. */
  function Cycles(k: nat): seq<Attempt> {
    if k == 0 then [] else Cycles(k - 1) + [Wrong()] + [Right(k)]
  }

  function Range(k: nat): (s: set<nat>)
    ensures |s| == k
    ensures forall i :: i in s <==> 0 <= i < k
  {
    if k == 0 then {} else Range(k - 1) + {k - 1}
  }

  lemma OneStep(p: Policy, trace: seq<Attempt>, a: Attempt)
    requires Legal([], p, trace, 0) && LastTime(trace, 0) <= a.at
    requires PageFits(Run([], p, trace), p, a)
    ensures Legal([], p, trace + [a], 0) && LastTime(trace + [a], 0) == a.at
    ensures Run([], p, trace + [a]) == After(Run([], p, trace), p, a)
  {
    assert (trace + [a])[..|trace|] == trace;
  }

  /** Rows that were all reset are not counted. */
  lemma SpentNotCounted(k: nat)
    ensures Failures(Spent(k), ACCOUNT, SINCE) == 0
    ensures Failures(Spent(k) + [FAILURE], ACCOUNT, SINCE) == 1
  {
    var counted := Counted(ACCOUNT, SINCE);
    CountWitness(Spent(k), counted);
    CountOneMore(Spent(k), FAILURE, counted);
  }

  lemma WrongIsRecorded(k: nat)
    ensures After(Spent(k), DEFAULTS, Wrong()) == Spent(k) + [FAILURE]
    ensures !Judge(Spent(k), DEFAULTS, Wrong()).Accepted?
  {
    SpentNotCounted(k);
  }

  lemma RightIsAccepted(k: nat)
    ensures Judge(Spent(k) + [FAILURE], DEFAULTS, Right(k + 1)).Accepted?
  {
    SpentNotCounted(k);
  }

  lemma RightPageFits(k: nat)
    ensures PageFits(Spent(k) + [FAILURE], DEFAULTS, Right(k + 1))
  {
    assert Recent(Spent(k) + [FAILURE], ACCOUNT, SINCE) == Range(k + 1);
    assert LegalPage(Spent(k) + [FAILURE], ACCOUNT, SINCE, Right(k + 1).page);
  }

  /** After `k` cycles, one more. */
  lemma OneCycle(trace: seq<Attempt>, k: nat)
    requires Legal([], DEFAULTS, trace, 0) && LastTime(trace, 0) == 0
    requires Run([], DEFAULTS, trace) == Spent(k)
    ensures Run([], DEFAULTS, trace + [Wrong()]) == Spent(k) + [FAILURE]
    ensures Legal([], DEFAULTS, trace + [Wrong()] + [Right(k + 1)], 0)
    ensures Run([], DEFAULTS, trace + [Wrong()] + [Right(k + 1)]) == Reset(Spent(k) + [FAILURE], Right(k + 1).page)
    ensures LastTime(trace + [Wrong()] + [Right(k + 1)], 0) == 0
  {
    WrongIsRecorded(k);
    OneStep(DEFAULTS, trace, Wrong());
    RightPageFits(k);
    RightIsAccepted(k);
    OneStep(DEFAULTS, trace + [Wrong()], Right(k + 1));
  }

  lemma {:induction false} CyclesAreSpent(k: nat)
    requires k <= PAGE
    ensures Legal([], DEFAULTS, Cycles(k), 0) && LastTime(Cycles(k), 0) == 0
    ensures Run([], DEFAULTS, Cycles(k)) == Spent(k)
  {
    if k > 0 {
      CyclesAreSpent(k - 1);
      OneCycle(Cycles(k - 1), k - 1);
      ResetAll(k);
    }
  }

  lemma ResetAll(k: nat)
    requires 0 < k <= PAGE
    ensures Reset(Spent(k - 1) + [FAILURE], Right(k).page) == Spent(k)
  {
    forall i | 0 <= i < k
      ensures i in Right(k).page
    {
      assert Right(k).page[i] == i;
    }
  }

  /** A reachable case in which it does not: after 100 such cycles inside one window the next
      accepted login may leave the failure before it counted. */
  lemma SuccessCanLeaveFailureCounted()
    ensures var trace := Cycles(PAGE) + [Wrong()];
            && Legal([], DEFAULTS, trace + [Right(PAGE + 1)], 0)
            && Judge(Run([], DEFAULTS, trace), DEFAULTS, Right(PAGE + 1)).Accepted?
            && Failures(Run([], DEFAULTS, trace + [Right(PAGE + 1)]), ACCOUNT, SINCE) == 1
  {
    CyclesAreSpent(PAGE);
    RightIsAccepted(PAGE);
    OneCycle(Cycles(PAGE), PAGE);
    assert Reset(Spent(PAGE) + [FAILURE], Right(PAGE + 1).page) == Spent(PAGE) + [FAILURE];
    SpentNotCounted(PAGE);
  }

  // ---------------------------------------------------------------- the service

  class LoginGate {
    const policy: Policy
    var log: seq<Row>

    constructor (policy: Policy)
      ensures this.policy == policy && log == []
    {
      this.policy := policy;
      log := [];
    }

    method IsLoginLocked(a: Attempt) returns (locked: bool)
      ensures locked == Locked(log, policy, a)
    {
      var since := a.at - policy.window;
      var emailFailures := Failures(log, ByEmail(a.tenant, a.email), since);
      if emailFailures >= policy.emailThreshold {
        return true;
      }
      if a.ip.Some? {
        var ipFailures := Failures(log, ByIp(a.tenant, a.ip.value), since);
        if ipFailures >= policy.ipThreshold {
          return true;
        }
      }
      return false;
    }

    method ResetLoginFailures(page: seq<nat>)
      requires forall i :: 0 <= i < |page| ==> page[i] < |log|
      modifies this`log
      ensures log == Reset(old(log), page)
    {
      for n := 0 to |page|
        invariant log == Reset(old(log), page[..n])
      {
        var row := log[page[n]];
        log := log[page[n] := row.(reset := true)];
        assert page[..n + 1] == page[..n] + [page[n]];
      }
      assert page[..|page|] == page;
    }

    method Login(a: Attempt) returns (verdict: Verdict)
      requires PageFits(log, policy, a)
      modifies this`log
      ensures verdict == Judge(old(log), policy, a)
      ensures log == After(old(log), policy, a)
    {
      if a.credentials.TenantUnknown? {
        return Refused;
      }
      var locked := IsLoginLocked(a);
      if locked {
        return LockedOut;
      }
      match a.credentials {
        case Bad =>
          log := log + [Row(a.tenant, a.email, a.ip, a.at, false)];
          return InvalidCredentials;
        case NoMembership =>
          return NoAccess;
        case NotEntitled =>
          return Inactive;
        case Good =>
          ResetLoginFailures(a.page);
          return Accepted;
      }
    }
  }
}
