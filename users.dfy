/** Model of service/src/models/user.js: the account-lockout state machine run
    on every failed and successful password check (invalidLogin, validLogin),
    the user's list of recently opened events (addRecentEventForUser), and the
    page arithmetic of getUsers.

    The lockout settings and the clock are parameters. Time is an integer
    number of milliseconds, as JavaScript's Date holds it. */
module Users {
  import opened Wrappers

  // ---------------------------------------------------------------------------
  // Account lockout
  // ---------------------------------------------------------------------------

  /** The `accountLock` settings of the local authentication configuration:
      `interval` is in seconds, `threshold` and `max` are counts. */
  datatype AccountLock = AccountLock(enabled: bool, threshold: int, interval: int, max: int)

  /** The `security` object embedded in a user's authentication record. Every
      field may be absent from the stored object (`None`). */
  datatype Security = Security(
    invalidLoginAttempts: Option<nat>,
    locked: Option<bool>,
    lockedUntil: Option<int>,
    numberOfTimesLocked: Option<nat>)

  /** The empty object `{}`. */
  const NoSecurity := Security(None, None, None, None)

  /** An absent counter reads as 0, the default of the stored counters. */
  function Attempts(s: Security): nat {
    s.invalidLoginAttempts.GetOr(0)
  }

  function TimesLocked(s: Security): nat {
    s.numberOfTimesLocked.GetOr(0)
  }

  /** `local.settings.accountLock` may be missing; it then defaults to `{}`,
      whose `enabled` is falsy. */
  function LockEnabled(settings: Option<AccountLock>): (on: bool)
    ensures settings.None? ==> !on
    ensures settings.Some? ==> (on <==> settings.value.enabled)
  {
    settings.Some? && settings.value.enabled
  }

  /** The part of a user that the lockout reads and writes. */
  datatype Account = Account(enabled: bool, security: Security)

  /** The account after one failed login at time `now` (milliseconds). */
  function InvalidLoginOutcome(acct: Account, settings: Option<AccountLock>, now: int): (next: Account)
    // with the lockout switched off nothing is recorded
    ensures !LockEnabled(settings) ==> next == acct
    // the lockout only ever disables an account
    ensures next.enabled ==> acct.enabled
    // below the threshold: one more attempt counted, any lock cleared,
    // the lock count kept
    ensures LockEnabled(settings) && Attempts(acct.security) + 1 < settings.value.threshold ==>
      && next.enabled == acct.enabled
      && next.security.invalidLoginAttempts == Some(Attempts(acct.security) + 1)
      && next.security.locked.None? && next.security.lockedUntil.None?
      && next.security.numberOfTimesLocked == acct.security.numberOfTimesLocked
    // threshold reached, lock budget left: a fresh record that is locked for
    // `interval` seconds, counts one more lock and has no attempt counter
    ensures LockEnabled(settings) && Attempts(acct.security) + 1 >= settings.value.threshold
            && TimesLocked(acct.security) + 1 < settings.value.max ==>
      && next.enabled == acct.enabled
      && next.security.invalidLoginAttempts.None?
      && next.security.locked == Some(true)
      && next.security.lockedUntil == Some(now + settings.value.interval * 1000)
      && next.security.numberOfTimesLocked == Some(TimesLocked(acct.security) + 1)
    // threshold reached and lock budget spent: disabled, security emptied
    ensures LockEnabled(settings) && Attempts(acct.security) + 1 >= settings.value.threshold
            && TimesLocked(acct.security) + 1 >= settings.value.max ==>
      !next.enabled && next.security == NoSecurity
  {
    if !LockEnabled(settings) then acct
    else
      var lock := settings.value;
      var invalidLoginAttempts := Attempts(acct.security) + 1;
      if invalidLoginAttempts >= lock.threshold then
        var numberOfTimesLocked := TimesLocked(acct.security) + 1;
        if numberOfTimesLocked >= lock.max then
          Account(false, NoSecurity)
        else
          Account(acct.enabled, Security(None, Some(true), Some(now + lock.interval * 1000), Some(numberOfTimesLocked)))
      else
        Account(acct.enabled, acct.security.(invalidLoginAttempts := Some(invalidLoginAttempts), locked := None, lockedUntil := None))
  }

  /** The stored authentication record of a user. */
  class Authentication {
    var security: Security

    constructor (security: Security)
      ensures this.security == security
    {
      this.security := security;
    }
  }

  /** A user document, with the fields the lockout touches. */
  class User {
    var enabled: bool
    const authentication: Authentication

    constructor (enabled: bool, authentication: Authentication)
      ensures this.enabled == enabled && this.authentication == authentication
    {
      this.enabled := enabled;
      this.authentication := authentication;
    }

    function State(): Account
      reads this, authentication
    {
      Account(enabled, authentication.security)
    }

    /** Records a failed login at time `now`. */
    method InvalidLogin(settings: Option<AccountLock>, now: int)
      modifies this`enabled, authentication`security
      ensures State() == InvalidLoginOutcome(old(State()), settings, now)
    {
      if !LockEnabled(settings) {
        return;
      }
      var accountLock := settings.value;
      var invalidLoginAttempts := Attempts(authentication.security) + 1;
      if invalidLoginAttempts >= accountLock.threshold {
        var numberOfTimesLocked := TimesLocked(authentication.security) + 1;
        if numberOfTimesLocked >= accountLock.max {
          enabled := false;
          authentication.security := NoSecurity;
        } else {
          authentication.security := Security(
            invalidLoginAttempts := None,
            locked := Some(true),
            lockedUntil := Some(now + accountLock.interval * 1000),
            numberOfTimesLocked := Some(numberOfTimesLocked));
        }
      } else {
        authentication.security := authentication.security.(invalidLoginAttempts := Some(invalidLoginAttempts));
        authentication.security := authentication.security.(locked := None);
        authentication.security := authentication.security.(lockedUntil := None);
      }
    }

    /** Records a successful login: the whole security record is emptied,
        the lock count included; `enabled` is left alone. */
    method ValidLogin()
      modifies authentication`security
      ensures authentication.security == NoSecurity
      ensures State() == Account(old(enabled), NoSecurity)
    {
      authentication.security := NoSecurity;
    }
  }

  /** The account after a run of consecutive failed logins, the i-th of them
      at time `nows[i]`. */
  function AfterFailures(acct: Account, settings: Option<AccountLock>, nows: seq<int>): (a: Account)
    ensures !LockEnabled(settings) ==> a == acct
    ensures a.enabled ==> acct.enabled
    decreases |nows|
  {
    if nows == [] then acct
    else InvalidLoginOutcome(AfterFailures(acct, settings, nows[..|nows| - 1]), settings, nows[|nows| - 1])
  }

  /** Starting from an enabled account with an empty security record (a new
      account, or one just after a successful login), and while fewer than
      threshold * max failures have happened: the account stays enabled, the
      failures so far are split into completed lock cycles and attempts of
      the current cycle, and the record is locked exactly when a cycle has
      just completed, until `interval` seconds after the failure that
      completed it. */
  lemma {:induction false} FailuresBeforeDisable(settings: Option<AccountLock>, nows: seq<int>)
    requires LockEnabled(settings) && settings.value.threshold >= 1 && settings.value.max >= 1
    requires |nows| < settings.value.threshold * settings.value.max
    ensures var a := AfterFailures(Account(true, NoSecurity), settings, nows);
      && a.enabled
      && Attempts(a.security) < settings.value.threshold
      && TimesLocked(a.security) < settings.value.max
      && TimesLocked(a.security) * settings.value.threshold + Attempts(a.security) == |nows|
      && (a.security.locked == Some(true) <==> |nows| > 0 && Attempts(a.security) == 0)
      && (a.security.locked == Some(true) ==>
            a.security.lockedUntil == Some(nows[|nows| - 1] + settings.value.interval * 1000))
  {
    var T, M := settings.value.threshold, settings.value.max;
    if nows == [] {
      return;
    }
    var prefix := nows[..|nows| - 1];
    FailuresBeforeDisable(settings, prefix);
    var p := AfterFailures(Account(true, NoSecurity), settings, prefix);
    var c, r := TimesLocked(p.security), Attempts(p.security);
    assert c * T + r == |nows| - 1;
    if r + 1 >= T {
      assert r + 1 == T;
      assert (c + 1) * T == |nows|;
      if c + 1 >= M {
        MulMonotone(M, c + 1, T);
        assert false;
      }
    }
  }

  /** The lockout disables an account that starts enabled with an empty
      security record on exactly the (threshold * max)-th consecutive failed
      login, and it stays disabled after that. */
  lemma {:induction false} DisabledAfterThresholdTimesMax(settings: Option<AccountLock>, nows: seq<int>)
    requires LockEnabled(settings) && settings.value.threshold >= 1 && settings.value.max >= 1
    ensures AfterFailures(Account(true, NoSecurity), settings, nows).enabled
            <==> |nows| < settings.value.threshold * settings.value.max
  {
    var T, M := settings.value.threshold, settings.value.max;
    if |nows| < T * M {
      FailuresBeforeDisable(settings, nows);
    } else if |nows| == T * M {
      var prefix := nows[..|nows| - 1];
      FailuresBeforeDisable(settings, prefix);
      var p := AfterFailures(Account(true, NoSecurity), settings, prefix);
      var c, r := TimesLocked(p.security), Attempts(p.security);
      assert c * T + r == T * M - 1;
      if c + 1 < M {
        MulMonotone(c + 1, M - 1, T);
        assert false;
      }
      assert c == M - 1;
      assert r + 1 == T;
    } else {
      DisabledAfterThresholdTimesMax(settings, nows[..|nows| - 1]);
    }
  }

  /** With threshold 3, interval 60 s and max 2: the third consecutive
      failure locks the account for 60 s, the fifth leaves it enabled and the
      sixth disables it. */
  lemma {:induction false} ThresholdThreeMaxTwo(nows: seq<int>)
    requires |nows| == 6
    ensures var settings := Some(AccountLock(true, 3, 60, 2));
      var a3 := AfterFailures(Account(true, NoSecurity), settings, nows[..3]);
      && a3.enabled && a3.security.locked == Some(true) && a3.security.lockedUntil == Some(nows[2] + 60000)
      && AfterFailures(Account(true, NoSecurity), settings, nows[..5]).enabled
      && !AfterFailures(Account(true, NoSecurity), settings, nows).enabled
  {
    var settings := Some(AccountLock(true, 3, 60, 2));
    FailuresBeforeDisable(settings, nows[..3]);
    assert nows[..3][2] == nows[2];
    DisabledAfterThresholdTimesMax(settings, nows[..5]);
    DisabledAfterThresholdTimesMax(settings, nows);
  }

  /** a <= b ==> a * t <= b * t for t >= 0. */
  lemma MulMonotone(a: int, b: int, t: int)
    requires a <= b && t >= 0
    ensures a * t <= b * t
  {
    assert b * t - a * t == (b - a) * t;
  }

  // ---------------------------------------------------------------------------
  // Recently opened events
  // ---------------------------------------------------------------------------

  /** Event ids are numbers, so `indexOf` and `===` compare them by value. */
  type EventId = int

  /** The most recent events a user keeps. */
  const MaxRecentEvents := 5

  /** JavaScript's `Array.prototype.indexOf`: the first position of `x`, or -1. */
  function IndexOf(s: seq<EventId>, x: EventId): (i: int)
    ensures -1 <= i < |s|
    ensures i == -1 <==> x !in s
    ensures 0 <= i ==> s[i] == x && forall j :: 0 <= j < i ==> s[j] != x
  {
    if s == [] then -1
    else if s[0] == x then 0
    else
      var k := IndexOf(s[1..], x);
      if k == -1 then -1 else k + 1
  }

  predicate NoDuplicates(s: seq<EventId>) {
    forall i, j :: 0 <= i < j < |s| ==> s[i] != s[j]
  }

  /** `s.filter((x, index) => s.indexOf(x) === index)`, run over the first `k`
      positions of `s`: each value at its first occurrence. */
  function FirstOccurrences(s: seq<EventId>, k: nat): (r: seq<EventId>)
    requires k <= |s|
    // ordered by first occurrence in s, hence without duplicates
    ensures forall i, j :: 0 <= i < j < |r| ==> IndexOf(s, r[i]) < IndexOf(s, r[j])
    ensures forall x :: x in r ==> 0 <= IndexOf(s, x) < k
    // every value of the first k positions is kept
    ensures forall x :: x in r <==> x in s[..k]
  {
    if k == 0 then []
    else
      var before := FirstOccurrences(s, k - 1);
      assert s[..k] == s[..k - 1] + [s[k - 1]];
      if IndexOf(s, s[k - 1]) == k - 1 then before + [s[k - 1]] else before
  }

  /** The new list of recent event ids after the user opens `eventId`: the
      new id in front, duplicates removed, at most five kept. */
  function RecentEventIds(recent: seq<EventId>, eventId: EventId): (r: seq<EventId>)
    ensures 0 < |r| <= MaxRecentEvents && r[0] == eventId
    ensures NoDuplicates(r)
    ensures forall x :: x in r ==> x == eventId || x in recent
    // the earlier ids keep their relative order
    ensures forall i, j :: 1 <= i < j < |r| ==> IndexOf(recent, r[i]) < IndexOf(recent, r[j])
    // an earlier id is dropped only when the list is full, and only if every
    // earlier id that is kept came before it
    ensures forall x :: x in recent && x !in r ==>
      |r| == MaxRecentEvents && forall i :: 1 <= i < |r| ==> IndexOf(recent, r[i]) < IndexOf(recent, x)
  {
    var ids := FirstOccurrences([eventId] + recent, |recent| + 1);
    DedupWithFront(eventId, recent);
    var r := if |ids| > MaxRecentEvents then ids[..MaxRecentEvents] else ids;
    PrefixKeepsEarliest(recent, ids, r);
    r
  }

  /** Deduplicating `[e] + recent` puts `e` first, then the other ids of
      `recent`, each once, in the order of their first occurrence. */
  lemma DedupWithFront(e: EventId, recent: seq<EventId>)
    ensures var ids := FirstOccurrences([e] + recent, |recent| + 1);
      && 0 < |ids| && ids[0] == e
      && NoDuplicates(ids)
      && (forall x :: x in ids <==> x == e || x in recent)
      && (forall i, j :: 1 <= i < j < |ids| ==> IndexOf(recent, ids[i]) < IndexOf(recent, ids[j]))
  {
    var s := [e] + recent;
    assert s[..|s|] == s;
    OrderedWithFront(e, recent, FirstOccurrences(s, |s|));
  }

  /** The step of DedupWithFront that no longer depends on how the list was
      computed, only on the two facts FirstOccurrences promises. */
  lemma OrderedWithFront(e: EventId, recent: seq<EventId>, ids: seq<EventId>)
    requires forall i, j :: 0 <= i < j < |ids| ==> IndexOf([e] + recent, ids[i]) < IndexOf([e] + recent, ids[j])
    requires forall x :: x in ids <==> x in [e] + recent
    ensures 0 < |ids| && ids[0] == e
    ensures NoDuplicates(ids)
    ensures forall x :: x in ids <==> x == e || x in recent
    ensures forall i, j :: 1 <= i < j < |ids| ==> IndexOf(recent, ids[i]) < IndexOf(recent, ids[j])
  {
    var s := [e] + recent;
    assert e in s;
    assert IndexOf(s, e) == 0;
    forall i | 1 <= i < |ids| ensures ids[i] != e {
      assert IndexOf(s, ids[0]) < IndexOf(s, ids[i]);
    }
    IndexOfAfterFront(e, recent);
    forall i, j | 1 <= i < j < |ids| ensures IndexOf(recent, ids[i]) < IndexOf(recent, ids[j]) {
      assert IndexOf(s, ids[i]) < IndexOf(s, ids[j]);
    }
  }

  /** Truncating such a list to its first `MaxRecentEvents` entries drops an
      id only when the result is full, and every kept id but the first comes
      before it in `recent`. */
  lemma PrefixKeepsEarliest(recent: seq<EventId>, ids: seq<EventId>, r: seq<EventId>)
    requires forall i, j :: 1 <= i < j < |ids| ==> IndexOf(recent, ids[i]) < IndexOf(recent, ids[j])
    requires 0 < |ids| && forall x :: x in recent ==> x in ids
    requires r == if |ids| > MaxRecentEvents then ids[..MaxRecentEvents] else ids
    ensures forall x :: x in recent && x !in r ==>
      |r| == MaxRecentEvents && forall i :: 1 <= i < |r| ==> IndexOf(recent, r[i]) < IndexOf(recent, x)
  {
    forall x | x in recent && x !in r
      ensures |r| == MaxRecentEvents && forall i :: 1 <= i < |r| ==> IndexOf(recent, r[i]) < IndexOf(recent, x)
    {
      var p :| 0 <= p < |ids| && ids[p] == x;
      assert p >= MaxRecentEvents;
      forall i | 1 <= i < |r| ensures IndexOf(recent, r[i]) < IndexOf(recent, x) {
        assert r[i] == ids[i];
      }
    }
  }

  /** Positions in `[e] + t` of the values other than `e` are one past their
      positions in `t`. */
  lemma IndexOfAfterFront(e: EventId, t: seq<EventId>)
    ensures forall x :: x != e ==> IndexOf([e] + t, x) == if x in t then IndexOf(t, x) + 1 else -1
  {
    forall x | x != e ensures IndexOf([e] + t, x) == if x in t then IndexOf(t, x) + 1 else -1 {
      assert ([e] + t)[1..] == t;
    }
  }

  // ---------------------------------------------------------------------------
  // Paging of the user list
  // ---------------------------------------------------------------------------

  /** The page requested from the database: `pageSize` records from page
      `pageIndex` (counted from 0), with the total count. */
  datatype PageRequest = PageRequest(pageSize: int, pageIndex: int, includeTotalCount: bool)

  /** `Math.abs` on an integer. */
  function Abs(x: int): (r: nat)
    ensures r == x || r == -x
  {
    if x < 0 then -x else x
  }

  /** The page getUsers asks for given `options.limit` and `options.start`;
      None when the listing is not paged. */
  function PagingFor(limit: Option<int>, start: Option<int>): (p: Option<PageRequest>)
    ensures p.Some? <==> limit.Some? && limit.value > 0
    ensures p.Some? ==> p.value.pageSize == limit.value && p.value.includeTotalCount
    // the first page that does not begin before `|start|`
    ensures p.Some? ==>
      var first := Abs(start.GetOr(0));
      && p.value.pageIndex >= 0
      && p.value.pageIndex * p.value.pageSize >= first
      && (p.value.pageIndex - 1) * p.value.pageSize < first
  {
    if limit.Some? && limit.value > 0 then
      var absLimit := Abs(limit.value);
      var pageSize := if absLimit == 0 then 10 else absLimit;
      var first := Abs(start.GetOr(0));
      Some(PageRequest(pageSize, CeilDiv(first, pageSize), true))
    else
      None
  }

  /** `Math.ceil(a / b)` for a non-negative `a` and positive `b`: the least
      `q` with `q * b >= a`. */
  function CeilDiv(a: nat, b: int): (q: nat)
    requires b > 0
    ensures q * b >= a && (q - 1) * b < a
  {
    var q := (a + b - 1) / b;
    assert q * b + (a + b - 1) % b == a + b - 1;
    q
  }
}
