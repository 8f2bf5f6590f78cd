/**
 The login lockout counter (app/authentication.go).

 A check works on a snapshot of the user row that was loaded before it started, and writes the stored counter of
 failed attempts from that snapshot. Password comparison and token validation are outcomes given from outside.
 */
module Authentication {
  import opened Wrappers

  datatype AuthError =
    | Inactive | BotForbidden | TooManyAttempts | InvalidPassword | BadMfaCode | StoreWrite | EmailNotVerified

  datatype Config = Config(maxAttempts: int, mfaEnabled: bool, requireVerification: bool)

  /** The fields of the user row that the checks read, besides the counter. */
  datatype Account = Account(deleteAt: int, isBot: bool, mfaActive: bool, emailVerified: bool)

  datatype Kind = FullCheck | DoubleCheck

  /** One check: which one, how its comparisons come out, whether its token is empty, whether its write succeeds. */
  datatype Attempt = Attempt(kind: Kind, passwordMatches: bool, tokenValid: bool, tokenEmpty: bool, writeSucceeds: bool)

  // ---------------------------------------------------------------------------------------------------------
  // The pure predicates

  predicate LoginAttemptsLeft(failedAttempts: int, max: int) {
    failedAttempts < max
  }

  function Preflight(c: Config, u: Account, failedAttempts: int): Option<AuthError> {
    if u.deleteAt > 0 then Some(Inactive)
    else if u.isBot then Some(BotForbidden)
    else if !LoginAttemptsLeft(failedAttempts, c.maxAttempts) then Some(TooManyAttempts)
    else None
  }

  function Postflight(c: Config, u: Account): Option<AuthError> {
    if !u.emailVerified && c.requireVerification then Some(EmailNotVerified) else None
  }

  function CheckUserMfa(c: Config, u: Account, tokenValid: bool): Option<AuthError> {
    if u.mfaActive && c.mfaEnabled && !tokenValid then Some(BadMfaCode) else None
  }

  // ---------------------------------------------------------------------------------------------------------
  // The code

  class UserStore {
    var failedAttempts: int

    constructor (n: int)
      ensures failedAttempts == n
    {
      failedAttempts := n;
    }

    method UpdateFailedPasswordAttempts(n: int, succeeds: bool) returns (ok: bool)
      modifies this
      ensures ok == succeeds && failedAttempts == if succeeds then n else old(failedAttempts)
    {
      if succeeds {
        failedAttempts := n;
      }
      ok := succeeds;
    }
  }

  /** The full check. It lets in exactly an active account that is no bot, below the maximum, with the right password, a
      valid token where one is needed, and a verified address where that is required; the counter grows by one on a
      wrong password or a wrong token that was sent, and is cleared on success. */
  method CheckPasswordAndAllCriteria(c: Config, store: UserStore, u: Account, snapshot: int, a: Attempt)
    returns (err: Option<AuthError>)
    requires a.kind.FullCheck?
    modifies store
    ensures err.None? <==>
      && u.deleteAt <= 0 && !u.isBot && snapshot < c.maxAttempts
      && a.passwordMatches && (u.mfaActive && c.mfaEnabled ==> a.tokenValid)
      && a.writeSucceeds && (c.requireVerification ==> u.emailVerified)
    ensures u.deleteAt <= 0 && !u.isBot && snapshot < c.maxAttempts && !a.passwordMatches ==>
      err == Some(if a.writeSucceeds then InvalidPassword else StoreWrite)
    ensures u.deleteAt > 0 ==> err == Some(Inactive)
    ensures u.deleteAt <= 0 && u.isBot ==> err == Some(BotForbidden)
    ensures snapshot >= c.maxAttempts && u.deleteAt <= 0 && !u.isBot ==> err == Some(TooManyAttempts)
    ensures err == Some(EmailNotVerified) <==>
      && u.deleteAt <= 0 && !u.isBot && snapshot < c.maxAttempts
      && a.passwordMatches && (u.mfaActive && c.mfaEnabled ==> a.tokenValid)
      && a.writeSucceeds && c.requireVerification && !u.emailVerified
    ensures err == Some(BadMfaCode) <==>
      && u.deleteAt <= 0 && !u.isBot && snapshot < c.maxAttempts
      && a.passwordMatches && u.mfaActive && c.mfaEnabled && !a.tokenValid && (a.tokenEmpty || a.writeSucceeds)
    ensures store.failedAttempts ==
      if u.deleteAt > 0 || u.isBot || snapshot >= c.maxAttempts || !a.writeSucceeds then old(store.failedAttempts)
      else if !a.passwordMatches then snapshot + 1
      else if u.mfaActive && c.mfaEnabled && !a.tokenValid then
        (if a.tokenEmpty then old(store.failedAttempts) else snapshot + 1)
      else 0
    ensures err == Verdict(c, u, snapshot, a)
    ensures store.failedAttempts == After(c, u, snapshot, a, old(store.failedAttempts))
  {
    err := Preflight(c, u, snapshot);
    if err.Some? {
      return;
    }
    if !a.passwordMatches {
      var ok := store.UpdateFailedPasswordAttempts(snapshot + 1, a.writeSucceeds);
      return if !ok then Some(StoreWrite) else Some(InvalidPassword);
    }
    err := CheckUserMfa(c, u, a.tokenValid);
    if err.Some? {
      if !a.tokenEmpty {
        var ok := store.UpdateFailedPasswordAttempts(snapshot + 1, a.writeSucceeds);
        if !ok {
          return Some(StoreWrite);
        }
      }
      return;
    }
    var ok := store.UpdateFailedPasswordAttempts(0, a.writeSucceeds);
    if !ok {
      return Some(StoreWrite);
    }
    err := Postflight(c, u);
  }

  /** The check of a user who is logged in already: password and counter only. */
  method DoubleCheckPassword(c: Config, store: UserStore, u: Account, snapshot: int, a: Attempt)
    returns (err: Option<AuthError>)
    requires a.kind.DoubleCheck?
    modifies store
    ensures err.None? <==> snapshot < c.maxAttempts && a.passwordMatches && a.writeSucceeds
    ensures snapshot < c.maxAttempts && !a.passwordMatches ==>
      err == Some(if a.writeSucceeds then InvalidPassword else StoreWrite)
    ensures snapshot >= c.maxAttempts ==> err == Some(TooManyAttempts)
    ensures store.failedAttempts ==
      if snapshot >= c.maxAttempts || !a.writeSucceeds then old(store.failedAttempts)
      else if a.passwordMatches then 0
      else snapshot + 1
    ensures err == Verdict(c, u, snapshot, a)
    ensures store.failedAttempts == After(c, u, snapshot, a, old(store.failedAttempts))
  {
    if !LoginAttemptsLeft(snapshot, c.maxAttempts) {
      return Some(TooManyAttempts);
    }
    if !a.passwordMatches {
      var ok := store.UpdateFailedPasswordAttempts(snapshot + 1, a.writeSucceeds);
      return if !ok then Some(StoreWrite) else Some(InvalidPassword);
    }
    var ok := store.UpdateFailedPasswordAttempts(0, a.writeSucceeds);
    return if !ok then Some(StoreWrite) else None;
  }

  // ---------------------------------------------------------------------------------------------------------
  // What a check decides

  /** May the check look at the password at all? */
  predicate Admitted(c: Config, u: Account, snapshot: int, a: Attempt) {
    LoginAttemptsLeft(snapshot, c.maxAttempts) && (a.kind.FullCheck? ==> u.deleteAt <= 0 && !u.isBot)
  }

  predicate TokenRejected(c: Config, u: Account, a: Attempt) {
    a.kind.FullCheck? && u.mfaActive && c.mfaEnabled && !a.tokenValid
  }

  /** A failure that counts: a wrong password, or a wrong token that was actually sent. */
  predicate Counts(c: Config, u: Account, a: Attempt) {
    a.writeSucceeds && (!a.passwordMatches || (TokenRejected(c, u, a) && !a.tokenEmpty))
  }

  /** A success that clears the counter; an unverified address is only complained about afterwards. */
  predicate Clears(c: Config, u: Account, a: Attempt) {
    a.writeSucceeds && a.passwordMatches && !TokenRejected(c, u, a)
  }

  /** The stored counter after a check that worked on `snapshot` while `stored` was in the table. */
  function After(c: Config, u: Account, snapshot: int, a: Attempt, stored: int): int {
    if !Admitted(c, u, snapshot, a) then stored
    else if Counts(c, u, a) then snapshot + 1
    else if Clears(c, u, a) then 0
    else stored
  }

  function Verdict(c: Config, u: Account, snapshot: int, a: Attempt): Option<AuthError> {
    if a.kind.FullCheck? && u.deleteAt > 0 then Some(Inactive)
    else if a.kind.FullCheck? && u.isBot then Some(BotForbidden)
    else if !LoginAttemptsLeft(snapshot, c.maxAttempts) then Some(TooManyAttempts)
    else if !a.passwordMatches then (if a.writeSucceeds then Some(InvalidPassword) else Some(StoreWrite))
    else if TokenRejected(c, u, a) then (if a.tokenEmpty || a.writeSucceeds then Some(BadMfaCode) else Some(StoreWrite))
    else if !a.writeSucceeds then Some(StoreWrite)
    else if a.kind.FullCheck? then Postflight(c, u)
    else None
  }

  // ---------------------------------------------------------------------------------------------------------
  // Sequential runs

  /** One check after the other, each on the row as the previous one left it. */
  function RunSequential(c: Config, u: Account, stored: int, attempts: seq<Attempt>): int {
    if attempts == [] then stored
    else
      var before := RunSequential(c, u, stored, attempts[..|attempts| - 1]);
      After(c, u, before, attempts[|attempts| - 1], before)
  }

  predicate MayTry(u: Account, a: Attempt) {
    a.kind.FullCheck? ==> u.deleteAt <= 0 && !u.isBot
  }

  /** Counted failures since the last success, taking every attempt at face value. */
  function FailuresSinceClear(c: Config, u: Account, attempts: seq<Attempt>): nat {
    if attempts == [] then 0
    else
      var a, before := attempts[|attempts| - 1], FailuresSinceClear(c, u, attempts[..|attempts| - 1]);
      if !MayTry(u, a) then before
      else if Counts(c, u, a) then before + 1
      else if Clears(c, u, a) then 0
      else before
  }

  /** How many attempts are made before the account is locked: until the counted failures reach the maximum. */
  function AttemptsUntilLocked(c: Config, u: Account, attempts: seq<Attempt>): (n: nat)
    ensures n <= |attempts|
    ensures forall k | 0 <= k < n :: FailuresSinceClear(c, u, attempts[..k]) < c.maxAttempts
    ensures n < |attempts| ==> FailuresSinceClear(c, u, attempts[..n]) >= c.maxAttempts
  {
    if attempts == [] then 0
    else
      var before := attempts[..|attempts| - 1];
      assert forall k | 0 <= k < |attempts| :: attempts[..k] == before[..k];
      var n := AttemptsUntilLocked(c, u, before);
      if n < |before| || FailuresSinceClear(c, u, before) >= c.maxAttempts then n else |attempts|
  }

  /** In a sequential run from zero the stored counter is the number of counted failures since the last success,
      up to the moment the account is locked; from then on no attempt changes it. */
  lemma {:induction false} SequentialCounter(c: Config, u: Account, attempts: seq<Attempt>)
    requires c.maxAttempts >= 0
    ensures var n := AttemptsUntilLocked(c, u, attempts);
      RunSequential(c, u, 0, attempts) == FailuresSinceClear(c, u, attempts[..n])
  {
    if attempts != [] {
      var before := attempts[..|attempts| - 1];
      var m, n := AttemptsUntilLocked(c, u, before), AttemptsUntilLocked(c, u, attempts);
      SequentialCounter(c, u, before);
      assert before[..m] == attempts[..m];
      if n == |attempts| {
        assert m == |before| && attempts[..m] == before && attempts[..n] == attempts;
      } else {
        assert m == n;
      }
    }
  }

  /** Once the counter is at the maximum, every later check fails and leaves it unchanged, whatever the password. */
  lemma {:induction false} LockedForGood(c: Config, u: Account, stored: int, attempts: seq<Attempt>)
    requires stored >= c.maxAttempts
    ensures RunSequential(c, u, stored, attempts) == stored
    ensures attempts != [] ==> Verdict(c, u, RunSequential(c, u, stored, attempts[..|attempts| - 1]), attempts[|attempts| - 1]).Some?
  {
    if attempts != [] {
      LockedForGood(c, u, stored, attempts[..|attempts| - 1]);
    }
  }

  /** A request without a token, with the right password, for an account that needs one: the way a client asks
      whether a token is needed. */
  predicate AsksForToken(c: Config, u: Account, a: Attempt) {
    a.passwordMatches && a.tokenEmpty && TokenRejected(c, u, a)
  }

  /** Such a request fails and never counts: taken out of any sequential run, it leaves the same counter behind. */
  lemma {:induction false} EmptyTokenIsInvisible(c: Config, u: Account, stored: int, before: seq<Attempt>, a: Attempt, after: seq<Attempt>)
    requires AsksForToken(c, u, a)
    ensures RunSequential(c, u, stored, before + [a] + after) == RunSequential(c, u, stored, before + after)
    ensures Verdict(c, u, RunSequential(c, u, stored, before), a).Some?
    decreases |after|
  {
    var all := before + [a] + after;
    if after == [] {
      assert all[..|all| - 1] == before && before + after == before;
    } else {
      var init, last := after[..|after| - 1], after[|after| - 1];
      EmptyTokenIsInvisible(c, u, stored, before, a, init);
      assert all[..|all| - 1] == before + [a] + init;
      assert (before + after)[..|before + after| - 1] == before + init;
    }
  }

  // ---------------------------------------------------------------------------------------------------------
  // Interleaved runs

  type Thread = nat

  /** The stored counter, every value it has had, and the snapshots that checks in progress work on. */
  datatype State = State(stored: int, past: set<int>, inFlight: map<Thread, int>)

  /** A check loads the row, possibly an outdated copy of it; later it decides and writes. */
  datatype Event = Begin(t: Thread, seen: int) | Finish(t: Thread, a: Attempt)

  predicate Enabled(s: State, e: Event) {
    match e
    case Begin(t, seen) => t !in s.inFlight && seen in s.past
    case Finish(t, _) => t in s.inFlight
  }

  function Next(c: Config, u: Account, s: State, e: Event): State
    requires Enabled(s, e)
  {
    match e
    case Begin(t, seen) => s.(inFlight := s.inFlight[t := seen])
    case Finish(t, a) =>
      var stored := After(c, u, s.inFlight[t], a, s.stored);
      State(stored, s.past + {stored}, s.inFlight - {t})
  }

  function Run(c: Config, u: Account, s: State, es: seq<Event>): Option<State>
    decreases |es|
  {
    if es == [] then Some(s)
    else if Enabled(s, es[0]) then Run(c, u, Next(c, u, s, es[0]), es[1..])
    else None
  }

  ghost predicate Bounded(c: Config, s: State) {
    && s.stored in s.past
    && (forall n | n in s.past :: 0 <= n <= c.maxAttempts)
    && (forall t | t in s.inFlight :: s.inFlight[t] in s.past)
  }

  /** Under any interleaving of checks on any outdated snapshots, the stored counter stays within 0 and the maximum. */
  lemma {:induction false} CounterStaysBounded(c: Config, u: Account, s: State, es: seq<Event>)
    requires Bounded(c, s) && Run(c, u, s, es).Some?
    ensures Bounded(c, Run(c, u, s, es).value)
    decreases |es|
  {
    if es != [] {
      CounterStaysBounded(c, u, Next(c, u, s, es[0]), es[1..]);
    }
  }

  /** A run in which every check loads the row as it is at that moment. */
  ghost predicate LoadsCurrent(c: Config, u: Account, s: State, es: seq<Event>)
    requires Run(c, u, s, es).Some?
    decreases |es|
  {
    es == [] || ((es[0].Begin? ==> es[0].seen == s.stored) && LoadsCurrent(c, u, Next(c, u, s, es[0]), es[1..]))
  }

  /** Every check in progress already saw the account locked. */
  ghost predicate NoneAdmitted(c: Config, s: State) {
    forall t | t in s.inFlight :: s.inFlight[t] >= c.maxAttempts
  }

  lemma {:induction false} LockHolds(c: Config, u: Account, s: State, es: seq<Event>)
    requires s.stored >= c.maxAttempts && NoneAdmitted(c, s)
    requires Run(c, u, s, es).Some? && LoadsCurrent(c, u, s, es)
    ensures Run(c, u, s, es).value.stored == s.stored
    decreases |es|
  {
    if es != [] {
      LockHolds(c, u, Next(c, u, s, es[0]), es[1..]);
    }
  }

  ghost predicate LockSurvives(c: Config, u: Account, s: State, es: seq<Event>) {
    Run(c, u, s, es).Some? && LoadsCurrent(c, u, s, es) ==> Run(c, u, s, es).value.stored == s.stored
  }

  /** A correct password. */
  const SUCCESS := Attempt(DoubleCheck, true, true, false, true)

  lemma ClearedBy(c: Config, u: Account, s: State, t: Thread)
    requires t in s.inFlight && s.inFlight[t] < c.maxAttempts
    ensures var es := [Finish(t, SUCCESS)];
      Run(c, u, s, es).Some? && Run(c, u, s, es).value.stored == 0 && LoadsCurrent(c, u, s, es)
  {
    var after := Next(c, u, s, Finish(t, SUCCESS));
    assert Run(c, u, after, [Finish(t, SUCCESS)][1..]) == Some(after);
  }

  /** A locked account stays locked, in every run whose checks load the current row, if and only if no check that
      loaded the row before it was locked is still in progress: such a check clears the counter when it succeeds. */
  lemma LockIsStableIff(c: Config, u: Account, s: State)
    requires s.stored >= c.maxAttempts > 0
    ensures (forall es :: LockSurvives(c, u, s, es)) <==> NoneAdmitted(c, s)
  {
    if NoneAdmitted(c, s) {
      forall es ensures LockSurvives(c, u, s, es) {
        if Run(c, u, s, es).Some? && LoadsCurrent(c, u, s, es) {
          LockHolds(c, u, s, es);
        }
      }
    } else {
      var t :| t in s.inFlight && s.inFlight[t] < c.maxAttempts;
      ClearedBy(c, u, s, t);
      assert !LockSurvives(c, u, s, [Finish(t, SUCCESS)]);
    }
  }

  /** Whatever copy of the row a check may load, it sees the account locked. */
  ghost predicate OnlyLockedSeen(c: Config, s: State) {
    NoneAdmitted(c, s) && forall n | n in s.past :: n >= c.maxAttempts
  }

  lemma {:induction false} StaleLockHolds(c: Config, u: Account, s: State, es: seq<Event>)
    requires s.stored >= c.maxAttempts && OnlyLockedSeen(c, s) && Run(c, u, s, es).Some?
    ensures Run(c, u, s, es).value.stored == s.stored
    decreases |es|
  {
    if es != [] {
      StaleLockHolds(c, u, Next(c, u, s, es[0]), es[1..]);
    }
  }

  lemma {:induction false} FreshThread(used: set<Thread>) returns (t: Thread)
    ensures forall k | k in used :: k < t
  {
    if used == {} {
      t := 0;
    } else {
      var k :| k in used;
      var rest := FreshThread(used - {k});
      t := if k < rest then rest else k + 1;
      assert forall j | j in used :: j == k || j in used - {k};
    }
  }

  ghost predicate StaleLockSurvives(c: Config, u: Account, s: State, es: seq<Event>) {
    Run(c, u, s, es).Some? ==> Run(c, u, s, es).value.stored == s.stored
  }

  /** With outdated copies loaded as well, a locked account stays locked in every run if and only if moreover no value
      below the maximum can still be loaded. After an ordinary lockout one can, so that the lock is only as good as the
      rows that are read. */
  lemma StaleLockIsStableIff(c: Config, u: Account, s: State)
    requires s.stored >= c.maxAttempts > 0
    ensures (forall es :: StaleLockSurvives(c, u, s, es)) <==> OnlyLockedSeen(c, s)
  {
    if OnlyLockedSeen(c, s) {
      forall es ensures StaleLockSurvives(c, u, s, es) {
        if Run(c, u, s, es).Some? {
          StaleLockHolds(c, u, s, es);
        }
      }
    } else if !NoneAdmitted(c, s) {
      var t :| t in s.inFlight && s.inFlight[t] < c.maxAttempts;
      ClearedBy(c, u, s, t);
      assert !StaleLockSurvives(c, u, s, [Finish(t, SUCCESS)]);
    } else {
      var n :| n in s.past && n < c.maxAttempts;
      var t := FreshThread(s.inFlight.Keys);
      var next := Next(c, u, s, Begin(t, n));
      ClearedBy(c, u, next, t);
      var es := [Begin(t, n)] + [Finish(t, SUCCESS)];
      assert es[1..] == [Finish(t, SUCCESS)];
      assert !StaleLockSurvives(c, u, s, es);
    }
  }
}
