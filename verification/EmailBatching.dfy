/**
 The email batching job (app/email_batching.go).

 Notifications enter a bounded queue, a periodic check drains the queue into one pending batch per user, and
 then visits every pending user: a batch is dropped when the user has viewed a channel since its first post, and
 handed off for sending when it is old enough.

 `Next` is one atomic step of the job. Adds come from other goroutines and may fall between any two steps of a
 check, so every interleaving is a run of the machine. The class below is the code; its methods perform runs.
 */
module EmailBatching {
  import opened Collections
  import opened Int64
  import opened Wrappers

  type UserId = string

  datatype Notification = Notification(userId: UserId, postId: nat, createAt: int, teamName: string)

  /** The preference lookup: it failed, or did not parse, or gives a number of seconds. */
  datatype Interval = Unavailable | Unparsable | Seconds(n: int64)

  /** What a visit is answered by the store, which may change or fail between two queries: for the i-th notification of
      the batch, the id of the team with a name, and the last-viewed times of a user's channels in a team (None stands
      for a failed lookup); and the user's preferred interval. */
  datatype Env = Env(
    teams: (nat, string) -> Option<string>,
    lastViewed: (nat, string, UserId) -> Option<seq<int>>,
    interval: UserId -> Interval)

  const DEFAULT_INTERVAL_SECONDS: int64 := 900
  const NANOS_PER_SECOND := 1_000_000_000

  // ---------------------------------------------------------------------------------------------------------
  // Time

  /** Go's integer division truncates toward zero. */
  function TruncDiv(a: int, b: int): int
    requires b > 0
  {
    if a >= 0 then a / b else -((-a) / b)
  }

  /** Subtracting two times saturates at the ends of the duration range. */
  function Saturate(x: int): int {
    if x < MIN_INT64 then MIN_INT64 else if x > MAX_INT64 then MAX_INT64 else x
  }

  function IntervalSeconds(env: Env, user: UserId): int64 {
    match env.interval(user)
    case Seconds(n) => n
    case _ => DEFAULT_INTERVAL_SECONDS
  }

  /** Line 188. `now` is in nanoseconds, `start` in milliseconds and truncated to whole seconds. */
  predicate Overdue(now: int, start: int, interval: int64) {
    Saturate(now - TruncDiv(start, 1000) * NANOS_PER_SECOND) > Wrap64(interval as int * NANOS_PER_SECOND)
  }

  /** The time that has really passed since the post, in nanoseconds. */
  function Elapsed(now: int, start: int): int {
    now - start * 1_000_000
  }

  /** Truncated seconds make a batch look at most one second older than it is, and never younger by a second. */
  lemma TruncationError(start: int)
    ensures -1000 < TruncDiv(start, 1000) * 1000 - start < 1000
    ensures start >= 0 ==> TruncDiv(start, 1000) * 1000 <= start
  {}

  /** The largest interval whose length in nanoseconds fits in 64 bits. */
  const MAX_INTERVAL := 9_223_372_036

  lemma OverdueIsTimely(now: int, start: int, interval: int64)
    requires interval as int <= MAX_INTERVAL && Overdue(now, start, interval)
    ensures Elapsed(now, start) > (interval as int - 1) * NANOS_PER_SECOND
  {
    var x := interval as int * NANOS_PER_SECOND;
    TruncationError(start);
    var k := WrapShifts(x);
    if MIN_INT64 <= x {
      WrapIsIdentity(x);
    }
  }

  /** A post and a later clock. */
  predicate Later(now: int, start: int) {
    0 <= start && start * 1_000_000 <= now
  }

  /** Timeliness, exactly: handing off an overdue batch implies that more than the interval minus one second has
      really passed, for every post and every later clock, if and only if the interval does not overflow. */
  lemma TimelyIff(interval: int64)
    ensures (forall now, start | Later(now, start) && Overdue(now, start, interval) ::
              Elapsed(now, start) > (interval as int - 1) * NANOS_PER_SECOND)
       <==> interval as int <= MAX_INTERVAL
  {
    if interval as int <= MAX_INTERVAL {
      forall now, start | Later(now, start) && Overdue(now, start, interval)
        ensures Elapsed(now, start) > (interval as int - 1) * NANOS_PER_SECOND
      {
        OverdueIsTimely(now, start, interval);
      }
    } else {
      var now := SoonOverdue(interval);
      assert Later(now, 0) && Overdue(now, 0, interval);
    }
  }

  /** And it is due once the interval has passed, if that is not negative and does not overflow: so between the interval
      minus one second and the interval. */
  lemma DueInTime(now: int, start: int, interval: int64)
    requires Later(now, start) && 0 <= interval as int <= MAX_INTERVAL
    ensures Elapsed(now, start) > interval as int * NANOS_PER_SECOND ==> Overdue(now, start, interval)
  {
    var x := interval as int * NANOS_PER_SECOND;
    WrapIsIdentity(x);
    TruncationError(start);
  }

  /** An overflowing interval: a post of time 0 is handed off although less than the interval has passed. */
  lemma SoonOverdue(interval: int64) returns (now: int)
    requires interval as int > MAX_INTERVAL
    ensures Later(now, 0) && Overdue(now, 0, interval) && Elapsed(now, 0) <= (interval as int - 1) * NANOS_PER_SECOND
  {
    var x := interval as int * NANOS_PER_SECOND;
    if Wrap64(x) < 0 {
      now := 1;
      return;
    }
    var k := WrapShifts(x);
    now := Wrap64(x) + 1;
    // The wrapped product is even, so it is not the largest duration and one more nanosecond exists.
    NotTheLargest(interval as int * 500_000_000 - k * 0x8000_0000_0000_0000, Wrap64(x));
    NotBefore(now, x, k);
  }

  lemma NotTheLargest(half: int, w: int)
    requires w == 2 * half && w <= MAX_INT64
    ensures w < MAX_INT64
  {}

  lemma NotBefore(now: int, x: int, k: int)
    requires now == x - k * 0x1_0000_0000_0000_0000 + 1 && k >= 1
    ensures now <= x - NANOS_PER_SECOND
  {}

  // ---------------------------------------------------------------------------------------------------------
  // The job as a machine

  /** A batch that left `pending`: handed off for sending, or deleted because the user viewed a channel, or both. */
  datatype Departure = Departure(user: UserId, batch: seq<Notification>, viewed: bool, sent: bool)

  /** `accepted` and `departed` record the history: what Add took, and what left `pending`, in order. */
  datatype Job = Job(
    capacity: nat,
    queue: seq<Notification>,
    pending: map<UserId, seq<Notification>>,
    accepted: seq<Notification>,
    departed: seq<Departure>)

  datatype Event =
    | Add(n: Notification)
    | Receive
    | Visit(user: UserId, now: int, env: Env)

  function NewJob(capacity: nat): Job {
    Job(capacity, [], map[], [], [])
  }

  /** The team names under which a non-empty team id is recorded before the i-th notification. */
  function Inspected(env: Env, batch: seq<Notification>, i: nat): set<string>
    requires i <= |batch|
  {
    if i == 0 then {}
    else
      var before, name := Inspected(env, batch, i - 1), batch[i - 1].teamName;
      var team := env.teams(i - 1, batch[0].teamName);
      if name !in before && team.Some? && team.value != "" then before + {name} else before
  }

  /** The queries for the i-th notification are made, and find a channel viewed since the first post. Whatever the name
      of its team is, the team that is looked up is that of the first notification. */
  predicate SeesView(env: Env, user: UserId, batch: seq<Notification>, i: nat)
    requires i < |batch|
  {
    && batch[i].teamName !in Inspected(env, batch, i)
    && var team := env.teams(i, batch[0].teamName);
    && team.Some?
    && var times := env.lastViewed(i, team.value, user);
    times.Some? && exists t :: t in times.value && t >= batch[0].createAt
  }

  /** The user viewed a channel since the first post of the batch. */
  predicate Viewed(env: Env, user: UserId, batch: seq<Notification>) {
    exists i :: 0 <= i < |batch| && SeesView(env, user, batch, i)
  }

  /** The store answers the queries of the visit as it answers the first ones. */
  ghost predicate Steady(env: Env) {
    && (forall i, name :: env.teams(i, name) == env.teams(0, name))
    && (forall i, team, user :: env.lastViewed(i, team, user) == env.lastViewed(0, team, user))
  }

  /** Some channel of the first notification's team was viewed at or after the first post of the batch, as far as the
      store answers. */
  predicate ViewedSince(env: Env, user: UserId, batch: seq<Notification>)
    requires batch != []
  {
    env.teams(0, batch[0].teamName).Some? &&
    var times := env.lastViewed(0, env.teams(0, batch[0].teamName).value, user);
    times.Some? && exists t :: t in times.value && t >= batch[0].createAt
  }

  /** Against a steady store, whatever teams the batch mentions, the one team of its first notification decides. */
  lemma OneTeamDecides(env: Env, user: UserId, batch: seq<Notification>)
    requires batch != [] && Steady(env)
    ensures Viewed(env, user, batch) <==> ViewedSince(env, user, batch)
  {
    assert SeesView(env, user, batch, 0) <==> ViewedSince(env, user, batch);
    if Viewed(env, user, batch) {
      var i :| 0 <= i < |batch| && SeesView(env, user, batch, i);
      assert env.teams(i, batch[0].teamName) == env.teams(0, batch[0].teamName);
      var team := env.teams(0, batch[0].teamName).value;
      assert env.lastViewed(i, team, user) == env.lastViewed(0, team, user);
      assert Inspected(env, batch, 0) == {};
    }
  }

  predicate Due(env: Env, now: int, user: UserId, batch: seq<Notification>)
    requires batch != []
  {
    Overdue(now, batch[0].createAt, IntervalSeconds(env, user))
  }

  function Append(pending: map<UserId, seq<Notification>>, n: Notification): map<UserId, seq<Notification>> {
    pending[n.userId := if n.userId in pending then pending[n.userId] + [n] else [n]]
  }

  function Next(j: Job, e: Event): Job {
    match e
    case Add(n) =>
      if |j.queue| < j.capacity then j.(queue := j.queue + [n], accepted := j.accepted + [n]) else j
    case Receive =>
      if j.queue == [] then j else j.(queue := j.queue[1..], pending := Append(j.pending, j.queue[0]))
    case Visit(u, now, env) =>
      if u !in j.pending || j.pending[u] == [] then j
      else
        var viewed, sent := Viewed(env, u, j.pending[u]), Due(env, now, u, j.pending[u]);
        if viewed || sent
        then j.(pending := j.pending - {u}, departed := j.departed + [Departure(u, j.pending[u], viewed, sent)])
        else j
  }

  function Run(j: Job, es: seq<Event>): Job
    decreases |es|
  {
    if es == [] then j else Run(Next(j, es[0]), es[1..])
  }

  lemma {:induction false} RunAppend(j: Job, es: seq<Event>, fs: seq<Event>)
    ensures Run(j, es + fs) == Run(Run(j, es), fs)
    decreases |es|
  {
    if es == [] {
      assert es + fs == fs;
    } else {
      assert (es + fs)[0] == es[0] && (es + fs)[1..] == es[1..] + fs;
      RunAppend(Next(j, es[0]), es[1..], fs);
    }
  }

  lemma RunOne(j: Job, es: seq<Event>, e: Event)
    ensures Run(j, es + [e]) == Next(Run(j, es), e)
  {
    RunAppend(j, es, [e]);
    assert Run(Next(Run(j, es), e), [e][1..]) == Next(Run(j, es), e);
  }

  // ---------------------------------------------------------------------------------------------------------
  // Conservation

  /** One user's notifications, in order. */
  function Of(s: seq<Notification>, u: UserId): seq<Notification> {
    if s == [] then [] else if s[0].userId == u then [s[0]] + Of(s[1..], u) else Of(s[1..], u)
  }

  /** Everything that left `pending` for one user, batch after batch. */
  function Gone(ds: seq<Departure>, u: UserId): seq<Notification> {
    if ds == [] then [] else Gone(ds[..|ds| - 1], u) + if ds[|ds| - 1].user == u then ds[|ds| - 1].batch else []
  }

  /** The part of it that was handed off. */
  function Sent(ds: seq<Departure>, u: UserId): seq<Notification> {
    if ds == [] then []
    else Sent(ds[..|ds| - 1], u) + if ds[|ds| - 1].user == u && ds[|ds| - 1].sent then ds[|ds| - 1].batch else []
  }

  function Batch(pending: map<UserId, seq<Notification>>, u: UserId): seq<Notification> {
    if u in pending then pending[u] else []
  }

  /** What was accepted for a user is, in this order: what left, what is pending, what is queued. */
  ghost predicate Conserved(j: Job, u: UserId) {
    Of(j.accepted, u) == Gone(j.departed, u) + Batch(j.pending, u) + Of(j.queue, u)
  }

  ghost predicate Inv(j: Job) {
    && |j.queue| <= j.capacity
    && (forall u | u in j.pending :: j.pending[u] != [])
    && (forall u :: Conserved(j, u))
  }

  lemma {:induction false} OfAppend(s: seq<Notification>, n: Notification, u: UserId)
    ensures Of(s + [n], u) == Of(s, u) + if n.userId == u then [n] else []
  {
    if s != [] {
      assert (s + [n])[0] == s[0] && (s + [n])[1..] == s[1..] + [n];
      OfAppend(s[1..], n, u);
    }
  }

  lemma AddConserves(j: Job, n: Notification, u: UserId)
    requires Conserved(j, u)
    ensures Conserved(Next(j, Add(n)), u)
  {
    hide Of, Gone, Batch;
    OfAppend(j.accepted, n, u);
    OfAppend(j.queue, n, u);
    Reassociate(Gone(j.departed, u) + Batch(j.pending, u), Of(j.queue, u), if n.userId == u then [n] else []);
  }

  lemma ReceiveConserves(j: Job, u: UserId)
    requires Conserved(j, u)
    ensures Conserved(Next(j, Receive), u)
  {
    if j.queue != [] {
      var n, k := j.queue[0], Next(j, Receive);
      if n.userId == u {
        assert Of(j.queue, u) == [n] + Of(k.queue, u);
        assert Batch(k.pending, u) == Batch(j.pending, u) + [n];
        hide Of, Gone, Batch;
        Reassociate(Gone(j.departed, u), Batch(j.pending, u), [n]);
        Reassociate(Gone(j.departed, u) + Batch(j.pending, u), [n], Of(k.queue, u));
      } else {
        assert Batch(k.pending, u) == Batch(j.pending, u);
      }
    }
  }

  lemma VisitConserves(j: Job, e: Event, u: UserId)
    requires Conserved(j, u) && e.Visit?
    ensures Conserved(Next(j, e), u)
  {
    var k := Next(j, e);
    if k != j {
      assert k.departed[..|k.departed| - 1] == j.departed;
      if e.user == u {
        assert Gone(k.departed, u) == Gone(j.departed, u) + Batch(j.pending, u);
        assert Batch(k.pending, u) == [];
      } else {
        assert Gone(k.departed, u) == Gone(j.departed, u);
        assert Batch(k.pending, u) == Batch(j.pending, u);
      }
    }
  }

  lemma StepConserves(j: Job, e: Event, u: UserId)
    requires Conserved(j, u)
    ensures Conserved(Next(j, e), u)
  {
    match e
    case Add(n) => AddConserves(j, n, u);
    case Receive => ReceiveConserves(j, u);
    case Visit(_, _, _) => VisitConserves(j, e, u);
  }

  lemma StepKeepsInv(j: Job, e: Event)
    requires Inv(j)
    ensures Inv(Next(j, e))
  {
    forall u ensures Conserved(Next(j, e), u) {
      assert Conserved(j, u);
      StepConserves(j, e, u);
    }
  }

  lemma {:induction false} RunKeepsInv(j: Job, es: seq<Event>)
    requires Inv(j)
    ensures Inv(Run(j, es))
    decreases |es|
  {
    if es != [] {
      StepKeepsInv(j, es[0]);
      RunKeepsInv(Next(j, es[0]), es[1..]);
    }
  }

  /** Conservation: after every run of adds and checks, interleaved in any way, nothing accepted is lost,
      duplicated or reordered: each user's accepted notifications are exactly those that left, then those pending,
      then those queued. */
  lemma Conservation(capacity: nat, es: seq<Event>, u: UserId)
    ensures var j := Run(NewJob(capacity), es);
      Of(j.accepted, u) == Gone(j.departed, u) + Batch(j.pending, u) + Of(j.queue, u)
  {
    var start := NewJob(capacity);
    assert forall v :: Conserved(start, v);
    RunKeepsInv(start, es);
    assert Conserved(Run(start, es), u);
  }

  ghost predicate Subsequence(a: seq<Notification>, b: seq<Notification>) {
    a == [] || (b != [] && ((a[0] == b[0] && Subsequence(a[1..], b[1..])) || Subsequence(a, b[1..])))
  }

  lemma {:induction false} SubsequencePrefix(a: seq<Notification>, b: seq<Notification>, c: seq<Notification>)
    requires Subsequence(a, b)
    ensures Subsequence(a, b + c)
  {
    if a != [] {
      assert (b + c)[0] == b[0] && (b + c)[1..] == b[1..] + c;
      if a[0] == b[0] && Subsequence(a[1..], b[1..]) {
        SubsequencePrefix(a[1..], b[1..], c);
      } else {
        SubsequencePrefix(a, b[1..], c);
      }
    }
  }

  lemma {:induction false} SubsequenceExtend(a: seq<Notification>, b: seq<Notification>, c: seq<Notification>)
    requires Subsequence(a, b)
    ensures Subsequence(a + c, b + c)
    decreases |b|
  {
    if b != [] {
      assert (b + c)[0] == b[0] && (b + c)[1..] == b[1..] + c;
      if a != [] && a[0] == b[0] && Subsequence(a[1..], b[1..]) {
        SubsequenceExtend(a[1..], b[1..], c);
        assert (a + c)[1..] == a[1..] + c;
      } else {
        SubsequenceExtend(a, b[1..], c);
      }
    } else {
      SubsequenceSelf(c);
      assert a + c == c && b + c == c;
    }
  }

  lemma {:induction false} SubsequenceSelf(c: seq<Notification>)
    ensures Subsequence(c, c)
  {
    if c != [] {
      SubsequenceSelf(c[1..]);
    }
  }

  lemma {:induction false} SentWithinGone(ds: seq<Departure>, u: UserId)
    ensures Subsequence(Sent(ds, u), Gone(ds, u))
    ensures multiset(Sent(ds, u)) <= multiset(Gone(ds, u))
  {
    if ds != [] {
      var d, before := ds[|ds| - 1], ds[..|ds| - 1];
      SentWithinGone(before, u);
      if d.user == u {
        SubsequencePrefix(Sent(before, u), Gone(before, u), d.batch);
        SubsequenceExtend(Sent(before, u), Gone(before, u), d.batch);
      }
      assert d.user != u || !d.sent ==> Sent(ds, u) == Sent(before, u);
      assert d.user != u ==> Gone(ds, u) == Gone(before, u);
    }
  }

  /** Handed-off batches of a user, put together, are an in-order subsequence of what was accepted for the user,
      and nothing is handed off more often than it was accepted: at most once if accepted once. */
  lemma HandOffsInOrderAtMostOnce(capacity: nat, es: seq<Event>, u: UserId)
    ensures var j := Run(NewJob(capacity), es);
      && Subsequence(Sent(j.departed, u), Of(j.accepted, u))
      && multiset(Sent(j.departed, u)) <= multiset(Of(j.accepted, u))
  {
    var j := Run(NewJob(capacity), es);
    Conservation(capacity, es, u);
    SentWithinGone(j.departed, u);
    WithinPrefix(Sent(j.departed, u), Gone(j.departed, u), Batch(j.pending, u), Of(j.queue, u));
  }

  lemma WithinPrefix(a: seq<Notification>, b: seq<Notification>, c: seq<Notification>, d: seq<Notification>)
    requires Subsequence(a, b) && multiset(a) <= multiset(b)
    ensures Subsequence(a, b + c + d) && multiset(a) <= multiset(b + c + d)
  {
    SubsequencePrefix(a, b, c);
    SubsequencePrefix(a, b + c, d);
  }

  /** Why a batch left: some visit of the run found it due, and then it was handed off, or found that the user had
      viewed a channel, or both. Handing off depends on the first alone. */
  ghost predicate Justified(d: Departure, es: seq<Event>) {
    d.batch != [] && exists now, env :: Visit(d.user, now, env) in es && Explains(d, now, env)
  }

  ghost predicate Explains(d: Departure, now: int, env: Env)
    requires d.batch != []
  {
    d.sent == Due(env, now, d.user, d.batch) && d.viewed == Viewed(env, d.user, d.batch) && (d.sent || d.viewed)
  }

  lemma LeavesOnlyForAReason(capacity: nat, es: seq<Event>)
    ensures forall d | d in Run(NewJob(capacity), es).departed :: Justified(d, es)
  {
    DeparturesSince(NewJob(capacity), es);
  }

  lemma {:induction false} DeparturesSince(j: Job, es: seq<Event>)
    ensures forall d | d in Run(j, es).departed :: d in j.departed || Justified(d, es)
    decreases |es|
  {
    if es != [] {
      var k := Next(j, es[0]);
      DeparturesSince(k, es[1..]);
      forall d | d in Run(j, es).departed ensures d in j.departed || Justified(d, es) {
        if d in k.departed {
          if d !in j.departed {
            assert es[0] == Visit(d.user, es[0].now, es[0].env) && Explains(d, es[0].now, es[0].env);
          }
        } else {
          assert Justified(d, es[1..]);
          var now, env :| Visit(d.user, now, env) in es[1..] && Explains(d, now, env);
          assert Visit(d.user, now, env) in es;
        }
      }
    }
  }

  /** A batch that the user has viewed is still handed off exactly when it is due: deleting it from the map does not
      leave the visit. */
  lemma ViewedBatchIsSentIffDue(j: Job, u: UserId, now: int, env: Env)
    requires u in j.pending && j.pending[u] != [] && Viewed(env, u, j.pending[u])
    ensures var k := Next(j, Visit(u, now, env));
      u !in k.pending && (Sent(k.departed, u) == Sent(j.departed, u) + j.pending[u] <==> Due(env, now, u, j.pending[u]))
  {
    var k := Next(j, Visit(u, now, env));
    assert k.departed[..|j.departed|] == j.departed;
  }

  /** A run in which a viewed batch is handed off all the same. */
  lemma ViewedYetSent(n: Notification) returns (es: seq<Event>)
    ensures var j := Run(NewJob(1), es); j.departed == [Departure(n.userId, [n], true, true)]
  {
    var env := Env((_, _) => Some("team"), (_, _, _) => Some([n.createAt]), _ => Seconds(0));
    var now := TruncDiv(n.createAt, 1000) * NANOS_PER_SECOND + 1;
    es := [Add(n)] + [Receive] + [Visit(n.userId, now, env)];
    var start := NewJob(1);
    assert [] + [Add(n)] == [Add(n)];
    RunOne(start, [], Add(n));
    RunOne(start, [Add(n)], Receive);
    RunOne(start, [Add(n)] + [Receive], Visit(n.userId, now, env));
    assert n.createAt in [n.createAt];
    assert SeesView(env, n.userId, [n], 0) && Due(env, now, n.userId, [n]);
  }

  // ---------------------------------------------------------------------------------------------------------
  // One check

  /** The users visited, in order. */
  function Visited(es: seq<Event>): seq<UserId> {
    if es == [] then []
    else Visited(es[..|es| - 1]) + if es[|es| - 1].Visit? then [es[|es| - 1].user] else []
  }

  /** Visits of one check, each answered on its own, and adds of others in between. */
  ghost predicate Checks(es: seq<Event>, now: int, envs: UserId -> Env) {
    forall e | e in es :: e.Add? || (e.Visit? && e.now == now && e.env == envs(e.user))
  }

  predicate Stays(env: Env, now: int, u: UserId, batch: seq<Notification>)
    requires batch != []
  {
    !Viewed(env, u, batch) && !Due(env, now, u, batch)
  }

  lemma {:induction false} VisitsDecide(j: Job, es: seq<Event>, now: int, envs: UserId -> Env, u: UserId)
    requires Checks(es, now, envs) && forall v | v in j.pending :: j.pending[v] != []
    ensures var k := Run(j, es);
      u in k.pending <==> u in j.pending && (Visit(u, now, envs(u)) !in es || Stays(envs(u), now, u, j.pending[u]))
    ensures var k := Run(j, es); u in k.pending ==> k.pending[u] == j.pending[u]
    decreases |es|
  {
    hide Viewed, Due;
    if es != [] {
      VisitsDecide(Next(j, es[0]), es[1..], now, envs, u);
      assert Visit(u, now, envs(u)) in es <==> es[0] == Visit(u, now, envs(u)) || Visit(u, now, envs(u)) in es[1..];
    }
  }

  lemma {:induction false} VisitedWas(es: seq<Event>, now: int, envs: UserId -> Env, u: UserId)
    requires Checks(es, now, envs)
    ensures u in Visited(es) <==> Visit(u, now, envs(u)) in es
  {
    if es != [] {
      VisitedWas(es[..|es| - 1], now, envs, u);
      assert es == es[..|es| - 1] + [es[|es| - 1]];
    }
  }

  /** After a check that visited every pending user, whatever is added meanwhile, exactly the batches that were neither
      due nor viewed are left, so none that is left is overdue by the code's clock. */
  lemma CheckLeavesNothingDue(j: Job, es: seq<Event>, now: int, envs: UserId -> Env)
    requires Checks(es, now, envs) && forall v | v in j.pending :: j.pending[v] != []
    requires forall u | u in j.pending :: u in Visited(es)
    ensures var k := Run(j, es);
      k.pending == map u | u in j.pending && Stays(envs(u), now, u, j.pending[u]) :: j.pending[u]
  {
    hide Viewed, Due;
    var k := Run(j, es);
    forall u ensures u in k.pending <==> u in j.pending && Stays(envs(u), now, u, j.pending[u])
      ensures u in k.pending ==> k.pending[u] == j.pending[u]
    {
      VisitsDecide(j, es, now, envs, u);
      VisitedWas(es, now, envs, u);
    }
  }

  /** What is to be looked at for a user. */
  function Waiting(j: Job, u: UserId): seq<Notification> {
    Batch(j.pending, u) + Of(j.queue, u)
  }

  /** Adds and receives leave it in place and in order. */
  lemma {:induction false} WaitingGrows(j: Job, es: seq<Event>, u: UserId)
    requires forall e | e in es :: !e.Visit?
    ensures Waiting(j, u) <= Waiting(Run(j, es), u)
    decreases |es|
  {
    if es != [] {
      WaitingStep(j, es[0], u);
      WaitingGrows(Next(j, es[0]), es[1..], u);
    }
  }

  lemma WaitingStep(j: Job, e: Event, u: UserId)
    requires !e.Visit?
    ensures Waiting(j, u) <= Waiting(Next(j, e), u)
  {
    var k := Next(j, e);
    if e.Add? {
      OfAppend(j.queue, e.n, u);
    } else if j.queue != [] {
      var n := j.queue[0];
      if n.userId == u {
        assert Of(j.queue, u) == [n] + Of(k.queue, u);
        assert Batch(k.pending, u) == Batch(j.pending, u) + [n];
        Reassociate(Batch(j.pending, u), [n], Of(k.queue, u));
      }
    }
  }

  /** How one run of the task ends: at some point what had been queued at the start was all in the batches and the
      queue was empty; of the batches of that point exactly those that were neither due nor viewed are left. */
  ghost predicate Ran(before: Job, drained: Job, after: Job, now: int, envs: UserId -> Env) {
    && drained.queue == [] && (forall u | u in drained.pending :: drained.pending[u] != [])
    && (forall u :: Waiting(before, u) <= Batch(drained.pending, u))
    && after.pending == map u | u in drained.pending && Stays(envs(u), now, u, drained.pending[u]) :: drained.pending[u]
  }

  /** Of these batches exactly the due ones are handed off, each once. */
  ghost predicate DueSent(pending: map<UserId, seq<Notification>>, sent: seq<(UserId, seq<Notification>)>, now: int,
                          envs: UserId -> Env)
    requires forall u | u in pending :: pending[u] != []
  {
    && (forall i, k | 0 <= i < k < |sent| :: sent[i].0 != sent[k].0)
    && (forall u, b :: (u, b) in sent <==> u in pending && b == pending[u] && Due(envs(u), now, u, b))
  }

  /** Those of them that a check has visited. */
  ghost predicate DueSentOf(j: Job, es: seq<Event>, sent: seq<(UserId, seq<Notification>)>, now: int, envs: UserId -> Env)
    requires forall u | u in j.pending :: j.pending[u] != []
  {
    && (forall i, k | 0 <= i < k < |sent| :: sent[i].0 != sent[k].0)
    && (forall u, b :: (u, b) in sent <==>
          u in j.pending && b == j.pending[u] && Due(envs(u), now, u, b) && Visit(u, now, envs(u)) in es)
  }

  function SentBy(j: Job, e: Event, now: int, envs: UserId -> Env): seq<(UserId, seq<Notification>)>
    requires forall v | v in j.pending :: j.pending[v] != []
  {
    if e.Visit? && e.user in j.pending && Due(envs(e.user), now, e.user, j.pending[e.user])
    then [(e.user, j.pending[e.user])] else []
  }

  lemma VisitSends(j: Job, e: Event, now: int, envs: UserId -> Env)
    requires (e.Add? || (e.Visit? && e == Visit(e.user, now, envs(e.user)))) && forall v | v in j.pending :: j.pending[v] != []
    ensures var k := Next(j, e);
      && (forall v | v in k.pending :: v in j.pending && k.pending[v] == j.pending[v])
      && (forall v | v in j.pending && v !in k.pending :: e == Visit(v, now, envs(v)))
      && HandOffs(k.departed) == HandOffs(j.departed) + SentBy(j, e, now, envs)
      && (e.Visit? && e.user in k.pending ==> !Due(envs(e.user), now, e.user, j.pending[e.user]))
  {
    var k := Next(j, e);
    if k.departed != j.departed {
      assert k.departed[..|k.departed| - 1] == j.departed;
    }
  }

  lemma {:induction false} CheckSends(j: Job, es: seq<Event>, now: int, envs: UserId -> Env)
    returns (sent: seq<(UserId, seq<Notification>)>)
    requires Checks(es, now, envs) && forall v | v in j.pending :: j.pending[v] != []
    ensures HandOffs(Run(j, es).departed) == HandOffs(j.departed) + sent && DueSentOf(j, es, sent, now, envs)
    decreases |es|
  {
    hide Viewed, Due, HandOffs;
    if es == [] {
      return [];
    }
    var e, rest, k := es[0], es[1..], Next(j, es[0]);
    VisitSends(j, e, now, envs);
    var later := CheckSends(k, rest, now, envs);
    var first := SentBy(j, e, now, envs);
    sent := first + later;
    assert HandOffs(j.departed) + sent == HandOffs(j.departed) + first + later;
    SendsOneMore(j, es, first, later, now, envs);
  }

  lemma SendsOneMore(j: Job, es: seq<Event>, first: seq<(UserId, seq<Notification>)>,
                     later: seq<(UserId, seq<Notification>)>, now: int, envs: UserId -> Env)
    requires es != [] && Checks(es, now, envs) && forall v | v in j.pending :: j.pending[v] != []
    requires forall v | v in Next(j, es[0]).pending :: Next(j, es[0]).pending[v] != []
    requires first == SentBy(j, es[0], now, envs) && DueSentOf(Next(j, es[0]), es[1..], later, now, envs)
    ensures DueSentOf(j, es, first + later, now, envs)
  {
    var e, sent := es[0], first + later;
    VisitSends(j, e, now, envs);
    hide Viewed, Due, HandOffs, Next, Checks;
    forall u, b ensures (u, b) in sent <==>
        u in j.pending && b == j.pending[u] && Due(envs(u), now, u, b) && Visit(u, now, envs(u)) in es
    {
      assert (u, b) in sent <==> (u, b) in first || (u, b) in later;
      assert Visit(u, now, envs(u)) in es <==> e == Visit(u, now, envs(u)) || Visit(u, now, envs(u)) in es[1..];
    }
    if first != [] {
      forall x | x in later ensures x.0 != e.user {
        assert (x.0, x.1) in later;
      }
      FirstIsOther(first[0], later);
    } else {
      assert sent == later;
    }
  }

  lemma FirstIsOther(x: (UserId, seq<Notification>), later: seq<(UserId, seq<Notification>)>)
    requires forall y | y in later :: y.0 != x.0
    requires forall i, m | 0 <= i < m < |later| :: later[i].0 != later[m].0
    ensures forall i, m | 0 <= i < m < |[x] + later| :: ([x] + later)[i].0 != ([x] + later)[m].0
  {
    forall i, m | 0 <= i < m < |[x] + later| ensures ([x] + later)[i].0 != ([x] + later)[m].0 {
      assert ([x] + later)[m] == later[m - 1] && later[m - 1] in later;
    }
  }

  // ---------------------------------------------------------------------------------------------------------
  // The code. While it runs, others go on adding: `arrivals` is what they add, burst by burst, and a method returns
  // the bursts that have not come yet.

  class EmailBatchingJob {
    const bufferSize: nat
    var newNotifications: seq<Notification>
    var pendingNotifications: map<UserId, seq<Notification>>
    // The goroutines started by `server.Go`: the batches handed off for sending, in order.
    var handedOff: seq<(UserId, seq<Notification>)>
    ghost var accepted: seq<Notification>
    ghost var departed: seq<Departure>

    constructor (bufferSize: nat)
      ensures View() == NewJob(bufferSize) && handedOff == []
    {
      this.bufferSize, newNotifications, pendingNotifications, handedOff := bufferSize, [], map[], [];
      accepted, departed := [], [];
    }

    ghost function View(): Job
      reads this
    {
      Job(bufferSize, newNotifications, pendingNotifications, accepted, departed)
    }

    ghost predicate Valid()
      reads this
    {
      && (forall u | u in pendingNotifications :: pendingNotifications[u] != [])
      && handedOff == HandOffs(departed)
    }

    /** Queues a notification unless the buffer is full; never blocks. */
    method Add(userId: UserId, postId: nat, createAt: int, teamName: string) returns (ok: bool)
      requires Valid()
      modifies this
      ensures Valid() && ok == (|old(newNotifications)| < bufferSize)
      ensures newNotifications == old(newNotifications)
        + if ok then [Notification(userId, postId, createAt, teamName)] else []
      ensures View() == Next(old(View()), Event.Add(Notification(userId, postId, createAt, teamName)))
    {
      var notification := Notification(userId, postId, createAt, teamName);
      if |newNotifications| < bufferSize {
        newNotifications := newNotifications + [notification];
        accepted := accepted + [notification];
        return true;
      }
      return false;
    }

    /** Others add a burst. */
    method OthersAdd(arrivals: seq<seq<Notification>>) returns (rest: seq<seq<Notification>>, ghost es: seq<Event>)
      requires Valid()
      modifies this
      ensures Valid() && View() == Run(old(View()), es) && forall e | e in es :: e.Add?
      ensures if arrivals == [] then rest == [] && es == [] else rest == arrivals[1..]
      ensures pendingNotifications == old(pendingNotifications) && handedOff == old(handedOff)
    {
      es := [];
      if arrivals == [] {
        return [], [];
      }
      for i := 0 to |arrivals[0]|
        invariant Valid() && View() == Run(old(View()), es) && forall e | e in es :: e.Add?
        invariant pendingNotifications == old(pendingNotifications) && handedOff == old(handedOff)
      {
        var n := arrivals[0][i];
        RunOne(old(View()), es, Event.Add(n));
        var ignored := Add(n.userId, n.postId, n.createAt, n.teamName);
        es := es + [Event.Add(n)];
      }
      return arrivals[1..], es;
    }

    method CheckPendingEmails(now: int, envs: UserId -> Env, arrivals: seq<seq<Notification>>)
      returns (ghost es: seq<Event>, ghost drained: Job)
      requires Valid()
      modifies this
      ensures Valid() && View() == Run(old(View()), es)
      ensures Ran(old(View()), drained, View(), now, envs)
      ensures old(handedOff) <= handedOff && DueSent(drained.pending, handedOff[|old(handedOff)|..], now, envs)
    {
      var rest;
      rest, es := HandleNewNotifications(arrivals);
      drained := View();
      ghost var checks := CheckPendingNotifications(now, envs, rest);
      RunAppend(old(View()), es, checks);
      CheckLeavesNothingDue(drained, checks, now, envs);
      ghost var sent := CheckSends(drained, checks, now, envs);
      forall u ensures u in drained.pending ==> Visit(u, now, envs(u)) in checks {
        VisitedWas(checks, now, envs, u);
      }
      assert handedOff == old(handedOff) + sent;
      forall u ensures Waiting(old(View()), u) <= Batch(drained.pending, u) {
        WaitingGrows(old(View()), es, u);
      }
      es := es + checks;
    }

    /** Receives until the queue is found empty. */
    method HandleNewNotifications(arrivals: seq<seq<Notification>>)
      returns (rest: seq<seq<Notification>>, ghost es: seq<Event>)
      requires Valid()
      modifies this
      ensures Valid() && newNotifications == [] && handedOff == old(handedOff) && View() == Run(old(View()), es)
      ensures forall e | e in es :: !e.Visit?
    {
      es := [];
      rest := arrivals;
      while true
        invariant Valid() && handedOff == old(handedOff)
        invariant View() == Run(old(View()), es) && forall e | e in es :: !e.Visit?
        decreases |rest|, |newNotifications|
      {
        ghost var adds;
        rest, adds := OthersAdd(rest);
        RunAppend(old(View()), es, adds);
        es := es + adds;
        if newNotifications == [] {
          break;
        }
        ReceiveOne();
        RunOne(old(View()), es, Receive);
        es := es + [Receive];
      }
    }

    /** Lines 117-125. */
    method ReceiveOne()
      requires Valid() && newNotifications != []
      modifies this
      ensures Valid() && View() == Next(old(View()), Receive) && |newNotifications| < |old(newNotifications)|
      ensures handedOff == old(handedOff)
    {
      var notification := newNotifications[0];
      newNotifications := newNotifications[1..];
      var userId := notification.userId;
      if userId !in pendingNotifications {
        pendingNotifications := pendingNotifications[userId := [notification]];
      } else {
        pendingNotifications := pendingNotifications[userId := pendingNotifications[userId] + [notification]];
      }
    }

    /** Visits every pending user once, in no particular order, deleting from the map while iterating over it. */
    method CheckPendingNotifications(now: int, envs: UserId -> Env, arrivals: seq<seq<Notification>>)
      returns (ghost es: seq<Event>)
      requires Valid()
      modifies this
      ensures Valid() && View() == Run(old(View()), es) && Checks(es, now, envs)
      ensures Distinct(Visited(es)) && forall u :: u in Visited(es) <==> u in old(pendingNotifications)
    {
      hide Next, Run, Visited;
      es := [];
      NoneVisited();
      RunNothing(View());
      var rest := arrivals;
      var unvisited := pendingNotifications.Keys;
      while unvisited != {}
        invariant Valid() && View() == Run(old(View()), es) && Checks(es, now, envs)
        invariant unvisited <= pendingNotifications.Keys
        invariant forall u :: u in Visited(es) <==> u in old(pendingNotifications) && u !in unvisited
        invariant Distinct(Visited(es))
        decreases unvisited
      {
        ghost var adds;
        rest, adds := OthersAdd(rest);
        RunAppend(old(View()), es, adds);
        VisitedAdds(es, adds);
        es := es + adds;
        var userId :| userId in unvisited;
        unvisited := unvisited - {userId};
        VisitUser(userId, now, envs(userId));
        ghost var e := Visit(userId, now, envs(userId));
        RunOne(old(View()), es, e);
        VisitedNext(es, e);
        es := es + [e];
      }
    }

    /** The body of the loop over users, lines 135-195. */
    method VisitUser(userId: UserId, now: int, env: Env)
      requires Valid() && userId in pendingNotifications
      modifies this
      ensures Valid() && View() == Next(old(View()), Visit(userId, now, env))
      ensures var batch := old(pendingNotifications)[userId];
        var interval := if env.interval(userId).Seconds? then env.interval(userId).n else 900;
        var due := Overdue(now, batch[0].createAt, interval);
        && handedOff == (if due then old(handedOff) + [(userId, batch)] else old(handedOff))
        && (userId !in pendingNotifications <==> due || Viewed(env, userId, batch))
        && (Steady(env) && !due ==> (userId !in pendingNotifications <==> ViewedSince(env, userId, batch)))
        && forall v | v != userId && v in old(pendingNotifications) ::
             v in pendingNotifications && pendingNotifications[v] == old(pendingNotifications)[v]
      ensures pendingNotifications.Keys >= old(pendingNotifications).Keys - {userId}
    {
      var notifications := pendingNotifications[userId];
      var batchStartTime := notifications[0].createAt;
      ghost var viewed := InspectTeams(userId, env);
      var interval := match env.interval(userId) case Seconds(n) => n case _ => DEFAULT_INTERVAL_SECONDS;
      ghost var sent := Overdue(now, batchStartTime, interval);
      if Overdue(now, batchStartTime, interval) {
        handedOff := handedOff + [(userId, notifications)];
        pendingNotifications := pendingNotifications - {userId};
      }
      assert sent == Due(env, now, userId, notifications);
      if Steady(env) {
        OneTeamDecides(env, userId, notifications);
      }
      if viewed || sent {
        departed := departed + [Departure(userId, notifications, viewed, sent)];
        assert departed[..|departed| - 1] == old(departed);
        assert pendingNotifications == old(pendingNotifications) - {userId};
      }
    }

    /** Lines 137-169: deletes the batch when the user has viewed a channel. */
    method InspectTeams(userId: UserId, env: Env) returns (ghost viewed: bool)
      requires Valid() && userId in pendingNotifications
      modifies this`pendingNotifications
      ensures viewed == Viewed(env, userId, old(pendingNotifications)[userId])
      ensures pendingNotifications == if viewed then old(pendingNotifications) - {userId} else old(pendingNotifications)
    {
      var notifications := pendingNotifications[userId];
      viewed := false;
      var inspectedTeamNames: map<string, string> := map[];
      for i := 0 to |notifications|
        invariant pendingNotifications == if viewed then old(pendingNotifications) - {userId} else old(pendingNotifications)
        invariant forall t ::
          t in inspectedTeamNames && inspectedTeamNames[t] != "" <==> t in Inspected(env, notifications, i)
        invariant viewed <==> exists k :: 0 <= k < i && SeesView(env, userId, notifications, k)
      {
        var teamName := notifications[i].teamName;
        if teamName in inspectedTeamNames && inspectedTeamNames[teamName] != "" {
          continue;
        }
        var team := env.teams(i, notifications[0].teamName);
        if team.None? {
          continue;
        }
        inspectedTeamNames := inspectedTeamNames[teamName := team.value];
        var channelMembers := env.lastViewed(i, team.value, userId);
        if channelMembers.None? {
          continue;
        }
        var found := AnyViewed(channelMembers.value, notifications[0].createAt);
        if found {
          pendingNotifications := pendingNotifications - {userId};
          viewed := true;
        }
        assert found == SeesView(env, userId, notifications, i);
      }
    }

    /** Lines 160-167: whether the loop over the user's channels finds one viewed since then. */
    method AnyViewed(lastViewedAt: seq<int>, batchStartTime: int) returns (found: bool)
      ensures found <==> exists t :: t in lastViewedAt && t >= batchStartTime
    {
      for m := 0 to |lastViewedAt|
        invariant forall k | 0 <= k < m :: lastViewedAt[k] < batchStartTime
      {
        if lastViewedAt[m] >= batchStartTime {
          assert lastViewedAt[m] in lastViewedAt;
          return true;
        }
      }
      return false;
    }
  }

  lemma VisitedNext(es: seq<Event>, e: Event)
    requires e.Visit?
    ensures Visited(es + [e]) == Visited(es) + [e.user]
  {
    assert (es + [e])[..|es + [e]| - 1] == es;
  }

  lemma NoneVisited()
    ensures Visited([]) == []
  {}

  lemma RunNothing(j: Job)
    ensures Run(j, []) == j
  {}

  lemma {:induction false} VisitedAdds(es: seq<Event>, adds: seq<Event>)
    requires forall e | e in adds :: e.Add?
    ensures Visited(es + adds) == Visited(es)
    decreases |adds|
  {
    if adds == [] {
      assert es + adds == es;
    } else {
      var front := adds[..|adds| - 1];
      assert (es + adds)[..|es + adds| - 1] == es + front && (es + adds)[|es + adds| - 1] == adds[|adds| - 1];
      assert adds[|adds| - 1] in adds;
      VisitedAdds(es, front);
      assert Visited(es + adds) == Visited(es + front) + [];
    }
  }

  /** The handed-off batches of a history. */
  function HandOffs(ds: seq<Departure>): seq<(UserId, seq<Notification>)> {
    if ds == [] then []
    else
      var d, before := ds[|ds| - 1], HandOffs(ds[..|ds| - 1]);
      if d.sent then before + [(d.user, d.batch)] else before
  }
}
