/**
 Which store calls fail, and what that makes of disabling an owner's bots (app/bot.go:147-178).
 */
module BotDisabling {
  import opened BotTables
  import opened Collections

  datatype Operation =
    | GetUser | SaveUser | UpdateUser | DeleteUser | RevokeSessions
    | GetBot | SaveBot | UpdateBot | DeleteBot | ListBots

  /** `fails(n, op, id)`: whether the n-th store call of the server fails, if it is this one. */
  type Faults = (nat, Operation, Id) -> bool

  /** The store calls of disabling one bot. */
  predicate Disabling(op: Operation) {
    op.GetUser? || op.UpdateUser? || op.RevokeSessions? || op.GetBot? || op.UpdateBot?
  }

  ghost predicate AlwaysFails(fails: Faults, op: Operation, id: Id) {
    forall n :: fails(n, op, id)
  }

  ghost predicate NeverFails(fails: Faults, op: Operation, id: Id) {
    forall n :: !fails(n, op, id)
  }

  ghost predicate Faultless(fails: Faults) {
    forall n, op, id :: !fails(n, op, id)
  }

  /** Some call that disabling this bot needs fails every time. */
  ghost predicate Failing(fails: Faults, b: Id) {
    exists op :: Disabling(op) && AlwaysFails(fails, op, b)
  }

  /** No call that disabling this bot needs ever fails. */
  ghost predicate Healthy(fails: Faults, b: Id) {
    forall op | Disabling(op) :: NeverFails(fails, op, b)
  }

  /** From the n-th store call on, no call that disabling this bot needs fails. */
  ghost predicate WorksFrom(fails: Faults, b: Id, n: nat) {
    forall m, op | m >= n && Disabling(op) :: !fails(m, op, b)
  }

  /** Its calls fail again and again without end. */
  ghost predicate Unsteady(fails: Faults, b: Id) {
    forall n :: !WorksFrom(fails, b, n)
  }

  lemma WorksLater(fails: Faults, b: Id, n: nat, m: nat)
    requires n <= m
    ensures WorksFrom(fails, b, n) ==> WorksFrom(fails, b, m)
    ensures Healthy(fails, b) ==> WorksFrom(fails, b, n)
  {}

  /** The calls after the user row is read, and before the bots of this id are listed. */
  ghost predicate Stopped(fails: Faults, id: Id) {
    AlwaysFails(fails, UpdateUser, id) || AlwaysFails(fails, RevokeSessions, id)
  }

  /** The bots of this id are never listed by an attempt to disable it. */
  ghost predicate Blocked(fails: Faults, id: Id) {
    AlwaysFails(fails, GetUser, id) || Stopped(fails, id)
  }

  /** They always are. */
  ghost predicate Passing(fails: Faults, id: Id) {
    && NeverFails(fails, GetUser, id) && NeverFails(fails, UpdateUser, id)
    && NeverFails(fails, RevokeSessions, id) && NeverFails(fails, ListBots, id)
  }

  ghost function FailingOwned(fails: Faults, t: Tables, owner: Id): set<Id> {
    set b | b in ActiveOwned(t, owner) && Failing(fails, b)
  }

  // ---------------------------------------------------------------------------------------------------------
  // One owner's paging loop, round by round

  /** A round that found a full page, so that another one followed: which of the states so far the listing showed, the
      page, and the bots of the page whose disabling failed. */
  datatype Round = Round(shown: nat, page: seq<Id>, failed: set<Id>)

  /** The bot rows after the attempts on a page. */
  function Attempted(t: Tables, r: Round): Tables {
    t.(bots := map b | b in t.bots ::
      if b in r.page && b !in r.failed then t.bots[b].(active := false) else t.bots[b])
  }

  /** Rounds of the loop, after the states `past`. The listing is read from a replica and may show a state of up to `lag`
      rounds ago. Of the bots on a page those in `must` fail, and of the others only those in `may` can. */
  ghost predicate FullRounds(owner: Id, lag: nat, must: set<Id>, may: set<Id>, past: seq<Tables>, rounds: seq<Round>)
    requires past != []
    decreases |rounds|
  {
    rounds == [] || (
      var r := rounds[0];
      && |past| - 1 - lag <= r.shown < |past|
      && IsPage(past[r.shown], owner, r.page) && |r.page| == PER_PAGE
      && (forall b | b in r.page && b in must :: b in r.failed) && (forall b | b in r.failed :: b in may)
      && FullRounds(owner, lag, must, may, past + [Attempted(Now(past), r)], rounds[1..]))
  }

  function Now(past: seq<Tables>): Tables
    requires past != []
  {
    past[|past| - 1]
  }

  /** The owner's active bots that cannot fail. */
  function Disableable(t: Tables, owner: Id, may: set<Id>): set<Id> {
    ActiveOwned(t, owner) - may
  }

  /** From some state on, none of the owner's bots has become active. */
  ghost predicate Fading(past: seq<Tables>, from: nat, owner: Id) {
    && from < |past|
    && forall k, l | from <= k <= l < |past| :: ActiveOwned(past[l], owner) <= ActiveOwned(past[k], owner)
  }

  lemma FadingOn(past: seq<Tables>, from: nat, owner: Id, r: Round)
    requires Fading(past, from, owner)
    ensures Fading(past + [Attempted(Now(past), r)], from, owner)
  {
    var next := past + [Attempted(Now(past), r)];
    assert ActiveOwned(Now(next), owner) <= ActiveOwned(Now(past), owner);
    forall k, l | from <= k <= l < |next| ensures ActiveOwned(next[l], owner) <= ActiveOwned(next[k], owner) {
      if k < |past| == l {
        assert ActiveOwned(past[|past| - 1], owner) <= ActiveOwned(past[k], owner);
      }
    }
  }

  /** A full page of a state since which nothing has become active holds a bot that cannot fail, if fewer bots than fit
      on a page can. */
  lemma FullPageHasDisableable(t: Tables, start: Tables, owner: Id, may: set<Id>, page: seq<Id>) returns (b: Id)
    requires IsPage(t, owner, page) && |page| == PER_PAGE && ActiveOwned(t, owner) <= ActiveOwned(start, owner)
    requires |ActiveOwned(start, owner) * may| < PER_PAGE
    ensures b in page && b in Disableable(t, owner, may)
  {
    if forall c | c in page :: c in may {
      DistinctCount(page, ActiveOwned(start, owner) * may);
    }
    b :| b in page && b !in may;
  }

  /** In lag + 1 rounds, the last of which cannot be shown a state from before them, one such bot is disabled. */
  lemma LagRounds(owner: Id, lag: nat, must: set<Id>, may: set<Id>, past: seq<Tables>, rounds: seq<Round>)
    returns (later: seq<Tables>)
    requires past != [] && |rounds| > lag && FullRounds(owner, lag, must, may, past, rounds)
    requires |ActiveOwned(Now(past), owner) * may| < PER_PAGE
    ensures later != [] && FullRounds(owner, lag, must, may, later, rounds[lag + 1..])
    ensures ActiveOwned(Now(later), owner) <= ActiveOwned(Now(past), owner)
    ensures |Disableable(Now(later), owner, may)| < |Disableable(Now(past), owner, may)|
  {
    var from := |past| - 1;
    later := past;
    assert rounds[0..] == rounds;
    for i := 0 to lag
      invariant |later| == |past| + i && later[from] == Now(past) && Fading(later, from, owner)
      invariant FullRounds(owner, lag, must, may, later, rounds[i..])
    {
      assert rounds[i..][1..] == rounds[i + 1..];
      FadingOn(later, from, owner, rounds[i]);
      later := later + [Attempted(Now(later), rounds[i])];
    }
    var r := rounds[lag];
    assert rounds[lag..][0] == r && rounds[lag..][1..] == rounds[lag + 1..];
    var b := FullPageHasDisableable(later[r.shown], Now(past), owner, may, r.page);
    FadingOn(later, from, owner, r);
    var before := later;
    later := later + [Attempted(Now(later), r)];
    assert b in Disableable(before[from], owner, may);
    Smaller(Disableable(Now(later), owner, may), Disableable(Now(past), owner, may), b);
  }

  function RoundsAtMost(lag: nat, disableable: nat): nat {
    if disableable == 0 then lag else lag + 1 + RoundsAtMost(lag, disableable - 1)
  }

  lemma {:induction false} RoundsAtMostGrows(lag: nat, m: nat, n: nat)
    requires m <= n
    ensures RoundsAtMost(lag, m) <= RoundsAtMost(lag, n)
    decreases n
  {
    if m < n {
      RoundsAtMostGrows(lag, m, n - 1);
    }
  }

  lemma {:induction false} FullRoundsBounded(owner: Id, lag: nat, must: set<Id>, may: set<Id>, past: seq<Tables>,
                                             rounds: seq<Round>)
    requires past != [] && |ActiveOwned(Now(past), owner) * may| < PER_PAGE
    requires FullRounds(owner, lag, must, may, past, rounds)
    ensures |rounds| <= RoundsAtMost(lag, |Disableable(Now(past), owner, may)|)
    decreases |rounds|
  {
    hide FullRounds, Disableable, ActiveOwned;
    if |rounds| > lag {
      var later := LagRounds(owner, lag, must, may, past, rounds);
      SubsetSize(ActiveOwned(Now(later), owner) * may, ActiveOwned(Now(past), owner) * may);
      FullRoundsBounded(owner, lag, must, may, later, rounds[lag + 1..]);
      RoundsAtMostGrows(lag, |Disableable(Now(later), owner, may)|, |Disableable(Now(past), owner, may)| - 1);
    } else {
      RoundsAtMostGrows(lag, 0, |Disableable(Now(past), owner, may)|);
    }
  }

  /** The same page again and again, every bot of which fails. */
  lemma {:induction false} RoundsForever(owner: Id, lag: nat, must: set<Id>, may: set<Id>, past: seq<Tables>, n: nat)
    returns (rounds: seq<Round>)
    requires past != [] && must <= may && |ActiveOwned(Now(past), owner) * may| >= PER_PAGE
    ensures |rounds| == n && FullRounds(owner, lag, must, may, past, rounds)
    decreases n
  {
    if n == 0 {
      rounds := [];
    } else {
      var t := Now(past);
      SubsetSize(ActiveOwned(t, owner) * may, ActiveOwned(t, owner));
      var page := SomeOf(ActiveOwned(t, owner) * may, PER_PAGE);
      var r := Round(|past| - 1, page, Elements(page));
      assert Attempted(t, r).bots == t.bots;
      var rest := RoundsForever(owner, lag, must, may, past + [Attempted(t, r)], n - 1);
      rounds := [r] + rest;
      assert rounds[1..] == rest;
    }
  }

  ghost predicate BoundsRounds(owner: Id, lag: nat, must: set<Id>, may: set<Id>, past: seq<Tables>, bound: nat)
    requires past != []
  {
    forall rounds | FullRounds(owner, lag, must, may, past, rounds) :: |rounds| <= bound
  }

  /** The paging loop ends after a bounded number of rounds, whatever pages are listed, with whatever lag up to `lag`, and
      whichever bots fail each time within `must` and `may`, if and only if fewer than 20 of the owner's active bots may
      fail. With `must` equal to `may` these are the bots that always fail. */
  lemma LoopEndsIff(owner: Id, lag: nat, must: set<Id>, may: set<Id>, past: seq<Tables>)
    requires past != [] && must <= may
    ensures (exists bound: nat :: BoundsRounds(owner, lag, must, may, past, bound))
       <==> |ActiveOwned(Now(past), owner) * may| < PER_PAGE
  {
    if |ActiveOwned(Now(past), owner) * may| < PER_PAGE {
      var bound := RoundsAtMost(lag, |Disableable(Now(past), owner, may)|);
      forall rounds | FullRounds(owner, lag, must, may, past, rounds) ensures |rounds| <= bound {
        FullRoundsBounded(owner, lag, must, may, past, rounds);
      }
      assert BoundsRounds(owner, lag, must, may, past, bound);
    } else if bound: nat :| BoundsRounds(owner, lag, must, may, past, bound) {
      var rounds := RoundsForever(owner, lag, must, may, past, bound + 1);
      assert false;
    }
  }

  lemma {:induction false} StaleRounds(owner: Id, lag: nat, past: seq<Tables>, k: nat, page: seq<Id>, n: nat)
    returns (rounds: seq<Round>)
    requires k < |past| <= lag - n + 1 && IsPage(past[k], owner, page) && |page| == PER_PAGE
    ensures |rounds| == n && FullRounds(owner, lag, {}, {}, past, rounds)
    decreases n
  {
    if n == 0 {
      rounds := [];
    } else {
      var r := Round(k, page, {});
      var rest := StaleRounds(owner, lag, past + [Attempted(Now(past), r)], k, page, n - 1);
      rounds := [r] + rest;
      assert rounds[1..] == rest;
    }
  }

  ghost predicate BoundsEveryLag(owner: Id, past: seq<Tables>, bound: nat)
    requires past != []
  {
    forall lag: nat :: BoundsRounds(owner, lag, {}, {}, past, bound)
  }

  /** No number of rounds is enough for every lag, even if nothing fails, unless the owner never had a full page of
      active bots that a replica may still show. */
  lemma AnyLagEndsIff(owner: Id, past: seq<Tables>)
    requires past != []
    ensures (exists bound: nat :: BoundsEveryLag(owner, past, bound))
       <==> forall k | 0 <= k < |past| :: |ActiveOwned(past[k], owner)| < PER_PAGE
  {
    if k :| 0 <= k < |past| && |ActiveOwned(past[k], owner)| >= PER_PAGE {
      forall bound: nat ensures !BoundsEveryLag(owner, past, bound) {
        var page := SomePage(past[k], owner);
        var lag := |past| + bound;
        var rounds := StaleRounds(owner, lag, past, k, page, bound + 1);
        assert !BoundsRounds(owner, lag, {}, {}, past, bound);
      }
    } else {
      assert BoundsEveryLag(owner, past, 0);
    }
  }

  // ---------------------------------------------------------------------------------------------------------
  // Disabling bots that own bots

  /** What is known when the disabling starts: the tables, which calls fail, and whether deactivating a user disables
      the user's bots (DisableBotsWhenOwnerIsDeactivated). */
  datatype Plan = Plan(fails: Faults, cascade: bool, start: Tables)

  /** The bots whose own bots may be listed in turn. */
  ghost function Via(p: Plan): set<Id> {
    set b | b in p.start.bots && p.cascade && !Blocked(p.fails, b)
  }

  /** The bots whose own bots are sure to be. */
  ghost function Sure(p: Plan): set<Id> {
    set b | b in p.start.bots && p.cascade && Passing(p.fails, b)
  }

  ghost function MayReach(p: Plan, o: Id): set<Id> {
    Reach(p.start, Via(p), o)
  }

  ghost function WillReach(p: Plan, o: Id): set<Id> {
    Reach(p.start, Sure(p), o)
  }

  /** The bots of an owner that may fail. */
  ghost function RiskyOwned(fails: Faults, t: Tables, owner: Id): set<Id> {
    set b | b in ActiveOwned(t, owner) && !Healthy(fails, b)
  }

  /** Those of which one cannot say that they fail only so often. */
  ghost function UnsteadyOwned(fails: Faults, t: Tables, owner: Id): set<Id> {
    set b | b in ActiveOwned(t, owner) && Unsteady(fails, b)
  }

  /** The paging loop of o may be entered: no owner it may reach has a page full of bots that fail without end, and o does
      not own itself over bots that pass the disabling on. */
  ghost predicate Ready(p: Plan, o: Id) {
    && (forall x | x == o || (x in MayReach(p, o) && x in Via(p)) :: |UnsteadyOwned(p.fails, p.start, x)| < PER_PAGE)
    && Untangled(p.start, Via(p), o)
  }

  lemma ReadyBelow(p: Plan, o: Id, d: Id)
    requires Ready(p, o) && d in ActiveOwned(p.start, o)
    ensures d in MayReach(p, o)
    ensures d in Via(p) ==> Ready(p, d) && MayReach(p, d) <= MayReach(p, o) && |MayReach(p, d)| < |MayReach(p, o)|
  {
    hide Via, Reach, Failing, Healthy, Untangled;
    StepDown(p.start, Via(p), o, d);
    if d in Via(p) {
      ReachSmaller(p.start, Via(p), o, d);
    }
  }

  predicate Inactive(t: Tables, b: Id) {
    b in t.bots && !t.bots[b].active
  }

  /** All that is sure to be reached from o and never fails is inactive. */
  ghost predicate Cleared(p: Plan, t: Tables, o: Id) {
    forall x | x in WillReach(p, o) && Healthy(p.fails, x) :: Inactive(t, x)
  }

  /** What holds at every step: only rows have been made inactive, no bot row that always fails, each bot row together
      with its user row, and only after everything sure to be reached from it. */
  ghost predicate Progress(p: Plan, t: Tables) {
    && Dimmed(p.start, t)
    && (forall u | u in t.users && t.users[u] != p.start.users[u] :: t.users[u] == User(false))
    && (forall b | b in t.bots && t.bots[b] != p.start.bots[b] ::
          !Failing(p.fails, b) && b in t.users && t.users[b] == User(false) && (b in Sure(p) ==> Cleared(p, t, b)))
  }

  /** Only these user rows and these bot rows may differ. */
  predicate Touched(before: Tables, after: Tables, users: set<Id>, bots: set<Id>) {
    && (forall u | u in before.users && u !in users :: u in after.users && after.users[u] == before.users[u])
    && (forall b | b in before.bots && b !in bots :: b in after.bots && after.bots[b] == before.bots[b])
  }

  lemma ProgressStarts(p: Plan)
    ensures Progress(p, p.start)
  {}

  lemma ProgressKeys(p: Plan, t: Tables)
    requires Progress(p, t)
    ensures t.users.Keys == p.start.users.Keys && t.bots.Keys == p.start.bots.Keys
  {}

  lemma ClearedStays(p: Plan, t: Tables, u: Tables, o: Id)
    requires Cleared(p, t, o) && Dimmed(t, u)
    ensures Cleared(p, u, o)
  {}

  lemma UserOffProgress(p: Plan, t: Tables, id: Id)
    requires Progress(p, t) && id in t.users
    ensures Progress(p, UserOff(t, id))
  {
    hide Failing, Sure, WillReach;
    OffIsDimmed(t, id);
    DimmedTransitive(p.start, t, UserOff(t, id));
  }

  lemma BotOffProgress(p: Plan, t: Tables, id: Id)
    requires Progress(p, t) && !Failing(p.fails, id)
    requires id in t.users && t.users[id] == User(false) && (id in Sure(p) ==> Cleared(p, t, id))
    ensures Progress(p, BotOff(t, id))
  {
    hide Failing, Sure, WillReach, Dimmed, Cleared;
    var u := BotOff(t, id);
    OffIsDimmed(t, id);
    DimmedTransitive(p.start, t, u);
    forall b | b in t.bots && (b in Sure(p) ==> Cleared(p, t, b)) ensures b in Sure(p) ==> Cleared(p, u, b) {
      if b in Sure(p) {
        ClearedStays(p, t, u, b);
      }
    }
    DimmedKeys(p.start, t);
  }

  /** What an attempt on a bot of the page achieves. */
  ghost predicate Handled(p: Plan, t: Tables, b: Id) {
    && (Healthy(p.fails, b) ==> Inactive(t, b))
    && (b in Sure(p) ==> Cleared(p, t, b))
  }

  lemma HandledStays(p: Plan, t: Tables, u: Tables, b: Id)
    requires Handled(p, t, b) && Dimmed(t, u)
    ensures Handled(p, u, b)
  {}

  /** Once all bots that were listed on a page that was not full are handled, everything below the owner is. */
  lemma RoundClears(p: Plan, t: Tables, u: Tables, o: Id, page: seq<Id>)
    requires Progress(p, t) && Dimmed(t, u) && IsPage(t, o, page) && |page| < PER_PAGE
    requires forall b | b in page :: Handled(p, u, b)
    ensures Cleared(p, u, o)
  {
    hide Failing, Healthy, Sure, Reach;
    ShortPageIsAll(t, o, page);
    forall x | x in WillReach(p, o) && Healthy(p.fails, x) ensures Inactive(u, x) {
      var d := FirstStep(p.start, Sure(p), o, x);
      if d in page {
        assert Handled(p, u, d);
      } else {
        assert d !in ActiveOwned(t, o);
        assert t.bots[d] != p.start.bots[d];
        assert d != x ==> Cleared(p, t, d);
      }
    }
  }

  /** The loop over the bots of o has been at work, or parts of it. */
  ghost predicate Worked(p: Plan, t: Tables, u: Tables, o: Id) {
    Progress(p, u) && Dimmed(t, u) && Touched(t, u, MayReach(p, o), MayReach(p, o))
  }

  lemma NothingWorked(p: Plan, t: Tables, o: Id)
    requires Progress(p, t)
    ensures Worked(p, t, t, o)
  {}

  lemma WorkedOn(p: Plan, t: Tables, u: Tables, v: Tables, o: Id)
    requires Worked(p, t, u, o) && Worked(p, u, v, o)
    ensures Worked(p, t, v, o)
  {
    hide Progress, Dimmed, MayReach;
    DimmedTransitive(t, u, v);
  }

  ghost function SteadyLeft(p: Plan, t: Tables, o: Id): nat {
    |ActiveOwned(t, o) - UnsteadyOwned(p.fails, t, o)|
  }

  /** The number of the store call from which on all the others of an owner's bots work. */
  ghost predicate CalmFrom(p: Plan, o: Id, n: nat) {
    forall b | b in ActiveOwned(p.start, o) && !Unsteady(p.fails, b) :: WorksFrom(p.fails, b, n)
  }

  lemma {:induction false} CalmTime(fails: Faults, bots: set<Id>) returns (n: nat)
    requires forall b | b in bots :: !Unsteady(fails, b)
    ensures forall b | b in bots :: WorksFrom(fails, b, n)
  {
    n := 0;
    if bots != {} {
      var b :| b in bots;
      var rest := CalmTime(fails, bots - {b});
      var own: nat :| WorksFrom(fails, b, own);
      n := if own < rest then rest else own;
      forall c | c in bots ensures WorksFrom(fails, c, n) {
        WorksLater(fails, c, if c == b then own else rest, n);
      }
    }
  }

  lemma Calms(p: Plan, o: Id) returns (n: nat)
    ensures CalmFrom(p, o, n)
  {
    n := CalmTime(p.fails, ActiveOwned(p.start, o) - UnsteadyOwned(p.fails, p.start, o));
  }

  /** Until then no promise, but from then on a round over a full page leaves fewer steady bots active. */
  lemma RoundShrinks(p: Plan, t: Tables, u: Tables, o: Id, page: seq<Id>, n: nat)
    requires Progress(p, t) && Dimmed(t, u) && IsPage(t, o, page) && |page| == PER_PAGE
    requires |UnsteadyOwned(p.fails, p.start, o)| < PER_PAGE && CalmFrom(p, o, n)
    requires forall b | b in page && WorksFrom(p.fails, b, n) :: Inactive(u, b)
    ensures SteadyLeft(p, u, o) < SteadyLeft(p, t, o)
  {
    hide Failing, Unsteady, WorksFrom, Sure, Cleared;
    FailingStay(p, t, o);
    DimmedOwned(t, u, o);
    var unsteady := UnsteadyOwned(p.fails, t, o);
    SubsetSize(unsteady, UnsteadyOwned(p.fails, p.start, o));
    if forall b | b in page :: b in unsteady {
      DistinctCount(page, unsteady);
    }
    var b :| b in page && b !in unsteady;
    Smaller(ActiveOwned(u, o) - UnsteadyOwned(p.fails, u, o), ActiveOwned(t, o) - unsteady, b);
  }

  lemma FailingStay(p: Plan, t: Tables, o: Id)
    requires Progress(p, t)
    ensures FailingOwned(p.fails, t, o) == FailingOwned(p.fails, p.start, o)
    ensures ActiveOwned(t, o) <= ActiveOwned(p.start, o)
  {
    hide Failing, Sure, Cleared;
  }

  // ---------------------------------------------------------------------------------------------------------
  // What has been disabled in the end

  /** Both rows of all the ids made inactive. */
  function Off(t: Tables, ids: set<Id>): Tables {
    Tables(map u | u in t.users :: if u in ids then User(false) else t.users[u],
           map b | b in t.bots :: if b in ids then t.bots[b].(active := false) else t.bots[b])
  }

  lemma PassingIsOpen(fails: Faults, id: Id)
    requires Passing(fails, id)
    ensures !Blocked(fails, id)
  {
    assert !fails(0, GetUser, id) && !fails(0, UpdateUser, id) && !fails(0, RevokeSessions, id);
  }

  lemma {:induction false} SureUnder(p: Plan, x: Id, o: Id, n: nat)
    requires Under(p.start, Via(p), x, o, n)
    requires forall y | y in MayReach(p, o) && y in Via(p) :: y in Sure(p)
    ensures Under(p.start, Sure(p), x, o, n)
    decreases n
  {
    if n > 0 {
      var q := p.start.bots[x].owner;
      assert q in MayReach(p, o);
      SureUnder(p, q, o, n - 1);
    }
  }

  lemma {:induction false} MayUnder(p: Plan, x: Id, o: Id, n: nat)
    requires Under(p.start, Sure(p), x, o, n)
    ensures Under(p.start, Via(p), x, o, n)
    decreases n
  {
    if n > 0 {
      var q := p.start.bots[x].owner;
      PassingIsOpen(p.fails, q);
      MayUnder(p, q, o, n - 1);
    }
  }

  /** Where every bot either always or never passes the disabling on, what may be reached will be. */
  lemma WillIsMay(p: Plan, o: Id)
    requires forall y | y in MayReach(p, o) && y in Via(p) :: y in Sure(p)
    ensures WillReach(p, o) == MayReach(p, o)
  {
    forall x | x in WillReach(p, o) ensures x in MayReach(p, o) {
      var n: nat :| Under(p.start, Sure(p), x, o, n);
      MayUnder(p, x, o, n);
    }
    forall x | x in MayReach(p, o) ensures x in WillReach(p, o) {
      var n: nat :| Under(p.start, Via(p), x, o, n);
      SureUnder(p, x, o, n);
    }
  }

  /** Then, where each bot reached either always or never fails, exactly those that never fail are inactive; the others
      are as before. */
  lemma ExactlyBelow(p: Plan, t: Tables, o: Id)
    requires Progress(p, t) && Cleared(p, t, o) && Touched(p.start, t, MayReach(p, o), MayReach(p, o))
    requires forall y | y in MayReach(p, o) && y in Via(p) :: y in Sure(p)
    requires forall b | b in MayReach(p, o) :: Failing(p.fails, b) || Healthy(p.fails, b)
    ensures t.bots == Off(p.start, set b | b in MayReach(p, o) && Healthy(p.fails, b)).bots
  {
    NotBoth(p.fails);
    hide Failing, Healthy, Via, Sure, Reach, Under;
    WillIsMay(p, o);
  }

  /** And if no call fails, both rows of each of them and no others, whichever pages were listed. `top` is the id that
      has been deactivated itself, if it has. */
  lemma FaultlessResult(p: Plan, t: Tables, o: Id, top: set<Id>)
    requires p.cascade && Faultless(p.fails) && BotsHaveUsers(p.start) && Progress(p, t) && Cleared(p, t, o)
    requires Touched(p.start, t, MayReach(p, o) + top, MayReach(p, o) + top)
    requires forall u | u in top && u in t.users :: t.users[u] == User(false)
    requires forall b | b in top && b in t.bots :: !t.bots[b].active
    ensures t == Off(p.start, Reach(p.start, p.start.bots.Keys, o) + top)
  {
    NoneFails(p.fails);
    assert Via(p) == p.start.bots.Keys && Sure(p) == p.start.bots.Keys by {
      hide Blocked, Passing, Failing, Healthy;
    }
    hide Healthy, Blocked, Passing, Failing, AlwaysFails, NeverFails, Faultless, Via, Sure, Reach, Touched, Off;
    ReachedUsersOff(p, t, o);
    OffExactly(p.start, t, MayReach(p, o) + top);
  }

  lemma OffExactly(before: Tables, after: Tables, ids: set<Id>)
    requires Dimmed(before, after) && Touched(before, after, ids, ids)
    requires forall u | u in ids && u in after.users :: after.users[u] == User(false)
    requires forall b | b in ids && b in after.bots :: !after.bots[b].active
    ensures after == Off(before, ids)
  {
    assert after.bots == Off(before, ids).bots;
    assert after.users == Off(before, ids).users;
  }

  lemma ReachedUsersOff(p: Plan, t: Tables, o: Id)
    requires Progress(p, t) && forall b | b in MayReach(p, o) :: b in t.bots && !t.bots[b].active
    ensures forall b | b in MayReach(p, o) :: b in t.users && t.users[b] == User(false)
  {
    hide Failing, Via, Sure, Cleared;
    forall b | b in MayReach(p, o) ensures b in t.users && t.users[b] == User(false) {
      var n: nat :| Under(p.start, Via(p), b, o, n);
      assert p.start.bots[b].active;
      assert t.bots[b] != p.start.bots[b];
    }
  }

  lemma NotBoth(fails: Faults)
    ensures forall b :: !(Failing(fails, b) && Healthy(fails, b))
  {
    forall b, op | Disabling(op) && NeverFails(fails, op, b) ensures !AlwaysFails(fails, op, b) {
      assert !fails(0, op, b);
    }
  }

  lemma NoneFails(fails: Faults)
    requires Faultless(fails)
    ensures forall b :: !Failing(fails, b) && Healthy(fails, b) && Passing(fails, b) && !Blocked(fails, b)
    ensures forall b :: !Unsteady(fails, b)
  {
    forall b ensures !Unsteady(fails, b) {
      assert WorksFrom(fails, b, 0);
    }
    forall b, op ensures !AlwaysFails(fails, op, b) {
      assert !fails(0, op, b);
    }
  }
}
