/**
 Bots and their user rows (app/bot.go, with UpdateActive and userDeactivated from app/user.go).

 A bot's two rows are kept by separate store calls, each of which may fail without an effect. Disabling all bots of
 an owner reads a page of 20 active bots and disables each, again and again, always the first page, because what it
 disables leaves the result. Where so configured, disabling a bot disables the bots it owns first.
 */
module Bots {
  import opened BotCalls
  import opened BotDisabling
  import opened BotTables
  import opened Collections
  import opened Wrappers

  /** The user and bot stores. Every call either fails without an effect or does what its name says. */
  class Store {
    const fails: Faults
    var calls: nat
    var users: map<Id, User>
    var bots: map<Id, Bot>
    // Every state the tables have been in.
    ghost var trace: seq<Tables>

    constructor (fails: Faults)
      ensures Valid() && this.fails == fails && Now() == Tables(map[], map[])
    {
      this.fails, calls, users, bots, trace := fails, 0, map[], map[], [Tables(map[], map[])];
    }

    ghost function Now(): Tables
      reads this
    {
      Tables(users, bots)
    }

    /** At every step so far, each bot row had its user row. */
    ghost predicate Valid()
      reads this
    {
      trace != [] && trace[|trace| - 1] == Now() && BotsHaveUsers(Now()) && forall t | t in trace :: BotsHaveUsers(t)
    }

    method Fails(op: Operation, id: Id) returns (failed: bool)
      modifies this`calls
      ensures failed == fails(old(calls), op, id)
      ensures calls == old(calls) + 1
      ensures if failed then !NeverFails(fails, op, id) else !AlwaysFails(fails, op, id)
      ensures failed && Disabling(op) ==> !WorksFrom(fails, id, old(calls))
    {
      failed := fails(calls, op, id);
      calls := calls + 1;
    }

    method GetUser(id: Id) returns (user: Option<User>)
      modifies this`calls
      ensures user == if fails(old(calls), Operation.GetUser, id) || id !in users then None else Some(users[id])
      ensures user.Some? ==> !AlwaysFails(fails, Operation.GetUser, id)
      ensures user.None? && id in users ==> !NeverFails(fails, Operation.GetUser, id)
      ensures calls == old(calls) + 1
      ensures user.None? && id in users ==> !WorksFrom(fails, id, old(calls))
    {
      var failed := Fails(Operation.GetUser, id);
      user := if failed || id !in users then None else Some(users[id]);
    }

    method SaveUser(id: Id, user: User) returns (ok: bool)
      requires Valid()
      modifies this
      ensures Valid() && old(trace) <= trace && ok == !(fails(old(calls), Operation.SaveUser, id) || id in old(users))
      ensures bots == old(bots) && users == if ok then old(users)[id := user] else old(users)
      ensures calls == old(calls) + 1
    {
      var failed := Fails(Operation.SaveUser, id);
      ok := !failed && id !in users;
      if ok {
        users := users[id := user];
        trace := trace + [Now()];
      }
    }

    method UpdateUser(id: Id, user: User) returns (ok: bool)
      requires Valid()
      modifies this
      ensures Valid() && old(trace) <= trace && ok == !(fails(old(calls), Operation.UpdateUser, id) || id !in old(users))
      ensures bots == old(bots) && users == if ok then old(users)[id := user] else old(users)
      ensures ok ==> !AlwaysFails(fails, Operation.UpdateUser, id)
      ensures !ok && id in users ==> !NeverFails(fails, Operation.UpdateUser, id)
      ensures calls == old(calls) + 1
      ensures !ok && id in users ==> !WorksFrom(fails, id, old(calls))
    {
      var failed := Fails(Operation.UpdateUser, id);
      ok := !failed && id in users;
      if ok {
        users := users[id := user];
        trace := trace + [Now()];
      }
    }

    method DeleteUser(id: Id) returns (ok: bool)
      requires Valid() && id !in bots
      modifies this
      ensures Valid() && old(trace) <= trace && ok == !fails(old(calls), Operation.DeleteUser, id)
      ensures bots == old(bots) && users == if ok then old(users) - {id} else old(users)
      ensures calls == old(calls) + 1
    {
      var failed := Fails(Operation.DeleteUser, id);
      ok := !failed;
      if ok {
        users := users - {id};
        trace := trace + [Now()];
      }
    }

    method RevokeAllSessions(id: Id) returns (ok: bool)
      modifies this`calls
      ensures ok == !fails(old(calls), RevokeSessions, id)
      ensures if ok then !AlwaysFails(fails, RevokeSessions, id) else !NeverFails(fails, RevokeSessions, id)
      ensures calls == old(calls) + 1
      ensures !ok ==> !WorksFrom(fails, id, old(calls))
    {
      var failed := Fails(RevokeSessions, id);
      ok := !failed;
    }

    method GetBot(id: Id) returns (bot: Option<Bot>)
      modifies this`calls
      ensures bot == if fails(old(calls), Operation.GetBot, id) || id !in bots || id !in users then None else Some(bots[id])
      ensures bot.Some? ==> !AlwaysFails(fails, Operation.GetBot, id)
      ensures bot.None? && id in bots && id in users ==> !NeverFails(fails, Operation.GetBot, id)
      ensures calls == old(calls) + 1
      ensures bot.None? && id in bots && id in users ==> !WorksFrom(fails, id, old(calls))
    {
      var failed := Fails(Operation.GetBot, id);
      bot := if failed || id !in bots || id !in users then None else Some(bots[id]);
    }

    method SaveBot(id: Id, bot: Bot) returns (ok: bool)
      requires Valid() && id in users
      modifies this
      ensures Valid() && old(trace) <= trace && ok == !(fails(old(calls), Operation.SaveBot, id) || id in old(bots))
      ensures users == old(users) && bots == if ok then old(bots)[id := bot] else old(bots)
      ensures calls == old(calls) + 1
    {
      var failed := Fails(Operation.SaveBot, id);
      ok := !failed && id !in bots;
      if ok {
        bots := bots[id := bot];
        trace := trace + [Now()];
      }
    }

    method UpdateBot(id: Id, bot: Bot) returns (ok: bool)
      requires Valid()
      modifies this
      ensures Valid() && old(trace) <= trace && ok == !(fails(old(calls), Operation.UpdateBot, id) || id !in old(bots))
      ensures users == old(users) && bots == if ok then old(bots)[id := bot] else old(bots)
      ensures ok ==> !AlwaysFails(fails, Operation.UpdateBot, id)
      ensures !ok && id in bots ==> !NeverFails(fails, Operation.UpdateBot, id)
      ensures calls == old(calls) + 1
      ensures !ok && id in bots ==> !WorksFrom(fails, id, old(calls))
    {
      var failed := Fails(Operation.UpdateBot, id);
      ok := !failed && id in bots;
      if ok {
        bots := bots[id := bot];
        trace := trace + [Now()];
      }
    }

    method DeleteBot(id: Id) returns (ok: bool)
      requires Valid()
      modifies this
      ensures Valid() && old(trace) <= trace && ok == !fails(old(calls), Operation.DeleteBot, id)
      ensures users == old(users) && bots == if ok then old(bots) - {id} else old(bots)
      ensures calls == old(calls) + 1
    {
      var failed := Fails(Operation.DeleteBot, id);
      ok := !failed;
      if ok {
        bots := bots - {id};
        trace := trace + [Now()];
      }
    }

    /** Page 0 of the owner's active bots; the order is left open. */
    method ListBots(owner: Id) returns (page: Option<seq<Id>>)
      modifies this`calls
      ensures if page.Some? then IsPage(Now(), owner, page.value) else !NeverFails(fails, Operation.ListBots, owner)
      ensures calls == old(calls) + 1
    {
      var failed := Fails(Operation.ListBots, owner);
      if failed {
        return None;
      }
      var left := set b | b in bots && bots[b].owner == owner && bots[b].active && b in users;
      assert left == ActiveOwned(Now(), owner);
      var ids: seq<Id> := [];
      while left != {} && |ids| < PER_PAGE
        invariant |ids| <= PER_PAGE && |ids| + |left| == |ActiveOwned(Now(), owner)|
        invariant left <= ActiveOwned(Now(), owner)
        invariant forall b | b in ids :: b in ActiveOwned(Now(), owner) && b !in left
        invariant Distinct(ids)
        decreases left
      {
        var b :| b in left;
        left := left - {b};
        ids := ids + [b];
      }
      return Some(ids);
    }
  }

  /** How an update of a bot's two rows ends where it stops at them. */
  ghost predicate Updated(before: Tables, after: Tables, id: Id, active: bool, ok: bool) {
    if ok then
      && id in before.users && id in before.bots
      && after == Tables(before.users[id := User(active)], before.bots[id := before.bots[id].(active := active)])
    else
      after.bots == before.bots &&
      (after.users == before.users || (id in before.users && after.users == before.users[id := User(active)]))
  }

  /** How the disabling of one bot, with the bots below it, ends. */
  ghost predicate BotDisabled(p: Plan, before: Tables, after: Tables, id: Id, ok: bool) {
    var below := if Blocked(p.fails, id) then {} else MayReach(p, id);
    && Progress(p, after) && Dimmed(before, after)
    && Touched(before, after, below + {id}, if ok then below + {id} else below)
    && (ok ==> id in after.users && id in after.bots && after.users[id] == User(false) && !after.bots[id].active)
    && (Passing(p.fails, id) && id in before.users ==> Cleared(p, after, id))
  }

  /** How the deactivation of one user, with the bots below, ends. */
  ghost predicate UserDisabled(p: Plan, before: Tables, after: Tables, id: Id, ok: bool) {
    var below := if Stopped(p.fails, id) then {} else MayReach(p, id);
    && Progress(p, after) && Dimmed(before, after) && Touched(before, after, below + {id}, below)
    && (ok ==> id in after.users && after.users[id] == User(false))
    && (Passing(p.fails, id) && id in before.users ==> ok && Cleared(p, after, id))
  }

  /** With no failing call, the calls made are those of the tree. */
  ghost predicate RanCall(p: Plan, t: Tables, u: Tables, c: Call) {
    p.cascade && Faultless(p.fails) ==> ValidCall(t, c) && AfterCall(t, c) == u
  }

  ghost predicate RanRounds(p: Plan, t: Tables, u: Tables, o: Id, rs: Rounds) {
    p.cascade && Faultless(p.fails) ==> ValidRounds(t, o, rs) && AfterRounds(t, rs) == u
  }

  ghost predicate RanCalls(p: Plan, t: Tables, u: Tables, cs: Calls) {
    p.cascade && Faultless(p.fails) ==> ValidCalls(t, cs) && AfterCalls(t, cs) == u
  }

  lemma FewUnsteady(p: Plan, o: Id)
    requires Ready(p, o)
    ensures |UnsteadyOwned(p.fails, p.start, o)| < PER_PAGE
  {}

  lemma NothingRan(p: Plan, t: Tables, o: Id)
    ensures RanRounds(p, t, t, o, NoRound)
  {}

  lemma RanOneMore(p: Plan, t: Tables, u: Tables, v: Tables, o: Id, rs: Rounds, page: seq<Id>, calls: Calls)
    requires RanRounds(p, t, u, o, rs) && !Finished(rs) && IsPage(u, o, page)
    requires Ids(calls) == page && RanCalls(p, u, v, calls)
    ensures RanRounds(p, t, v, o, Then(rs, page, calls))
  {}

  lemma NotFaultless(p: Plan, t: Tables, u: Tables, c: Call)
    ensures !Faultless(p.fails) ==> RanCall(p, t, u, c)
  {}

  lemma RanBot(p: Plan, t: Tables, u: Tables, v: Tables, c: Call)
    requires p.cascade && Faultless(p.fails) ==>
      c.id in t.users && RanRounds(p, UserOff(t, c.id), u, c.id, c.rounds) && Finished(c.rounds) && v == BotOff(u, c.id)
    ensures RanCall(p, t, v, c)
  {}

  lemma UserKept(p: Plan, t: Tables, id: Id)
    requires Progress(p, t) && (id in t.users ==> !NeverFails(p.fails, UpdateUser, id))
    ensures UserDisabled(p, t, t, id, false)
  {
    hide Progress, MayReach;
  }

  lemma UserMarked(p: Plan, t: Tables, u: Tables, id: Id, ok: bool)
    requires Progress(p, t) && id in t.users && !AlwaysFails(p.fails, UpdateUser, id)
    requires if ok then Worked(p, UserOff(t, id), u, id) else u == UserOff(t, id)
    requires ok ==> !AlwaysFails(p.fails, RevokeSessions, id)
    requires NeverFails(p.fails, RevokeSessions, id) ==> ok
    requires ok && NeverFails(p.fails, ListBots, id) ==> Cleared(p, u, id)
    ensures UserDisabled(p, t, u, id, ok)
  {
    hide AlwaysFails, NeverFails, Progress, MayReach, Cleared;
    UserOffProgress(p, t, id);
    OffIsDimmed(t, id);
    if ok {
      DimmedTransitive(t, UserOff(t, id), u);
    }
  }

  lemma BotKept(p: Plan, t: Tables, u: Tables, id: Id, userOk: bool)
    requires UserDisabled(p, t, u, id, userOk) && !AlwaysFails(p.fails, GetUser, id)
    ensures BotDisabled(p, t, u, id, false)
  {
    hide AlwaysFails, NeverFails, Progress, MayReach, Cleared, Dimmed;
  }

  lemma BotMissed(p: Plan, t: Tables, id: Id)
    requires Progress(p, t) && (id in t.users ==> !NeverFails(p.fails, GetUser, id))
    ensures BotDisabled(p, t, t, id, false)
  {
    hide Progress, MayReach;
  }

  lemma BotMarked(p: Plan, t: Tables, u: Tables, id: Id)
    requires UserDisabled(p, t, u, id, true) && id in t.users && id in u.bots
    requires !AlwaysFails(p.fails, GetUser, id) && (u.bots[id].active ==> !Failing(p.fails, id))
    ensures BotDisabled(p, t, BotOff(u, id), id, true)
  {
    hide AlwaysFails, NeverFails, Failing, Progress, MayReach, Cleared;
    var v := BotOff(u, id);
    if u.bots[id].active {
      BotOffProgress(p, u, id);
    } else {
      assert v.bots == u.bots;
    }
    OffIsDimmed(u, id);
    DimmedTransitive(t, u, v);
    if Passing(p.fails, id) {
      ClearedStays(p, u, v, id);
    }
  }

  /** A bot that is not below itself keeps its row meanwhile. */
  lemma OwnRowKept(p: Plan, t: Tables, u: Tables, id: Id)
    requires UserDisabled(p, t, u, id, true) && Progress(p, t) && id in t.bots && p.cascade
    requires !Blocked(p.fails, id) && Ready(p, id)
    ensures id in u.bots && u.bots[id] == t.bots[id]
  {
    hide Blocked, Stopped, Failing, Healthy, Reach, Dimmed, Cleared;
    ProgressKeys(p, t);
  }

  lemma NotFailing(fails: Faults, b: Id)
    requires !AlwaysFails(fails, GetUser, b) && !AlwaysFails(fails, UpdateUser, b)
    requires !AlwaysFails(fails, RevokeSessions, b)
    requires !AlwaysFails(fails, GetBot, b) && !AlwaysFails(fails, UpdateBot, b)
    ensures !Failing(fails, b)
  {
    hide AlwaysFails;
  }

  lemma FaultlessIs(fails: Faults, id: Id)
    requires Faultless(fails)
    ensures forall op :: NeverFails(fails, op, id)
    ensures Passing(fails, id) && Healthy(fails, id)
  {}

  lemma HandledBot(p: Plan, t: Tables, u: Tables, o: Id, b: Id, ok: bool)
    requires Ready(p, o) && b in ActiveOwned(p.start, o) && Progress(p, t) && p.cascade
    requires BotDisabled(p, t, u, b, ok) && (Healthy(p.fails, b) ==> ok)
    ensures Worked(p, t, u, o) && Handled(p, u, b) && (ok ==> Inactive(u, b))
  {
    hide Healthy, Failing, AlwaysFails, NeverFails, Stopped, Blocked, Passing, Progress, Ready, Cleared, MayReach, Dimmed;
    ReadyBelow(p, o, b);
    ProgressKeys(p, t);
  }

  lemma HandledAlone(p: Plan, t: Tables, u: Tables, o: Id, b: Id, ok: bool)
    requires Ready(p, o) && b in ActiveOwned(p.start, o) && Progress(p, t) && !p.cascade
    requires Updated(t, u, b, false, ok) && (Healthy(p.fails, b) ==> ok) && (ok ==> !Failing(p.fails, b))
    ensures Worked(p, t, u, o) && Handled(p, u, b) && (ok ==> Inactive(u, b))
  {
    hide Healthy, Ready, Reach, Progress, Dimmed;
    ReadyBelow(p, o, b);
    ProgressKeys(p, t);
    OneBotOff(p, t, u, b, ok);
  }

  lemma OneBotOff(p: Plan, t: Tables, u: Tables, b: Id, ok: bool)
    requires Progress(p, t) && Updated(t, u, b, false, ok) && (ok ==> !Failing(p.fails, b)) && !p.cascade
    ensures Progress(p, u) && Dimmed(t, u)
  {
    hide Progress, Dimmed, Cleared, Failing, Passing;
    if u == t {
      SelfDimmed(t);
    } else {
      UserOffProgress(p, t, b);
      OffIsDimmed(t, b);
      if ok {
        BotOffProgress(p, UserOff(t, b), b);
        OffIsDimmed(UserOff(t, b), b);
        DimmedTransitive(t, UserOff(t, b), u);
      }
    }
  }

  class App {
    const store: Store
    // DisableBotsWhenOwnerIsDeactivated
    const cascade: bool

    constructor (store: Store, cascade: bool)
      ensures this.store == store && this.cascade == cascade
    {
      this.store, this.cascade := store, cascade;
    }

    ghost function From(start: Tables): Plan {
      Plan(store.fails, cascade, start)
    }

    method CreateBot(newId: Id, owner: Id) returns (ok: bool)
      requires store.Valid()
      modifies store
      ensures store.Valid() && old(store.trace) <= store.trace
      ensures ok <==>
        && newId !in old(store.users)
        && !store.fails(old(store.calls), SaveUser, newId) && !store.fails(old(store.calls) + 1, SaveBot, newId)
      ensures ok ==>
        store.Now() == Tables(old(store.users)[newId := User(true)], old(store.bots)[newId := Bot(owner, true)])
      ensures !ok && !store.fails(old(store.calls) + 2, DeleteUser, newId) ==> store.Now() == old(store.Now())
      ensures !ok ==> store.bots == old(store.bots)
      ensures !ok ==> store.users == old(store.users) || store.users == old(store.users)[newId := User(true)]
    {
      ok := store.SaveUser(newId, User(true));
      if !ok {
        return;
      }
      ok := store.SaveBot(newId, Bot(owner, true));
      if !ok {
        assert newId !in store.bots by {
          assert BotsHaveUsers(old(store.Now()));
        }
        var ignored := store.DeleteUser(newId);
        assert store.users == old(store.users) || store.users == old(store.users)[newId := User(true)];
      }
    }

    method ConvertUserToBot(id: Id) returns (ok: bool)
      requires store.Valid() && id in store.users
      modifies store
      ensures store.Valid() && old(store.trace) <= store.trace && store.users == old(store.users)
      ensures ok <==> id !in old(store.bots) && !store.fails(old(store.calls), SaveBot, id)
      ensures store.bots == if ok then old(store.bots)[id := Bot(id, true)] else old(store.bots)
    {
      ok := store.SaveBot(id, Bot(id, true));
    }

    method PermanentDeleteBot(id: Id) returns (ok: bool)
      requires store.Valid()
      modifies store
      ensures store.Valid() && old(store.trace) <= store.trace
      ensures ok <==> !store.fails(old(store.calls), DeleteBot, id) && !store.fails(old(store.calls) + 1, DeleteUser, id)
      ensures ok ==> store.Now() == Tables(old(store.users) - {id}, old(store.bots) - {id})
      ensures store.bots == if store.fails(old(store.calls), DeleteBot, id) then old(store.bots) else old(store.bots) - {id}
      ensures !ok ==> store.users == old(store.users)
      ensures !ok ==> store.bots == old(store.bots) || store.bots == old(store.bots) - {id}
    {
      ok := store.DeleteBot(id);
      if ok {
        ok := store.DeleteUser(id);
      }
    }

    /** Makes a bot and its user active or inactive. Where deactivating a user disables the user's bots, `start` is the
        state from which the plan is made: the present one, for a call that is not itself part of such a disabling. */
    method UpdateBotActive(id: Id, active: bool, ghost start: Tables) returns (ok: bool, ghost call: Call)
      requires store.Valid()
      requires cascade && !active ==> Progress(From(start), store.Now())
      requires cascade && !active && !Blocked(store.fails, id) ==> Ready(From(start), id)
      modifies store
      ensures store.Valid() && old(store.trace) <= store.trace
      ensures store.calls >= old(store.calls)
      ensures !(cascade && !active) ==> Updated(old(store.Now()), store.Now(), id, active, ok)
      ensures cascade && !active ==> BotDisabled(From(start), old(store.Now()), store.Now(), id, ok)
      ensures call.id == id
      ensures cascade && !active && id in old(store.users) ==> RanCall(From(start), old(store.Now()), store.Now(), call)
      ensures WorksFrom(store.fails, id, old(store.calls)) && id in old(store.bots) ==> ok
      ensures Failing(store.fails, id) && !active && id in old(store.bots) && old(store.bots)[id].active ==> !ok
      decreases if cascade && !active && !Blocked(store.fails, id) then |MayReach(From(start), id)| + 1 else 0, 4
    {
      hide AlwaysFails, NeverFails, WorksFrom, Faultless, Ready, MayReach, WillReach, ValidRounds, AfterRounds;
      hide Progress, BotDisabled, Dimmed, Cleared, Touched, RanCall, RanRounds;
      ghost var p, t := From(start), store.Now();
      if Faultless(store.fails) {
        FaultlessIs(store.fails, id);
      }
      call := Call(id, NoRound);
      var user := store.GetUser(id);
      if user.None? {
        if cascade && !active {
          BotMissed(p, t, id);
          NotFaultless(p, t, t, call);
        }
        return false, call;
      }
      ghost var rounds;
      WorksLater(store.fails, id, old(store.calls), store.calls);
      ok, rounds := UpdateActive(id, active, start);
      call := Call(id, rounds);
      ghost var u := store.Now();
      if cascade && !active {
        BotKept(p, t, u, id, ok);
        DimmedKeys(t, u);
      }
      if !ok {
        if cascade && !active {
          NotFaultless(p, t, u, call);
        }
        return;
      }
      if cascade && !active && id in store.bots {
        OwnRowKept(p, t, u, id);
      }
      WorksLater(store.fails, id, old(store.calls), store.calls);
      ok := UpdateBotRow(id, active);
      if ok && !active {
        if u.bots[id].active {
          NotFailing(store.fails, id);
        }
        if cascade {
          BotMarked(p, t, u, id);
        }
      }
      if cascade && !active && id in t.users {
        RanBot(p, t, u, store.Now(), call);
      }
    }

    /** Lines 91-111: the bot row, if there is one. */
    method UpdateBotRow(id: Id, active: bool) returns (ok: bool)
      requires store.Valid()
      modifies store
      ensures store.Valid() && old(store.trace) <= store.trace
      ensures store.calls >= old(store.calls) && store.users == old(store.users)
      ensures ok ==> id in old(store.bots) && store.bots == old(store.bots)[id := old(store.bots)[id].(active := active)]
      ensures !ok ==> store.bots == old(store.bots)
      ensures ok && old(store.bots)[id].active != active ==>
        !AlwaysFails(store.fails, GetBot, id) && !AlwaysFails(store.fails, UpdateBot, id)
      ensures WorksFrom(store.fails, id, old(store.calls)) && id in old(store.bots) ==> ok
    {
      hide AlwaysFails, NeverFails, WorksFrom;
      assert id in store.bots ==> id in store.users by {
        assert BotsHaveUsers(store.Now());
      }
      var bot := store.GetBot(id);
      if bot.None? {
        return false;
      }
      WorksLater(store.fails, id, old(store.calls), store.calls);
      ok := true;
      var changed := active != bot.value.active;
      if changed {
        ok := store.UpdateBot(id, bot.value.(active := active));
      } else {
        assert store.bots == store.bots[id := bot.value.(active := active)];
      }
    }

    /** A request to enable or disable a bot (api4/bot.go:162-189): the outermost call. */
    method RequestBotActive(permitted: bool, id: Id, active: bool) returns (ok: bool)
      requires store.Valid()
      requires permitted && cascade && !active && !Blocked(store.fails, id) ==> Ready(From(store.Now()), id)
      modifies store
      ensures store.Valid() && old(store.trace) <= store.trace
      ensures !permitted ==> !ok && store.Now() == old(store.Now())
      ensures permitted && !(cascade && !active) ==> Updated(old(store.Now()), store.Now(), id, active, ok)
      ensures permitted && cascade && !active ==>
        BotDisabled(From(old(store.Now())), old(store.Now()), store.Now(), id, ok)
      ensures permitted && cascade && !active && Faultless(store.fails) && id in old(store.bots) ==>
        var t := old(store.Now());
        ok && store.Now() == Off(t, Reach(t, t.bots.Keys, id) + {id})
    {
      if !permitted {
        return false;
      }
      ghost var t := store.Now();
      hide Progress, Ready, BotDisabled, Blocked, Reach, Off;
      ProgressStarts(From(t));
      ghost var call;
      ok, call := UpdateBotActive(id, active, t);
      if cascade && !active && Faultless(store.fails) && id in t.bots {
        FaultlessIs(store.fails, id);
        WorksLater(store.fails, id, 0, old(store.calls));
        AllBelowOff(From(t), store.Now(), id);
      }
    }

    /** Writes the user row, then ends the sessions; an error in that is reported after the row is written. */
    method UpdateActive(id: Id, active: bool, ghost start: Tables) returns (ok: bool, ghost rounds: Rounds)
      requires store.Valid()
      requires cascade && !active ==> Progress(From(start), store.Now())
      requires cascade && !active && !Stopped(store.fails, id) ==> Ready(From(start), id)
      modifies store
      ensures store.Valid() && old(store.trace) <= store.trace
      ensures store.calls >= old(store.calls)
      ensures !(cascade && !active) ==> store.bots == old(store.bots)
      ensures !(cascade && !active) && !ok ==>
        store.users == old(store.users) || (id in old(store.users) && store.users == old(store.users)[id := User(active)])
      ensures !(cascade && !active) && ok ==> id in old(store.users) && store.users == old(store.users)[id := User(active)]
      ensures cascade && !active ==> UserDisabled(From(start), old(store.Now()), store.Now(), id, ok)
      ensures cascade && !active && ok && id in old(store.users) ==>
        RanRounds(From(start), UserOff(old(store.Now()), id), store.Now(), id, rounds)
      ensures cascade && !active && ok && Faultless(store.fails) ==> Finished(rounds)
      ensures WorksFrom(store.fails, id, old(store.calls)) && id in old(store.users) ==> ok
      ensures ok ==> !AlwaysFails(store.fails, UpdateUser, id)
      ensures ok && !active ==> !AlwaysFails(store.fails, RevokeSessions, id)
      decreases if cascade && !active && !Stopped(store.fails, id) then |MayReach(From(start), id)| + 1 else 0, 3
    {
      hide AlwaysFails, NeverFails, WorksFrom, Faultless, Progress, Ready;
      hide UserDisabled, Worked, Cleared, ValidRounds, AfterRounds;
      ghost var p, t := From(start), store.Now();
      rounds := NoRound;
      ok := store.UpdateUser(id, User(active));
      if !ok {
        if cascade && !active {
          UserKept(p, t, id);
        }
        return;
      }
      if !active {
        if cascade {
          UserOffProgress(p, t, id);
        }
        WorksLater(store.fails, id, old(store.calls), store.calls);
        ok, rounds := UserDeactivated(id, start);
        if cascade {
          UserMarked(p, t, store.Now(), id, ok);
        }
      }
    }

    /** Ends the user's sessions and, if so configured, disables the user's bots, ignoring how that went. */
    method UserDeactivated(id: Id, ghost start: Tables) returns (ok: bool, ghost rounds: Rounds)
      requires store.Valid()
      requires cascade ==> Progress(From(start), store.Now())
      requires cascade && !AlwaysFails(store.fails, RevokeSessions, id) ==> Ready(From(start), id)
      modifies store
      ensures store.Valid() && old(store.trace) <= store.trace
      ensures store.calls >= old(store.calls)
      ensures !ok || !cascade ==> store.Now() == old(store.Now())
      ensures ok && cascade ==> Worked(From(start), old(store.Now()), store.Now(), id)
      ensures ok && cascade && NeverFails(store.fails, ListBots, id) ==> Cleared(From(start), store.Now(), id)
      ensures ok && cascade ==> RanRounds(From(start), old(store.Now()), store.Now(), id, rounds)
      ensures ok && cascade && Faultless(store.fails) ==> Finished(rounds)
      ensures NeverFails(store.fails, RevokeSessions, id) || WorksFrom(store.fails, id, old(store.calls)) ==> ok
      ensures ok ==> !AlwaysFails(store.fails, RevokeSessions, id)
      decreases if cascade && !AlwaysFails(store.fails, RevokeSessions, id) then |MayReach(From(start), id)| + 1 else 0, 2
    {
      rounds := NoRound;
      ok := store.RevokeAllSessions(id);
      if !ok {
        return;
      }
      if cascade {
        var ignored;
        ignored, rounds := DisableUserBots(id, start);
      }
    }

    /** Disables the bots of an owner; fails only when a listing does. The options are built anew in every round, so it
        is always the first page that is asked for. */
    method DisableUserBots(owner: Id, ghost start: Tables) returns (ok: bool, ghost rounds: Rounds)
      requires store.Valid() && Progress(From(start), store.Now()) && Ready(From(start), owner)
      modifies store
      ensures store.Valid() && old(store.trace) <= store.trace
      ensures store.calls >= old(store.calls)
      ensures Worked(From(start), old(store.Now()), store.Now(), owner)
      ensures ok ==> Cleared(From(start), store.Now(), owner)
      ensures ok ==>
        FailingOwned(store.fails, start, owner) <= ActiveOwned(store.Now(), owner) <= RiskyOwned(store.fails, start, owner)
      ensures ok ==> RanRounds(From(start), old(store.Now()), store.Now(), owner, rounds) && Finished(rounds)
      ensures NeverFails(store.fails, ListBots, owner) ==> ok
      decreases |MayReach(From(start), owner)| + 1, 1
    {
      hide Failing, WorksFrom, Progress, Dimmed, Touched, MayReach, Cleared, Handled, Ready, CalmFrom;
      hide ValidRounds, AfterRounds, ValidCalls, AfterCalls;
      ghost var p := From(start);
      ghost var calm := Calms(p, owner);
      FewUnsteady(p, owner);
      NothingWorked(p, store.Now(), owner);
      NothingRan(p, store.Now(), owner);
      rounds := NoRound;
      while true
        invariant store.Valid() && old(store.trace) <= store.trace
        invariant Worked(p, old(store.Now()), store.Now(), owner)
        invariant RanRounds(p, old(store.Now()), store.Now(), owner, rounds) && !Finished(rounds)
        invariant store.calls >= old(store.calls)
        decreases if store.calls < calm then calm - store.calls else 0, SteadyLeft(p, store.Now(), owner)
      {
        ghost var asked := store.calls;
        var userBots := store.ListBots(owner);
        if userBots.None? {
          return false, rounds;
        }
        ghost var before := store.Now();
        ghost var calls := DisablePage(owner, userBots.value, start);
        WorkedOn(p, old(store.Now()), before, store.Now(), owner);
        RanOneMore(p, old(store.Now()), before, store.Now(), owner, rounds, userBots.value, calls);
        rounds := Then(rounds, userBots.value, calls);
        if |userBots.value| == PER_PAGE {
          if calm <= asked {
            AllWorked(store.fails, store.Now(), userBots.value, calm, asked + 1);
            RoundShrinks(p, before, store.Now(), owner, userBots.value, calm);
          }
          continue;
        }
        RoundClears(p, before, store.Now(), owner, userBots.value);
        break;
      }
      OnlyRiskyLeft(p, store.Now(), owner);
      return true, rounds;
    }

    /** Lines 162-167: one page, going on after failures. */
    method DisablePage(owner: Id, page: seq<Id>, ghost start: Tables) returns (ghost calls: Calls)
      requires store.Valid() && Progress(From(start), store.Now()) && Ready(From(start), owner)
      requires IsPage(store.Now(), owner, page)
      modifies store
      ensures store.Valid() && old(store.trace) <= store.trace
      ensures store.calls >= old(store.calls)
      ensures Worked(From(start), old(store.Now()), store.Now(), owner)
      ensures forall b | b in page :: Handled(From(start), store.Now(), b)
      ensures forall b | b in page && WorksFrom(store.fails, b, old(store.calls)) :: Inactive(store.Now(), b)
      ensures Ids(calls) == page && RanCalls(From(start), old(store.Now()), store.Now(), calls)
      decreases |MayReach(From(start), owner)| + 1, 0, 1
    {
      hide Failing, Healthy, WorksFrom, Ready, Progress, Dimmed, Touched, Handled, MayReach, ValidCall;
      ghost var p := From(start);
      calls := NoCall;
      FailingStay(p, store.Now(), owner);
      NothingWorked(p, store.Now(), owner);
      for i := 0 to |page|
        invariant store.Valid() && old(store.trace) <= store.trace
        invariant Worked(p, old(store.Now()), store.Now(), owner)
        invariant store.calls >= old(store.calls)
        invariant forall b | b in page[..i] :: Handled(p, store.Now(), b)
        invariant forall b | b in page[..i] && WorksFrom(store.fails, b, old(store.calls)) :: Inactive(store.Now(), b)
        invariant Ids(calls) == page[..i] && RanCalls(p, old(store.Now()), store.Now(), calls)
      {
        ghost var before := store.Now();
        WorksLater(store.fails, page[i], old(store.calls), store.calls);
        ghost var call := TryDisable(owner, page[i], start);
        WorkedOn(p, old(store.Now()), before, store.Now(), owner);
        AllHandled(p, before, store.Now(), page[..i]);
        StayInactive(before, store.Now());
        calls := And(calls, call);
        assert page[..i + 1] == page[..i] + [page[i]];
      }
      assert page[..|page|] == page;
    }

    /** Lines 163-166: one bot of the page; a failure is only logged. */
    method TryDisable(owner: Id, b: Id, ghost start: Tables) returns (ghost call: Call)
      requires store.Valid() && Progress(From(start), store.Now()) && Ready(From(start), owner)
      requires b in ActiveOwned(start, owner)
      modifies store
      ensures store.Valid() && old(store.trace) <= store.trace
      ensures store.calls >= old(store.calls)
      ensures Worked(From(start), old(store.Now()), store.Now(), owner)
      ensures Handled(From(start), store.Now(), b)
      ensures WorksFrom(store.fails, b, old(store.calls)) ==> Inactive(store.Now(), b)
      ensures call.id == b && RanCall(From(start), old(store.Now()), store.Now(), call)
      decreases |MayReach(From(start), owner)| + 1, 0, 0
    {
      ghost var p, t := From(start), store.Now();
      ReadyBelow(p, owner, b);
      ProgressKeys(p, t);
      WorksLater(store.fails, b, store.calls, store.calls);
      var ok;
      ok, call := UpdateBotActive(b, false, start);
      if cascade {
        HandledBot(p, t, store.Now(), owner, b, ok);
      } else {
        HandledAlone(p, t, store.Now(), owner, b, ok);
      }
    }
  }

  lemma AllWorked(fails: Faults, t: Tables, page: seq<Id>, n: nat, m: nat)
    requires n <= m && forall b | b in page && WorksFrom(fails, b, m) :: Inactive(t, b)
    ensures forall b | b in page && WorksFrom(fails, b, n) :: Inactive(t, b)
  {
    forall b | b in page && WorksFrom(fails, b, n) ensures Inactive(t, b) {
      WorksLater(fails, b, n, m);
    }
  }

  lemma StayInactive(t: Tables, u: Tables)
    requires Dimmed(t, u)
    ensures forall b | Inactive(t, b) :: Inactive(u, b)
  {}

  lemma AllHandled(p: Plan, t: Tables, u: Tables, bots: seq<Id>)
    requires Dimmed(t, u) && forall b | b in bots :: Handled(p, t, b)
    ensures forall b | b in bots :: Handled(p, u, b)
  {
    forall b | b in bots ensures Handled(p, u, b) {
      HandledStays(p, t, u, b);
    }
  }

  lemma OnlyRiskyLeft(p: Plan, t: Tables, o: Id)
    requires Progress(p, t) && Cleared(p, t, o)
    ensures FailingOwned(p.fails, p.start, o) <= ActiveOwned(t, o) <= RiskyOwned(p.fails, p.start, o)
  {
    FailingStay(p, t, o);
    forall b | b in ActiveOwned(p.start, o) ensures b in WillReach(p, o) {
      Direct(p.start, Sure(p), o, b);
    }
  }

  /** Deactivating a bot with all calls working turns off both rows of it and of exactly the bots below it. */
  lemma AllBelowOff(p: Plan, t: Tables, id: Id)
    requires p.cascade && Faultless(p.fails) && BotsHaveUsers(p.start) && id in p.start.users
    requires BotDisabled(p, p.start, t, id, true)
    ensures t == Off(p.start, Reach(p.start, p.start.bots.Keys, id) + {id})
  {
    FaultlessIs(p.fails, id);
    NoneFails(p.fails);
    FaultlessResult(p, t, id, {id});
  }

  /** What the loop requires is exact: with all calls working it may be entered if and only if the deactivation returns. */
  lemma ReadyIffReturns(p: Plan, id: Id)
    requires p.cascade && Faultless(p.fails) && id in p.start.users
    ensures Ready(p, id) <==> Returns(p.start, id)
  {
    NoneFails(p.fails);
    assert Via(p) == p.start.bots.Keys;
    hide Failing, Healthy, Unsteady, Blocked, Returns, Via;
    forall o ensures UnsteadyOwned(p.fails, p.start, o) == {} {
    }
    ReturnsUnlessOwnsItself(p.start, id);
  }
}
