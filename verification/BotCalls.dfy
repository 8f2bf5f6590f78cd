/**
 When deactivating a user or a bot returns, with owners' bots disabled along with them (the default,
 model/config.go:636-637) and no store call failing.

 UpdateActive marks the user row, then disableUserBots asks for a page of the user's active bots and calls
 UpdateBotActive on each bot of the page, which calls UpdateActive again; after a full page it asks for another one.
 Only after all of this the bot row is written (app/bot.go:80-178, app/user.go:951-1009). A call that returns is a
 finite tree.
 */
module BotCalls {
  import opened BotTables
  import opened Collections

  /** One call of UpdateBotActive that returned, or of UpdateActive for a user that is no bot. */
  datatype Call = Call(id: Id, rounds: Rounds)

  /** The rounds of its paging loop, the last one last. */
  datatype Rounds = NoRound | Then(earlier: Rounds, page: seq<Id>, calls: Calls)

  /** The nested calls of one round, the last one last. */
  datatype Calls = NoCall | And(before: Calls, call: Call)

  function Ids(cs: Calls): seq<Id> {
    match cs
    case NoCall => []
    case And(before, call) => Ids(before) + [call.id]
  }

  /** The tables when the call returns. */
  function AfterCall(t: Tables, c: Call): Tables
    decreases c
  {
    BotOff(AfterRounds(UserOff(t, c.id), c.rounds), c.id)
  }

  function AfterRounds(t: Tables, rs: Rounds): Tables
    decreases rs
  {
    match rs
    case NoRound => t
    case Then(earlier, _, calls) => AfterCalls(AfterRounds(t, earlier), calls)
  }

  function AfterCalls(t: Tables, cs: Calls): Tables
    decreases cs
  {
    match cs
    case NoCall => t
    case And(before, call) => AfterCall(AfterCalls(t, before), call)
  }

  /** The loop stops after the first page that is not full. */
  predicate Finished(rs: Rounds) {
    rs.Then? && |rs.page| < PER_PAGE
  }

  ghost predicate ValidCall(t: Tables, c: Call)
    decreases c
  {
    c.id in t.users && Finished(c.rounds) && ValidRounds(UserOff(t, c.id), c.id, c.rounds)
  }

  /** Each round reads a page of the bots that are active by then, and calls on each bot of the page in order. */
  ghost predicate ValidRounds(t: Tables, owner: Id, rs: Rounds)
    decreases rs
  {
    match rs
    case NoRound => true
    case Then(earlier, page, calls) =>
      && ValidRounds(t, owner, earlier) && !Finished(earlier)
      && IsPage(AfterRounds(t, earlier), owner, page)
      && Ids(calls) == page && ValidCalls(AfterRounds(t, earlier), calls)
  }

  ghost predicate ValidCalls(t: Tables, cs: Calls)
    decreases cs
  {
    match cs
    case NoCall => true
    case And(before, call) => ValidCalls(t, before) && ValidCall(AfterCalls(t, before), call)
  }

  /** Deactivating `id` can be run to its end. */
  ghost predicate Returns(t: Tables, id: Id) {
    exists c: Call :: c.id == id && ValidCall(t, c)
  }

  // ---------------------------------------------------------------------------------------------------------
  // A set of ids in which every one owns another keeps every call on them from returning

  ghost predicate Endless(t: Tables, ids: set<Id>) {
    forall o {:trigger ActiveOwned(t, o)} | o in ids :: ActiveOwned(t, o) * ids != {}
  }

  lemma {:induction false} CallAvoids(t: Tables, c: Call, ids: set<Id>)
    requires ValidCall(t, c) && Endless(t, ids)
    ensures c.id !in ids && Endless(AfterCall(t, c), ids)
    decreases c
  {
    var marked := UserOff(t, c.id);
    UserOffOwned(t, c.id);
    RoundsAvoid(marked, c.id, c.rounds, ids);
    BotOffEndless(AfterRounds(marked, c.rounds), c.id, ids);
  }

  lemma UserOffOwned(t: Tables, id: Id)
    requires id in t.users
    ensures forall o :: ActiveOwned(UserOff(t, id), o) == ActiveOwned(t, o)
  {}

  lemma BotOffEndless(t: Tables, id: Id, ids: set<Id>)
    requires Endless(t, ids) && id !in ids
    ensures Endless(BotOff(t, id), ids)
  {
    forall o | o in ids ensures ActiveOwned(BotOff(t, id), o) * ids != {} {
      var b :| b in ActiveOwned(t, o) * ids;
      assert b in ActiveOwned(BotOff(t, id), o) * ids;
    }
  }

  lemma {:induction false} RoundsAvoid(t: Tables, owner: Id, rs: Rounds, ids: set<Id>)
    requires ValidRounds(t, owner, rs) && Endless(t, ids)
    ensures Endless(AfterRounds(t, rs), ids)
    ensures Finished(rs) ==> owner !in ids
    decreases rs
  {
    if rs.Then? {
      RoundsAvoid(t, owner, rs.earlier, ids);
      CallsAvoid(AfterRounds(t, rs.earlier), rs.calls, ids);
      if Finished(rs) {
        ShortPageIsAll(AfterRounds(t, rs.earlier), owner, rs.page);
      }
    }
  }

  lemma {:induction false} CallsAvoid(t: Tables, cs: Calls, ids: set<Id>)
    requires ValidCalls(t, cs) && Endless(t, ids)
    ensures Endless(AfterCalls(t, cs), ids)
    ensures forall b | b in Ids(cs) :: b !in ids
    decreases cs
  {
    if cs.And? {
      CallsAvoid(t, cs.before, ids);
      CallAvoids(AfterCalls(t, cs.before), cs.call, ids);
    }
  }

  /** The ids that lead to a cycle through x. */
  lemma CycleIsEndless(t: Tables, x: Id) returns (ids: set<Id>)
    requires x in Reach(t, t.bots.Keys, x)
    ensures x in ids && Endless(t, ids)
  {
    var via := t.bots.Keys;
    ids := set o | o in Reach(t, via, x) && x in Reach(t, via, o);
    forall o | o in ids ensures ActiveOwned(t, o) * ids != {} {
      var b := FirstStep(t, via, o, x);
      Direct(t, via, o, b);
      Through(t, via, x, o, b);
      assert b in ActiveOwned(t, o) * ids;
    }
  }

  // ---------------------------------------------------------------------------------------------------------
  // Without a cycle there is a call that returns

  lemma BuildCall(start: Tables, t: Tables, id: Id) returns (c: Call)
    requires Dimmed(start, t) && id in t.users && Untangled(start, start.bots.Keys, id)
    ensures c.id == id && ValidCall(t, c) && Dimmed(start, AfterCall(t, c)) && Dimmed(t, AfterCall(t, c))
    ensures id in t.bots ==> !AfterCall(t, c).bots[id].active
    decreases |Reach(start, start.bots.Keys, id)|, 2
  {
    hide Dimmed, ValidRounds, Reach;
    var marked := UserOff(t, id);
    OffIsDimmed(t, id);
    DimmedTransitive(start, t, marked);
    var rs := BuildRounds(start, marked, id);
    c := Call(id, rs);
    var end := AfterRounds(marked, rs);
    OffIsDimmed(end, id);
    DimmedTransitive(t, marked, end);
    DimmedTransitive(t, end, AfterCall(t, c));
    DimmedTransitive(start, t, AfterCall(t, c));
    DimmedKeys(t, end);
  }

  lemma BuildRounds(start: Tables, t: Tables, o: Id) returns (rs: Rounds)
    requires Dimmed(start, t) && Untangled(start, start.bots.Keys, o)
    ensures ValidRounds(t, o, rs) && Finished(rs)
    ensures Dimmed(start, AfterRounds(t, rs)) && Dimmed(t, AfterRounds(t, rs))
    decreases |Reach(start, start.bots.Keys, o)|, 1
  {
    rs := NoRound;
    while !Finished(rs)
      invariant ValidRounds(t, o, rs)
      invariant Dimmed(start, AfterRounds(t, rs)) && Dimmed(t, AfterRounds(t, rs))
      decreases !Finished(rs), |ActiveOwned(AfterRounds(t, rs), o)|
    {
      var u := AfterRounds(t, rs);
      var page := SomePage(u, o);
      DimmedOwned(start, u, o);
      var cs := BuildCalls(start, u, o, page);
      rs := Then(rs, page, cs);
      DimmedOwned(u, AfterRounds(t, rs), o);
      if page != [] {
        assert page[0] in Ids(cs);
        Smaller(ActiveOwned(AfterRounds(t, rs), o), ActiveOwned(u, o), page[0]);
      }
    }
  }

  lemma {:induction false} BuildCalls(start: Tables, t: Tables, o: Id, page: seq<Id>) returns (cs: Calls)
    requires Dimmed(start, t) && Untangled(start, start.bots.Keys, o)
    requires forall b | b in page :: b in ActiveOwned(start, o)
    ensures Ids(cs) == page && ValidCalls(t, cs)
    ensures Dimmed(start, AfterCalls(t, cs)) && Dimmed(t, AfterCalls(t, cs))
    ensures forall b | b in page :: b in AfterCalls(t, cs).bots && !AfterCalls(t, cs).bots[b].active
    decreases |Reach(start, start.bots.Keys, o)|, 0, |page|
  {
    hide Dimmed, ValidCall, AfterCall, Reach, Untangled;
    if page == [] {
      cs := NoCall;
      SelfDimmed(t);
    } else {
      var last, front := page[|page| - 1], page[..|page| - 1];
      assert page == front + [last];
      var before := BuildCalls(start, t, o, front);
      var u := AfterCalls(t, before);
      ReachSmaller(start, start.bots.Keys, o, last);
      DimmedKeys(start, u);
      var c := BuildCall(start, u, last);
      DimmedTransitive(t, u, AfterCall(u, c));
      DimmedKeys(start, AfterCall(u, c));
      StillOff(u, AfterCall(u, c), front);
      cs := And(before, c);
    }
  }

  lemma StillOff(t: Tables, u: Tables, bots: seq<Id>)
    requires Dimmed(t, u) && forall b | b in bots :: b in t.bots && !t.bots[b].active
    ensures forall b | b in bots :: b in u.bots && !u.bots[b].active
  {}

  // ---------------------------------------------------------------------------------------------------------
  // Exactly when it returns

  /** Deactivating a user or a bot returns if and only if no active bot below it is on a cycle of ownership. */
  lemma ReturnsIff(t: Tables, id: Id)
    requires id in t.users
    ensures Returns(t, id) <==> forall x | x in Reach(t, t.bots.Keys, id) :: x !in Reach(t, t.bots.Keys, x)
  {
    var via := t.bots.Keys;
    if Untangled(t, via, id) {
      var c := BuildCall(t, t, id);
      forall x | x in Reach(t, via, id) ensures x !in Reach(t, via, x) {
        NoCycleBelow(t, via, id, x);
      }
    } else {
      var ids := CycleIsEndless(t, id);
      if c: Call :| c.id == id && ValidCall(t, c) {
        CallAvoids(t, c, ids);
      }
    }
  }

  /** As a bot has one owner, that is whether it owns itself, directly or through other active bots. In particular
      the deactivation of a user that is no bot always returns. */
  lemma ReturnsUnlessOwnsItself(t: Tables, id: Id)
    requires id in t.users
    ensures Returns(t, id) <==> id !in Reach(t, t.bots.Keys, id)
    ensures id !in t.bots ==> Returns(t, id)
  {
    ReturnsIff(t, id);
    if id !in Reach(t, t.bots.Keys, id) {
      forall x | x in Reach(t, t.bots.Keys, id) ensures x !in Reach(t, t.bots.Keys, x) {
        NoCycleBelow(t, t.bots.Keys, id, x);
      }
    }
  }

  /** Converting a user to a bot makes it its own owner, so deactivating it never returns, whatever else it owns. */
  lemma ConvertedNeverReturns(t: Tables, id: Id)
    requires id in t.users && id in t.bots && t.bots[id] == Bot(id, true)
    ensures !Returns(t, id)
  {
    ReturnsUnlessOwnsItself(t, id);
    Direct(t, t.bots.Keys, id, id);
  }

  /** A cycle may be longer: two bots that own each other. */
  lemma OwningEachOther(t: Tables, a: Id, b: Id)
    requires a in t.users && b in t.users && a in t.bots && b in t.bots
    requires t.bots[a] == Bot(b, true) && t.bots[b] == Bot(a, true)
    ensures !Returns(t, a) && !Returns(t, b)
  {
    var via := t.bots.Keys;
    Direct(t, via, a, b);
    Direct(t, via, b, a);
    Through(t, via, a, b, a);
    Through(t, via, b, a, b);
    ReturnsUnlessOwnsItself(t, a);
    ReturnsUnlessOwnsItself(t, b);
  }

  /** Once a converted user has been given another owner that is no bot, deactivating it returns, though it may still
      own active bots. */
  lemma ReassignedReturns(t: Tables, id: Id, owner: Id)
    requires id in t.users && id in t.bots && t.bots[id].owner == owner && owner !in t.bots
    ensures Returns(t, id)
  {
    var via := t.bots.Keys;
    forall steps: nat ensures !Under(t, via, id, id, steps) {
    }
    ReturnsUnlessOwnsItself(t, id);
  }
}
