/**
 The Bots and Users tables (app/bot.go, model/bot.go) and who owns whom.

 A bot is a row in Bots and a row in Users under the same id. Its owner is the id of a user, which may itself be a
 bot: converting a user to a bot, cmd/mattermost/commands/user.go:394-408, leaves the bots the user owned in place.
 */
module BotTables {
  import opened Collections

  type Id = nat

  datatype User = User(active: bool)

  datatype Bot = Bot(owner: Id, active: bool)

  datatype Tables = Tables(users: map<Id, User>, bots: map<Id, Bot>)

  const PER_PAGE := 20

  predicate BotsHaveUsers(t: Tables) {
    forall b | b in t.bots :: b in t.users
  }

  /** The bots a listing for this owner ranges over. */
  function ActiveOwned(t: Tables, owner: Id): set<Id> {
    set b | b in t.bots && t.bots[b].owner == owner && t.bots[b].active && b in t.users
  }

  /** What page 0 of the listing may be: distinct active bots of the owner, as many as fit. */
  ghost predicate IsPage(t: Tables, owner: Id, page: seq<Id>) {
    && (forall b | b in page :: b in ActiveOwned(t, owner))
    && Distinct(page)
    && |page| == if |ActiveOwned(t, owner)| < PER_PAGE then |ActiveOwned(t, owner)| else PER_PAGE
  }

  lemma ShortPageIsAll(t: Tables, owner: Id, page: seq<Id>)
    requires IsPage(t, owner, page) && |page| < PER_PAGE
    ensures forall b | b in ActiveOwned(t, owner) :: b in page
  {
    DistinctCovers(page, ActiveOwned(t, owner));
  }

  lemma SomePage(t: Tables, owner: Id) returns (page: seq<Id>)
    ensures IsPage(t, owner, page)
  {
    var all := ActiveOwned(t, owner);
    page := SomeOf(all, if |all| < PER_PAGE then |all| else PER_PAGE);
  }

  /** The two rows of an id made inactive. */
  function UserOff(t: Tables, id: Id): Tables {
    t.(users := t.users[id := User(false)])
  }

  function BotOff(t: Tables, id: Id): Tables {
    if id in t.bots then t.(bots := t.bots[id := t.bots[id].(active := false)]) else t
  }

  // ---------------------------------------------------------------------------------------------------------
  // Ownership over several steps

  /** Going from x to its owner `steps` + 1 times, only from active bots, ends at o; what lies between is in `via`. */
  predicate Under(t: Tables, via: set<Id>, x: Id, o: Id, steps: nat)
    decreases steps
  {
    && x in t.bots && t.bots[x].active && x in t.users
    && var p := t.bots[x].owner;
    if steps == 0 then p == o else p in via && Under(t, via, p, o, steps - 1)
  }

  ghost predicate Below(t: Tables, via: set<Id>, o: Id, x: Id) {
    exists steps: nat :: Under(t, via, x, o, steps)
  }

  /** The active bots that o owns, directly or through active bots in `via`. */
  ghost function Reach(t: Tables, via: set<Id>, o: Id): set<Id> {
    set x | x in t.bots && Below(t, via, o, x)
  }

  lemma Direct(t: Tables, via: set<Id>, o: Id, x: Id)
    requires x in ActiveOwned(t, o)
    ensures x in Reach(t, via, o)
  {
    assert Under(t, via, x, o, 0);
  }

  lemma {:induction false} UnderUnder(t: Tables, via: set<Id>, x: Id, y: Id, o: Id, n: nat, m: nat)
    requires Under(t, via, x, y, n) && Under(t, via, y, o, m) && y in via
    ensures Under(t, via, x, o, n + m + 1)
    decreases n
  {
    if n > 0 {
      UnderUnder(t, via, t.bots[x].owner, y, o, n - 1, m);
    }
  }

  lemma Through(t: Tables, via: set<Id>, o: Id, y: Id, x: Id)
    requires y in Reach(t, via, o) && y in via && x in Reach(t, via, y)
    ensures x in Reach(t, via, o)
  {
    var n: nat :| Under(t, via, x, y, n);
    var m: nat :| Under(t, via, y, o, m);
    UnderUnder(t, via, x, y, o, n, m);
  }

  lemma {:induction false} TopStep(t: Tables, via: set<Id>, x: Id, o: Id, n: nat) returns (d: Id)
    requires Under(t, via, x, o, n)
    ensures d in ActiveOwned(t, o) && (d == x || (d in via && x in Reach(t, via, d)))
    decreases n
  {
    if n == 0 {
      d := x;
    } else {
      var p := t.bots[x].owner;
      d := TopStep(t, via, p, o, n - 1);
      Direct(t, via, p, x);
      if d != p {
        Through(t, via, d, p, x);
      }
    }
  }

  /** Whatever is below o is one of o's own bots or below one of them. */
  lemma FirstStep(t: Tables, via: set<Id>, o: Id, x: Id) returns (d: Id)
    requires x in Reach(t, via, o)
    ensures d in ActiveOwned(t, o) && (d == x || (d in via && x in Reach(t, via, d)))
  {
    var n: nat :| Under(t, via, x, o, n);
    d := TopStep(t, via, x, o, n);
  }

  /** A bot has one owner, so a cycle that can be reached is one that its reacher is on. */
  lemma {:induction false} CycleReached(t: Tables, via: set<Id>, o: Id, x: Id, n: nat)
    requires Under(t, via, x, o, n) && x in via && x in Reach(t, via, x)
    ensures o in via && o in Reach(t, via, o)
    decreases n
  {
    var p := t.bots[x].owner;
    var m: nat :| Under(t, via, x, x, m);
    Direct(t, via, p, x);
    if m > 0 {
      assert Under(t, via, p, x, m - 1);
      Through(t, via, p, x, p);
    }
    if n > 0 {
      CycleReached(t, via, o, p, n - 1);
    }
  }

  /** Not an owner of itself over bots in `via`, as far as it is one of these. */
  ghost predicate Untangled(t: Tables, via: set<Id>, o: Id) {
    o in via ==> o !in Reach(t, via, o)
  }

  lemma NoCycleBelow(t: Tables, via: set<Id>, o: Id, x: Id)
    requires Untangled(t, via, o) && x in Reach(t, via, o)
    ensures Untangled(t, via, x)
  {
    if x in via && x in Reach(t, via, x) {
      var n: nat :| Under(t, via, x, o, n);
      CycleReached(t, via, o, x, n);
    }
  }

  lemma StepDown(t: Tables, via: set<Id>, o: Id, d: Id)
    requires d in ActiveOwned(t, o)
    ensures d in Reach(t, via, o)
    ensures d in via ==> Reach(t, via, d) <= Reach(t, via, o)
  {
    Direct(t, via, o, d);
    if d in via {
      forall x | x in Reach(t, via, d) ensures x in Reach(t, via, o) {
        Through(t, via, o, d, x);
      }
    }
  }

  /** Where there is no cycle, one step down leaves less below. */
  lemma ReachSmaller(t: Tables, via: set<Id>, o: Id, d: Id)
    requires Untangled(t, via, o) && d in ActiveOwned(t, o) && d in via
    ensures Untangled(t, via, d) && |Reach(t, via, d)| < |Reach(t, via, o)|
  {
    StepDown(t, via, o, d);
    NoCycleBelow(t, via, o, d);
    Smaller(Reach(t, via, d), Reach(t, via, o), d);
  }

  // ---------------------------------------------------------------------------------------------------------
  // Disabling

  /** The same rows, bots with the same owners, nothing newly active. */
  predicate Dimmed(before: Tables, after: Tables) {
    && after.users.Keys == before.users.Keys && after.bots.Keys == before.bots.Keys
    && (forall u | u in before.users :: after.users[u].active ==> before.users[u].active)
    && (forall b | b in before.bots ::
          after.bots[b].owner == before.bots[b].owner && (after.bots[b].active ==> before.bots[b].active))
  }

  lemma SelfDimmed(t: Tables)
    ensures Dimmed(t, t)
  {}

  lemma DimmedTransitive(a: Tables, b: Tables, c: Tables)
    requires Dimmed(a, b) && Dimmed(b, c)
    ensures Dimmed(a, c)
  {}

  lemma OffIsDimmed(t: Tables, id: Id)
    ensures id in t.users ==> Dimmed(t, UserOff(t, id))
    ensures Dimmed(t, BotOff(t, id))
  {}

  lemma DimmedKeys(before: Tables, after: Tables)
    requires Dimmed(before, after)
    ensures after.users.Keys == before.users.Keys && after.bots.Keys == before.bots.Keys
  {}

  lemma DimmedOwned(before: Tables, after: Tables, o: Id)
    requires Dimmed(before, after)
    ensures ActiveOwned(after, o) <= ActiveOwned(before, o)
  {}
}
