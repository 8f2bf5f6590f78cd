/**
 Leaving at the same time (app/channel.go:1462-1507).

 One call asks a replica for the member count and decides later whether to go on. What other calls do in between is
 not seen.
 */
module ChannelLeaving {
  import opened ChannelMembership
  import opened Collections
  import opened Wrappers

  /** A call in progress: who leaves, and the count it has read. */
  datatype Leaver = Leaver(user: UserId, count: nat)

  /** `counts` is what a replica may answer now. */
  datatype Leaves = Leaves(state: State, counts: set<nat>, flight: map<nat, Leaver>)

  datatype LeaveStep = ReadCount(call: nat, user: UserId, count: nat) | Finish(call: nat, faults: Faults)

  predicate Possible(m: Leaves, e: LeaveStep) {
    match e
    case ReadCount(call, _, count) => call !in m.flight && count in m.counts
    case Finish(call, _) => call in m.flight
  }

  /** After a change a replica may answer with the new count, and, unless `prompt`, with any earlier one. */
  function Next(w: World, c: ChannelId, prompt: bool, m: Leaves, e: LeaveStep): Leaves
    requires Possible(m, e)
  {
    match e
    case ReadCount(call, u, count) => m.(flight := m.flight[call := Leaver(u, count)])
    case Finish(call, f) =>
      var s := ApplyLeave(w, m.state, c, m.flight[call].user, m.flight[call].count, f).0;
      Leaves(s, (if prompt then {} else m.counts) + {MemberCount(w, s, c)}, m.flight - {call})
  }

  function RunLeaves(w: World, c: ChannelId, prompt: bool, m: Leaves, es: seq<LeaveStep>): Option<Leaves>
    decreases |es|
  {
    if es == [] then Some(m)
    else if Possible(m, es[0]) then RunLeaves(w, c, prompt, Next(w, c, prompt, m, es[0]), es[1..])
    else None
  }

  lemma {:induction false} RunSnoc(w: World, c: ChannelId, prompt: bool, m: Leaves, es: seq<LeaveStep>, e: LeaveStep)
    requires RunLeaves(w, c, prompt, m, es).Some? && Possible(RunLeaves(w, c, prompt, m, es).value, e)
    ensures RunLeaves(w, c, prompt, m, es + [e]) == Some(Next(w, c, prompt, RunLeaves(w, c, prompt, m, es).value, e))
    decreases |es|
  {
    if es == [] {
      assert RunLeaves(w, c, prompt, Next(w, c, prompt, m, e), [e][1..]) == Some(Next(w, c, prompt, m, e));
    } else {
      assert (es + [e])[1..] == es[1..] + [e];
      RunSnoc(w, c, prompt, Next(w, c, prompt, m, es[0]), es[1..], e);
    }
  }

  ghost predicate CanEmpty(w: World, c: ChannelId, prompt: bool, m: Leaves) {
    exists es :: RunLeaves(w, c, prompt, m, es).Some? && MembersOf(RunLeaves(w, c, prompt, m, es).value.state, c) == {}
  }

  /** No call in progress, on a private channel with members; a replica may answer with the present count. */
  ghost predicate Quiet(w: World, c: ChannelId, m: Leaves) {
    && m.flight == map[] && MemberCount(w, m.state, c) in m.counts
    && c in m.state.channels && m.state.channels[c].kind == Private && MembersOf(m.state, c) != {}
  }

  /** Concurrent calls of LeaveChannel can empty a private channel if and only if a replica may answer with a count
      other than 1, each member still has an account, and it is not the default channel. */
  lemma ConcurrentLeavesEmptyIff(w: World, c: ChannelId, prompt: bool, m: Leaves)
    requires Quiet(w, c, m)
    ensures CanEmpty(w, c, prompt, m) <==>
      && (exists n :: n in m.counts && n != 1)
      && MembersOf(m.state, c) <= Elements(w.accounts) && m.state.channels[c].name != DEFAULT_CHANNEL
  {
    if (exists n :: n in m.counts && n != 1) && MembersOf(m.state, c) <= Elements(w.accounts)
      && m.state.channels[c].name != DEFAULT_CHANNEL
    {
      var n :| n in m.counts && n != 1;
      EmptiedByAll(w, c, prompt, m, n);
    } else {
      forall es | RunLeaves(w, c, prompt, m, es).Some?
        ensures MembersOf(RunLeaves(w, c, prompt, m, es).value.state, c) != {}
      {
        if MembersOf(m.state, c) <= Elements(w.accounts) {
          NobodyLeaves(w, c, prompt, m, es);
        } else {
          var u :| u in MembersOf(m.state, c) && u !in w.accounts;
          assert (c, u) in m.state.members;
          UnknownStays(w, c, prompt, m, es, u);
          assert u in MembersOf(RunLeaves(w, c, prompt, m, es).value.state, c);
        }
      }
    }
  }

  /** If every read gives the count of the moment, that is: unless exactly one member is active. So two active members
      who leave together empty the channel, and so does a single one whose account is deactivated. */
  lemma PromptLeavesEmptyIff(w: World, c: ChannelId, m: Leaves)
    requires Quiet(w, c, m) && m.counts == {MemberCount(w, m.state, c)}
    ensures CanEmpty(w, c, true, m) <==>
      && MemberCount(w, m.state, c) != 1
      && MembersOf(m.state, c) <= Elements(w.accounts) && m.state.channels[c].name != DEFAULT_CHANNEL
  {
    ConcurrentLeavesEmptyIff(w, c, true, m);
    if MemberCount(w, m.state, c) != 1 {
      assert MemberCount(w, m.state, c) in m.counts;
    }
  }

  lemma {:induction false} NobodyLeaves(w: World, c: ChannelId, prompt: bool, m: Leaves, es: seq<LeaveStep>)
    requires c in m.state.channels && m.state.channels[c].kind == Private && RunLeaves(w, c, prompt, m, es).Some?
    requires m.state.channels[c].name == DEFAULT_CHANNEL || (MemberCount(w, m.state, c) == 1 && m.counts <= {1}
      && forall k | k in m.flight :: m.flight[k].count == 1)
    ensures RunLeaves(w, c, prompt, m, es).value.state == m.state
    decreases |es|
  {
    if es != [] {
      var next := Next(w, c, prompt, m, es[0]);
      assert next.state == m.state;
      NobodyLeaves(w, c, prompt, next, es[1..]);
    }
  }

  lemma {:induction false} UnknownStays(w: World, c: ChannelId, prompt: bool, m: Leaves, es: seq<LeaveStep>, u: UserId)
    requires (c, u) in m.state.members && u !in w.accounts && RunLeaves(w, c, prompt, m, es).Some?
    ensures (c, u) in RunLeaves(w, c, prompt, m, es).value.state.members
    decreases |es|
  {
    if es != [] {
      UnknownStays(w, c, prompt, Next(w, c, prompt, m, es[0]), es[1..], u);
    }
  }

  lemma EmptiedByAll(w: World, c: ChannelId, prompt: bool, m: Leaves, n: nat)
    requires Quiet(w, c, m) && n in m.counts && n != 1
    requires MembersOf(m.state, c) <= Elements(w.accounts) && m.state.channels[c].name != DEFAULT_CHANNEL
    ensures CanEmpty(w, c, prompt, m)
  {
    var members := MembersOf(m.state, c);
    var users := SomeOf(members, |members|);
    DistinctCovers(users, members);
    var asked := AllRead(w, c, prompt, m, users, n);
    var end := AllFinish(w, c, prompt, m, users, n, asked);
  }

  /** Call i is the one of the i-th user; all of them have read the count n. */
  ghost predicate InFlight(m: Leaves, users: seq<UserId>, n: nat, from: nat) {
    forall i | from <= i < |users| :: i in m.flight && m.flight[i] == Leaver(users[i], n)
  }

  lemma AllRead(w: World, c: ChannelId, prompt: bool, m: Leaves, users: seq<UserId>, n: nat) returns (es: seq<LeaveStep>)
    requires m.flight == map[] && n in m.counts
    ensures RunLeaves(w, c, prompt, m, es).Some? && RunLeaves(w, c, prompt, m, es).value.state == m.state
    ensures InFlight(RunLeaves(w, c, prompt, m, es).value, users, n, 0)
  {
    es := [];
    var now := m;
    for i := 0 to |users|
      invariant RunLeaves(w, c, prompt, m, es) == Some(now) && now.state == m.state && now.counts == m.counts
      invariant InFlight(now, users[..i], n, 0) && forall k | k in now.flight :: k < i
    {
      var e := ReadCount(i, users[i], n);
      RunSnoc(w, c, prompt, m, es, e);
      es, now := es + [e], Next(w, c, prompt, now, e);
    }
    assert users[..|users|] == users;
  }

  lemma AllFinish(w: World, c: ChannelId, prompt: bool, m: Leaves, users: seq<UserId>, n: nat, asked: seq<LeaveStep>)
    returns (es: seq<LeaveStep>)
    requires RunLeaves(w, c, prompt, m, asked).Some? && InFlight(RunLeaves(w, c, prompt, m, asked).value, users, n, 0)
    requires c in m.state.channels && m.state.channels[c].kind == Private && m.state.channels[c].name != DEFAULT_CHANNEL
    requires RunLeaves(w, c, prompt, m, asked).value.state == m.state && n != 1
    requires Distinct(users) && Elements(users) == MembersOf(m.state, c) <= Elements(w.accounts)
    ensures RunLeaves(w, c, prompt, m, es).Some? && MembersOf(RunLeaves(w, c, prompt, m, es).value.state, c) == {}
  {
    hide RunLeaves, ApplyLeave, MembersOf, Elements, MemberCount;
    es := asked;
    var now := RunLeaves(w, c, prompt, m, asked).value;
    assert users[0..] == users;
    for i := 0 to |users|
      invariant RunLeaves(w, c, prompt, m, es) == Some(now) && now.state.channels == m.state.channels
      invariant InFlight(now, users, n, i) && MembersOf(now.state, c) == Elements(users[i..])
    {
      var e := Finish(i, NO_FAULTS);
      RunSnoc(w, c, prompt, m, es, e);
      var next := Next(w, c, prompt, now, e);
      ElementsRest(users, i);
      assert users[i] in w.accounts by {
        ElementsIn(users, i);
        ElementsOf(w.accounts, users[i]);
      }
      OneLeaves(w, now.state, c, users[i], n);
      es, now := es + [e], next;
    }
    ElementsDone(users);
  }

  lemma OneLeaves(w: World, s: State, c: ChannelId, u: UserId, n: nat)
    requires c in s.channels && s.channels[c].kind == Private && s.channels[c].name != DEFAULT_CHANNEL
    requires u in MembersOf(s, c) && u in w.accounts && n != 1
    ensures var t := ApplyLeave(w, s, c, u, n, NO_FAULTS).0;
      t.channels == s.channels && MembersOf(t, c) == MembersOf(s, c) - {u}
  {
    var t := ApplyLeave(w, s, c, u, n, NO_FAULTS).0;
    assert t.members == s.members - {(c, u)};
    forall v ensures v in MembersOf(t, c) <==> v in MembersOf(s, c) && v != u {
      assert v in MembersOf(t, c) <==> (c, v) in t.members;
      assert v in MembersOf(s, c) <==> (c, v) in s.members;
    }
  }
}
