/**
 Memberships and their history rows under concurrent adds and removals (app/channel.go:886-931, 1601-1626,
 store/sqlstore/channel_member_history_store.go:36-66).

 An add saves the membership and then logs a join; a removal checks the membership, deletes it and then logs a leave.
 The two writes are separate calls, and the check may be outdated by the time of the delete, which does not say
 whether there was anything to delete. Saving a membership that is there fails. Log calls are taken to succeed.
 */
module ChannelHistory {
  import opened ChannelMembership
  import opened Collections

  /** The two tables, and the log calls that are still to come for what has been saved or deleted. */
  datatype Table = Table(
    members: set<(ChannelId, UserId)>,
    rows: seq<HistoryRow>,
    outstanding: multiset<HistoryEvent>)

  datatype Step = Save(channel: ChannelId, user: UserId) | Delete(channel: ChannelId, user: UserId) | LogCall(call: HistoryEvent)

  predicate Possible(t: Table, x: Step) {
    match x
    case Save(c, u) => (c, u) !in t.members
    case Delete(_, _) => true
    case LogCall(e) => e in t.outstanding
  }

  function Next(t: Table, x: Step): Table
    requires Possible(t, x)
  {
    match x
    case Save(c, u) => t.(members := t.members + {(c, u)}, outstanding := t.outstanding + multiset{Join(u, c)})
    case Delete(c, u) => t.(members := t.members - {(c, u)}, outstanding := t.outstanding + multiset{Leave(u, c)})
    case LogCall(e) => t.(rows := RowsAfter(t.rows, e), outstanding := t.outstanding - multiset{e})
  }

  /** Every state of a run, which ends early at a step that is not possible. */
  function Visited(t: Table, xs: seq<Step>): seq<Table>
    decreases |xs|
  {
    if xs == [] || !Possible(t, xs[0]) then [t] else [t] + Visited(Next(t, xs[0]), xs[1..])
  }

  /** A member has exactly one open row, anyone else has none. */
  ghost predicate Agrees(members: set<(ChannelId, UserId)>, rows: seq<HistoryRow>) {
    forall c, u :: OpenRows(rows, c, u) == if (c, u) in members then 1 else 0
  }

  ghost predicate Settled(t: Table) {
    t.outstanding == multiset{} && Agrees(t.members, t.rows)
  }

  // ---------------------------------------------------------------------------------------------------------
  // Writing membership and history at once, after checks that may be outdated

  datatype Commit = Joined(channel: ChannelId, user: UserId) | Removed(channel: ChannelId, user: UserId)

  /** The two writes of one operation. */
  function Committed(t: Table, k: Commit): Table {
    match k
    case Joined(c, u) => if (c, u) in t.members then t else Next(Next(t, Save(c, u)), LogCall(Join(u, c)))
    case Removed(c, u) => Next(Next(t, Delete(c, u)), LogCall(Leave(u, c)))
  }

  function RunCommits(t: Table, ks: seq<Commit>): Table
    decreases |ks|
  {
    if ks == [] then t else RunCommits(Committed(t, ks[0]), ks[1..])
  }

  lemma CommitAgrees(t: Table, k: Commit)
    requires Settled(t)
    ensures Settled(Committed(t, k))
  {
    var d := Committed(t, k);
    var e := if k.Joined? then Join(k.user, k.channel) else Leave(k.user, k.channel);
    if k.Removed? || (k.channel, k.user) !in t.members {
      assert multiset{} + multiset{e} - multiset{e} == multiset{};
      forall c, u ensures OpenRows(d.rows, c, u) == if (c, u) in d.members then 1 else 0 {
        OpenAfter(t.rows, e, c, u);
        assert OpenRows(t.rows, c, u) == if (c, u) in t.members then 1 else 0;
      }
    }
  }

  /** Over every run of such writes, whether or not each removal still finds the membership it has checked, a member
      has exactly one open row and anyone else has none. */
  lemma {:induction false} CommitsAgree(t: Table, ks: seq<Commit>)
    requires Settled(t)
    ensures Settled(RunCommits(t, ks))
    decreases |ks|
  {
    if ks != [] {
      CommitAgrees(t, ks[0]);
      CommitsAgree(Committed(t, ks[0]), ks[1..]);
    }
  }

  lemma {:induction false} ClosedTwice(rows: seq<HistoryRow>, c: ChannelId, u: UserId)
    ensures Closed(Closed(rows, c, u), c, u) == Closed(rows, c, u)
  {
    if rows != [] {
      var after := Closed(rows, c, u);
      ClosedTwice(rows[..|rows| - 1], c, u);
      assert after[..|after| - 1] == Closed(rows[..|rows| - 1], c, u);
    }
  }

  /** A second removal that has passed its check as well changes nothing: the first one has closed the row. */
  lemma RemovedTwice(t: Table, c: ChannelId, u: UserId)
    ensures Committed(Committed(t, Removed(c, u)), Removed(c, u)) == Committed(t, Removed(c, u))
  {
    var e, once := Leave(u, c), Committed(t, Removed(c, u));
    ClosedTwice(t.rows, c, u);
    assert once.outstanding + multiset{e} - multiset{e} == once.outstanding;
  }

  // ---------------------------------------------------------------------------------------------------------
  // Operations that are not interrupted are such writes

  function TableOf(s: State): Table {
    Table(s.members, Rows(s.history), multiset{})
  }

  lemma LoggedIsCommitted(s: State, m: (ChannelId, UserId), e: HistoryEvent)
    requires e.channel == m.0 && e.user == m.1
    ensures e.Join? && m !in s.members ==>
      TableOf(Log(s.(members := s.members + {m}), e, false)) == Committed(TableOf(s), Joined(m.0, m.1))
    ensures e.Leave? ==>
      TableOf(Log(s.(members := s.members - {m}), e, false)) == Committed(TableOf(s), Removed(m.0, m.1))
  {
    var h := s.history + [e];
    assert h[..|h| - 1] == s.history;
    assert multiset{} + multiset{e} - multiset{e} == multiset{};
  }

  lemma {:induction false} CommitsAppend(t: Table, ks: seq<Commit>, ls: seq<Commit>)
    ensures RunCommits(t, ks + ls) == RunCommits(RunCommits(t, ks), ls)
    decreases |ks|
  {
    if ks == [] {
      assert ks + ls == ls;
    } else {
      assert (ks + ls)[1..] == ks[1..] + ls;
      CommitsAppend(Committed(t, ks[0]), ks[1..], ls);
    }
  }

  lemma OneCommit(t: Table, k: Commit)
    ensures RunCommits(t, [k]) == Committed(t, k)
  {
    assert [k][1..] == [];
  }

  lemma {:induction false} SavesAreCommits(s: State, c: ChannelId, users: seq<UserId>, n: nat) returns (ks: seq<Commit>)
    requires n <= |users| && Distinct(users[..n]) && forall u | u in users[..n] :: (c, u) !in s.members
    ensures TableOf(ApplySaves(s, c, users, n, false)) == RunCommits(TableOf(s), ks)
    ensures forall m | m in ApplySaves(s, c, users, n, false).members :: m in s.members || (m.0 == c && m.1 in users[..n])
  {
    ks := [];
    if n > 0 {
      var u := users[n - 1];
      assert users[..n] == users[..n - 1] + [u] && users[..n][..n - 1] == users[..n - 1];
      ks := SavesAreCommits(s, c, users, n - 1);
      var before := ApplySaves(s, c, users, n - 1, false);
      assert u !in users[..n - 1] by {
        assert forall i | 0 <= i < n - 1 :: users[..n][i] != users[..n][n - 1];
      }
      assert u in users[..n] && (c, u) !in before.members;
      LoggedIsCommitted(before, (c, u), Join(u, c));
      CommitsAppend(TableOf(s), ks, [Joined(c, u)]);
      OneCommit(TableOf(before), Joined(c, u));
      ks := ks + [Joined(c, u)];
    }
  }

  lemma CreateIsCommits(w: World, s: State, op: Op) returns (ks: seq<Commit>)
    requires WritesHistory(op) && op.CreateGroup? && Apply(w, s, op).0 != s
    ensures TableOf(Apply(w, s, op).0) == RunCommits(TableOf(s), ks)
  {
    hide RunCommits, Rows, SavedOf;
    var c, users := op.channel, Profiles(w, op.users, op.cached);
    var n := SavedOf(users, MembersOf(s, c), op.saved);
    forall u | u in users[..n] ensures (c, u) !in s.members {
      assert u !in MembersOf(s, c);
    }
    ks := SavesAreCommits(GroupCreated(s, c), c, users, n);
  }

  lemma OpIsCommits(w: World, s: State, op: Op) returns (ks: seq<Commit>)
    requires WritesHistory(op)
    ensures TableOf(Apply(w, s, op).0) == RunCommits(TableOf(s), ks)
  {
    hide Rows, Committed, ApplyCreateGroup;
    var after := Apply(w, s, op).0;
    ks := [];
    if after == s {
    } else if op.CreateGroup? {
      ks := CreateIsCommits(w, s, op);
    } else {
      var m := (op.channel, op.user);
      ks := [if op.Add? then Joined(op.channel, op.user) else Removed(op.channel, op.user)];
      LoggedIsCommitted(s, m, if op.Add? then Join(op.user, op.channel) else Leave(op.user, op.channel));
      OneCommit(TableOf(s), ks[0]);
    }
  }

  /** Every run of operations, if its history writes succeed, leaves what some run of commits leaves. */
  lemma {:induction false} OpsAreCommits(w: World, s: State, ops: seq<Op>) returns (ks: seq<Commit>)
    requires forall op | op in ops :: WritesHistory(op)
    ensures TableOf(Run(w, s, ops)) == RunCommits(TableOf(s), ks)
    decreases |ops|
  {
    ks := [];
    if ops != [] {
      ks := OpIsCommits(w, s, ops[0]);
      var ls := OpsAreCommits(w, Apply(w, s, ops[0]).0, ops[1..]);
      CommitsAppend(TableOf(s), ks, ls);
      ks := ks + ls;
    }
  }

  // ---------------------------------------------------------------------------------------------------------
  // Separate writes

  function WriteAll(rows: seq<HistoryRow>, calls: seq<HistoryEvent>): seq<HistoryRow> {
    if calls == [] then rows else RowsAfter(WriteAll(rows, calls[..|calls| - 1]), calls[|calls| - 1])
  }

  /** In whatever order the outstanding log calls are made, the rows agree with the memberships afterwards. */
  ghost predicate EveryFinishAgrees(t: Table) {
    forall calls: seq<HistoryEvent> | multiset(calls) == t.outstanding :: Agrees(t.members, WriteAll(t.rows, calls))
  }

  /** No user has both a join and a leave of one channel outstanding. */
  ghost predicate NoneTogether(t: Table) {
    forall c, u :: Join(u, c) !in t.outstanding || Leave(u, c) !in t.outstanding
  }

  /** What holds of one user in one channel as long as these are never outstanding together. */
  ghost predicate OrderlyAt(t: Table, c: ChannelId, u: UserId) {
    var joins, leaves, open := t.outstanding[Join(u, c)], t.outstanding[Leave(u, c)], OpenRows(t.rows, c, u);
    if leaves > 0 then joins == 0 && (c, u) !in t.members
    else open + joins == if (c, u) in t.members then 1 else 0
  }

  ghost predicate Orderly(t: Table) {
    forall c, u :: OrderlyAt(t, c, u)
  }

  lemma {:induction false} OpenAfterAll(rows: seq<HistoryRow>, calls: seq<HistoryEvent>, c: ChannelId, u: UserId)
    ensures Leave(u, c) !in calls ==>
      OpenRows(WriteAll(rows, calls), c, u) == OpenRows(rows, c, u) + multiset(calls)[Join(u, c)]
    ensures Leave(u, c) in calls && Join(u, c) !in calls ==> OpenRows(WriteAll(rows, calls), c, u) == 0
  {
    if calls != [] {
      var before, e := calls[..|calls| - 1], calls[|calls| - 1];
      assert calls == before + [e];
      OpenAfterAll(rows, before, c, u);
      OpenAfter(WriteAll(rows, before), e, c, u);
    }
  }

  lemma OrderlyFinishes(t: Table)
    requires Orderly(t)
    ensures EveryFinishAgrees(t)
  {
    forall calls: seq<HistoryEvent> | multiset(calls) == t.outstanding ensures Agrees(t.members, WriteAll(t.rows, calls)) {
      forall c, u ensures OpenRows(WriteAll(t.rows, calls), c, u) == if (c, u) in t.members then 1 else 0 {
        assert OrderlyAt(t, c, u);
        OpenAfterAll(t.rows, calls, c, u);
        assert Leave(u, c) in calls <==> Leave(u, c) in multiset(calls);
        assert Join(u, c) in calls <==> Join(u, c) in multiset(calls);
      }
    }
  }

  lemma {:induction false} SomeOrder(calls: multiset<HistoryEvent>) returns (order: seq<HistoryEvent>)
    ensures multiset(order) == calls
    decreases |calls|
  {
    if calls == multiset{} {
      order := [];
    } else {
      var e :| e in calls;
      var rest := SomeOrder(calls - multiset{e});
      order := rest + [e];
    }
  }

  lemma FinishWith(t: Table, e: HistoryEvent) returns (calls: seq<HistoryEvent>)
    requires e in t.outstanding
    ensures multiset(calls) == t.outstanding
    ensures var open := OpenRows(WriteAll(t.rows, calls), e.channel, e.user); if e.Join? then open > 0 else open == 0
  {
    var rest := SomeOrder(t.outstanding - multiset{e});
    calls := rest + [e];
    assert calls[..|calls| - 1] == rest;
    OpenAfter(WriteAll(t.rows, rest), e, e.channel, e.user);
  }

  /** With both outstanding, the one that is made last decides, and the membership is decided already. */
  lemma TogetherDisagrees(t: Table, c: ChannelId, u: UserId)
    requires Join(u, c) in t.outstanding && Leave(u, c) in t.outstanding
    ensures !EveryFinishAgrees(t)
  {
    var joinLast := FinishWith(t, Join(u, c));
    var leaveLast := FinishWith(t, Leave(u, c));
    assert !Agrees(t.members, WriteAll(t.rows, if (c, u) in t.members then leaveLast else joinLast));
  }

  lemma StepOrderly(t: Table, x: Step)
    requires Orderly(t) && Possible(t, x) && NoneTogether(Next(t, x))
    ensures Orderly(Next(t, x))
  {
    var d := Next(t, x);
    forall c, u ensures OrderlyAt(d, c, u) {
      assert OrderlyAt(t, c, u);
      if x.LogCall? {
        OpenAfter(t.rows, x.call, c, u);
      }
      assert Join(u, c) !in d.outstanding || Leave(u, c) !in d.outstanding;
    }
  }

  lemma {:induction false} AgreesIffNeverTogetherFrom(t: Table, xs: seq<Step>)
    requires Orderly(t)
    ensures (forall s | s in Visited(t, xs) :: EveryFinishAgrees(s)) <==> (forall s | s in Visited(t, xs) :: NoneTogether(s))
    decreases |xs|
  {
    OrderlyFinishes(t);
    forall c, u ensures Join(u, c) !in t.outstanding || Leave(u, c) !in t.outstanding {
      assert OrderlyAt(t, c, u);
    }
    if xs != [] && Possible(t, xs[0]) {
      var d, rest := Next(t, xs[0]), Visited(Next(t, xs[0]), xs[1..]);
      assert Visited(t, xs) == [t] + rest;
      assert d == rest[0] && d in rest;
      if NoneTogether(d) {
        StepOrderly(t, xs[0]);
        AgreesIffNeverTogetherFrom(d, xs[1..]);
      } else {
        var c, u :| Join(u, c) in d.outstanding && Leave(u, c) in d.outstanding;
        TogetherDisagrees(d, c, u);
      }
    }
  }

  /** Over every run of saves, deletes and log calls in any interleaving: at each point every way of making the
      outstanding log calls leaves a member with exactly one open row and anyone else with none, if and only if no
      user ever has a join and a leave of one channel outstanding together. */
  lemma AgreesIffNeverTogether(t: Table, xs: seq<Step>)
    requires Settled(t)
    ensures (forall s | s in Visited(t, xs) :: EveryFinishAgrees(s)) <==> (forall s | s in Visited(t, xs) :: NoneTogether(s))
  {
    forall c, u ensures OrderlyAt(t, c, u) {
      assert OpenRows(t.rows, c, u) == if (c, u) in t.members then 1 else 0;
    }
    AgreesIffNeverTogetherFrom(t, xs);
  }

  // ---------------------------------------------------------------------------------------------------------
  // The two inputs that fail

  lemma VisitedStep(t: Table, x: Step, xs: seq<Step>)
    requires Possible(t, x)
    ensures Visited(t, [x] + xs) == [t] + Visited(Next(t, x), xs)
  {
    assert ([x] + xs)[1..] == xs;
  }

  lemma VisitedFour(t: Table, x1: Step, x2: Step, x3: Step, x4: Step) returns (end: Table)
    requires Possible(t, x1) && Possible(Next(t, x1), x2) && Possible(Next(Next(t, x1), x2), x3)
    requires Possible(Next(Next(Next(t, x1), x2), x3), x4)
    ensures end == Next(Next(Next(Next(t, x1), x2), x3), x4)
    ensures |Visited(t, [x1, x2, x3, x4])| == 5 && Visited(t, [x1, x2, x3, x4])[4] == end
  {
    var t1 := Next(t, x1);
    var t2 := Next(t1, x2);
    var t3 := Next(t2, x3);
    end := Next(t3, x4);
    VisitedStep(t3, x4, []);
    VisitedStep(t2, x3, [x4]);
    VisitedStep(t1, x2, [x3] + [x4]);
    VisitedStep(t, x1, [x2] + ([x3] + [x4]));
    assert [x1] + ([x2] + ([x3] + [x4])) == [x1, x2, x3, x4];
  }

  /** A removal that runs between the two writes of an add: its leave finds no open row, then the join opens one, and
      the user is no member. */
  lemma RemovalInsideAdd(t: Table, c: ChannelId, u: UserId)
    requires Settled(t) && (c, u) !in t.members
    ensures var states := Visited(t, [Save(c, u), Delete(c, u), LogCall(Leave(u, c)), LogCall(Join(u, c))]);
      && |states| == 5 && states[4].outstanding == multiset{}
      && (c, u) !in states[4].members && OpenRows(states[4].rows, c, u) == 1
  {
    var end := VisitedFour(t, Save(c, u), Delete(c, u), LogCall(Leave(u, c)), LogCall(Join(u, c)));
    OpenAfter(t.rows, Leave(u, c), c, u);
    OpenAfter(RowsAfter(t.rows, Leave(u, c)), Join(u, c), c, u);
  }

  /** An add that runs between the two writes of a removal: the leave closes the row of the new membership too. */
  lemma AddInsideRemoval(t: Table, c: ChannelId, u: UserId)
    requires Settled(t) && (c, u) in t.members
    ensures var states := Visited(t, [Delete(c, u), Save(c, u), LogCall(Join(u, c)), LogCall(Leave(u, c))]);
      && |states| == 5 && states[4].outstanding == multiset{}
      && (c, u) in states[4].members && OpenRows(states[4].rows, c, u) == 0
  {
    var end := VisitedFour(t, Delete(c, u), Save(c, u), LogCall(Join(u, c)), LogCall(Leave(u, c)));
    OpenAfter(RowsAfter(t.rows, Join(u, c)), Leave(u, c), c, u);
  }
}
