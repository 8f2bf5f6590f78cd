/**
 Channel membership and its history (app/channel.go): adding, removing and leaving, and creating a group channel.

 `Apply` says what one operation does to the membership table and the history; the class is the code. The lemmas
 are about all runs of operations. Store calls may fail; which ones do is part of each operation.
 */
module ChannelMembership {
  import opened Collections
  import opened Wrappers

  type UserId = string

  type ChannelId = string

  datatype ChannelType = Open | Private | Direct | Group

  datatype Channel = Channel(kind: ChannelType, name: string, groupConstrained: bool)

  const DEFAULT_CHANNEL := "town-square"
  const CHANNEL_GROUP_MIN_USERS := 3
  const CHANNEL_GROUP_MAX_USERS := 8

  /** A call to the history store that succeeded. */
  datatype HistoryEvent = Join(user: UserId, channel: ChannelId) | Leave(user: UserId, channel: ChannelId)

  /** A row of the history; it is open as long as it has no leave time. */
  datatype HistoryRow = HistoryRow(channel: ChannelId, user: UserId, open: bool)

  /** What does not change while the operations run: the members of each channel's groups, the accounts in the order of
      their names, and which of them are active. */
  datatype World = World(groups: map<ChannelId, set<UserId>>, accounts: seq<UserId>, active: set<UserId>)

  /** `history` lists the calls; `Rows` is the table they leave. */
  datatype State = State(channels: map<ChannelId, Channel>, members: set<(ChannelId, UserId)>, history: seq<HistoryEvent>)

  /** Which store calls of one operation fail. */
  datatype Faults = Faults(
    lookup: bool, groups: bool, save: bool, remove: bool, historyWrite: bool, channel: bool, user: bool, count: bool)

  const NO_FAULTS := Faults(false, false, false, false, false, false, false, false)

  datatype Error =
    | WrongType | LookupFailed | UserDenied | SaveFailed | DefaultChannel | RemovalDenied | NotAMember
    | RemoveFailed | HistoryFailed | ChannelMissing | CountFailed | DirectChannel | LastMember | BadSize | BadUser | Exists

  datatype Op =
    | Add(channel: ChannelId, user: UserId, faults: Faults)
    | Remove(channel: ChannelId, user: UserId, remover: UserId, faults: Faults)
    | Leaving(channel: ChannelId, user: UserId, count: nat, faults: Faults)
    | CreateGroup(channel: ChannelId, users: seq<UserId>, cached: set<UserId>, saved: nat, faults: Faults)

  function MembersOf(s: State, c: ChannelId): set<UserId> {
    set m | m in s.members && m.0 == c :: m.1
  }

  predicate InGroups(w: World, c: ChannelId, u: UserId) {
    c in w.groups && u in w.groups[c]
  }

  // ---------------------------------------------------------------------------------------------------------
  // One operation

  function Log(s: State, e: HistoryEvent, fails: bool): State {
    if fails then s else s.(history := s.history + [e])
  }

  function ApplyAdd(w: World, s: State, c: ChannelId, u: UserId, f: Faults): (State, Option<Error>)
    requires c in s.channels
  {
    var channel := s.channels[c];
    if channel.kind != Open && channel.kind != Private then (s, Some(WrongType))
    else if f.lookup then (s, Some(LookupFailed))
    else if (c, u) in s.members then (s, None)
    else if channel.groupConstrained && f.groups then (s, Some(LookupFailed))
    else if channel.groupConstrained && !InGroups(w, c, u) then (s, Some(UserDenied))
    else if f.save then (s, Some(SaveFailed))
    else (Log(s.(members := s.members + {(c, u)}), Join(u, c), f.historyWrite), None)
  }

  function ApplyRemove(w: World, s: State, c: ChannelId, u: UserId, remover: UserId, f: Faults): (State, Option<Error>)
    requires c in s.channels
  {
    var channel := s.channels[c];
    if channel.name == DEFAULT_CHANNEL then (s, Some(DefaultChannel))
    else if channel.groupConstrained && u != remover && f.groups then (s, Some(LookupFailed))
    else if channel.groupConstrained && u != remover && InGroups(w, c, u) then (s, Some(RemovalDenied))
    else if f.lookup || (c, u) !in s.members then (s, Some(NotAMember))
    else if f.remove then (s, Some(RemoveFailed))
    else
      (Log(s.(members := s.members - {(c, u)}), Leave(u, c), f.historyWrite),
       if f.historyWrite then Some(HistoryFailed) else None)
  }

  /** Members whose account is deactivated are not counted. */
  function MemberCount(w: World, s: State, c: ChannelId): nat {
    |MembersOf(s, c) * w.active|
  }

  /** `count` is the member count that was read, from a replica and before the removal. A failed user lookup is
      reported as a success. */
  function ApplyLeave(w: World, s: State, c: ChannelId, u: UserId, count: nat, f: Faults): (State, Option<Error>) {
    if f.channel || c !in s.channels then (s, Some(ChannelMissing))
    else if f.user || u !in w.accounts then (s, None)
    else if f.count then (s, Some(CountFailed))
    else if s.channels[c].kind == Direct || s.channels[c].kind == Group then (s, Some(DirectChannel))
    else if s.channels[c].kind == Private && count == 1 then (s, Some(LastMember))
    else ApplyRemove(w, s, c, u, u, f)
  }

  /** The first `n` users become members. */
  function ApplySaves(s: State, c: ChannelId, users: seq<UserId>, n: nat, historyFails: bool): State
    requires n <= |users|
  {
    if n == 0 then s
    else
      var before := ApplySaves(s, c, users, n - 1, historyFails);
      Log(before.(members := before.members + {(c, users[n - 1])}), Join(users[n - 1], c), historyFails)
  }

  function Selected(from: seq<UserId>, ids: set<UserId>): seq<UserId> {
    if from == [] then []
    else Selected(from[..|from| - 1], ids) + if from[|from| - 1] in ids then [from[|from| - 1]] else []
  }

  /** The looked up profiles: of each requested id that is cached, as often as it is requested; then of the other ids,
      once, if there is such an account (store/sqlstore/user_store.go:859-919). */
  function Profiles(w: World, ids: seq<UserId>, cached: set<UserId>): seq<UserId> {
    Selected(ids, cached) + Selected(w.accounts, Elements(ids) - cached)
  }

  /** How many memberships are saved: up to `saved`, and none that is there already. */
  function SavedOf(users: seq<UserId>, taken: set<UserId>, saved: nat): (n: nat)
    ensures n <= |users| && n <= saved && Distinct(users[..n]) && forall u | u in users[..n] :: u !in taken
    ensures n < |users| && n < saved ==> users[n] in users[..n] || users[n] in taken
  {
    if users == [] then 0
    else
      var front := users[..|users| - 1];
      var n := SavedOf(front, taken, saved);
      assert front[..n] == users[..n];
      if n < |front| || n == saved || users[n] in front || users[n] in taken then n
      else
        assert users[..n + 1] == front + [users[n]];
        n + 1
  }

  /** `saved` is how many members are saved before a save fails, if it is less than all. */
  function ApplyCreateGroup(w: World, s: State, c: ChannelId, ids: seq<UserId>, cached: set<UserId>, saved: nat, f: Faults):
    (State, Option<Error>)
  {
    if |ids| > CHANNEL_GROUP_MAX_USERS || |ids| < CHANNEL_GROUP_MIN_USERS then (s, Some(BadSize))
    else if f.user then (s, Some(LookupFailed))
    else
      var users := Profiles(w, ids, cached);
      if |users| != |ids| then (s, Some(BadUser))
      else if f.channel then (s, Some(SaveFailed))
      else if c in s.channels then (s, Some(Exists))
      else
        var n := SavedOf(users, MembersOf(s, c), saved);
        (ApplySaves(GroupCreated(s, c), c, users, n, f.historyWrite), if n < |users| then Some(SaveFailed) else None)
  }

  function GroupCreated(s: State, c: ChannelId): State {
    s.(channels := s.channels[c := Channel(Group, "", false)])
  }

  function Apply(w: World, s: State, op: Op): (State, Option<Error>) {
    match op
    case Add(c, u, f) => if c in s.channels then ApplyAdd(w, s, c, u, f) else (s, Some(ChannelMissing))
    case Remove(c, u, r, f) => if c in s.channels then ApplyRemove(w, s, c, u, r, f) else (s, Some(ChannelMissing))
    case Leaving(c, u, n, f) => ApplyLeave(w, s, c, u, n, f)
    case CreateGroup(c, ids, cached, n, f) => ApplyCreateGroup(w, s, c, ids, cached, n, f)
  }

  function Run(w: World, s: State, ops: seq<Op>): State
    decreases |ops|
  {
    if ops == [] then s else Run(w, Apply(w, s, ops[0]).0, ops[1..])
  }

  // ---------------------------------------------------------------------------------------------------------
  // Joins and leaves alternate

  /** The last event of one user in one channel. */
  function Last(h: seq<HistoryEvent>, c: ChannelId, u: UserId): Option<HistoryEvent> {
    if h == [] then None
    else if h[|h| - 1].channel == c && h[|h| - 1].user == u then Some(h[|h| - 1])
    else Last(h[..|h| - 1], c, u)
  }

  /** Each join or leave of a user in a channel follows an event of the other kind, and the first one is a join. */
  predicate Alternates(h: seq<HistoryEvent>) {
    h == [] || (
      var e, before := h[|h| - 1], h[..|h| - 1];
      var last := Last(before, e.channel, e.user);
      Alternates(before) && (if e.Join? then last.None? || last.value.Leave? else last.Some? && last.value.Join?))
  }

  /** A user is a member exactly if the user's last event in the channel is a join. */
  ghost predicate Recorded(s: State) {
    && Alternates(s.history)
    && (forall c, u :: (c, u) in s.members <==> Last(s.history, c, u) == Some(Join(u, c)))
    && (forall c, u | (c, u) in s.members :: c in s.channels)
  }

  predicate WritesHistory(op: Op) {
    !op.faults.historyWrite
  }

  lemma LastOfLonger(h: seq<HistoryEvent>, e: HistoryEvent, c: ChannelId, u: UserId)
    ensures Last(h + [e], c, u) == if e.channel == c && e.user == u then Some(e) else Last(h, c, u)
  {
    assert (h + [e])[..|h|] == h;
  }

  lemma {:induction false} LastIsOf(h: seq<HistoryEvent>, c: ChannelId, u: UserId)
    ensures Last(h, c, u).Some? ==> Last(h, c, u).value == Join(u, c) || Last(h, c, u).value == Leave(u, c)
  {
    if h != [] {
      LastIsOf(h[..|h| - 1], c, u);
    }
  }

  lemma JoinRecorded(s: State, c: ChannelId, u: UserId)
    requires Recorded(s) && (c, u) !in s.members && c in s.channels
    ensures Recorded(Log(s.(members := s.members + {(c, u)}), Join(u, c), false))
  {
    var t := Log(s.(members := s.members + {(c, u)}), Join(u, c), false);
    assert t.history[..|s.history|] == s.history;
    LastIsOf(s.history, c, u);
    forall d, v ensures (d, v) in t.members <==> Last(t.history, d, v) == Some(Join(v, d)) {
      LastOfLonger(s.history, Join(u, c), d, v);
      assert (d, v) in s.members <==> Last(s.history, d, v) == Some(Join(v, d));
    }
  }

  lemma LeaveRecorded(s: State, c: ChannelId, u: UserId)
    requires Recorded(s) && (c, u) in s.members
    ensures Recorded(Log(s.(members := s.members - {(c, u)}), Leave(u, c), false))
  {
    var t := Log(s.(members := s.members - {(c, u)}), Leave(u, c), false);
    assert t.history[..|s.history|] == s.history;
    forall d, v ensures (d, v) in t.members <==> Last(t.history, d, v) == Some(Join(v, d)) {
      LastOfLonger(s.history, Leave(u, c), d, v);
      assert (d, v) in s.members <==> Last(s.history, d, v) == Some(Join(v, d));
    }
  }

  lemma {:induction false} SavesRecorded(s: State, c: ChannelId, users: seq<UserId>, n: nat)
    requires Recorded(s) && c in s.channels && n <= |users| && Distinct(users[..n])
    requires forall u :: (c, u) !in s.members
    ensures var t := ApplySaves(s, c, users, n, false);
      Recorded(t) && t.channels == s.channels && forall u | (c, u) in t.members :: u in users[..n]
  {
    hide Recorded;
    if n > 0 {
      assert users[..n][..n - 1] == users[..n - 1];
      SavesRecorded(s, c, users, n - 1);
      var before := ApplySaves(s, c, users, n - 1, false);
      var u := users[n - 1];
      assert users[..n] == users[..n - 1] + [u];
      assert u !in users[..n - 1] by {
        assert forall i | 0 <= i < n - 1 :: users[..n][i] != users[..n][n - 1];
      }
      JoinRecorded(before, c, u);
    }
  }

  lemma StepRecorded(w: World, s: State, op: Op)
    requires Recorded(s) && WritesHistory(op)
    ensures Recorded(Apply(w, s, op).0)
  {
    if op.CreateGroup? {
      CreateRecorded(w, s, op);
    } else if op.Add? {
      if Apply(w, s, op).0 != s {
        JoinRecorded(s, op.channel, op.user);
      }
    } else if Apply(w, s, op).0 != s {
      LeaveRecorded(s, op.channel, op.user);
    }
  }

  lemma CreateRecorded(w: World, s: State, op: Op)
    requires Recorded(s) && WritesHistory(op) && op.CreateGroup?
    ensures Recorded(Apply(w, s, op).0)
  {
    var c := op.channel;
    if Apply(w, s, op).0 != s {
      var users := Profiles(w, op.users, op.cached);
      assert Recorded(GroupCreated(s, c));
      SavesRecorded(GroupCreated(s, c), c, users, SavedOf(users, MembersOf(s, op.channel), op.saved));
    }
  }

  lemma {:induction false} RunRecorded(w: World, s: State, ops: seq<Op>)
    requires Recorded(s) && forall op | op in ops :: WritesHistory(op)
    ensures Recorded(Run(w, s, ops))
    decreases |ops|
  {
    if ops != [] {
      StepRecorded(w, s, ops[0]);
      RunRecorded(w, Apply(w, s, ops[0]).0, ops[1..]);
    }
  }

  /** Over every run whose history writes succeed, whatever else fails: joins and leaves alternate per user and
      channel, and a user is a member exactly if the last event is a join. */
  lemma JoinsAndLeavesAlternate(w: World, channels: map<ChannelId, Channel>, ops: seq<Op>, c: ChannelId, u: UserId)
    requires forall op | op in ops :: WritesHistory(op)
    ensures var s := Run(w, State(channels, {}, []), ops);
      && Alternates(s.history)
      && ((c, u) in s.members <==> Last(s.history, c, u) == Some(Join(u, c)))
  {
    RunRecorded(w, State(channels, {}, []), ops);
  }

  // ---------------------------------------------------------------------------------------------------------
  // The rows of the history (store/sqlstore/channel_member_history_store.go:36-66)

  /** A leave time is set in every open row of the user in the channel; there need not be one. */
  function Closed(rows: seq<HistoryRow>, c: ChannelId, u: UserId): seq<HistoryRow> {
    if rows == [] then []
    else
      var row := rows[|rows| - 1];
      Closed(rows[..|rows| - 1], c, u) + [if row.channel == c && row.user == u then row.(open := false) else row]
  }

  function RowsAfter(rows: seq<HistoryRow>, e: HistoryEvent): seq<HistoryRow> {
    match e
    case Join(u, c) => rows + [HistoryRow(c, u, true)]
    case Leave(u, c) => Closed(rows, c, u)
  }

  function Rows(h: seq<HistoryEvent>): seq<HistoryRow> {
    if h == [] then [] else RowsAfter(Rows(h[..|h| - 1]), h[|h| - 1])
  }

  function OpenRows(rows: seq<HistoryRow>, c: ChannelId, u: UserId): nat {
    if rows == [] then 0
    else OpenRows(rows[..|rows| - 1], c, u) + if rows[|rows| - 1] == HistoryRow(c, u, true) then 1 else 0
  }

  lemma {:induction false} OpenAfterClosing(rows: seq<HistoryRow>, c: ChannelId, u: UserId, d: ChannelId, v: UserId)
    ensures OpenRows(Closed(rows, c, u), d, v) == if d == c && v == u then 0 else OpenRows(rows, d, v)
  {
    if rows != [] {
      var after := Closed(rows, c, u);
      OpenAfterClosing(rows[..|rows| - 1], c, u, d, v);
      assert after[..|after| - 1] == Closed(rows[..|rows| - 1], c, u);
    }
  }

  /** A join opens one row, whatever is open; a leave closes all. Other users and channels are not affected. */
  lemma OpenAfter(rows: seq<HistoryRow>, e: HistoryEvent, d: ChannelId, v: UserId)
    ensures OpenRows(RowsAfter(rows, e), d, v) ==
      if e.channel != d || e.user != v then OpenRows(rows, d, v) else if e.Join? then OpenRows(rows, d, v) + 1 else 0
  {
    match e
    case Join(u, c) =>
      var after := rows + [HistoryRow(c, u, true)];
      assert after[..|after| - 1] == rows;
    case Leave(u, c) => OpenAfterClosing(rows, c, u, d, v);
  }

  /** Every join finds no open row of the user in the channel, every leave exactly one. */
  predicate RowsFit(h: seq<HistoryEvent>) {
    h == [] || (
      var e, before := h[|h| - 1], h[..|h| - 1];
      RowsFit(before) && OpenRows(Rows(before), e.channel, e.user) == if e.Join? then 0 else 1)
  }

  lemma {:induction false} OpenIfLastIsJoin(h: seq<HistoryEvent>, c: ChannelId, u: UserId)
    requires Alternates(h)
    ensures OpenRows(Rows(h), c, u) == if Last(h, c, u) == Some(Join(u, c)) then 1 else 0
  {
    if h != [] {
      OpenIfLastIsJoin(h[..|h| - 1], c, u);
      LastIsOf(h[..|h| - 1], c, u);
      OpenAfter(Rows(h[..|h| - 1]), h[|h| - 1], c, u);
    }
  }

  /** What alternation means for the table: no leave is dropped and no user has two open rows in a channel. */
  lemma {:induction false} AlternatesIffRowsFit(h: seq<HistoryEvent>)
    ensures Alternates(h) <==> RowsFit(h)
  {
    if h != [] {
      var e, before := h[|h| - 1], h[..|h| - 1];
      AlternatesIffRowsFit(before);
      if Alternates(before) {
        OpenIfLastIsJoin(before, e.channel, e.user);
        LastIsOf(before, e.channel, e.user);
      }
    }
  }

  /** Over every run whose history writes succeed: a member has exactly one open row, anyone else has none. */
  lemma MembersHaveOneOpenRow(w: World, channels: map<ChannelId, Channel>, ops: seq<Op>, c: ChannelId, u: UserId)
    requires forall op | op in ops :: WritesHistory(op)
    ensures var s := Run(w, State(channels, {}, []), ops);
      OpenRows(Rows(s.history), c, u) == if (c, u) in s.members then 1 else 0
  {
    JoinsAndLeavesAlternate(w, channels, ops, c, u);
    OpenIfLastIsJoin(Run(w, State(channels, {}, []), ops).history, c, u);
  }

  // ---------------------------------------------------------------------------------------------------------
  // Who can be where

  /** All members of a group-constrained channel are in its groups. */
  ghost predicate Inside(w: World, s: State, c: ChannelId) {
    && c in s.channels && s.channels[c].groupConstrained
    && forall u | (c, u) in s.members :: InGroups(w, c, u)
  }

  lemma {:induction false} SavesElsewhere(s: State, c: ChannelId, users: seq<UserId>, n: nat, historyFails: bool)
    requires n <= |users|
    ensures var t := ApplySaves(s, c, users, n, historyFails);
      t.channels == s.channels && s.members <= t.members && forall m | m in t.members && m.0 != c :: m in s.members
  {
    if n > 0 {
      SavesElsewhere(s, c, users, n - 1, historyFails);
    }
  }

  lemma CreateElsewhere(w: World, s: State, op: Op)
    requires op.CreateGroup?
    ensures var t := Apply(w, s, op).0;
      && s.members <= t.members && (forall m | m in t.members && m.0 != op.channel :: m in s.members)
      && (t == s || (op.channel !in s.channels && t.channels == GroupCreated(s, op.channel).channels))
      && (op.channel in s.channels ==> t == s)
  {
    var users := Profiles(w, op.users, op.cached);
    var n := SavedOf(users, MembersOf(s, op.channel), op.saved);
    SavesElsewhere(GroupCreated(s, op.channel), op.channel, users, n, op.faults.historyWrite);
  }

  lemma StepInside(w: World, s: State, op: Op, c: ChannelId)
    requires Inside(w, s, c)
    ensures Inside(w, Apply(w, s, op).0, c)
  {
    if op.CreateGroup? {
      CreateElsewhere(w, s, op);
    }
  }

  /** A group-constrained channel that starts inside its groups stays inside them, over every run, whatever fails. */
  lemma {:induction false} ConstrainedChannelStaysInside(w: World, s: State, ops: seq<Op>, c: ChannelId)
    requires Inside(w, s, c)
    ensures Inside(w, Run(w, s, ops), c)
    decreases |ops|
  {
    if ops != [] {
      StepInside(w, s, ops[0], c);
      ConstrainedChannelStaysInside(w, Apply(w, s, ops[0]).0, ops[1..], c);
    }
  }

  lemma StepKeepsMember(w: World, s: State, op: Op, c: ChannelId, u: UserId)
    requires (c, u) in s.members && (c, u) !in Apply(w, s, op).0.members
    ensures (op.Leaving? || op.Remove?) && op.channel == c && op.user == u
    ensures c in s.channels && s.channels[c].name != DEFAULT_CHANNEL
  {
    if op.CreateGroup? {
      CreateElsewhere(w, s, op);
    }
  }

  /** It shrinks only when a member removes itself. */
  lemma ConstrainedChannelShrinksOnlyBySelf(w: World, s: State, op: Op, c: ChannelId, u: UserId)
    requires Inside(w, s, c) && (c, u) in s.members && (c, u) !in Apply(w, s, op).0.members
    ensures (op.Leaving? || op == Remove(c, u, u, op.faults)) && op.channel == c && op.user == u
  {
    StepKeepsMember(w, s, op, c, u);
    assert InGroups(w, c, u);
  }

  /** The default channel never loses a member, over every run. */
  lemma {:induction false} DefaultChannelNeverShrinks(w: World, s: State, ops: seq<Op>, c: ChannelId, u: UserId)
    requires c in s.channels && s.channels[c].name == DEFAULT_CHANNEL && (c, u) in s.members
    ensures (c, u) in Run(w, s, ops).members
    decreases |ops|
  {
    if ops != [] {
      var t := Apply(w, s, ops[0]).0;
      if (c, u) !in t.members {
        StepKeepsMember(w, s, ops[0], c, u);
      }
      ChannelKept(w, s, ops[0], c);
      DefaultChannelNeverShrinks(w, t, ops[1..], c, u);
    }
  }

  lemma ChannelKept(w: World, s: State, op: Op, c: ChannelId)
    requires c in s.channels
    ensures var t := Apply(w, s, op).0; c in t.channels && t.channels[c] == s.channels[c]
  {
    if op.CreateGroup? {
      CreateElsewhere(w, s, op);
    }
  }

  /** Leaving empties a private channel in exactly one case: the only member leaves, and the count read was not 1. */
  lemma LeavingNeverEmptiesIff(w: World, s: State, c: ChannelId, u: UserId, count: nat)
    requires c in s.channels && s.channels[c].kind == Private && MembersOf(s, c) != {}
    ensures (forall f :: MembersOf(ApplyLeave(w, s, c, u, count, f).0, c) != {}) <==>
      !(MembersOf(s, c) == {u} && count != 1 && u in w.accounts && s.channels[c].name != DEFAULT_CHANNEL)
  {
    if MembersOf(s, c) == {u} && count != 1 && u in w.accounts && s.channels[c].name != DEFAULT_CHANNEL {
      var t := ApplyLeave(w, s, c, u, count, NO_FAULTS).0;
      assert u in MembersOf(s, c);
      assert t.members == s.members - {(c, u)};
      forall v ensures v !in MembersOf(t, c) {
        assert (c, v) in s.members ==> v in MembersOf(s, c);
      }
    } else {
      forall f ensures MembersOf(ApplyLeave(w, s, c, u, count, f).0, c) != {} {
        LeavingKeepsSomeone(w, s, c, u, count, f);
      }
    }
  }

  lemma LeavingKeepsSomeone(w: World, s: State, c: ChannelId, u: UserId, count: nat, f: Faults)
    requires c in s.channels && s.channels[c].kind == Private && MembersOf(s, c) != {}
    requires !(MembersOf(s, c) == {u} && count != 1 && u in w.accounts && s.channels[c].name != DEFAULT_CHANNEL)
    ensures MembersOf(ApplyLeave(w, s, c, u, count, f).0, c) != {}
  {
    var t := ApplyLeave(w, s, c, u, count, f).0;
    if MembersOf(s, c) == {u} {
      assert t == s;
    } else {
      var v :| v in MembersOf(s, c) && v != u;
      assert (c, v) in t.members;
      assert v in MembersOf(t, c);
    }
  }

  /** Even if the count is the present one: then the only member has a deactivated account, which is not counted. */
  lemma PresentCountEmptiesIff(w: World, s: State, c: ChannelId, u: UserId)
    requires c in s.channels && s.channels[c].kind == Private && MembersOf(s, c) != {}
    ensures (forall f :: MembersOf(ApplyLeave(w, s, c, u, MemberCount(w, s, c), f).0, c) != {}) <==>
      !(MembersOf(s, c) == {u} && u !in w.active && u in w.accounts && s.channels[c].name != DEFAULT_CHANNEL)
  {
    LeavingNeverEmptiesIff(w, s, c, u, MemberCount(w, s, c));
    if MembersOf(s, c) == {u} {
      assert {u} * w.active == if u in w.active then {u} else {};
    }
  }

  /** When leaving reports no error, the user is still a member exactly if it was one and its lookup failed. */
  lemma LeavingReportsSuccess(w: World, s: State, c: ChannelId, u: UserId, count: nat, f: Faults)
    requires ApplyLeave(w, s, c, u, count, f).1.None?
    ensures (c, u) in ApplyLeave(w, s, c, u, count, f).0.members <==> (c, u) in s.members && (f.user || u !in w.accounts)
  {}

  // ---------------------------------------------------------------------------------------------------------
  // Group channels

  lemma {:induction false} SelectedFrom(from: seq<UserId>, ids: set<UserId>)
    ensures forall u | u in Selected(from, ids) :: u in ids && u in from
  {
    if from != [] {
      SelectedFrom(from[..|from| - 1], ids);
    }
  }

  lemma {:induction false} SavesMembers(s: State, c: ChannelId, users: seq<UserId>, n: nat, historyFails: bool)
    requires n <= |users|
    ensures MembersOf(ApplySaves(s, c, users, n, historyFails), c) == MembersOf(s, c) + Elements(users[..n])
  {
    if n > 0 {
      SavesMembers(s, c, users, n - 1, historyFails);
      assert users[..n] == users[..n - 1] + [users[n - 1]];
      var before := ApplySaves(s, c, users, n - 1, historyFails);
      var after := ApplySaves(s, c, users, n, historyFails);
      forall u ensures u in MembersOf(after, c) <==> u in MembersOf(before, c) || u == users[n - 1] {
        assert u in MembersOf(after, c) <==> (c, u) in after.members;
        assert u in MembersOf(before, c) <==> (c, u) in before.members;
      }
    } else {
      assert Elements(users[..0]) == {};
    }
  }

  /** Creating a group channel succeeds only for distinct ids, and then its members are exactly these, 3 to 8 of them.
      With an id given twice it can fail after the channel and some memberships have been saved. */
  lemma GroupHasExactlyTheRequested(w: World, s: State, c: ChannelId, ids: seq<UserId>, cached: set<UserId>, saved: nat,
                                    f: Faults)
    requires ApplyCreateGroup(w, s, c, ids, cached, saved, f).1.None? && MembersOf(s, c) == {}
    ensures Distinct(ids) && CHANNEL_GROUP_MIN_USERS <= |ids| <= CHANNEL_GROUP_MAX_USERS
    ensures MembersOf(ApplyCreateGroup(w, s, c, ids, cached, saved, f).0, c) == Elements(ids)
  {
    var users, created := Profiles(w, ids, cached), GroupCreated(s, c);
    assert users[..|users|] == users;
    hide Selected, Rows;
    SelectedFrom(ids, cached);
    SelectedFrom(w.accounts, Elements(ids) - cached);
    ElementsCount(ids);
    DistinctCount(users, Elements(ids));
    DistinctCovers(users, Elements(ids));
    assert MembersOf(created, c) == MembersOf(s, c);
    SavesMembers(created, c, users, |users|, f.historyWrite);
    assert Elements(users) == Elements(ids);
  }

  lemma {:induction false} SelectedAll(from: seq<UserId>, ids: set<UserId>)
    requires Distinct(from)
    ensures Distinct(Selected(from, ids)) && Elements(Selected(from, ids)) == Elements(from) * ids
  {
    if from != [] {
      var front, last := from[..|from| - 1], from[|from| - 1];
      SelectedAll(front, ids);
      SelectedFrom(front, ids);
      assert from == front + [last];
      assert last !in front;
      assert Elements(from) == Elements(front) + {last};
      var before := Selected(front, ids);
      if last in ids {
        assert Selected(from, ids) == before + [last];
        assert last !in before;
        assert Elements(before + [last]) == Elements(before) + {last};
      } else {
        assert Selected(from, ids) == before;
      }
    }
  }

  /** Each distinct id of an account gives one profile, cached or not. */
  lemma OneProfileEach(w: World, ids: seq<UserId>, cached: set<UserId>)
    requires Distinct(ids) && Distinct(w.accounts) && forall u | u in ids :: u in w.accounts
    ensures var users := Profiles(w, ids, cached);
      Distinct(users) && |users| == |ids| && Elements(users) == Elements(ids)
  {
    var a, b := Selected(ids, cached), Selected(w.accounts, Elements(ids) - cached);
    SelectedAll(ids, cached);
    SelectedAll(w.accounts, Elements(ids) - cached);
    assert Profiles(w, ids, cached) == a + b;
    assert Elements(a + b) == Elements(a) + Elements(b);
    assert Elements(a) * Elements(b) == {};
    forall i, j | 0 <= i < |a| && 0 <= j < |b| ensures a[i] != b[j] {
      assert a[i] in Elements(a) && b[j] in Elements(b);
    }
    DistinctElements(a + b);
    DistinctElements(ids);
    assert Elements(a) + Elements(b) == Elements(ids);
  }

  /** What group creation needs, besides calls that work. */
  ghost predicate GroupWanted(w: World, s: State, c: ChannelId, ids: seq<UserId>) {
    && CHANNEL_GROUP_MIN_USERS <= |ids| <= CHANNEL_GROUP_MAX_USERS && Distinct(ids)
    && Distinct(w.accounts) && (forall u | u in ids :: u in w.accounts)
    && c !in s.channels && forall u :: (c, u) !in s.members
  }

  lemma GroupSucceeds(w: World, s: State, c: ChannelId, ids: seq<UserId>, cached: set<UserId>, saved: nat)
    requires GroupWanted(w, s, c, ids) && saved >= |ids|
    ensures var (t, err) := ApplyCreateGroup(w, s, c, ids, cached, saved, NO_FAULTS);
      err.None? && forall u :: (c, u) in t.members <==> u in ids
  {
    var users := Profiles(w, ids, cached);
    OneProfileEach(w, ids, cached);
    assert MembersOf(s, c) == {};
    AllSaved(users, saved);
    GroupHasExactlyTheRequested(w, s, c, ids, cached, saved, NO_FAULTS);
    var t := ApplyCreateGroup(w, s, c, ids, cached, saved, NO_FAULTS).0;
    forall u ensures (c, u) in t.members <==> u in ids {
      assert (c, u) in t.members <==> u in MembersOf(t, c);
      ElementsOf(ids, u);
    }
  }

  lemma {:induction false} AllSaved(users: seq<UserId>, saved: nat)
    requires Distinct(users) && saved >= |users|
    ensures SavedOf(users, {}, saved) == |users|
  {
    if users != [] {
      AllSaved(users[..|users| - 1], saved);
    }
  }

  /** A cached id given three times passes all checks, and its second membership is refused. */
  lemma RepeatedIdLeavesPartOfAGroup(w: World, s: State, c: ChannelId, u: UserId)
    requires c !in s.channels && MembersOf(s, c) == {}
    ensures var (t, err) := ApplyCreateGroup(w, s, c, [u, u, u], {u}, 3, NO_FAULTS);
      err == Some(SaveFailed) && c in t.channels && MembersOf(t, c) == {u}
  {
    var ids := [u, u, u];
    ThriceCached(w, u);
    assert MembersOf(GroupCreated(s, c), c) == MembersOf(s, c);
    SavesMembers(GroupCreated(s, c), c, ids, 1, false);
    assert Elements(ids[..1]) == {u};
    ThirdIsNotSaved(u);
  }

  lemma ThriceCached(w: World, u: UserId)
    ensures Profiles(w, [u, u, u], {u}) == [u, u, u]
  {
    assert [u][..0] == [] && [u, u][..1] == [u] && [u, u, u][..2] == [u, u];
    assert Selected([u], {u}) == [u];
    assert Selected([u, u], {u}) == [u, u];
    SelectedNone(w.accounts);
    assert Elements([u, u, u]) - {u} == {};
  }

  lemma {:induction false} SelectedNone(from: seq<UserId>)
    ensures Selected(from, {}) == []
  {
    if from != [] {
      SelectedNone(from[..|from| - 1]);
    }
  }

  lemma ThirdIsNotSaved(u: UserId)
    ensures SavedOf([u, u, u], {}, 3) == 1
  {
    assert [u][..0] == [] && [u, u][..1] == [u] && [u, u, u][..2] == [u, u];
    assert SavedOf([u], {}, 3) == 1;
    assert SavedOf([u, u], {}, 3) == 1;
  }

  lemma SavedNext(users: seq<UserId>, taken: set<UserId>, saved: nat, i: nat)
    requires i < |users| && i <= SavedOf(users, taken, saved)
    ensures if i == saved || users[i] in users[..i] || users[i] in taken then i == SavedOf(users, taken, saved)
            else i + 1 <= SavedOf(users, taken, saved)
  {
    var n := SavedOf(users, taken, saved);
    if i < n {
      assert users[..n][i] == users[i] && users[i] in users[..n];
      assert forall j | 0 <= j < i :: users[..n][j] != users[..n][i];
    }
  }

  // ---------------------------------------------------------------------------------------------------------
  // The code

  class App {
    const world: World
    var channels: map<ChannelId, Channel>
    var members: set<(ChannelId, UserId)>
    var rows: seq<HistoryRow>
    ghost var history: seq<HistoryEvent>

    constructor (world: World, channels: map<ChannelId, Channel>)
      ensures Valid() && this.world == world && Now() == State(channels, {}, [])
    {
      this.world, this.channels, members, rows, history := world, channels, {}, [], [];
    }

    ghost function Now(): State
      reads this
    {
      State(channels, members, history)
    }

    ghost predicate Valid()
      reads this
    {
      rows == Rows(history)
    }

    method LogJoinEvent(u: UserId, c: ChannelId, fails: bool) returns (ok: bool)
      requires Valid()
      modifies this`rows, this`history
      ensures Valid() && ok == !fails && history == if fails then old(history) else old(history) + [Join(u, c)]
      ensures rows == if fails then old(rows) else old(rows) + [HistoryRow(c, u, true)]
    {
      if !fails {
        rows := rows + [HistoryRow(c, u, true)];
        history := history + [Join(u, c)];
        assert history[..|history| - 1] == old(history);
      }
      ok := !fails;
    }

    /** Closes what is open; that nothing is, is only warned of. */
    method LogLeaveEvent(u: UserId, c: ChannelId, fails: bool) returns (ok: bool)
      requires Valid()
      modifies this`rows, this`history
      ensures Valid() && ok == !fails && history == if fails then old(history) else old(history) + [Leave(u, c)]
      ensures rows == if fails then old(rows) else Closed(old(rows), c, u)
    {
      if !fails {
        rows := Closed(rows, c, u);
        history := history + [Leave(u, c)];
        assert history[..|history| - 1] == old(history);
      }
      ok := !fails;
    }

    /** The users who are not members of the channel's groups; None if the lookup fails. */
    method FilterNonGroupChannelMembers(c: ChannelId, u: UserId, fails: bool) returns (nonMembers: Option<seq<UserId>>)
      ensures nonMembers == if fails then None else Some(if InGroups(world, c, u) then [] else [u])
    {
      if fails {
        return None;
      }
      var groupUsers := if c in world.groups then world.groups[c] else {};
      return Some(if u in groupUsers then [] else [u]);
    }

    /** The channel takes the user in, if it is no member yet and the calls work. */
    ghost predicate MayJoin(c: ChannelId, u: UserId, f: Faults)
      requires c in channels
      reads this
    {
      && (channels[c].kind == Open || channels[c].kind == Private) && !f.lookup && !f.save
      && (channels[c].groupConstrained ==> !f.groups && c in world.groups && u in world.groups[c])
    }

    /** The remover may remove the member, if the calls up to the delete work. */
    ghost predicate MayRemove(c: ChannelId, u: UserId, remover: UserId, f: Faults)
      requires c in channels
      reads this
    {
      && channels[c].name != DEFAULT_CHANNEL && (c, u) in members && !f.lookup && !f.remove
      && (channels[c].groupConstrained && u != remover ==> !f.groups && !(c in world.groups && u in world.groups[c]))
    }

    /** A user who is no member becomes one, with an open row of the history if that call works, exactly if the channel
        takes it in; nothing else changes. */
    method AddUserToChannel(c: ChannelId, u: UserId, f: Faults) returns (err: Option<Error>)
      requires Valid() && c in channels
      modifies this`members, this`rows, this`history
      ensures err.None? ==> (c, u) in members
      ensures err.None? <==>
        if (c, u) in old(members) then (channels[c].kind == Open || channels[c].kind == Private) && !f.lookup
        else MayJoin(c, u, f)
      ensures var joins := (c, u) !in old(members) && old(MayJoin(c, u, f));
        && members == (if joins then old(members) + {(c, u)} else old(members))
        && history == (if joins && !f.historyWrite then old(history) + [Join(u, c)] else old(history))
        && rows == (if joins && !f.historyWrite then old(rows) + [HistoryRow(c, u, true)] else old(rows))
      ensures err == Some(WrongType) <==> channels[c].kind == Direct || channels[c].kind == Group
      ensures err == Some(UserDenied) ==>
        (c, u) !in members && channels[c].groupConstrained && !(c in world.groups && u in world.groups[c])
      ensures Valid() && (Now(), err) == ApplyAdd(world, old(Now()), c, u, f)
    {
      var channel := channels[c];
      if channel.kind != Open && channel.kind != Private {
        return Some(WrongType);
      }
      if f.lookup {
        return Some(LookupFailed);
      }
      if (c, u) in members {
        return None;
      }
      if channel.groupConstrained {
        var nonMembers := FilterNonGroupChannelMembers(c, u, f.groups);
        if nonMembers.None? {
          return Some(LookupFailed);
        }
        if |nonMembers.value| > 0 {
          return Some(UserDenied);
        }
      }
      if f.save {
        return Some(SaveFailed);
      }
      members := members + {(c, u)};
      var ignored := LogJoinEvent(u, c, f.historyWrite);
      return None;
    }

    /** A member is no longer one, and its open rows are closed if that call works, exactly if the remover may remove it;
        nothing else changes. That the history call failed is reported. */
    method RemoveUserFromChannel(c: ChannelId, u: UserId, remover: UserId, f: Faults) returns (err: Option<Error>)
      requires Valid() && c in channels
      modifies this`members, this`rows, this`history
      ensures err.None? <==> old(MayRemove(c, u, remover, f)) && !f.historyWrite
      ensures err.None? ==> (c, u) !in members && OpenRows(rows, c, u) == 0
      ensures var leaves := old(MayRemove(c, u, remover, f));
        && members == (if leaves then old(members) - {(c, u)} else old(members))
        && history == (if leaves && !f.historyWrite then old(history) + [Leave(u, c)] else old(history))
        && (!(leaves && !f.historyWrite) ==> rows == old(rows))
        && (forall d, v | (d, v) != (c, u) :: OpenRows(rows, d, v) == OpenRows(old(rows), d, v))
      ensures err == Some(DefaultChannel) <==> channels[c].name == DEFAULT_CHANNEL
      ensures err == Some(RemovalDenied) ==>
        channels[c].groupConstrained && u != remover && c in world.groups && u in world.groups[c]
      ensures err == Some(HistoryFailed) <==> old(MayRemove(c, u, remover, f)) && f.historyWrite
      ensures Valid() && (Now(), err) == ApplyRemove(world, old(Now()), c, u, remover, f)
    {
      var channel := channels[c];
      if channel.name == DEFAULT_CHANNEL {
        return Some(DefaultChannel);
      }
      if channel.groupConstrained && u != remover {
        var nonMembers := FilterNonGroupChannelMembers(c, u, f.groups);
        if nonMembers.None? {
          return Some(LookupFailed);
        }
        if |nonMembers.value| == 0 {
          return Some(RemovalDenied);
        }
      }
      if f.lookup || (c, u) !in members {
        return Some(NotAMember);
      }
      if f.remove {
        return Some(RemoveFailed);
      }
      members := members - {(c, u)};
      forall d, v ensures OpenRows(Closed(rows, c, u), d, v) == if d == c && v == u then 0 else OpenRows(rows, d, v) {
        OpenAfterClosing(rows, c, u, d, v);
      }
      var ok := LogLeaveEvent(u, c, f.historyWrite);
      if !ok {
        return Some(HistoryFailed);
      }
      return None;
    }

    /** `count` is what the replica answers, which was asked at the beginning. A member leaves exactly if the lookups
        work, the channel is open, or private with a count other than 1, and the member may remove itself. */
    method LeaveChannel(c: ChannelId, u: UserId, count: nat, f: Faults) returns (err: Option<Error>)
      requires Valid()
      modifies this`members, this`rows, this`history
      ensures var found := !f.channel && c in channels;
        var known := found && !f.user && u in world.accounts;
        var leaves := known && !f.count && (channels[c].kind == Open || (channels[c].kind == Private && count != 1))
          && old(MayRemove(c, u, u, f));
        && members == (if leaves then old(members) - {(c, u)} else old(members))
        && history == (if leaves && !f.historyWrite then old(history) + [Leave(u, c)] else old(history))
        && (err.None? <==> (found && !known) || (leaves && !f.historyWrite))
        && (err == Some(LastMember) <==> known && !f.count && channels[c].kind == Private && count == 1)
        && (err == Some(DirectChannel) <==> known && !f.count && (channels[c].kind == Direct || channels[c].kind == Group))
      ensures Valid() && (Now(), err) == ApplyLeave(world, old(Now()), c, u, count, f)
    {
      var cresultErr: Option<Error> := if f.channel || c !in channels then Some(ChannelMissing) else None;
      if cresultErr.Some? {
        return cresultErr;
      }
      if f.user || u !in world.accounts {
        // The channel's error is returned here, not the user's; it is nil.
        return cresultErr;
      }
      if f.count {
        return Some(CountFailed);
      }
      var channel := channels[c];
      if channel.kind == Direct || channel.kind == Group {
        return Some(DirectChannel);
      }
      if channel.kind == Private && count == 1 {
        return Some(LastMember);
      }
      err := RemoveUserFromChannel(c, u, u, f);
    }

    /** The profiles of cached ids are taken from the cache, the others queried together. */
    method GetProfileByIds(ids: seq<UserId>, cached: set<UserId>) returns (users: seq<UserId>)
      ensures users == Profiles(world, ids, cached)
    {
      hide Elements;
      users := [];
      var remaining: set<UserId> := {};
      ElementsNone(ids);
      for i := 0 to |ids|
        invariant users == Selected(ids[..i], cached) && remaining == Elements(ids[..i]) - cached
      {
        ElementsNext(ids, i);
        assert ids[..i + 1][..i] == ids[..i];
        if ids[i] in cached {
          users := users + [ids[i]];
        } else {
          remaining := remaining + {ids[i]};
        }
      }
      assert ids[..|ids|] == ids;
      var queried := Query(remaining);
      users := users + queried;
    }

    method Query(ids: set<UserId>) returns (users: seq<UserId>)
      ensures users == Selected(world.accounts, ids)
    {
      users := [];
      var accounts := world.accounts;
      for i := 0 to |accounts|
        invariant users == Selected(accounts[..i], ids)
      {
        assert accounts[..i + 1][..i] == accounts[..i];
        if accounts[i] in ids {
          users := users + [accounts[i]];
        }
      }
      assert accounts[..|accounts|] == accounts;
    }

    /** Creates the channel and its memberships; for 3 to 8 distinct ids of accounts it succeeds if all calls work. */
    method CreateGroupChannel(c: ChannelId, userIds: seq<UserId>, cached: set<UserId>, saved: nat, f: Faults)
      returns (err: Option<Error>)
      requires Valid()
      modifies this
      ensures err.None? ==> c in channels && channels[c].kind == Group
      ensures err == Some(BadSize) <==> |userIds| < 3 || |userIds| > 8
      ensures f == NO_FAULTS && saved >= |userIds| && GroupWanted(world, old(Now()), c, userIds) ==>
        err.None? && forall u :: (c, u) in members <==> u in userIds
      ensures Valid() && (Now(), err) == ApplyCreateGroup(world, old(Now()), c, userIds, cached, saved, f)
    {
      if GroupWanted(world, Now(), c, userIds) && saved >= |userIds| {
        GroupSucceeds(world, Now(), c, userIds, cached, saved);
      }
      if |userIds| > CHANNEL_GROUP_MAX_USERS || |userIds| < CHANNEL_GROUP_MIN_USERS {
        return Some(BadSize);
      }
      if f.user {
        return Some(LookupFailed);
      }
      var users := GetProfileByIds(userIds, cached);
      if |users| != |userIds| {
        return Some(BadUser);
      }
      if f.channel {
        return Some(SaveFailed);
      }
      if c in channels {
        return Some(Exists);
      }
      channels := channels[c := Channel(Group, "", false)];
      assert MembersOf(Now(), c) == MembersOf(old(Now()), c);
      err := SaveMembers(c, users, saved, f.historyWrite);
    }

    /** Lines 451-467: one membership and one join after the other. */
    method SaveMembers(c: ChannelId, users: seq<UserId>, saved: nat, historyFails: bool) returns (err: Option<Error>)
      requires Valid()
      modifies this`members, this`rows, this`history
      ensures Valid()
      ensures var n := SavedOf(users, MembersOf(old(Now()), c), saved);
        && Now() == ApplySaves(old(Now()), c, users, n, historyFails)
        && err == if n < |users| then Some(SaveFailed) else None
    {
      hide SavedOf;
      ghost var start := Now();
      for i := 0 to |users|
        invariant Valid() && Now() == ApplySaves(start, c, users, i, historyFails)
        invariant i <= SavedOf(users, MembersOf(start, c), saved)
      {
        SavesMembers(start, c, users, i, historyFails);
        SavedNext(users, MembersOf(start, c), saved, i);
        assert (c, users[i]) in members <==> users[i] in MembersOf(Now(), c);
        if i == saved || (c, users[i]) in members {
          return Some(SaveFailed);
        }
        members := members + {(c, users[i])};
        var ignored := LogJoinEvent(users[i], c, historyFails);
      }
      return None;
    }
  }
}
