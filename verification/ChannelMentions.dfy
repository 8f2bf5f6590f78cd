/**
 Filling in the `channel_mentions` property of a list of channels (app/channel.go, model/channel_mentions.go).

 The channels are grouped by team, and per team all mentioned names are looked up with one query. The point of the
 proofs is that this gives every channel what it would have got alone.
 */
module ChannelMentions {
  import opened Collections
  import opened Wrappers

  // ---------------------------------------------------------------------------------------------------------
  // Finding mentions in a header

  predicate IsWordChar(c: char) {
    'a' <= c <= 'z' || 'A' <= c <= 'Z' || '0' <= c <= '9' || c == '_'
  }

  predicate IsNameChar(c: char) {
    IsWordChar(c) || c == '-'
  }

  /** The first position from i on that does not continue a name. */
  function NameEnd(s: string, i: nat): (j: nat)
    requires i <= |s|
    ensures i <= j <= |s| && (forall k | i <= k < j :: IsNameChar(s[k])) && (j < |s| ==> !IsNameChar(s[j]))
    decreases |s| - i
  {
    if i < |s| && IsNameChar(s[i]) then NameEnd(s, i + 1) else i
  }

  /** A tilde that is not glued to a word before it, and is followed by a name. */
  predicate StartsMention(s: string, i: nat) {
    i < |s| && s[i] == '~' && (i == 0 || !IsWordChar(s[i - 1])) && i + 1 < |s| && IsNameChar(s[i + 1])
  }

  /** All non-overlapping matches of the mention pattern from i on, without their tildes. */
  function Matches(s: string, i: nat): seq<string>
    requires i <= |s|
    decreases |s| - i
  {
    if i == |s| then []
    else if StartsMention(s, i) then [s[i + 1..NameEnd(s, i + 1)]] + Matches(s, NameEnd(s, i + 1))
    else Matches(s, i + 1)
  }

  ghost predicate MentionAt(s: string, i: nat, name: string) {
    StartsMention(s, i) && s[i + 1..NameEnd(s, i + 1)] == name
  }

  /** The header mentions this name: some mention in it reads exactly like it. */
  ghost predicate Mentioned(s: string, name: string) {
    exists i: nat :: MentionAt(s, i, name)
  }

  lemma {:induction false} MatchesAreMentions(s: string, i: nat, name: string)
    requires i <= |s|
    ensures name in Matches(s, i) <==> exists k: nat :: k >= i && MentionAt(s, k, name)
    decreases |s| - i
  {
    if i < |s| {
      if StartsMention(s, i) {
        var end := NameEnd(s, i + 1);
        MatchesAreMentions(s, end, name);
        // A name holds no tilde, so nothing starts inside the match.
        assert forall k: nat | i < k < end :: !MentionAt(s, k, name);
        assert name == s[i + 1..end] ==> MentionAt(s, i, name);
      } else {
        MatchesAreMentions(s, i + 1, name);
      }
    }
  }

  /** The characters of a word, which a mention must not be glued to. */
  lemma WordChars(c: char)
    ensures IsWordChar(c) <==> c in LOWER || c in UPPER || c in DIGITS || c == '_'
  {
    hide LOWER, UPPER, DIGITS;
    LowerChars(c);
    UpperChars(c);
    DigitChars(c);
  }

  lemma LowerChars(c: char)
    ensures c in LOWER <==> 'a' <= c <= 'z'
  {
    hide UPPER, DIGITS;
  }

  lemma UpperChars(c: char)
    ensures c in UPPER <==> 'A' <= c <= 'Z'
  {
    hide LOWER, DIGITS;
  }

  lemma DigitChars(c: char)
    ensures c in DIGITS <==> '0' <= c <= '9'
  {
    hide LOWER, UPPER;
  }

  /** Those of a name. */
  lemma NameChars(c: char)
    ensures IsNameChar(c) <==> c in LOWER || c in UPPER || c in DIGITS || c in {'_', '-'}
  {
    WordChars(c);
  }

  const LOWER :=
    {'a', 'b', 'c', 'd', 'e', 'f', 'g', 'h', 'i', 'j', 'k', 'l', 'm'} +
    {'n', 'o', 'p', 'q', 'r', 's', 't', 'u', 'v', 'w', 'x', 'y', 'z'}
  const UPPER :=
    {'A', 'B', 'C', 'D', 'E', 'F', 'G', 'H', 'I', 'J', 'K', 'L', 'M'} +
    {'N', 'O', 'P', 'Q', 'R', 'S', 'T', 'U', 'V', 'W', 'X', 'Y', 'Z'}
  const DIGITS := {'0', '1', '2', '3', '4', '5', '6', '7', '8', '9'}

  /** A tilde at i and a name up to j, which is whole and not glued to a word before it. */
  predicate WholeMention(s: string, i: nat, j: nat) {
    && i + 1 < j <= |s| && s[i] == '~' && (forall k | i < k < j :: IsNameChar(s[k]))
    && (i == 0 || !IsWordChar(s[i - 1])) && (j == |s| || !IsNameChar(s[j]))
  }

  /** What a mention is, in terms of the text around it. */
  lemma MentionedIff(s: string, name: string)
    ensures Mentioned(s, name) <==> exists i: nat, j: nat :: WholeMention(s, i, j) && s[i + 1..j] == name
  {
    hide IsNameChar, IsWordChar;
    if i: nat :| MentionAt(s, i, name) {
      assert WholeMention(s, i, NameEnd(s, i + 1));
    }
    if i: nat, j: nat :| WholeMention(s, i, j) && s[i + 1..j] == name {
      NameEndsAt(s, i + 1, j);
      assert MentionAt(s, i, name);
    }
  }

  lemma {:induction false} NameEndsAt(s: string, i: nat, end: nat)
    requires i <= end <= |s| && (forall k | i <= k < end :: IsNameChar(s[k])) && (end < |s| ==> !IsNameChar(s[end]))
    ensures NameEnd(s, i) == end
    decreases end - i
  {
    if i < end {
      NameEndsAt(s, i + 1, end);
    }
  }

  /** The names mentioned in a header, each once, in the order of their first mention. */
  method ChannelMentions(message: string) returns (names: seq<string>)
    ensures forall n :: n in names <==> Mentioned(message, n)
    ensures Distinct(names)
  {
    names := [];
    var matches := Matches(message, 0);
    for i := 0 to |matches|
      invariant forall n :: n in names <==> n in matches[..i]
      invariant Distinct(names)
    {
      if matches[i] !in names {
        names := names + [matches[i]];
      }
    }
    forall n ensures n in names <==> Mentioned(message, n) {
      MatchesAreMentions(message, 0, n);
      assert matches[..|matches|] == matches;
    }
  }

  predicate MentionsSomething(s: string) {
    Matches(s, 0) != []
  }

  // ---------------------------------------------------------------------------------------------------------
  // Specification

  datatype Target = Target(name: string, displayName: string, isOpen: bool)

  /** What a lookup by team and name finds, and the teams whose lookup fails. */
  datatype Directory = Directory(channels: map<(string, string), Target>, failing: set<string>)

  predicate Consistent(d: Directory) {
    forall key | key in d.channels :: d.channels[key].name == key.1
  }

  /** A property value: the map from mentioned names to display names, or anything else. */
  datatype Prop = MentionMap(names: map<string, string>) | Other(text: string)

  type Props = Option<map<string, Prop>>

  const KEY := "channel_mentions"

  /** The mentioned open channels of the team, with their display names. */
  function Resolved(d: Directory, teamId: string, header: string): (m: map<string, string>)
    ensures forall n :: n in m <==>
      n in Matches(header, 0) && (teamId, n) in d.channels && d.channels[(teamId, n)].isOpen
  {
    map n | n in Matches(header, 0) && (teamId, n) in d.channels && d.channels[(teamId, n)].isOpen ::
      d.channels[(teamId, n)].displayName
  }

  function Filled(props: Props, names: map<string, string>): Props {
    if names != map[] then Some((if props.Some? then props.value else map[])[KEY := MentionMap(names)])
    else if props.Some? then Some(props.value - {KEY})
    else None
  }

  /** The parts of a channel that matter here. */
  datatype View = View(teamId: string, header: string, props: Props)

  predicate TeamMentions(list: seq<View>, teamId: string) {
    exists i :: 0 <= i < |list| && list[i].teamId == teamId && MentionsSomething(list[i].header)
  }

  /** What filling the whole list gives channel i: nothing happens to a team without any mention. */
  function Batched(d: Directory, list: seq<View>, i: nat): Props
    requires i < |list|
  {
    var c := list[i];
    if TeamMentions(list, c.teamId) then Filled(c.props, Resolved(d, c.teamId, c.header)) else c.props
  }

  /** What filling a channel alone gives it. */
  function Alone(d: Directory, c: View): Props {
    Batched(d, [c], 0)
  }

  predicate HasStaleProp(props: Props) {
    props.Some? && KEY in props.value
  }

  /** Filling a list gives a channel what filling it alone gives, except exactly in this case: it already has the
      property, mentions nothing, and some other channel of its team in the list mentions something. */
  lemma BatchEqualsOneByOneIff(d: Directory, list: seq<View>, i: nat)
    requires i < |list|
    ensures Batched(d, list, i) == Alone(d, list[i]) <==>
      !(HasStaleProp(list[i].props) && !MentionsSomething(list[i].header) && TeamMentions(list, list[i].teamId))
  {
    var c := list[i];
    assert [c][0] == c;
    if !MentionsSomething(c.header) {
      assert Resolved(d, c.teamId, c.header) == map[];
      if c.props.Some? && KEY !in c.props.value {
        assert c.props.value - {KEY} == c.props.value;
      }
    }
  }

  /** The name is mentioned in the channel's header and is that of an open channel of its team. */
  ghost predicate Hit(d: Directory, c: View, name: string) {
    Mentioned(c.header, name) && (c.teamId, name) in d.channels && d.channels[(c.teamId, name)].isOpen
  }

  /** The property is there exactly if some mention resolves, and then it gives exactly the names that do with their
      display names; all other properties are as before. */
  ghost predicate Shows(d: Directory, c: View, after: Props) {
    && (HasStaleProp(after) <==> exists n :: Hit(d, c, n))
    && (HasStaleProp(after) ==>
          && after.value[KEY].MentionMap?
          && (forall n :: n in after.value[KEY].names <==> Hit(d, c, n))
          && (forall n | Hit(d, c, n) :: after.value[KEY].names[n] == d.channels[(c.teamId, n)].displayName))
    && (forall key | key != KEY ::
          (after.Some? && key in after.value <==> c.props.Some? && key in c.props.value)
          && (c.props.Some? && key in c.props.value ==> after.value[key] == c.props.value[key]))
  }

  /** Where the batch does anything to a channel, and also where the channel had no such property before, the outcome
      depends only on the channel itself. */
  lemma FilledExactly(d: Directory, list: seq<View>, i: nat)
    requires i < |list| && (!HasStaleProp(list[i].props) || TeamMentions(list, list[i].teamId))
    ensures Shows(d, list[i], Batched(d, list, i))
  {
    var c := list[i];
    var names := Resolved(d, c.teamId, c.header);
    forall n ensures n in names <==> Hit(d, c, n) {
      MatchesAreMentions(c.header, 0, n);
    }
    if names != map[] {
      var n :| n in names;
      assert Hit(d, c, n);
      assert MentionsSomething(c.header);
      assert TeamMentions(list, c.teamId);
    }
  }

  // ---------------------------------------------------------------------------------------------------------
  // The code

  class Channel {
    const teamId: string
    const header: string
    var props: Props

    constructor (teamId: string, header: string, props: Props)
      ensures this.teamId == teamId && this.header == header && this.props == props
    {
      this.teamId, this.header, this.props := teamId, header, props;
    }

    ghost function AsView(): View
      reads this
    {
      View(teamId, header, props)
    }
  }

  ghost function Views(list: seq<Channel>): seq<View>
    reads list
  {
    seq(|list|, i requires 0 <= i < |list| reads list => list[i].AsView())
  }

  /** The channels of the list that the team's group holds, and some channel of the group mentions something. */
  ghost predicate GroupMentions(group: seq<Channel>) {
    exists c :: c in group && MentionsSomething(c.header)
  }

  /** The handler. It fails exactly if the lookup of a team with mentions fails; then every channel is either as it
      was or as it would be after a success. */
  method FillInChannelsProps(list: seq<Channel>, d: Directory) returns (ok: bool)
    requires Consistent(d)
    modifies list
    ensures ok <==> forall t | t in d.failing :: !TeamMentions(old(Views(list)), t)
    ensures ok ==> forall i | 0 <= i < |list| :: list[i].props == Batched(d, old(Views(list)), i)
    ensures ok ==> forall i | 0 <= i < |list| && !HasStaleProp(old(list[i].props)) ::
      Shows(d, old(list[i].AsView()), list[i].props)
    ensures !ok ==> forall i | 0 <= i < |list| ::
      list[i].props == old(list[i].props) || list[i].props == Batched(d, old(Views(list)), i)
  {
    ghost var before := Views(list);
    var channelsByTeam := GroupByTeam(list);
    forall t ensures TeamMentions(before, t) <==> t in channelsByTeam && GroupMentions(channelsByTeam[t]) {
      GroupsMention(list, before, channelsByTeam, t);
    }
    var teams := channelsByTeam.Keys;
    while teams != {}
      invariant teams <= channelsByTeam.Keys
      invariant forall t | t in channelsByTeam.Keys - teams && t in d.failing :: !TeamMentions(before, t)
      invariant forall i | 0 <= i < |list| ::
        list[i].props == if list[i].teamId in teams then old(list[i].props) else Batched(d, before, i)
      decreases teams
    {
      var teamId :| teamId in teams;
      var group := channelsByTeam[teamId];
      forall k | 0 <= k < |group| ensures group[k] in list {
        assert group[k] in list[..|list|];
      }
      teams := teams - {teamId};
      ok := FillTeam(teamId, group, d);
      if !ok {
        return;
      }
      forall i | 0 <= i < |list|
        ensures list[i].props == if list[i].teamId in teams then old(list[i].props) else Batched(d, before, i)
      {
        assert list[i] in channelsByTeam[list[i].teamId];
        assert before[i] == View(list[i].teamId, list[i].header, old(list[i].props));
        if list[i].teamId != teamId {
          assert list[i] !in channelsByTeam[teamId];
        }
      }
    }
    forall i | 0 <= i < |list| && !HasStaleProp(old(list[i].props)) ensures Shows(d, before[i], list[i].props) {
      FilledExactly(d, before, i);
    }
    ok := true;
  }

  ghost predicate Grouped(list: seq<Channel>, n: nat, groups: map<string, seq<Channel>>)
    requires n <= |list|
  {
    && (forall k | 0 <= k < n :: list[k].teamId in groups && list[k] in groups[list[k].teamId])
    && (forall t, c | t in groups && c in groups[t] :: c in list[..n] && c.teamId == t)
  }

  method GroupByTeam(list: seq<Channel>) returns (groups: map<string, seq<Channel>>)
    ensures Grouped(list, |list|, groups)
  {
    groups := map[];
    for i := 0 to |list|
      invariant Grouped(list, i, groups)
    {
      var c := list[i];
      assert list[..i + 1] == list[..i] + [c];
      groups := groups[c.teamId := if c.teamId in groups then groups[c.teamId] + [c] else [c]];
    }
  }

  lemma GroupsMention(list: seq<Channel>, views: seq<View>, groups: map<string, seq<Channel>>, t: string)
    requires Grouped(list, |list|, groups) && |views| == |list|
    requires forall i | 0 <= i < |list| :: views[i].teamId == list[i].teamId && views[i].header == list[i].header
    ensures TeamMentions(views, t) <==> t in groups && GroupMentions(groups[t])
  {
    if TeamMentions(views, t) {
      var i :| 0 <= i < |views| && views[i].teamId == t && MentionsSomething(views[i].header);
      assert list[i] in groups[t];
    }
    if t in groups && GroupMentions(groups[t]) {
      var c :| c in groups[t] && MentionsSomething(c.header);
      assert c in list[..|list|];
      var i :| 0 <= i < |list| && list[i] == c;
      assert views[i].teamId == t;
    }
  }

  /** Lines 2040-2086: one team. */
  method FillTeam(teamId: string, group: seq<Channel>, d: Directory) returns (ok: bool)
    requires Consistent(d) && forall c | c in group :: c.teamId == teamId
    modifies group
    ensures ok == !(GroupMentions(group) && teamId in d.failing)
    ensures forall c | c in group ::
      c.props == if GroupMentions(group) && ok then Filled(old(c.props), Resolved(d, teamId, c.header)) else old(c.props)
  {
    var channelMentions, names := CollectMentions(group);
    if |names| > 0 {
      var mentionedChannels := GetChannelsByNames(names, teamId, d);
      if mentionedChannels.None? {
        return false;
      }
      var mentionedChannelsByName := IndexByName(mentionedChannels.value);
      LookupComplete(d, teamId, names, mentionedChannels.value, mentionedChannelsByName);
      FillGroup(teamId, group, channelMentions, mentionedChannelsByName, d);
    }
    ok := true;
  }

  /** Lines 2068-2085: the channels of one team. */
  method FillGroup(teamId: string, group: seq<Channel>, channelMentions: map<Channel, seq<string>>,
                   byName: map<string, Target>, ghost d: Directory)
    requires forall c | c in group :: c.teamId == teamId && c in channelMentions && Looked(c, channelMentions[c], byName, d)
    requires forall n | n in byName :: byName[n].name == n
    modifies group
    ensures forall c | c in group :: c.props == Filled(old(c.props), Resolved(d, teamId, c.header))
  {
    for i := 0 to |group|
      invariant forall c | c in group ::
        c.props == if c in group[..i] then Filled(old(c.props), Resolved(d, teamId, c.header)) else old(c.props)
    {
      var channel := group[i];
      assert group[..i + 1] == group[..i] + [channel];
      FilledTwice(old(channel.props), Resolved(d, teamId, channel.header));
      FillChannel(channel, channelMentions[channel], byName, d);
    }
    assert group[..|group|] == group;
  }

  /** The mentions are those of the channel, and each that exists in the team was found. */
  ghost predicate Looked(c: Channel, mentions: seq<string>, byName: map<string, Target>, d: Directory) {
    && (forall n :: n in mentions <==> n in Matches(c.header, 0))
    && (forall n | n in mentions :: n in byName <==> (c.teamId, n) in d.channels)
    && (forall n | n in mentions && n in byName :: byName[n] == d.channels[(c.teamId, n)])
  }

  /** Lines 2063-2066. */
  method IndexByName(channels: seq<Target>) returns (byName: map<string, Target>)
    ensures forall n :: n in byName <==> exists k :: 0 <= k < |channels| && channels[k].name == n
    ensures forall n | n in byName :: byName[n].name == n && byName[n] in channels
  {
    byName := map[];
    for i := 0 to |channels|
      invariant forall n :: n in byName <==> exists k :: 0 <= k < i && channels[k].name == n
      invariant forall n | n in byName :: byName[n].name == n && byName[n] in channels
    {
      var channel := channels[i];
      byName := byName[channel.name := channel];
    }
  }

  /** Lines 2069-2084: one channel, given what its mentions resolve to. */
  method FillChannel(channel: Channel, mentions: seq<string>, byName: map<string, Target>, ghost d: Directory)
    requires forall n | n in byName :: byName[n].name == n
    requires Looked(channel, mentions, byName, d)
    modifies channel
    ensures channel.props == Filled(old(channel.props), Resolved(d, channel.teamId, channel.header))
  {
    var prop := MentionProp(mentions, byName);
    assert prop == Resolved(d, channel.teamId, channel.header);
    if |prop| > 0 {
      channel.props := Some((if channel.props.Some? then channel.props.value else map[])[KEY := MentionMap(prop)]);
    } else if channel.props.Some? {
      channel.props := Some(channel.props.value - {KEY});
    }
  }

  /** A channel that is in the list twice is filled twice, to the same effect. */
  lemma FilledTwice(props: Props, names: map<string, string>)
    ensures Filled(Filled(props, names), names) == Filled(props, names)
  {
    if names != map[] {
      var m := if props.Some? then props.value else map[];
      assert m[KEY := MentionMap(names)][KEY := MentionMap(names)] == m[KEY := MentionMap(names)];
    } else if props.Some? {
      assert props.value - {KEY} - {KEY} == props.value - {KEY};
    }
  }

  /** Lines 2040-2055: the mentions of each channel, and all names once, in no particular order. */
  method CollectMentions(group: seq<Channel>) returns (mentions: map<Channel, seq<string>>, names: seq<string>)
    ensures forall c | c in group :: c in mentions && forall n :: n in mentions[c] <==> n in Matches(c.header, 0)
    ensures forall n :: n in names <==> exists c :: c in group && n in Matches(c.header, 0)
    ensures |names| > 0 <==> GroupMentions(group)
  {
    mentions := map[];
    var all: set<string> := {};
    for i := 0 to |group|
      invariant forall c | c in group[..i] :: c in mentions && forall n :: n in mentions[c] <==> n in Matches(c.header, 0)
      invariant forall n :: n in all <==> exists c :: c in group[..i] && n in Matches(c.header, 0)
    {
      var channel := group[i];
      var ns := ChannelMentions(channel.header);
      forall n ensures n in ns <==> n in Matches(channel.header, 0) {
        MatchesAreMentions(channel.header, 0, n);
      }
      assert group[..i + 1] == group[..i] + [channel];
      mentions := mentions[channel := ns];
      all := all + set n | n in ns;
    }
    assert group[..|group|] == group;
    names := [];
    ghost var whole := all;
    while all != {}
      invariant forall n :: n in whole <==> n in all || n in names
      decreases all
    {
      var n :| n in all;
      all, names := all - {n}, names + [n];
    }
    SomeNameIff(group, names);
  }

  lemma SomeNameIff(group: seq<Channel>, names: seq<string>)
    requires forall n :: n in names <==> exists c :: c in group && n in Matches(c.header, 0)
    ensures |names| > 0 <==> GroupMentions(group)
  {
    if |names| > 0 {
      assert names[0] in names;
      var c :| c in group && names[0] in Matches(c.header, 0);
      assert MentionsSomething(c.header);
    }
    if GroupMentions(group) {
      var c :| c in group && MentionsSomething(c.header);
      assert Matches(c.header, 0)[0] in names;
    }
  }

  /** The store's lookup: the team's channels among the requested names. */
  method GetChannelsByNames(names: seq<string>, teamId: string, d: Directory) returns (found: Option<seq<Target>>)
    ensures found.None? <==> teamId in d.failing
    ensures found.Some? ==> forall t :: t in found.value <==>
      exists n :: n in names && (teamId, n) in d.channels && d.channels[(teamId, n)] == t
  {
    if teamId in d.failing {
      return None;
    }
    var targets := [];
    for i := 0 to |names|
      invariant forall t :: t in targets <==>
        exists n :: n in names[..i] && (teamId, n) in d.channels && d.channels[(teamId, n)] == t
    {
      assert names[..i + 1] == names[..i] + [names[i]];
      if (teamId, names[i]) in d.channels {
        targets := targets + [d.channels[(teamId, names[i])]];
      }
    }
    assert names[..|names|] == names;
    return Some(targets);
  }

  lemma LookupComplete(d: Directory, teamId: string, names: seq<string>, found: seq<Target>, byName: map<string, Target>)
    requires Consistent(d)
    requires forall t :: t in found <==> exists n :: n in names && (teamId, n) in d.channels && d.channels[(teamId, n)] == t
    requires forall n :: n in byName <==> exists k :: 0 <= k < |found| && found[k].name == n
    requires forall n | n in byName :: byName[n].name == n && byName[n] in found
    ensures forall n | n in names :: n in byName <==> (teamId, n) in d.channels
    ensures forall n | n in names && n in byName :: byName[n] == d.channels[(teamId, n)]
  {
    forall n | n in names && (teamId, n) in d.channels ensures n in byName {
      var t := d.channels[(teamId, n)];
      assert d.channels[(teamId, n)].name == n && t in found;
    }
    forall n | n in names && n in byName ensures (teamId, n) in d.channels && byName[n] == d.channels[(teamId, n)] {
      assert byName[n] in found;
      var m :| m in names && (teamId, m) in d.channels && d.channels[(teamId, m)] == byName[n];
      assert d.channels[(teamId, m)].name == m;
    }
  }

  /** Lines 2069-2078: the property of one channel. */
  method MentionProp(mentions: seq<string>, byName: map<string, Target>) returns (prop: map<string, string>)
    requires forall n | n in byName :: byName[n].name == n
    ensures prop == map n | n in mentions && n in byName && byName[n].isOpen :: byName[n].displayName
  {
    prop := map[];
    for i := 0 to |mentions|
      invariant prop == map n | n in mentions[..i] && n in byName && byName[n].isOpen :: byName[n].displayName
    {
      assert mentions[..i + 1] == mentions[..i] + [mentions[i]];
      if mentions[i] in byName {
        var mentioned := byName[mentions[i]];
        if mentioned.isOpen {
          prop := prop[mentioned.name := mentioned.displayName];
        }
      }
    }
    assert mentions[..|mentions|] == mentions;
  }
}
