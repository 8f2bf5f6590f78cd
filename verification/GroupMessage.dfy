/**
 The `/groupmsg` command (app/command_groupmsg.go): reading user names and a message out of one line, and turning
 the names into the list of recipients.
 */
module GroupMessage {
  import ChannelMembership
  import opened Collections
  import opened GoStrings
  import opened Wrappers

  // ---------------------------------------------------------------------------------------------------------
  // Parsing

  /** The parse of what is left of the line: each piece up to a comma gives a name; the first piece with more than
      one word also begins the message, which runs to the end of the line, commas included. */
  function Parse(rest: string): (seq<string>, string)
    decreases |rest|
  {
    var i := IndexOf(rest, ',');
    var words := Fields(TrimPrefix(TrimSpace(rest[..i]), "@"));
    if |words| > 1 then ([words[0]], TrimSpace(TrimPrefix(TrimPrefix(TrimSpace(rest), "@"), words[0])))
    else
      var (names, message) := if i == |rest| then ([], "") else Parse(rest[i + 1..]);
      (words + names, message)
  }

  method GroupMsgUsernames(message: string) returns (result: seq<string>, resultMessage: string)
    ensures (result, resultMessage) == Parse(message)
  {
    hide Fields, TrimSpace, TrimPrefix, IndexOf, Commas, AfterCommas;
    result, resultMessage := [], "";
    var parts := Split(message, ',');
    ghost var rest := message;
    assert parts[0..] == parts;
    NothingDone(message);
    for idx := 0 to |parts|
      invariant idx < |parts| ==> Ahead(message, idx, rest, result) && parts[idx..] == Split(rest, ',')
      invariant idx == |parts| ==> Parse(message) == (result, "")
      invariant resultMessage == ""
    {
      var part := parts[idx];
      assert part == parts[idx..][0] == rest[..IndexOf(rest, ',')];
      var clean := TrimPrefix(TrimSpace(part), "@");
      var split := Fields(clean);
      ghost var before := result;
      if |split| > 0 {
        result := result + [split[0]];
      }
      if |split| > 1 {
        var splitted := SplitN(message, ',', idx + 1);
        LastPiece(message, idx);
        resultMessage := TrimPrefix(TrimSpace(splitted[|splitted| - 1]), "@");
        resultMessage := TrimSpace(TrimPrefix(resultMessage, split[0]));
        return;
      }
      assert result == before + split;
      assert parts[idx + 1..] == parts[idx..][1..];
      OnePiece(message, idx, rest, before, split);
      if IndexOf(rest, ',') < |rest| {
        rest := rest[IndexOf(rest, ',') + 1..];
      }
    }
  }

  /** `idx` pieces are done: they gave `result`, and `rest` follows. */
  ghost predicate Ahead(message: string, idx: nat, rest: string, result: seq<string>) {
    && Commas(message, idx) && AfterCommas(message, idx) == rest
    && Parse(message) == (result + Parse(rest).0, Parse(rest).1)
  }

  lemma NothingDone(message: string)
    ensures Ahead(message, 0, message, [])
  {
    assert [] + Parse(message).0 == Parse(message).0;
  }

  /** A piece with at most one word. */
  lemma OnePiece(message: string, idx: nat, rest: string, result: seq<string>, words: seq<string>)
    requires Ahead(message, idx, rest, result) && |words| <= 1
    requires words == Fields(TrimPrefix(TrimSpace(rest[..IndexOf(rest, ',')]), "@"))
    ensures IndexOf(rest, ',') == |rest| ==> Parse(message) == (result + words, "")
    ensures IndexOf(rest, ',') < |rest| ==> Ahead(message, idx + 1, rest[IndexOf(rest, ',') + 1..], result + words)
  {
    hide Fields, TrimSpace, TrimPrefix, IndexOf, Commas, AfterCommas;
    if IndexOf(rest, ',') == |rest| {
      assert Parse(rest) == (words + [], "");
      assert words + [] == words;
    } else {
      NextRest(message, idx);
      var next := rest[IndexOf(rest, ',') + 1..];
      assert Parse(rest) == (words + Parse(next).0, Parse(next).1);
      Reassociate(result, words, Parse(next).0);
    }
  }

  /** The line has at least n commas. */
  predicate Commas(s: string, n: nat)
    decreases n
  {
    n == 0 || (IndexOf(s, ',') < |s| && Commas(s[IndexOf(s, ',') + 1..], n - 1))
  }

  /** What follows the n-th comma. */
  function AfterCommas(s: string, n: nat): string
    requires Commas(s, n)
    decreases n
  {
    if n == 0 then s else AfterCommas(s[IndexOf(s, ',') + 1..], n - 1)
  }

  lemma {:induction false} NextRest(s: string, n: nat)
    requires Commas(s, n) && IndexOf(AfterCommas(s, n), ',') < |AfterCommas(s, n)|
    ensures Commas(s, n + 1)
    ensures AfterCommas(s, n + 1) == AfterCommas(s, n)[IndexOf(AfterCommas(s, n), ',') + 1..]
    decreases n
  {
    hide IndexOf;
    if n > 0 {
      NextRest(s[IndexOf(s, ',') + 1..], n - 1);
    }
  }

  lemma {:induction false} LastPiece(s: string, n: nat)
    requires Commas(s, n)
    ensures var pieces := SplitN(s, ',', n + 1); pieces[|pieces| - 1] == AfterCommas(s, n)
    decreases n
  {
    if n > 0 {
      LastPiece(s[IndexOf(s, ',') + 1..], n - 1);
    }
  }

  // ---------------------------------------------------------------------------------------------------------
  // Round trip

  /** A user name as one would type it. */
  predicate IsName(u: string) {
    IsWord(u) && ',' !in u && u[0] != '@'
  }

  /** A message that has nothing to trim. */
  predicate IsTrimmed(m: string) {
    m != "" && !IsSpace(m[0]) && !IsSpace(m[|m| - 1])
  }

  function At(u: string): string {
    "@" + u
  }

  /** "@u1, @u2, ..., @un m" */
  function Print(names: seq<string>, message: string): string
    requires names != []
  {
    if |names| == 1 then At(names[0]) + (" " + message)
    else At(names[0]) + ("," + (" " + Print(names[1..], message)))
  }

  lemma AtName(u: string)
    requires IsName(u)
    ensures IsWord(At(u)) && ',' !in At(u) && TrimPrefix(At(u), "@") == u && Fields(u) == [u]
  {
    FieldsOfWord(u, "");
    assert u + "" == u && [u] + [] == [u];
    assert At(u)[1..] == u;
  }

  /** A piece that is one name. */
  lemma ParseName(before: string, u: string, after: string, rest: string)
    requires IsName(u) && IsBlank(before) && IsBlank(after)
    ensures Parse((before + (At(u) + after)) + ("," + rest)) == ([u] + Parse(rest).0, Parse(rest).1)
  {
    var piece := before + (At(u) + after);
    AtName(u);
    TrimWord(before, At(u), after);
    ParsePiece(piece, rest, u);
  }

  lemma ParsePiece(piece: string, rest: string, u: string)
    requires ',' !in piece && Fields(TrimPrefix(TrimSpace(piece), "@")) == [u]
    ensures Parse(piece + ("," + rest)) == ([u] + Parse(rest).0, Parse(rest).1)
  {
    var line := piece + ("," + rest);
    IndexOfAppend(piece, "," + rest, ',');
    assert line[..|piece|] == piece && line[|piece| + 1..] == rest;
  }

  /** The last piece: a name and the message. */
  lemma ParseLast(before: string, u: string, m: string)
    requires IsName(u) && IsBlank(before) && IsTrimmed(m) && m[0] != ','
    ensures Parse(before + (At(u) + (" " + m))) == ([u], m)
  {
    var i := IndexOf(m, ',');
    FirstPiece(before, u, m);
    NameAndText(before, u, m[..i]);
    NameAndText(before, u, m);
    TextFields(u, m[..i]);
    TakeMessage(u, m);
  }

  lemma FirstPiece(before: string, u: string, m: string)
    requires IsName(u) && IsBlank(before)
    ensures var line, i := before + (At(u) + (" " + m)), IndexOf(m, ',');
      var k := IndexOf(line, ','); k <= |line| && line[..k] == before + (At(u) + (" " + m[..i]))
  {
    hide IndexOf;
    AtName(u);
    var head := before + (At(u) + " ");
    assert before + (At(u) + (" " + m)) == head + m;
    assert ',' !in head;
    IndexOfAppend(head, m, ',');
    var i := IndexOf(m, ',');
    assert (head + m)[..|head| + i] == head + m[..i];
    assert head + m[..i] == before + (At(u) + (" " + m[..i]));
  }

  lemma NameAndText(before: string, u: string, x: string)
    requires IsName(u) && IsBlank(before) && x != "" && !IsSpace(x[0])
    ensures TrimPrefix(TrimSpace(before + (At(u) + (" " + x))), "@") == u + (" " + TrimRight(x))
  {
    TrimNamed(before, u, x);
    StripAt(u, " " + TrimRight(x));
  }

  lemma TrimNamed(before: string, u: string, x: string)
    requires IsName(u) && IsBlank(before) && x != "" && !IsSpace(x[0])
    ensures TrimSpace(before + (At(u) + (" " + x))) == At(u) + (" " + TrimRight(x))
  {
    hide TrimLeft, TrimRight;
    var body, head := At(u) + (" " + x), At(u) + " ";
    TrimLeftBlank(before, body);
    TrimRightAppend(head, x);
    Regroup(At(u), " ", x);
    Regroup(At(u), " ", TrimRight(x));
  }

  lemma Regroup(a: string, b: string, c: string)
    ensures a + (b + c) == (a + b) + c
  {}

  lemma StripAt(u: string, y: string)
    ensures TrimPrefix(At(u) + y, "@") == u + y
  {
    assert (At(u) + y)[1..] == u + y;
  }

  lemma TextFields(u: string, x: string)
    requires IsName(u) && x != "" && !IsSpace(x[0])
    ensures var words := Fields(u + (" " + TrimRight(x))); |words| > 1 && words[0] == u
  {
    var text := TrimRight(x);
    TrimRightAppend("", x);
    FieldsOfWord(u, " " + text);
    FieldsNonEmpty(text);
    assert (" " + text)[1..] == text;
  }

  lemma TakeMessage(u: string, m: string)
    requires IsTrimmed(m)
    ensures TrimSpace(TrimPrefix(u + (" " + TrimRight(m)), u)) == m
  {
    assert (u + (" " + m))[|u|..] == " " + m;
    TrimLeftBlank(" ", m);
  }

  lemma {:induction false} ParsePrinted(before: string, names: seq<string>, m: string)
    requires names != [] && IsBlank(before) && (forall u | u in names :: IsName(u)) && IsTrimmed(m) && m[0] != ','
    ensures Parse(before + Print(names, m)) == (names, m)
    decreases |names|
  {
    hide Parse;
    var u := names[0];
    if |names| == 1 {
      assert names == [u];
      ParseLast(before, u, m);
    } else {
      var rest := " " + Print(names[1..], m);
      NameThenComma(before, u, rest);
      ParseName(before, u, "", rest);
      ParsePrinted(" ", names[1..], m);
      assert [u] + names[1..] == names;
    }
  }

  lemma NameThenComma(before: string, u: string, rest: string)
    ensures before + (At(u) + ("," + rest)) == (before + (At(u) + "")) + ("," + rest)
  {}

  lemma {:induction false} NoNamesNoMessage(rest: string)
    ensures Parse(rest).0 == [] ==> Parse(rest).1 == ""
    decreases |rest|
  {
    hide Fields, TrimSpace, TrimPrefix;
    var i := IndexOf(rest, ',');
    if i < |rest| {
      NoNamesNoMessage(rest[i + 1..]);
    }
  }

  /** A message that starts with a comma is taken apart. */
  lemma {:induction false} CommaFirstIsLost(before: string, names: seq<string>, m: string)
    requires names != [] && IsBlank(before) && (forall u | u in names :: IsName(u)) && IsTrimmed(m) && m[0] == ','
    ensures |Parse(before + Print(names, m)).0| > |names| || Parse(before + Print(names, m)).1 == ""
    decreases |names|
  {
    hide Parse;
    var u := names[0];
    if |names| == 1 {
      assert before + (At(u) + (" " + m)) == (before + (At(u) + " ")) + ("," + m[1..]);
      ParseName(before, u, " ", m[1..]);
      NoNamesNoMessage(m[1..]);
    } else {
      var rest := " " + Print(names[1..], m);
      NameThenComma(before, u, rest);
      ParseName(before, u, "", rest);
      CommaFirstIsLost(" ", names[1..], m);
    }
  }

  /** Round trip: printing names and a message and parsing the line gives back exactly the names and the message,
      commas in the message included, if and only if the message does not start with a comma. */
  lemma RoundTripIff(names: seq<string>, m: string)
    requires names != [] && (forall u | u in names :: IsName(u)) && IsTrimmed(m)
    ensures Parse(Print(names, m)) == (names, m) <==> m[0] != ','
  {
    assert "" + Print(names, m) == Print(names, m);
    if m[0] != ',' {
      ParsePrinted("", names, m);
    } else {
      CommaFirstIsLost("", names, m);
    }
  }

  // ---------------------------------------------------------------------------------------------------------
  // Recipients

  type UserId = string

  /** What the command goes on to do. */
  datatype Outcome =
    | InvalidUsers(names: seq<string>)
    | DirectMessage(to: UserId, message: string)
    | TooFewUsers
    | TooManyUsers
    | GroupChannel(ids: seq<UserId>, message: string)

  /** The form in which a name is looked up. */
  function LookupName(username: string): string {
    TrimPrefix(TrimSpace(username), "@")
  }

  /** The ids of the users found, without repetition and without the sender, in the order of first mention. */
  function Others(users: seq<string>, sender: UserId, directory: map<string, UserId>): (ids: seq<UserId>)
    ensures forall id :: id in ids <==>
      id != sender && exists k :: 0 <= k < |users| && LookupName(users[k]) in directory && directory[LookupName(users[k])] == id
    ensures Distinct(ids)
  {
    if users == [] then []
    else
      var before, name := Others(users[..|users| - 1], sender, directory), LookupName(users[|users| - 1]);
      if name !in directory || directory[name] == sender || directory[name] in before then before
      else before + [directory[name]]
  }

  /** A name may be typed with blanks around it and a sign before it. */
  lemma LookupTyped(before: string, u: string, after: string)
    requires IsName(u) && IsBlank(before) && IsBlank(after)
    ensures LookupName(before + (At(u) + after)) == u && LookupName(before + (u + after)) == u
  {
    AtName(u);
    TrimWord(before, At(u), after);
    TrimWord(before, u, after);
  }

  /** The names that are looked up. */
  function Asked(users: seq<string>): set<string> {
    set k | 0 <= k < |users| :: LookupName(users[k])
  }

  lemma AskedNext(users: seq<string>)
    requires users != []
    ensures Asked(users) == Asked(users[..|users| - 1]) + {LookupName(users[|users| - 1])}
  {
    hide LookupName;
    var front := users[..|users| - 1];
    forall n ensures n in Asked(users) <==> n in Asked(front) || n == LookupName(users[|users| - 1]) {
      if k :| 0 <= k < |users| && LookupName(users[k]) == n {
        if k < |front| {
          assert front[k] == users[k];
        }
      }
      if k :| 0 <= k < |front| && LookupName(front[k]) == n {
        assert users[k] == front[k];
      }
    }
  }

  lemma {:induction false} UnknownAsked(users: seq<string>, directory: map<string, UserId>)
    ensures forall n :: n in Unknown(users, directory) <==> n in Asked(users) && n !in directory
  {
    hide LookupName, Asked;
    if users != [] {
      UnknownAsked(users[..|users| - 1], directory);
      AskedNext(users);
    } else {
      NoneAsked();
    }
  }

  lemma NoneAsked()
    ensures Asked([]) == {}
  {}

  lemma {:induction false} OthersAsked(users: seq<string>, sender: UserId, directory: map<string, UserId>)
    ensures forall id :: id in Others(users, sender, directory) <==>
      id != sender && exists n :: n in Asked(users) && n in directory && directory[n] == id
  {
    hide LookupName, Asked;
    if users != [] {
      OthersAsked(users[..|users| - 1], sender, directory);
      AskedNext(users);
    } else {
      NoneAsked();
    }
  }

  /** The names that are not found, in order. */
  function Unknown(users: seq<string>, directory: map<string, UserId>): seq<string> {
    if users == [] then []
    else
      var before, name := Unknown(users[..|users| - 1], directory), LookupName(users[|users| - 1]);
      if name in directory then before else before + [name]
  }

  lemma AllDistinct(sender: UserId, others: seq<UserId>)
    requires sender !in others && Distinct(others)
    ensures Distinct([sender] + others)
  {
    assert forall j | 0 <= j < |others| :: others[j] in others;
  }

  /** What the command goes on to do with these names and this message. */
  function Decided(sender: UserId, users: seq<string>, text: string, directory: map<string, UserId>): Outcome {
    var unknown, ids := Unknown(users, directory), [sender] + Others(users, sender, directory);
    if unknown != [] then InvalidUsers(unknown)
    else if |ids| == 2 then DirectMessage(ids[1], text)
    else if |ids| < ChannelMembership.CHANNEL_GROUP_MIN_USERS then TooFewUsers
    else if |ids| > ChannelMembership.CHANNEL_GROUP_MAX_USERS then TooManyUsers
    else GroupChannel(ids, text)
  }

  /** The other users that the names stand for. */
  ghost predicate IsOther(sender: UserId, users: seq<string>, directory: map<string, UserId>, id: UserId) {
    id != sender && exists n :: n in Asked(users) && n in directory && directory[n] == id
  }

  ghost predicate AreOthers(sender: UserId, users: seq<string>, directory: map<string, UserId>, ids: set<UserId>) {
    forall id | id in ids :: IsOther(sender, users, directory, id)
  }

  /** Some unknown name stops the command, and exactly the unknown ones are reported. Otherwise the one other user gets
      a direct message, or the sender and 2 to 7 others, each once, a group channel. */
  ghost predicate Proper(sender: UserId, users: seq<string>, text: string, directory: map<string, UserId>, outcome: Outcome) {
    && (outcome.InvalidUsers? <==> exists n :: n in Asked(users) && n !in directory)
    && match outcome
       case InvalidUsers(names) => forall n :: n in names <==> n in Asked(users) && n !in directory
       case DirectMessage(to, message) =>
         message == text && forall id :: IsOther(sender, users, directory, id) <==> id == to
       case TooFewUsers => forall id :: !IsOther(sender, users, directory, id)
       case TooManyUsers => exists ids: set<UserId> :: |ids| > 7 && AreOthers(sender, users, directory, ids)
       case GroupChannel(ids, message) =>
         && message == text && 3 <= |ids| <= 8 && Distinct(ids) && sender in ids
         && forall id | id != sender :: id in ids <==> IsOther(sender, users, directory, id)
  }

  lemma DecidedIsProper(sender: UserId, users: seq<string>, text: string, directory: map<string, UserId>)
    ensures Proper(sender, users, text, directory, Decided(sender, users, text, directory))
  {
    hide LookupName, Asked, Unknown, Others;
    var unknown, others := Unknown(users, directory), Others(users, sender, directory);
    UnknownAsked(users, directory);
    OthersAsked(users, sender, directory);
    if unknown != [] {
      assert unknown[0] in unknown;
    }
    AllDistinct(sender, others);
    assert others != [] ==> others[0] in others;
    assert forall id :: id in others <==> IsOther(sender, users, directory, id);
    hide IsOther;
    if unknown == [] && |others| > 7 {
      DistinctElements(others);
      assert AreOthers(sender, users, directory, Elements(others));
    }
  }

  method DoCommand(sender: UserId, message: string, directory: map<string, UserId>) returns (outcome: Outcome)
    ensures var (users, text) := Parse(message);
      && outcome == Decided(sender, users, text, directory)
      && Proper(sender, users, text, directory, outcome)
  {
    hide Parse, LookupName, Proper;
    var targetUsers: set<UserId> := {};
    var targetUsersSlice := [sender];
    var invalidUsernames := [];
    var users, parsedMessage := GroupMsgUsernames(message);
    DecidedIsProper(sender, users, parsedMessage, directory);
    for k := 0 to |users|
      invariant targetUsersSlice == [sender] + Others(users[..k], sender, directory)
      invariant forall id :: id in targetUsers <==> id in Others(users[..k], sender, directory)
      invariant invalidUsernames == Unknown(users[..k], directory)
    {
      assert users[..k + 1][..k] == users[..k];
      var username := LookupName(users[k]);
      if username !in directory {
        invalidUsernames := invalidUsernames + [username];
      } else {
        var targetUser := directory[username];
        if targetUser !in targetUsers && targetUser != sender {
          targetUsers := targetUsers + {targetUser};
          targetUsersSlice := targetUsersSlice + [targetUser];
        }
      }
    }
    assert users[..|users|] == users;
    if |invalidUsernames| > 0 {
      return InvalidUsers(invalidUsernames);
    }
    if |targetUsersSlice| == 2 {
      return DirectMessage(targetUsersSlice[1], parsedMessage);
    }
    if |targetUsersSlice| < ChannelMembership.CHANNEL_GROUP_MIN_USERS {
      return TooFewUsers;
    }
    if |targetUsersSlice| > ChannelMembership.CHANNEL_GROUP_MAX_USERS {
      return TooManyUsers;
    }
    return GroupChannel(targetUsersSlice, parsedMessage);
  }
}
