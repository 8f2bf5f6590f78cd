/**
 Channel member roles (app/channel.go): decoding a role string into scheme flags and explicit roles, and the other
 places that store a member's flags.
 */
module ChannelRoles {
  import opened Collections
  import opened GoStrings
  import opened Wrappers

  datatype RoleError =
    | MemberNotFound | SchemeLookupFailed | UnknownRole(name: string) | NotInScheme(name: string)
    | GuestAndUser | ChangingGuest | StoreFailed

  datatype Member = Member(schemeGuest: bool, schemeUser: bool, schemeAdmin: bool, explicitRoles: string)

  type MemberKey = (string, string)

  /** The names of the channel's scheme roles; they need not differ. */
  datatype Scheme = Scheme(guest: string, user: string, admin: string)

  /** Every role by name: is it managed by schemes? */
  type Roles = map<string, bool>

  datatype Decoded = Decoded(guest: bool, user: bool, admin: bool, explicit: seq<string>)

  const CHANNEL_ROLE_IDS := ["channel_guest", "channel_user", "channel_admin"]

  // ---------------------------------------------------------------------------------------------------------
  // Specification

  function DecodeWord(roles: Roles, scheme: Scheme, d: Decoded, word: string): Result<Decoded, RoleError> {
    if word !in roles then Err(UnknownRole(word))
    else if !roles[word] then Ok(d.(explicit := d.explicit + [word]))
    else if word == scheme.admin then Ok(d.(admin := true))
    else if word == scheme.user then Ok(d.(user := true))
    else if word == scheme.guest then Ok(d.(guest := true))
    else Err(NotInScheme(word))
  }

  function Decode(roles: Roles, scheme: Scheme, words: seq<string>): Result<Decoded, RoleError> {
    if words == [] then Ok(Decoded(false, false, false, []))
    else
      var before := Decode(roles, scheme, words[..|words| - 1]);
      if before.Err? then before else DecodeWord(roles, scheme, before.value, words[|words| - 1])
  }

  predicate Explicit(roles: Roles, word: string) {
    word in roles && !roles[word]
  }

  predicate InScheme(roles: Roles, scheme: Scheme, word: string) {
    word in roles && roles[word] && (word == scheme.admin || word == scheme.user || word == scheme.guest)
  }

  function ExplicitWords(roles: Roles, words: seq<string>): seq<string> {
    if words == [] then []
    else
      var before, word := ExplicitWords(roles, words[..|words| - 1]), words[|words| - 1];
      if Explicit(roles, word) then before + [word] else before
  }

  /** The scheme roles whose flags are set. */
  function Flagged(scheme: Scheme, d: Decoded): set<string> {
    (if d.admin then {scheme.admin} else {}) + (if d.user then {scheme.user} else {}) + (if d.guest then {scheme.guest} else {})
  }

  predicate Decodable(roles: Roles, scheme: Scheme, word: string) {
    Explicit(roles, word) || InScheme(roles, scheme, word)
  }

  lemma WordDecodes(roles: Roles, scheme: Scheme, d: Decoded, word: string)
    ensures DecodeWord(roles, scheme, d, word).Ok? <==> Decodable(roles, scheme, word)
  {}

  /** Decoding succeeds exactly if every word is an explicit role or one of the scheme's roles. */
  lemma {:induction false} DecodeSucceedsIff(roles: Roles, scheme: Scheme, words: seq<string>)
    ensures Decode(roles, scheme, words).Ok? <==> forall w | w in words :: Decodable(roles, scheme, w)
  {
    hide DecodeWord, Decodable;
    if words != [] {
      var before, last := words[..|words| - 1], words[|words| - 1];
      DecodeSucceedsIff(roles, scheme, before);
      if Decode(roles, scheme, before).Ok? {
        WordDecodes(roles, scheme, Decode(roles, scheme, before).value, last);
      }
      assert forall w :: w in words <==> w in before || w == last by {
        assert words == before + [last];
      }
    }
  }

  lemma WordKept(roles: Roles, scheme: Scheme, d: Decoded, word: string)
    requires DecodeWord(roles, scheme, d, word).Ok?
    ensures var e := DecodeWord(roles, scheme, d, word).value;
      && (forall w :: w in e.explicit || w in Flagged(scheme, e) <==> w in d.explicit || w in Flagged(scheme, d) || w == word)
      && e.explicit == if Explicit(roles, word) then d.explicit + [word] else d.explicit
  {}

  /** Decoding loses nothing: the words are the explicit roles and the scheme roles whose flags are set; the explicit
      roles are the words that are not scheme-managed, in their order. */
  lemma {:induction false} DecodeLosesNothing(roles: Roles, scheme: Scheme, words: seq<string>)
    requires Decode(roles, scheme, words).Ok?
    ensures var d := Decode(roles, scheme, words).value;
      && (forall w :: w in words <==> w in d.explicit || w in Flagged(scheme, d))
      && d.explicit == ExplicitWords(roles, words)
  {
    if words != [] {
      hide DecodeWord, Flagged, Explicit;
      var before, last := words[..|words| - 1], words[|words| - 1];
      DecodeLosesNothing(roles, scheme, before);
      WordKept(roles, scheme, Decode(roles, scheme, before).value, last);
      assert words == before + [last];
    }
  }

  /** The first word that is none of them. */
  ghost predicate FirstBad(roles: Roles, scheme: Scheme, words: seq<string>, k: nat) {
    k < |words| && !Decodable(roles, scheme, words[k]) && forall j | 0 <= j < k :: Decodable(roles, scheme, words[j])
  }

  /** Its name is in the error of a failed decoding. */
  lemma {:induction false} DecodeNamesFirstBadWord(roles: Roles, scheme: Scheme, words: seq<string>) returns (k: nat)
    requires Decode(roles, scheme, words).Err?
    ensures FirstBad(roles, scheme, words, k)
    ensures Decode(roles, scheme, words).error == if words[k] in roles then NotInScheme(words[k]) else UnknownRole(words[k])
  {
    hide Decodable, DecodeWord;
    var before, last := words[..|words| - 1], words[|words| - 1];
    if Decode(roles, scheme, before).Err? {
      k := DecodeNamesFirstBadWord(roles, scheme, before);
      assert forall j | 0 <= j <= k :: words[j] == before[j];
    } else {
      k := |words| - 1;
      DecodeSucceedsIff(roles, scheme, before);
      BadWord(roles, scheme, Decode(roles, scheme, before).value, last);
      forall j | 0 <= j < k ensures Decodable(roles, scheme, words[j]) {
        assert words[j] == before[j] && before[j] in before;
      }
    }
  }

  lemma BadWord(roles: Roles, scheme: Scheme, d: Decoded, word: string)
    requires DecodeWord(roles, scheme, d, word).Err?
    ensures !Decodable(roles, scheme, word)
    ensures DecodeWord(roles, scheme, d, word).error == if word in roles then NotInScheme(word) else UnknownRole(word)
  {}

  lemma ExplicitWord(roles: Roles, w: string)
    ensures ExplicitWords(roles, [w]) == if w in roles && !roles[w] then [w] else []
  {
    assert [w][..0] == [];
  }

  /** The explicit words keep their order and number: they are taken word by word (ExplicitWord). */
  lemma {:induction false} ExplicitWordsJoin(roles: Roles, a: seq<string>, b: seq<string>)
    ensures ExplicitWords(roles, a + b) == ExplicitWords(roles, a) + ExplicitWords(roles, b)
  {
    hide Explicit;
    if b == [] {
      assert a + b == a;
    } else {
      var front, last := b[..|b| - 1], b[|b| - 1];
      ExplicitWordsJoin(roles, a, front);
      assert (a + b)[..|a + b| - 1] == a + front;
      assert (a + b)[|a + b| - 1] == last;
    }
  }

  lemma ExplicitWordsFromWords(roles: Roles, words: seq<string>)
    ensures forall w | w in ExplicitWords(roles, words) :: w in words
  {}

  /** What a successful update means for the member that is stored: its guest flag is the old one, it is not both
      guest and user, and its roles, read back, are the words of the request. */
  ghost predicate Reflects(roles: Roles, scheme: Scheme, newRoles: string, before: Member, after: Member) {
    var d := Decoded(after.schemeGuest, after.schemeUser, after.schemeAdmin, Fields(after.explicitRoles));
    && after.schemeGuest == before.schemeGuest
    && !(after.schemeGuest && after.schemeUser)
    && d.explicit == ExplicitWords(roles, Fields(newRoles))
    && (forall w :: w in Fields(newRoles) <==> w in d.explicit || w in Flagged(scheme, d))
  }

  lemma DecodedReflects(roles: Roles, scheme: Scheme, newRoles: string, d: Decoded, member: Member)
    requires Decode(roles, scheme, Fields(newRoles)) == Ok(d)
    requires d.guest == member.schemeGuest && !(d.user && d.guest)
    ensures Reflects(roles, scheme, newRoles, member, Member(d.guest, d.user, d.admin, Join(d.explicit, " ")))
  {
    var words := Fields(newRoles);
    DecodeLosesNothing(roles, scheme, words);
    ExplicitWordsFromWords(roles, words);
    FieldsOfJoin(d.explicit);
  }

  /** The words that are kept when roles are removed from a role string. */
  function Without(words: seq<string>, removed: seq<string>): seq<string> {
    if words == [] then []
    else
      var before, word := Without(words[..|words| - 1], removed), words[|words| - 1];
      if word in removed then before else before + [word]
  }

  lemma {:induction false} WithoutWords(words: seq<string>, removed: seq<string>)
    ensures forall w :: w in Without(words, removed) <==> w in words && w !in removed
  {
    if words != [] {
      var before, word := words[..|words| - 1], words[|words| - 1];
      WithoutWords(before, removed);
      assert words == before + [word];
    }
  }

  lemma WithoutOne(w: string, removed: seq<string>)
    ensures Without([w], removed) == if w in removed then [] else [w]
  {
    assert [w][..0] == [];
  }

  /** What is kept stays in order and number: it is taken word by word (WithoutOne). */
  lemma {:induction false} WithoutJoin(a: seq<string>, b: seq<string>, removed: seq<string>)
    ensures Without(a + b, removed) == Without(a, removed) + Without(b, removed)
  {
    if b == [] {
      assert a + b == a;
    } else {
      hide Without;
      var front, last := b[..|b| - 1], b[|b| - 1];
      WithoutJoin(a, front, removed);
      assert (a + b)[..|a + b| - 1] == a + front;
      WithoutNext(a + b, removed);
      WithoutNext(b, removed);
      assert (a + b)[|a + b| - 1] == last;
      Reassociate(Without(a, removed), Without(front, removed), [last]);
    }
  }

  lemma WithoutNext(words: seq<string>, removed: seq<string>)
    requires words != []
    ensures var before, word := Without(words[..|words| - 1], removed), words[|words| - 1];
      Without(words, removed) == if word in removed then before else before + [word]
  {}

  // ---------------------------------------------------------------------------------------------------------
  // The code

  class MemberStore {
    var members: map<MemberKey, Member>

    constructor ()
      ensures Valid() && members == map[]
    {
      members := map[];
    }

    /** No stored member is both guest and user. */
    ghost predicate Valid()
      reads this
    {
      forall k | k in members :: !(members[k].schemeGuest && members[k].schemeUser)
    }

    method Update(key: MemberKey, member: Member, fails: bool) returns (r: Result<Member, RoleError>)
      modifies this
      ensures fails ==> r == Err(StoreFailed) && members == old(members)
      ensures !fails ==> r == Ok(member) && members == old(members)[key := member]
    {
      if fails {
        return Err(StoreFailed);
      }
      members := members[key := member];
      return Ok(member);
    }

    /** Lines 910-920, 222-233 and 454-464: a new member of a channel. */
    method Create(key: MemberKey, isGuest: bool, isAdmin: bool, fails: bool) returns (r: Result<Member, RoleError>)
      requires Valid()
      modifies this
      ensures Valid()
      ensures r.Ok? <==> !fails && key !in old(members)
      ensures members == if r.Ok? then old(members)[key := Member(isGuest, !isGuest, isAdmin, "")] else old(members)
    {
      if key in members {
        return Err(StoreFailed);
      }
      r := Update(key, Member(isGuest, !isGuest, isAdmin, ""), fails);
    }

    /** Sets a member's roles from a role string. A failure stores nothing. */
    method UpdateChannelMemberRoles(key: MemberKey, newRoles: string, roles: Roles, schemeRoles: Option<Scheme>, fails: bool)
      returns (r: Result<Member, RoleError>)
      requires Valid()
      modifies this
      ensures Valid()
      ensures r.Err? ==> members == old(members)
      ensures r.Ok? ==>
        && key in old(members) && schemeRoles.Some? && members == old(members)[key := r.value]
        && Reflects(roles, schemeRoles.value, newRoles, old(members)[key], r.value)
      ensures if key !in old(members) then r == Err(MemberNotFound)
        else if schemeRoles.None? then r == Err(SchemeLookupFailed)
        else
          var d := Decode(roles, schemeRoles.value, Fields(newRoles));
          if d.Err? then r == Err(d.error)
          else if d.value.user && d.value.guest then r == Err(GuestAndUser)
          else if d.value.guest != old(members)[key].schemeGuest then r == Err(ChangingGuest)
          else if fails then r == Err(StoreFailed)
          else r.Ok?
    {
      if key !in members {
        return Err(MemberNotFound);
      }
      if schemeRoles.None? {
        return Err(SchemeLookupFailed);
      }
      var member, scheme := members[key], schemeRoles.value;
      var prevSchemeGuestValue := member.schemeGuest;
      var decoded := DecodeRoles(roles, scheme, Fields(newRoles));
      if decoded.Err? {
        return Err(decoded.error);
      }
      var d := decoded.value;
      if d.user && d.guest {
        return Err(GuestAndUser);
      }
      if prevSchemeGuestValue != d.guest {
        return Err(ChangingGuest);
      }
      DecodedReflects(roles, scheme, newRoles, d, member);
      r := Update(key, Member(d.guest, d.user, d.admin, Join(d.explicit, " ")), fails);
    }

    /** Sets a member's scheme flags; before the roles migration has finished, also drops the three channel roles
        from its explicit roles. A failure stores nothing. */
    method UpdateChannelMemberSchemeRoles(key: MemberKey, guest: bool, user: bool, admin: bool, migrated: bool, fails: bool)
      returns (r: Result<Member, RoleError>)
      requires Valid()
      modifies this
      ensures Valid()
      ensures r.Err? ==> members == old(members)
      ensures r.Ok? ==>
        && key in old(members) && members == old(members)[key := r.value]
        && r.value.schemeGuest == guest && r.value.schemeUser == user && r.value.schemeAdmin == admin
        && (migrated ==> r.value.explicitRoles == old(members)[key].explicitRoles)
        && (!migrated ==> Fields(r.value.explicitRoles) == Without(Fields(old(members)[key].explicitRoles), CHANNEL_ROLE_IDS))
      ensures r.Ok? <==> key in old(members) && !(guest && user) && !fails
    {
      if key !in members {
        return Err(MemberNotFound);
      }
      if user && guest {
        return Err(GuestAndUser);
      }
      var explicitRoles := members[key].explicitRoles;
      if !migrated {
        explicitRoles := RemoveRoles(CHANNEL_ROLE_IDS, explicitRoles);
      }
      r := Update(key, Member(guest, user, admin, explicitRoles), fails);
    }
  }

  /** Lines 669-698: the loop over the requested roles. */
  method DecodeRoles(roles: Roles, scheme: Scheme, words: seq<string>) returns (r: Result<Decoded, RoleError>)
    ensures r == Decode(roles, scheme, words)
  {
    var guest, user, admin, newExplicitRoles := false, false, false, [];
    for i := 0 to |words|
      invariant Decode(roles, scheme, words[..i]) == Ok(Decoded(guest, user, admin, newExplicitRoles))
    {
      var roleName := words[i];
      assert words[..i + 1][..i] == words[..i];
      if roleName !in roles {
        r := Err(UnknownRole(roleName));
        StaysFailed(roles, scheme, words, i + 1);
        return;
      }
      if !roles[roleName] {
        newExplicitRoles := newExplicitRoles + [roleName];
      } else if roleName == scheme.admin {
        admin := true;
      } else if roleName == scheme.user {
        user := true;
      } else if roleName == scheme.guest {
        guest := true;
      } else {
        r := Err(NotInScheme(roleName));
        StaysFailed(roles, scheme, words, i + 1);
        return;
      }
    }
    assert words[..|words|] == words;
    r := Ok(Decoded(guest, user, admin, newExplicitRoles));
  }

  lemma {:induction false} StaysFailed(roles: Roles, scheme: Scheme, words: seq<string>, n: nat)
    requires n <= |words| && Decode(roles, scheme, words[..n]).Err?
    ensures Decode(roles, scheme, words) == Decode(roles, scheme, words[..n])
    decreases |words| - n
  {
    if n == |words| {
      assert words[..n] == words;
    } else {
      assert words[..n + 1][..n] == words[..n];
      StaysFailed(roles, scheme, words, n + 1);
    }
  }

  method RemoveRoles(rolesToRemove: seq<string>, roles: string) returns (rest: string)
    ensures Fields(rest) == Without(Fields(roles), rolesToRemove)
  {
    var roleList, newRoles := Fields(roles), [];
    for i := 0 to |roleList|
      invariant newRoles == Without(roleList[..i], rolesToRemove)
    {
      assert roleList[..i + 1][..i] == roleList[..i];
      if roleList[i] !in rolesToRemove {
        newRoles := newRoles + [roleList[i]];
      }
    }
    assert roleList[..|roleList|] == roleList;
    WithoutWords(roleList, rolesToRemove);
    FieldsOfJoin(newRoles);
    rest := Join(newRoles, " ");
  }
}
