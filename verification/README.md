# Mattermost: verified models of stateful server and build components

A Dafny model of the parts of the Mattermost server (`mattermost-server`) that keep state over many steps, and of the
asset script of the mobile client (`mattermost-mobile`), with proofs of what they keep over whole runs. One module per
component:

| file | component |
|---|---|
| `KeyAgreement.dfy` | first-boot agreement on the post-action cookie secret and the asymmetric signing key, as interleaved atomic steps of any number of servers over one table row |
| `FileUpload.dfy` | the two-pass multipart upload engine: tee-ing first pass, stream-mode replay, buffered legacy route |
| `EmailBatching.dfy` | the email batching job: bounded queue, pending map, drain loop and checking loop |
| `LogPager.dfy` | the log pager that scans a file backwards byte by byte |
| `BotTables.dfy`, `BotDisabling.dfy`, `BotCalls.dfy`, `Bots.dfy` | bot and user rows, who owns whom, the paging loop that disables an owner's bots and, through them, the bots below; when its recursion ends |
| `ChannelMentions.dfy` | batched filling of the `channel_mentions` property |
| `ChannelRoles.dfy` | decoding of channel member role strings, and every writer of member flags |
| `ChannelMembership.dfy` | adding, removing, leaving, group channels, and the membership history |
| `ChannelLeaving.dfy` | leaving concurrently, on member counts that are outdated |
| `ChannelHistory.dfy` | the rows of the membership history under concurrent adds and removals, whose checks are outdated and whose two writes are separate |
| `Authentication.dfy` | the login lockout counter, sequentially and under stale snapshots |
| `GroupMessage.dfy` | the `/groupmsg` argument parser and its recipient list |
| `MergeAssets.dfy` | the recursive merge of an asset tree with an override tree |
| `GoStrings.dfy`, `Int64.dfy`, `Collections.dfy`, `Wrappers.dfy` | Go's string functions and 64-bit arithmetic; facts about sets and sequences; Option and Result |

Code that updates state in place is a class or a method with loops; each such method is proved against a
specification function or predicate, and the lemmas are about those. Which store calls fail, clocks, random numbers,
password and token comparisons are parameters, so every statement holds whatever they do, and a contract says what
happens when they work. The order in which a map is visited, or a page is listed, is left open.

## What was found false, and what holds instead

- A call that makes sure the cookie secret exists can return nil and leave none: exactly if the row is an object
  without a secret (`KeyAgreement.NilErrorMeansKey`). A row is dereferenced as nil exactly if it is null or an object
  without an ECDSA key (`KeyAgreement.PanicsIff`).
- A viewed batch can still be emailed: deleting it from the map does not leave the visit. It is handed off exactly
  when it is due: `EmailBatching.ViewedBatchIsSentIffDue` reads this off the specification of a visit, which the code
  is proved to meet in `EmailBatching.EmailBatchingJob.VisitUser`.
- A batch is handed off only after its interval minus one second, but only for intervals of at most 9,223,372,036
  seconds; above, the product with a second overflows (`EmailBatching.TimelyIff`).
- A file is uploaded twice if the channel id is already set and a `channel_id` part follows the file
  (`FileUpload.ExactlyOnceIff`); the buffered route uploads only files of the field `files`.
- `disableUserBots` can go on forever exactly if 20 or more of the owner's active bots can fail every time
  (`BotDisabling.LoopEndsIff`); its listing is read from a replica, and with no bound on its lag one full page is enough
  (`BotDisabling.AnyLagEndsIff`).
- Deactivating a user or bot, where owners' bots are disabled with them, returns if and only if no active bot below it
  is on a cycle of ownership, that is, if it does not own itself (`BotCalls.ReturnsIff`,
  `BotCalls.ReturnsUnlessOwnsItself`). A user converted to a bot does (`BotCalls.ConvertedNeverReturns`).
- Leaving can empty a private channel: exactly if a count other than 1 may be read. The count is read earlier, from a
  replica, and counts active members only, so two members who leave together empty it, and so does a single one whose
  account is deactivated (`ChannelLeaving.ConcurrentLeavesEmptyIff`, `ChannelLeaving.PromptLeavesEmptyIff`,
  `ChannelMembership.LeavingNeverEmptiesIff`).
- `LeaveChannel` reports success when the user lookup fails: `ChannelMembership.LeavingReportsSuccess` reads this off
  the specification that the code is proved to meet in `ChannelMembership.App.LeaveChannel`.
- The history can end with an open row of a user who is no member, or without one of a member. Outdated checks alone
  do not do that (`ChannelHistory.CommitsAgree`): a second removal finds no open row and changes nothing
  (`ChannelHistory.RemovedTwice`). It takes a join and a leave of one user and channel whose log calls are outstanding
  together (`ChannelHistory.AgreesIffNeverTogether`), as when a removal runs between the two writes of an add
  (`ChannelHistory.RemovalInsideAdd`) or an add between those of a removal (`ChannelHistory.AddInsideRemoval`).
- Creating a group channel with an id given twice is refused only when its second membership is saved, if the profile
  is cached; the channel and the first memberships stay (`ChannelMembership.RepeatedIdLeavesPartOfAGroup`).
- A locked account is unlocked by a successful check that loaded the row before it was locked
  (`Authentication.LockIsStableIff`), or that loads an outdated copy of it (`Authentication.StaleLockIsStableIff`).
- `/groupmsg` loses a message that starts with a comma (`GroupMessage.RoundTripIff`).
- Filling mentions in a batch differs from filling one by one for a channel with a stale property and no mention
  (`ChannelMentions.BatchEqualsOneByOneIff`).
- A log page size of zero returns no line, or all lines if the content ends in a newline or is one byte long
  (`LogPager.GetLogsSkipSend`). A page far past the end is not empty when its product with the page size overflows:
  `LogPager.PastTheEndIff` and `LogPager.PageWrapsAround` read this off the page that `LogPager.GetLogsSkipSend` is
  proved to return.

## Model

| member | source | states |
|---|---|---|
| KeyAgreement.Agreement | mattermost-server/app/config.go:106-162 | in every interleaving of any number of servers, with failing reads, refused, lost and acknowledged inserts and restarts, a key held by one server at one time and a key held by any server at any later time are the same key, and it is the stored one |
| KeyAgreement.RowIsWriteOnce | mattermost-server/app/config.go:141-145 | once the row has a value, no continuation of any run changes it |
| KeyAgreement.NilErrorMeansKey | mattermost-server/app/config.go:106-162 | in every run, a server whose last call returned nil holds a key on the known curve, equal to the stored one, if and only if the row is not at first an object without a secret |
| KeyAgreement.EmptyRowInstallsNothing | mattermost-server/app/config.go:116-161 | over such a row (`{}`), an undisturbed call returns nil and the cache stays empty |
| KeyAgreement.PanicsIff | mattermost-server/app/config.go:147-222 | some run dereferences nil if and only if the row is null (in the second read) or an object without an ECDSA key (at the curve) |
| KeyAgreement.StoredKeyHasAnOrigin | mattermost-server/app/config.go:123-145 | a stored key that was not there at the start was generated by some server in the run |
| KeyAgreement.FirstBootIsSafe | mattermost-server/app/config.go:166-238 | if the row did not exist at first, no server ever dereferences nil, fails to decode or meets an unknown curve; calls fail only through the random source or the store |
| KeyAgreement.FirstBootLeadsHere | mattermost-server/app/config.go:106-238 | what EnsureKey asks of the table is met after every run that starts without a row |
| KeyAgreement.StoredKeyIsPickedUp | mattermost-server/app/config.go:116-121 | progress: with a usable row, one call whose read works returns nil and holds exactly the stored key |
| KeyAgreement.KeyHolder.EnsureKey | mattermost-server/app/config.go:109-162 | the code of one call, with any number of steps of other servers before each of its own, performs a run of the interleaving machine, from call to return or panic. If the random source and the store work, then on any table a first boot can have led to it returns nil with the stored key installed; undisturbed on an empty table it has stored its own key and installed it |
| KeyAgreement.KeyHolder.TrySave | mattermost-server/app/config.go:133-145 | without a row and with an insert that works, the new key is stored and is the one to install; with a row, or a refused insert, the table is unchanged and the second read follows; an insert whose acknowledgement is lost stores the key and the second read follows |
| KeyAgreement.KeyHolder.SecondRead | mattermost-server/app/config.go:147-158 | the second read must succeed: a missing row is an error here, a decoded null panics, and what it finds is what is installed |
| KeyAgreement.KeyHolder.FirstRead | mattermost-server/app/config.go:113-121 | a stored key is the one to install; no row, a null or a failed read lead to generating one; a row that does not decode is an error |
| KeyAgreement.KeyHolder.InstallKey | mattermost-server/app/config.go:160-235 | only a key on the known curve is installed; an unknown curve is an error, a missing secret is installed as nil without an error, and a missing ECDSA key panics |
| FileUpload.StreamUploadsExactlyOnce | mattermost-server/api4/file.go:331-434 | a successful stream-mode request uploads each named file part once, in body order; there are no client ids or one per file, file i goes with id i, all to one permitted channel, and the reply lists the answers and the ids in order |
| FileUpload.UploadsAtMostOnce | mattermost-server/api4/file.go:299-435 | however a request without a preset channel id ends, its upload calls are a prefix of its files in body order, all to one channel |
| FileUpload.ExactlyOnceIff | mattermost-server/api4/file.go:339-377 | for every initial channel id, a successful request uploads each named file exactly once if and only if no file precedes a `channel_id` part (id preset), or the request is not buffered or has all its files in the field `files` (id not preset) |
| FileUpload.UploadsArePermitted | mattermost-server/api4/file.go:379-387 | for every environment, body and initial channel id, whatever the outcome, every upload call is to a channel with a 26-character id that the session may upload to |
| FileUpload.StreamAcceptsIff | mattermost-server/api4/file.go:299-435 | which streamed bodies are accepted: exactly those with nothing broken, no value but client ids and one channel id, permitted if there are files, with no client ids or each before its file and as many, if the store takes each file |
| FileUpload.EmptyIdAcceptsIff | mattermost-server/api4/file.go:331-347 | the same where the first channel id is empty: the first other one takes its place, and no file may come before it |
| FileUpload.BufferAcceptsIff | mattermost-server/api4/file.go:440-517 | which buffered bodies are accepted: exactly those that can be read and fit, with a proper permitted first channel id, no client ids or one per file of the field `files`, if these open and the store takes them; and what is then uploaded |
| FileUpload.RefusalsHaveReasons | mattermost-server/api4/file.go:273-517 | each error of a refused request is about what its name says: the final channel id, the last upload call, or a part of the body |
| FileUpload.UploadedTwice | mattermost-server/api4/file.go:345-347 | with a preset channel id, a file followed by that channel id is uploaded twice and the request succeeds |
| FileUpload.TwoRoutesAgree | mattermost-server/api4/file.go:440-517 | if stream mode accepts a body, the buffered route accepts every body with the same files, client ids and channel id in their own orders and a file first, provided the buffered files open, with the same reply and the same upload calls |
| FileUpload.RouteDecides | mattermost-server/api4/file.go:268-297 | without a channel id the first pass uploads nothing and hands over the whole body: to stream mode on a channel id, to the buffered route on a file |
| FileUpload.PresetWithPart | mattermost-server/api4/file.go:343-347 | with a preset channel id, the first pass uploads the files before the first `channel_id` part and the replay then starts from the whole body again |
| FileUpload.StreamPairs | mattermost-server/api4/file.go:388-432 | the loop invariant at work: from any state of the scanning loop, success means files and client ids were paired in order |
| FileUpload.LegacyLoop | mattermost-server/api4/file.go:484-514 | if every file opens and every planned upload is accepted, the buffered loop succeeds, has made exactly the planned calls and returns their answers and the client ids |
| FileUpload.UploadFileMultipart | mattermost-server/api4/file.go:273-435 | the handler, over a body read ahead in chunks of any size, ends exactly as the scan of the whole body says, recursing at most once; every upload call it adds is permitted |
| FileUpload.HandlePart | mattermost-server/api4/file.go:302-422 | one part: which error, which new loop variables, or which replay |
| FileUpload.AcceptFile | mattermost-server/api4/file.go:379-422 | a file part in stream mode: checks in order, client id chosen, upload call made, reply extended |
| FileUpload.UploadFileMultipartLegacy | mattermost-server/api4/file.go:440-517 | the buffered handler ends exactly as specified on everything its reader still has, whichever form files fail to open, and every upload call it adds is to a channel with a proper id that the session may upload to |
| FileUpload.PartReader.NextPart | mattermost-server/api4/file.go:285-291 | what the tee copied plus what is unread is always the original body, however far the parser reads ahead |
| EmailBatching.Conservation | mattermost-server/app/email_batching.go:87-197 | over every interleaving of adds and checks, each user's accepted notifications are exactly those that left, then those pending, then those queued, in order |
| EmailBatching.HandOffsInOrderAtMostOnce | mattermost-server/app/email_batching.go:187-195 | a user's handed-off batches together are an in-order subsequence of the accepted notifications, and nothing is handed off more often than accepted |
| EmailBatching.LeavesOnlyForAReason | mattermost-server/app/email_batching.go:153-195 | every batch that left did so in a visit that found it due (handed off) or viewed (deleted) or both |
| EmailBatching.ViewedBatchIsSentIffDue | mattermost-server/app/email_batching.go:161-195 | a viewed batch is removed, and is still handed off exactly when it is due; read off the step that VisitUser is proved to take |
| EmailBatching.ViewedYetSent | mattermost-server/app/email_batching.go:161-195 | for every notification, a run in which its batch is viewed and handed off |
| EmailBatching.CheckLeavesNothingDue | mattermost-server/app/email_batching.go:133-197 | after a check that visits every pending user, with adds in between, exactly the batches that were neither due nor viewed are pending, unchanged; none is overdue by the code's clock |
| EmailBatching.WaitingGrows | mattermost-server/app/email_batching.go:113-131 | adding and draining leave each user's pending and queued notifications in place and in order |
| EmailBatching.OneTeamDecides | mattermost-server/app/email_batching.go:138-169 | against a store that answers one visit steadily, whatever teams a batch mentions only the team of its first notification decides whether it counts as viewed; read off what InspectTeams is proved to do |
| EmailBatching.TimelyIff | mattermost-server/app/email_batching.go:188 | being due implies that more than the interval minus one second has really passed, for all posts and all later clocks, if and only if the interval does not overflow |
| EmailBatching.SoonOverdue | mattermost-server/app/email_batching.go:188 | for every overflowing interval, a clock after the post at which a batch is handed off too early |
| EmailBatching.DueInTime | mattermost-server/app/email_batching.go:188 | once an interval that is not negative and does not overflow has passed, the batch is due |
| EmailBatching.EmailBatchingJob.Add | mattermost-server/app/email_batching.go:87-101 | appends at the end exactly while the buffer has room, otherwise refuses; never blocks |
| EmailBatching.EmailBatchingJob.HandleNewNotifications | mattermost-server/app/email_batching.go:113-131 | receives in order into the per-user batches until the queue is found empty, while others add, as a run of the machine |
| EmailBatching.EmailBatchingJob.CheckPendingNotifications | mattermost-server/app/email_batching.go:133-197 | visits every pending user exactly once in some order, each with its own store answers, while deleting from the map and while others add, as a run of the machine |
| EmailBatching.EmailBatchingJob.VisitUser | mattermost-server/app/email_batching.go:135-195 | one visit, with each of its queries answered on its own, is one step of the machine: the batch is handed off exactly if it is overdue by the user's interval, or by 900 seconds without one; it leaves exactly if it is due or viewed, and against a steady store viewed means that the team of its first notification has a channel viewed since its first post; no other batch changes |
| EmailBatching.EmailBatchingJob.CheckPendingEmails | mattermost-server/app/email_batching.go:103-111 | while others add: what was queued at the start reaches the batches in order; of the batches exactly the due ones are handed off, each once, and exactly those neither due nor viewed remain |
| LogPager.GetLogsSkipSend | mattermost-server/app/admin.go:50-119 | a file that can be read is paged without a newline at its end: cut before every newline, the page's lines counted from the end, in file order; a size of zero gives no line, or all if what is paged ends in a newline or is one byte long; for every 64-bit page and size the product is taken to 64 bits; an error if the file cannot be opened or has no content; reads that fail give an error, or for the last byte leave the trailing newline in |
| LogPager.CollectLines | mattermost-server/app/admin.go:75-109 | the backwards scan terminates and collects the page, last line first; it fails only on empty content or a failing read |
| LogPager.PagesTileTheFile | mattermost-server/app/admin.go:79-113 | for every positive page size, as long as no product overflows, the pages from the highest down to page 0 are exactly the segments and give back the content byte for byte |
| LogPager.PastTheEndIff | mattermost-server/app/admin.go:92 | a page past the end is empty if and only if the product still is past the end in 64 bits; read off the page that GetLogsSkipSend is proved to return |
| LogPager.SegmentsIsSegmentation | mattermost-server/app/admin.go:90-104 | the segments put together are the content, each is non-empty and has a newline at most as its first byte |
| LogPager.SegmentationIsUnique | mattermost-server/app/admin.go:90-104 | there is only one such decomposition |
| LogPager.Reverse | mattermost-server/app/admin.go:111-113 | the in-place swapping loop reverses the lines |
| BotDisabling.LoopEndsIff | mattermost-server/app/bot.go:147-178 | the paging loop ends after a bounded number of rounds, whatever pages are listed from states up to any fixed number of rounds old, and whatever the bots that may fail do, if and only if fewer than 20 of the owner's active bots may fail |
| BotDisabling.AnyLagEndsIff | mattermost-server/store/sqlstore/bot_store.go:118-172 | one bound for every lag exists if and only if no state that a replica may show has 20 active bots of the owner |
| BotDisabling.FullRoundsBounded | mattermost-server/app/bot.go:147-178 | the number of full pages is at most the lag plus lag + 1 times the number of active bots that cannot fail |
| Bots.App.DisableUserBots | mattermost-server/app/bot.go:147-178 | the loop terminates, also with any number of bots that fail for a time; unless a listing fails, every bot below the owner that never fails is inactive, with its user, and the owner's bots that always fail stay active; only bots below are touched; with no failing call it runs a finished tree of rounds |
| BotDisabling.ExactlyBelow | mattermost-server/app/bot.go:147-178 | where bots fail always or never, exactly the reached bots that never fail end up inactive, the others are as before |
| BotDisabling.RoundShrinks | mattermost-server/app/bot.go:162-171 | once the bots that fail only for a time work, a full page of which fewer than 20 fail without end takes at least one bot out of the listing |
| BotDisabling.RoundClears | mattermost-server/app/bot.go:162-174 | after a page that was not full everything below the owner is disabled, also what earlier rounds disabled half the way |
| BotCalls.ReturnsIff | mattermost-server/app/user.go:951-1009 | with no failing call and the cascade on, over the tree of calls that follows every bot of every page: deactivating a user or bot returns if and only if no active bot reachable from it is on a cycle of ownership |
| BotCalls.ReturnsUnlessOwnsItself | mattermost-server/app/user.go:951-1009 | equivalently, if it does not own itself; the deactivation of a user that is no bot always returns |
| BotCalls.ConvertedNeverReturns | mattermost-server/app/bot.go:180-187 | converting a user to a bot makes it own itself, so its deactivation never returns, whatever else it owns |
| BotCalls.ReassignedReturns | mattermost-server/app/bot.go:129-145 | given an owner that is no bot, it returns again, whatever active bots it owns |
| BotCalls.OwningEachOther | mattermost-server/app/bot.go:129-145 | two active bots that own each other: deactivating either never returns |
| Bots.ReadyIffReturns | mattermost-server/app/user.go:951-1009 | with no failing call, what the code below requires holds if and only if the deactivation returns |
| Bots.AllBelowOff | mattermost-server/app/user.go:951-1009 | with no failing call, deactivating a bot turns off both rows of it and of exactly the bots below it, whichever pages were listed |
| Bots.App.UpdateBotActive | mattermost-server/app/bot.go:80-114 | success leaves the user row and the bot row equally active; failure leaves the bot row alone; with the cascade, bots below are disabled first and only they are touched; at every step each bot row has its user row |
| Bots.App.RequestBotActive | mattermost-server/api4/bot.go:162-189 | the outermost call: without permission nothing changes; disabling a bot with no failing call succeeds and turns off exactly it and the bots below it |
| Bots.App.CreateBot | mattermost-server/app/bot.go:12-26 | succeeds exactly if the id is new and both saves work, and then both rows are added; otherwise no bot row is added, and if deleting the user again works nothing changes; at every step each bot row has its user row |
| Bots.App.PermanentDeleteBot | mattermost-server/app/bot.go:117-127 | succeeds exactly if both deletes work, and then both rows are gone; if the first fails nothing changes, and a failure leaves the user row; at every step each bot row has its user row |
| Bots.App.ConvertUserToBot | mattermost-server/app/bot.go:181-187 | succeeds exactly if the user has no bot row and the save works, and then adds one owned by the user itself; otherwise changes nothing |
| Bots.App.UpdateActive | mattermost-server/app/user.go:985-1009 | the user row is updated first; sessions and the bots below follow, and a failure in that is reported after the update |
| ChannelMentions.BatchEqualsOneByOneIff | mattermost-server/app/channel.go:2028-2090 | filling a list gives a channel what filling it alone gives, except exactly for a stale property on a channel without mentions whose team is queried |
| ChannelMentions.FilledExactly | mattermost-server/app/channel.go:2068-2085 | without a stale property, and with one where the team is queried, the property is there exactly if some mention resolves, and holds exactly the mentioned open channels of the channel's own team with their display names; other properties are kept |
| ChannelMentions.FillInChannelsProps | mattermost-server/app/channel.go:2032-2090 | in whatever order teams are visited every channel of the list gets its batched value, and one without a stale property shows exactly its mentions that resolve; fails exactly if the lookup of a team with mentions fails |
| ChannelMentions.FillTeam | mattermost-server/app/channel.go:2039-2086 | one team: one query, skipped without mentions; a channel listed twice is filled once in effect |
| ChannelMentions.ChannelMentions | mattermost-server/model/channel_mentions.go:13-28 | the names are exactly those mentioned in the header, each once |
| ChannelMentions.MatchesAreMentions | mattermost-server/model/channel_mentions.go:11-18 | scanning for non-overlapping matches misses no mention |
| ChannelMentions.MentionedIff | mattermost-server/model/channel_mentions.go:11-18 | a mention is a tilde not glued to a word before it, and a whole name after it |
| ChannelMentions.NameChars | mattermost-server/model/channel_mentions.go:11 | a name consists of the letters a to z and A to Z, the digits, underscore and dash |
| ChannelRoles.DecodeLosesNothing | mattermost-server/app/channel.go:669-698 | the words of the request are the explicit roles plus the scheme roles whose flags are set; explicit roles keep their order |
| ChannelRoles.DecodeSucceedsIff | mattermost-server/app/channel.go:674-697 | decoding succeeds exactly if every word is an explicit role or one of the scheme's |
| ChannelRoles.DecodeNamesFirstBadWord | mattermost-server/app/channel.go:674-697 | the error of a failed decoding names the first word that is neither, as unknown or as not of the scheme |
| ChannelRoles.ExplicitWordsJoin | mattermost-server/app/channel.go:680-682 | the explicit roles of two lists are those of the first and then those of the second, repetitions included |
| ChannelRoles.MemberStore.UpdateChannelMemberRoles | mattermost-server/app/channel.go:655-718 | success stores a member whose roles, read back, are the words of the request, with its guest flag unchanged and not both guest and user; each failure has its error and stores nothing |
| ChannelRoles.MemberStore.UpdateChannelMemberSchemeRoles | mattermost-server/app/channel.go:720-747 | success stores exactly the flags; before the migration exactly the three channel roles leave the explicit roles, in order; guest and user together are refused |
| ChannelRoles.MemberStore.Create | mattermost-server/app/channel.go:910-920 | new members are guest or user and never both; an existing member is not replaced |
| ChannelRoles.DecodeRoles | mattermost-server/app/channel.go:669-698 | the loop over the words decodes as specified and stops at the first bad word |
| ChannelRoles.RemoveRoles | mattermost-server/app/role.go:99-117 | reading back the result gives the remaining words in order |
| ChannelRoles.WithoutJoin | mattermost-server/app/role.go:99-117 | what is left of two lists is what is left of the first and then of the second, repetitions included |
| ChannelMembership.JoinsAndLeavesAlternate | mattermost-server/app/channel.go:886-931 | over every run of uninterrupted operations whose history writes succeed, the logged joins and leaves alternate per user and channel, and a user is a member exactly if the last one is a join |
| ChannelMembership.AlternatesIffRowsFit | mattermost-server/store/sqlstore/channel_member_history_store.go:36-66 | what that means for the table: calls alternate if and only if every join finds no open row of the user in the channel and every leave exactly one |
| ChannelMembership.MembersHaveOneOpenRow | mattermost-server/store/sqlstore/channel_member_history_store.go:36-66 | over the same runs a member has exactly one open row and anyone else none |
| ChannelMembership.App.LogLeaveEvent | mattermost-server/store/sqlstore/channel_member_history_store.go:50-66 | a leave closes every open row of the user in the channel, none if there is none, and appends nothing |
| ChannelMembership.ConstrainedChannelStaysInside | mattermost-server/app/channel.go:900-908 | a group-constrained channel inside its groups stays inside them over every run |
| ChannelMembership.ConstrainedChannelShrinksOnlyBySelf | mattermost-server/app/channel.go:1606-1614 | such a channel loses a member only when the member removes itself |
| ChannelMembership.DefaultChannelNeverShrinks | mattermost-server/app/channel.go:1602-1604 | the default channel loses no member over any run |
| ChannelMembership.LeavingNeverEmptiesIff | mattermost-server/app/channel.go:1500-1507 | one leave empties a private channel exactly if the only member, with an account, leaves and the count read is not 1 |
| ChannelMembership.PresentCountEmptiesIff | mattermost-server/app/channel.go:1500-1507 | with the present count, exactly if that member is deactivated |
| ChannelLeaving.ConcurrentLeavesEmptyIff | mattermost-server/app/channel.go:1462-1507 | over all interleavings of leaves whose counts were read earlier from a replica, a private channel can be emptied if and only if a count other than 1 may be read, every member has an account and it is not the default channel |
| ChannelLeaving.PromptLeavesEmptyIff | mattermost-server/app/channel.go:1477-1507 | even if each read gives the count of the moment, unless exactly one member is active |
| ChannelHistory.CommitsAgree | mattermost-server/store/sqlstore/channel_member_history_store.go:36-66 | over all runs of joins and removals that write both tables at once, however outdated their checks, a member has exactly one open row and anyone else none |
| ChannelHistory.OpsAreCommits | mattermost-server/app/channel.go:886-931 | every run of the uninterrupted operations, group channels included, leaves both tables as some run of such writes does |
| ChannelHistory.AgreesIffNeverTogether | mattermost-server/app/channel.go:917-925 | over all interleavings of separate saves, deletes and log calls: at every point every order of finishing the outstanding log calls makes rows and memberships agree, if and only if at no point a user has a join and a leave of one channel outstanding together |
| ChannelHistory.RemovedTwice | mattermost-server/store/sqlstore/channel_member_history_store.go:50-66 | a second removal that has passed its check too changes nothing |
| ChannelHistory.RemovalInsideAdd | mattermost-server/app/channel.go:917-925 | a removal between the two writes of an add: its leave is dropped, and a user who is no member has an open row |
| ChannelHistory.AddInsideRemoval | mattermost-server/app/channel.go:1621-1626 | an add between the two writes of a removal: the leave closes the new row, and a member has none |
| ChannelMembership.LeavingReportsSuccess | mattermost-server/app/channel.go:1482-1485 | after a leave without an error the user is still a member exactly if its lookup failed; read off what LeaveChannel is proved to do |
| ChannelMembership.App.AddUserToChannel | mattermost-server/app/channel.go:886-931 | a user who is no member becomes one, with one open history row if that write works, exactly if the channel is open or private, the lookup, group check and save do not refuse; otherwise both tables are as before; no error means being a member |
| ChannelMembership.App.RemoveUserFromChannel | mattermost-server/app/channel.go:1601-1626 | whoever removes: the member is gone and its open rows are closed exactly if it is a member, the channel is not the default one, the groups do not hold it and the calls work; otherwise both tables are as before; a failed history write is an error although the member is gone; nobody else's rows change |
| ChannelMembership.App.LeaveChannel | mattermost-server/app/channel.go:1462-1507 | a member leaves exactly if the lookups work, the channel is open, or private with a count other than 1, and it may remove itself; no error exactly then, or if the user lookup failed; checks in order, on whatever count the replica answers |
| ChannelMembership.App.CreateGroupChannel | mattermost-server/app/channel.go:423-470 | size bounds, as many profiles as ids, and one membership and one join per profile up to the first save that fails or finds the membership there; for 3 to 8 distinct ids of accounts and calls that work it succeeds, and the members are exactly those |
| ChannelMembership.GroupHasExactlyTheRequested | mattermost-server/app/channel.go:423-470 | creation succeeds only for distinct ids, and then the members are exactly those 3 to 8 |
| ChannelMembership.App.GetProfileByIds | mattermost-server/store/sqlstore/user_store.go:859-919 | the profiles found: cached ids as often as given, the others once if there is such an account |
| ChannelMembership.RepeatedIdLeavesPartOfAGroup | mattermost-server/app/channel.go:434-461 | a cached id given three times passes the comparison of sizes, and leaves a channel with one member and an error |
| Authentication.CounterStaysBounded | mattermost-server/app/authentication.go:48-100 | under any interleaving of checks on any outdated snapshots the stored counter stays within 0 and the maximum |
| Authentication.SequentialCounter | mattermost-server/app/authentication.go:48-100 | in a sequential run the counter is the number of counted failures since the last success, until the account is locked; then it no longer changes |
| Authentication.LockedForGood | mattermost-server/app/authentication.go:188-194 | at the maximum every later check fails and leaves the counter unchanged |
| Authentication.LockIsStableIff | mattermost-server/app/authentication.go:60-73 | a locked account stays locked in every interleaved run that loads current rows exactly if no check that loaded the row earlier is still in progress |
| Authentication.StaleLockIsStableIff | mattermost-server/app/authentication.go:60-73 | and in every run that may load outdated rows exactly if moreover no value below the maximum may still be loaded |
| Authentication.EmptyTokenIsInvisible | mattermost-server/app/authentication.go:60-69 | a request with the right password and no token fails and never counts: removed from any sequential run, it leaves the same counter |
| Authentication.CheckPasswordAndAllCriteria | mattermost-server/app/authentication.go:48-80 | lets in exactly an active account that is no bot, below the maximum, with the right password, a valid token where one is needed, a write that works and a verified address where required; a wrong password or a wrong token that was sent adds one to the count loaded, a success clears it, anything else leaves it; each refusal has its error |
| Authentication.DoubleCheckPassword | mattermost-server/app/authentication.go:83-100 | lets in exactly below the maximum with the right password and a write that works; a wrong password adds one to the count loaded, a success clears it |
| GroupMessage.RoundTripIff | mattermost-server/app/command_groupmsg.go:130-147 | parsing a printed line gives back exactly the names and the message, commas included, if and only if the message does not start with a comma |
| GroupMessage.ParsePrinted | mattermost-server/app/command_groupmsg.go:130-147 | the round trip for any number of names |
| GroupMessage.CommaFirstIsLost | mattermost-server/app/command_groupmsg.go:133-146 | a message that starts with a comma becomes names or is dropped |
| GroupMessage.GroupMsgUsernames | mattermost-server/app/command_groupmsg.go:130-147 | the loop over the pieces, re-splitting the line for the message, parses the line as specified |
| GroupMessage.DoCommand | mattermost-server/app/command_groupmsg.go:40-110 | some unknown name stops the command, and exactly the unknown ones are reported; otherwise the one other user gets a direct message, or the sender and 2 to 7 others, each once, a group channel; fewer or more are refused |
| GroupMessage.DecidedIsProper | mattermost-server/app/command_groupmsg.go:40-110 | the same, for the names, the message and the directory on their own: which of the five outcomes, with whom |
| GroupMessage.LookupTyped | mattermost-server/app/command_groupmsg.go:48-49 | a name is looked up without the blanks around it and the sign before it |
| MergeAssets.BuildAssets | mattermost-mobile/scripts/make-dist-assets.js:86-87 | into an empty destination: exactly the base tree's paths; a file without an override keeps its content, another than JSON gets the override's, and a JSON file an object with exactly the properties of both, each of the override's with its value and the others with the base's; fails exactly if a JSON file in both trees is not JSON in one of them |
| MergeAssets.MergeTwice | mattermost-mobile/scripts/make-dist-assets.js:8-10 | merging the result with the override again parses and changes nothing |
| MergeAssets.MergePointwise | mattermost-mobile/scripts/make-dist-assets.js:11-84 | the merged tree path by path |
| MergeAssets.RightIsUnique | mattermost-mobile/scripts/make-dist-assets.js:64-77 | what BuildAssets is said to write leaves no choice of content |
| MergeAssets.MergeableIff | mattermost-mobile/scripts/make-dist-assets.js:65-71 | the recursive condition for not failing, path by path |
| MergeAssets.LeftMergeDirs | mattermost-mobile/scripts/make-dist-assets.js:11-84 | the recursive walk writes these contents at the tree's paths below its own path, and touches nothing else |
| GoStrings.FieldsOfJoin | mattermost-server/app/channel.go:708 | words survive being joined with blanks and split again |

## Left out

- HTTP routing, headers and response encoding, permissions beyond one yes-or-no answer, and the choice between simple and multipart posts in `uploadFileStream`.
- FileUpload.UploadFileMultipartLegacy: bytes below the level of multipart parts are not modelled: a part is a triple of form name, file name and content, or a point where reading fails. The form parser is modelled by its documented limits only.
- KeyAgreement.Agreement: assumes that encoding a key and decoding it are inverse, and that an insert fails when the row exists; real cryptography is not part of this model, and a signing key always has its coordinates.
- EmailBatching.EmailBatchingJob.VisitUser: parsing of the interval preference is an outcome, not a string; adds of others fall between visits, not into one, which they do not affect.
- LogPager.GetLogsSkipSend: the file does not change while it is read.
- Bots.App.DisableUserBots: described for owners of fewer than 20 active bots that fail again and again without end, here and at every bot that passes the disabling on; with 20 that always fail the loop does not end (BotDisabling.LoopEndsIff), with 20 that otherwise fail without end it depends on when. It is also described only for what does not own itself, where it would not return (Bots.ReadyIffReturns). Listings and bot lookups show the current rows, although the source reads a replica; listings that lag are covered by BotDisabling.LoopEndsIff and BotDisabling.AnyLagEndsIff only. Time stamps are modelled as active or not, the order of a page is left open, and other requests do not change the rows meanwhile.
- Bots.App.UpdateBotActive: with the cascade on, for deactivations as Bots.App.DisableUserBots; the ghost parameter `start` is the state in which the outermost of the nested calls began (Bots.App.RequestBotActive).
- BotCalls.ReturnsIff: each page of a tree is listed from the current rows.
- ChannelMentions.FillInChannelsProps: a lookup by team and name finds at most one channel; for channels without a team the store searches all teams, and which of several it then returns is taken as fixed.
- ChannelHistory.AgreesIffNeverTogether: log calls succeed; a history row is open or closed, without its times, so that a second join in the same millisecond, which the key of the table refuses, counts as a log call that fails.
- ChannelMembership: `JoinDefaultChannels` logs a join even when saving the member failed, so neither alternation nor agreement holds for it; websocket events, caches of members, plugins and search indexing have no effect on the tables.
- MergeAssets.BuildAssets: JSON objects are maps, so the order of keys is not modelled.
- Authentication: LDAP and other authentication services, and password hashing.
- The legacy interpretation of channel role names inside stored explicit roles, done by the SQL store.
- `EnsureDiagnosticId`, which ignores the result of its insert, and the remaining slash commands and screens.
