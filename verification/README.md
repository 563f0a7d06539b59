# Feeds, filters, formats and follows

A model in Dafny of the parts of this server that change state a step at a time, and proofs of
what they promise over whole runs.

* **Feeds.** A home or list feed is three kinds of Redis key: the sorted set of statuses, the boosted
  posts with the boost each is shown by, and per post the boosts held back. `Feed` says what adding,
  removing, trimming and clearing do to them and what every run keeps; `Timelines` is the class whose
  methods issue the commands; `Interleaving` and `InterleavedTrims` let the commands of several workers mix; `Population` is
  filling a feed from the accounts followed, against reading them in full; `Paging` is reading it.
* **Filters.** `Filtering` defines what keeps a status out of a feed as a relation over the tables, and
  proves that the two plans that read the tables in batches decide just so.
* **Ruby's `format`.** `RubyFormat` is the interpreter for policy documents, as a grammar and as the
  loop over a cursor; `FormatLaws` is what it promises of any template, and
  `FormatSpelling` which conversions it accepts.
* **Background tasks.** `PollExpiry` is the mark that moves over polls as they end; `Scheduling` is
  publishing, backing off, giving up and napping.
* **Follows.** `Follows` and `FollowGraph` are the tables and the counters beside them; `Moves` rewrites
  them for a move between two local accounts (`MoveLaws` says what that comes to) and `Migration` one follower at a time; `Accounts` is the
  class that sends the statements; `FollowRuns` is any run of all of it.
* **Notification groups.** `NotificationGroups` is the hour bucket in a key that expires.

`dafny verify dfyconfig.toml` verifies the project.

Ids are natural numbers. The score Redis keeps for one is an abstract monotone integer function
(`Monotone`), since a 64-bit float rounds ids; where a theorem needs more, it asks for exact scores
(`Exact`), or for ones exact at whole seconds (`ExactAtSeconds`), which floats are. A rank is the number
of larger ids: where scores tie, Redis orders by the member's text, which for ids of equally many digits
is the order of the ids.

## Model

| member | source | states |
|---|---|---|
| Timelines.Timeline.AddToFeed | src/feed.rs:133-185 | The commands of one addition leave the three keys, and answer, as `Feed.Add` says: a boost is refused if its post ranks in the newest 80, goes in as the post's lead if the post is untracked, and is held back otherwise; a post is refused if a boost of it is tracked |
| Timelines.Timeline.RemoveFromFeed | src/feed.rs:190-240 | The commands of one removal come to `Feed.Remove`: the oldest boost held back takes the place of a lead removed, and the answer is whether the feed held the status |
| Timelines.Timeline.TrimFeed | src/feed.rs:245-279 | The cut at 800 and the loop over stale boosts come to `Feed.Trim` |
| Timelines.Timeline.Push | src/feed.rs:283-305 | An addition, and a trim exactly when it went in |
| Timelines.Timeline.AddAllToFeed | src/feed.rs:1709-1719 | The loop of additions and one trim come to `Population.AddAll` |
| Timelines.Timeline.PopulateFrom | src/feed.rs:1727-1759 | The loop over accounts, with its skip and its cut-off, comes to `Population.Populate` |
| Timelines.Timeline.Merge | src/feed.rs:1862-1882 | Merging an account comes to `Population.MergeInto` |
| Timelines.Timeline.CleanFeed | src/feed.rs:2158-2172 | The loop over tracked posts comes to `Feed.Clean` |
| Feed.PushIsARun | src/feed.rs:283-305 | A push is a run of additions and trims, so what every run keeps, pushes keep |
| Feed.PostGoesInUnlessTracked | src/feed.rs:168-183 | A status that is no boost, or whose user does not aggregate, goes in if and only if no boost of it is tracked, and touches no post's boosts |
| Feed.RemovingAPostForgetsItsBoosts | src/feed.rs:229-238 | Removing such a status takes it out with its tracking and the boosts held back for it, and leaves every other entry and post as it was |
| Feed.RemovingABoostTouchesOnlyItsPost | src/feed.rs:197-228 | Removing a boost the feed does not hold changes nothing, not even if it is held back; removing one it holds leaves every other post and entry, and can bring up only a boost held back for its post |
| Feed.RemovedPostStaysOut | src/feed.rs:190-240 | Once a post is removed, removing its boosts, in any order, brings none of those held back for it into the feed |
| Feed.TrimDropsJustTheStale | src/feed.rs:243-279 | A trim leaves the newest 800; a tracked post is dropped if and only if its boost does not outscore the entry of rank 80, then with its held-back boosts, and is otherwise as it was |
| Feed.HeldAlwaysTracked | src/feed.rs:133-279 | Over any run of whole additions, removals and trims, however aggregation is toggled, a post with boosts held back is tracked, and no held-back set is empty |
| Feed.CleaningLeavesNoKey | src/feed.rs:2158-2172 | After any such run, clearing the feed leaves none of its keys, though it finds the held-back sets only through the tracked posts |
| Feed.LeadsAlwaysPresent | src/feed.rs:133-279 | While the user aggregates, each tracked post is tracked by a boost of it that is in the feed, through additions, removals and trims, for any monotone score |
| Feed.AlwaysDeduplicated | src/feed.rs:54-279 | For any monotone score, over any run of additions and trims: a boost that is among the newest 80 even if every tie goes against it is the tracked lead of its post, is the only such boost, and the post itself is not among the newest |
| Feed.NewestEightyShowDistinctPosts | src/feed.rs:54-279 | With exact scores, no two of the newest 80 entries show the same post, and any boost among them is the tracked lead of its post |
| Feed.TrackedExactlyWhenNew | src/feed.rs:243-279 | For any monotone score, after a trim a post is tracked if and only if a boost of it is among the newest 80 even if every tie goes against it; with exact scores, if and only if a boost of it is among the newest 80 |
| Feed.BoostGoesInExactlyWhenNotShown | src/feed.rs:128-185 | In a trimmed feed, for any monotone score, a boost goes in if and only if its post is not among the newest 80 and no boost of it is there even if every tie goes against it; with exact scores, if and only if none of the newest 80 entries is its post or a boost of it |
| Feed.NewestOfEverAdded | src/feed.rs:245-305 | After any additions of posts and any trims, the newest n entries, for n up to 800, are the newest n of all that was ever added |
| Feed.TrimmedRunIsNewestOfAll | src/feed.rs:245-305 | So a feed trimmed as often as one likes, but at the end, is the newest 800 of all ever pushed, whatever the order or the batches |
| Feed.RemovalForgets | src/feed.rs:190-240 | A removal answers whether the feed held the status (what `home_holds` would, lines 839-851), leaves every tracked post its lead, and if it answers yes the status is neither in the feed nor held back, nor, with exact scores, does any post have its score |
| Feed.DrainingPromotesInOrder | src/feed.rs:187-240 | Removing the lead of a post, then each boost promoted, brings up the held-back boosts oldest first, each once; nothing else in the feed changes |
| Feed.TrackedPostsDrain | src/feed.rs:187-240 | Every tracked post can be drained so |
| Feed.DrainingLeavesNothing | src/feed.rs:187-240 | Once drained, the post is untracked with nothing held back, and the rest of the feed is as it was |
| Interleaving.EveryInterleavingHasTheOutcome | src/feed.rs:140-167 | However the commands of any number of additions of boosts of one post interleave, at quiescence: all were refused as the post ranks in the newest 80; or all are held back as it was tracked; or exactly one went in and is the tracked lead, and all others are held back |
| Interleaving.EveryInterleavingIsSequential | src/feed.rs:140-167 | The feed is what the same calls would have left one at a time, in some order |
| InterleavedTrims.TrimAloneIsTrim | src/feed.rs:245-279 | A trim's commands, left to themselves, come to `Feed.Trim` whichever order its loop takes |
| InterleavedTrims.NoneUndercutNoneLeft | src/feed.rs:133-279 | Any number of additions of boosts of one post and of trims, their commands mixed in any order in which no trim untracks the post between a call's `ZADD NX` and its `SADD`: once all are done, every held-back set is of a tracked post, and clearing the feed leaves no key |
| InterleavedTrims.UndercutIsLeft | src/feed.rs:149-166 | Wherever a trim does so, the next commands of the two can leave a held-back set that no tracked post leads to, and clearing the feed does not delete it |
| InterleavedTrims.StaleCanBeLeft | src/feed.rs:149-279 | That comes about in any feed of more than 80 with a stale tracked post that is not among the newest, by one more boost of it added as the feed is trimmed |
| Population.NextIdIsDated | src/snowflake.rs:4-11 | An id's second is the second it was made in, whatever its random bits |
| Population.IdsOfASecond | src/feed.rs:324-326 | `id_at` of a second is a sharp lower bound of the ids made in it |
| Population.AddAllIsARun | src/feed.rs:1709-1719 | A batch is a run of additions and one trim |
| Population.PopulatingIsARun | src/feed.rs:1727-1759 | Populating, with boosts or without, is a run of additions and trims, so what every run keeps it keeps |
| Population.BoostsGoBeforeTheirPost | src/feed.rs:1709-1719 | Of an account that offers a post and boosts of it, the newest boost goes in, is the post's lead, and keeps the post out |
| Population.HowMuchIsRead | src/feed.rs:354-392 | Populating reads the newest 400 of an account and merging the newest 200, or all there are |
| Population.PopulationAgrees | src/feed.rs:1727-1759 | For posts: the newest 400 of the feed that reads every account in full are the newest 400 of the feed populated with the shortcut and what the shortcut lost |
| Population.OneAccountExact | src/feed.rs:1737-1756 | For one account, the newest 400 with the shortcut are those of reading it in full if and only if, once 400 are held, none of them is newer than the feed's oldest entry and yet passed over, its account skipped or its id below the score read from |
| Population.NaivelyNewestOfAll | src/feed.rs:1727-1759 | Reading every account in full keeps the newest 400 of the feed and all that is offered |
| Population.NonePassedOverNoneLost | src/feed.rs:1727-1759 | For any monotone score, if no status offered can be passed over for an older entry, of the feed or offered too, reading in full and the shortcut have the same newest 400 |
| Population.PopulationLosesNothing | src/feed.rs:1727-1759 | With scores exact at whole seconds, the two have the same newest 400 whenever each account's `last_status_at` is in a later second than every entry older than a status it offers, of the feed or offered too, and none of those shares that status's second |
| Population.PassedOverWhen | src/feed.rs:1739-1750 | With scores exact at whole seconds, a status is passed over for an older entry only if its account has no `last_status_at`, or one no later than that entry's second, or the two share a second and rounding has lifted the entry's score above it |
| Population.AllLostWhen | src/feed.rs:1727-1759 | The same of every status lost over a whole population |
| Population.RoundedExactAtSeconds | src/feed.rs:153-161 | Scores rounded as 64-bit floats round the ids made from 2004 to 2039 are exact at whole seconds |
| Population.SkippingLosesTheSameSecond | src/feed.rs:1739-1750 | The shortcut can lose the newest status there is, even of an account that has stored none later than its `last_status_at`: a concrete feed and account |
| Population.LateArrivalIsLost | src/feed.rs:1739-1750 | A remote status published in one second and stored in a later one (src/api/ap/inbox/create.rs:304-305, 344-351) is lost to any feed of 400 posts made in between: a feed and account for any three seconds, however far apart |
| Population.MergingExact | src/feed.rs:1862-1882 | For any monotone score, the newest 200 after a merge are those of the feed and of the account's newest 200 together if and only if, once the feed holds 200, none of them is newer than its oldest entry and yet not above that entry's rounded score |
| Population.MergingLosesTheRoundedOver | src/feed.rs:1872-1882 | A merge can lose a status newer than the feed's oldest entry: a concrete feed and account, with ids as made from 2004 to 2039 and scored as 64-bit floats round those |
| Paging.PageIsFirst | src/feed.rs:755-793 | For every argument, a page is in order and at most `limit` of the entries that score below `max_id` and above `min_id`, or else `since_id`: all of them if there are fewer, and otherwise the first, the oldest with `min_id` and the newest without |
| Paging.PagingReadsInOrder | src/feed.rs:755-793 | For any monotone score and page size, a client that pages by the last id it was given, by `max_id` or by `min_id`, visits entries in strict order, so never twice |
| Paging.PagingMissesOnlyTies | src/feed.rs:755-793 | An entry it misses has the score of the last entry of some page |
| Paging.PagingReadsAll | src/feed.rs:755-793 | With exact scores it reads every entry |
| Filtering.ReadMentions | src/feed.rs:420-436 | The loop that groups mentions by status yields each status's active mentions and no empty group |
| Filtering.CheckForBlocks | src/feed.rs:438-447 | The loop gathers exactly the accounts the batch concerns: authors, boosted authors, and those either mentions |
| Filtering.Build | src/feed.rs:414-595 | `Crutches::build` reads the tables within the batch's scope |
| Filtering.Distribute | src/feed.rs:1112-1182 | Handing each row of one query to the receiver it is of gives each what a query of its own would |
| Filtering.CrutchesFor | src/feed.rs:1032-1186 | Each receiver's crutches are what reading for it alone would give |
| Filtering.CoveringScopeDecides | src/feed.rs:618-696 | From any scope that covers what a status concerns, `filter_result` gives the verdict the tables give |
| Filtering.CoveringScopeDecidesTags | src/feed.rs:1190-1206 | The same of the followed hashtag's test |
| Filtering.PlansAgree | src/feed.rs:414-696 | For any tables, the verdict on a home feed read for one receiver over any batch with the status in it, and that read for one status over any receivers, are both the direct relational one |
| Filtering.TagPlanDecides | src/feed.rs:1190-1206 | The fan-out's crutches decide followed hashtags as the tables do |
| Filtering.ListCrutchesAreRead | src/feed.rs:1603-1625 | The crutches the fan-out makes for a list from its owner's are those reading for the list would give |
| Filtering.ListAdmissionAgrees | src/feed.rs:1593-1629 | Live fan-out keeps a status out of a list if and only if populating or merging would, or the author is the owner and the separate list test says so |
| Filtering.OwnersOwnStatuses | src/feed.rs:1597-1629 | Of the owner's own statuses, populating and merging keep out none, and the fan-out just the replies to someone else that the list's replies policy does not want, policy by policy |
| Filtering.NotifiedWhenAsked | src/feed.rs:1089-1110 | A receiver is to be notified if and only if it follows the author and asked to be |
| Filtering.OwnersReplyDiffers | src/feed.rs:1597-1602 | A concrete status on which the two differ: the owner's own reply to someone the list does not hold, which merging the owner into its own list lets in and live fan-out keeps out |
| RubyFormat.InterpolateDomain | src/markdown.rs:82-296 | The loop over a cursor terminates, keeps every index in range, and computes what the grammar says of any template, errors included |
| RubyFormat.Convert | src/markdown.rs:137-292 | One conversion's loop over flags, widths, names and precision computes the grammar's conversion and stops where it does |
| RubyFormat.NumberAt | src/markdown.rs:315-329 | Digits are read up to a character still to read; none left, or too large a number, is an error |
| RubyFormat.Pad | src/markdown.rs:368-381 | Padded text is as long as the width or the text, whichever is longer, with the text at one end and spaces at the other |
| RubyFormat.RubyInspect | src/markdown.rs:355-366 | The loop quotes and escapes a text as `Inspect` says |
| FormatLaws.FormatComposes | src/markdown.rs:121-296 | If a template formats, whatever follows it formats from the addressing it ended in, and the outputs join |
| FormatLaws.DoubledFormatsToItself | src/markdown.rs:121-296 | A text with each `%` doubled formats to itself, from any addressing, and leaves that as it was |
| FormatLaws.OnlyEscapesTakeNothing | src/markdown.rs:121-296 | A template that takes no argument is accepted with some output if and only if it is that output with each `%` doubled |
| FormatLaws.AcceptedTemplatesAreOneWay | src/markdown.rs:121-312 | Of an accepted template, read off the text of its conversions: escapes aside, all name their argument, or all number it, or there is at most one and it does neither |
| FormatLaws.OneAddressingMode | src/markdown.rs:121-312 | Whatever way of addressing arguments a prefix of an accepted template settled on, the template ends in, and at most one bare conversion is taken |
| FormatLaws.MixFormatsToItsParts | src/markdown.rs:121-296 | Any mix of escaped literals and domains formats to the concatenation of their texts: the domain is never read as a template |
| FormatLaws.NumberReadsDecimal | src/markdown.rs:315-329 | A number written in decimal reads back |
| FormatLaws.TextFits | src/markdown.rs:333-351 | What goes in is the value cut to the precision, at one end of at least the width |
| FormatLaws.WidthPadsTheDomain | src/markdown.rs:121-381 | A width written in decimal before the name pads the domain to that width |
| FormatLaws.NamedConversionFormats | src/markdown.rs:121-381 | The domain by name, written with or without alignment, width and precision, for `s`, `p` or `c`, formats to what the letter keeps of it, cut and padded as written |
| FormatLaws.InspectedReadsBack | src/markdown.rs:355-366 | An inspected text reads back as itself and ends at its own closing quote |
| FormatSpelling.AcceptedExactlyWhenAllowed | src/markdown.rs:121-381 | A conversion written of flags, an argument's number, the domain's name, a width and a precision, in whatever order, with any end, is accepted if and only if each part may follow those before it, addresses its argument as what came before did, and may be ended so; and then it puts in what its end makes of the value, cut and padded as written, and leaves the rest to be read |
| FormatSpelling.BareFormatsTheHash | src/markdown.rs:117-119 | Bare or by number, `%s` and `%p` put in the whole hash, as Ruby inspects it |
| FormatSpelling.EscapesJustTheseTwo | src/markdown.rs:355-366 | Inspecting escapes quotes and backslashes, each by a backslash before it, and nothing else |
| FormatSpelling.NumberTooLarge | src/markdown.rs:315-329 | A number past 2,147,483,647 is refused |
| FormatSpelling.OtherNumbersAreRefused | src/markdown.rs:160-182 | An argument by any number but one is refused |
| FormatSpelling.OtherNamesAreRefused | src/markdown.rs:193-214 | So is any name but the domain's, and one that does not end |
| FormatSpelling.NothingElseIsRead | src/markdown.rs:231-290 | And any character that begins no part of a conversion |
| PollExpiry.Notifier.SelectDue | src/background.rs:939-956 | The first hundred due polls past the mark, by when they end and their ids |
| PollExpiry.Notifier.Pass | src/background.rs:927-999 | A pass handles that batch in order and moves the mark; a full one strictly, so fewer polls are left |
| PollExpiry.Notifier.RunToIdle | src/background.rs:868-896 | Passes that fill their batch are followed at once by another, and that ends; then the mark is at the clock, and every poll up to it was handled once |
| PollExpiry.BatchIsWhatTheMarkPasses | src/background.rs:953-967 | The batch is exactly the polls between the mark before and the mark after |
| PollExpiry.EveryPollOnceInOrder | src/background.rs:856-999 | Over any run of successful passes, clock ticks and polls created to end in the future, every poll that ends past 120 seconds before the start and up to the mark is handled exactly once, in order; once caught up, up to the clock |
| PollExpiry.FirstSuccessMissesNone | src/background.rs:934-967 | The first pass to succeed, whatever failed before it, has handled every poll that ended in the 120 seconds before it and up to its mark |
| PollExpiry.FailuresMissNone | src/background.rs:868-999 | With failed passes too, once there is a mark it never passes a poll not handled |
| PollExpiry.NoneMissedFromTheStart | src/background.rs:868-999 | Over any run from a process's start, passes failing or not: none has succeeded yet, or the mark has passed no poll unhandled of those that ended since 120 seconds before the first that did |
| Scheduling.DueExactlyWhenSelectable | src/background.rs:325-387 | The next due time is at or below zero if and only if the publishing query would select a row, or there is one whose retry has come and whose own time its author has taken away; so it is so exactly when the query would select a row, if and only if no such row comes without one the query would select |
| Scheduling.TakingTheTimeAwayUnsets | src/api/mastodon/scheduled_statuses.rs:136-173 | An update without a time leaves a schedule that has failed never selected and, from its retry on, due at every look |
| Scheduling.UnsetAloneIsDueForNothing | src/background.rs:325-387 | A concrete table that is due and has nothing to publish |
| Scheduling.Publisher.SelectDue | src/background.rs:373-387 | At most fifty selectable rows, the earliest |
| Scheduling.Publisher.RecordFailure | src/background.rs:424-474 | The upsert and the parking leave the row with its failure counted, backing off, and parked at the eighth |
| Scheduling.Publisher.PublishDue | src/background.rs:373-419 | A pass tries what is due, forgets what is published or never will be, and keeps the counting invariant |
| Scheduling.PublishedIsForgottenForGood | src/background.rs:391-419 | Over any run, a schedule a pass publishes, or finds it never can, is in no later state and tried by no later pass; one to be retried is still there |
| Scheduling.PublishedAtMostOnce | src/background.rs:391-419 | So at most one attempt at a schedule publishes it, and it is the last |
| Scheduling.SelectableExactlyWhen | src/background.rs:376-387 | Whatever the run, a row is there to be tried if and only if its time has come, it has failed fewer than eight times, and the wait since it last failed is over |
| Scheduling.BackoffInMinutes | src/background.rs:432-446 | The waits are 1, 2, 4, 8, 16 and 32 minutes, and then an hour |
| Scheduling.NeverTriedTooOftenOrTooSoon | src/background.rs:338-474 | Over any run no schedule is tried more than eight times, retry n begins at least min(60, 2^(n-1)) minutes after the attempt before has failed, and a row is parked exactly at eight |
| Scheduling.ParkedIsKeptAndLeftAlone | src/background.rs:373-474 | A parked schedule is kept and never tried again, until it is cancelled |
| Scheduling.EighthAttemptComesLate | src/background.rs:338-454 | The eighth attempt begins at least 123 minutes after the first has failed |
| Scheduling.Jittered | src/background.rs:246-248 | A nap is shortened by at most a quarter and never lengthened |
| Scheduling.TimedTaskNap | src/background.rs:264-277 | A nap is never below the floor nor above the greater of ceiling and floor, never outlasts what falls due but for the floor, and is exact, with no jitter, when something falls due before the ceiling |
| Scheduling.IdleBackoff.Idle | src/background.rs:198-231 | After n empty passes since work last turned up, the interval is the floor doubled n times, or the ceiling |
| Accounts.Database.OnFollowCreated | src/counters.rs:33-53 | The two upserts come to `Follows.Created` |
| Accounts.Database.OnFollowRemoved | src/counters.rs:58-74 | The two floored updates come to `Follows.Removed` |
| Accounts.Database.RecountFollows | src/counters.rs:85-98 | A local account with a row has no drift afterwards, and no other counter changes |
| Follows.FollowingKeepsDrift | src/counters.rs:33-53 | A follow made and counted leaves every account's drift, even where follower and target are one |
| Follows.UnfollowingKeepsDrift | src/counters.rs:58-74 | A follow deleted and counted leaves the drift of every account whose counters cover its follows |
| Accounts.Database.PurgeAssociations | src/delete_account.rs:1063-1154 | The grouped updates and the deletions, each with its cascade, come to `Follows.Purged` |
| Follows.PurgeKeepsDrift | src/delete_account.rs:1063-1085 | Purging leaves every other account's drift and subtracts exactly the follows that went: the floor is never reached |
| Follows.PurgeIsUnfollowingOneByOne | src/delete_account.rs:1063-1085 | The grouped subtraction comes to what deleting and counting the follows one by one, in any order, would |
| FollowGraph.PurgeTakesJust | src/delete_account.rs:1112-1154 | A purge takes every follow by or of the account, every request and list of its own, and every membership of it or on those, and no other row |
| FollowGraph.PurgeLeavesItsOwnCounters | src/delete_account.rs:1063-1085 | The account's own counters are not the purge's business |
| FollowGraph.UnfollowingTakesJust | src/api/mastodon/accounts/relationships.rs:453-464 | Unfollowing takes one follow and the memberships that hung on it |
| Follows.NoneGoesBelowNought | src/counters.rs:55-74 | Whatever the counters were, no operation on them takes one below nought |
| Accounts.Database.UpdateFollowersCount | src/moves.rs:659-674 | The upsert comes to `Follows.CountBy` |
| Accounts.Database.Authorize | src/api/mastodon/accounts/follow_requests.rs:166-208 | The request goes, with what hung on it; a follow is made and counted unless there was one; the answer is whether there was a request |
| Moves.AuthorizingDropsWhatHungOnTheRequest | src/api/mastodon/accounts/follow_requests.rs:166-208 | A membership survives authorising if and only if it did not hang on the request |
| Moves.AuthorizingFollowsOnce | src/api/mastodon/accounts/follow_requests.rs:166-200 | Authorising makes and counts a follow if and only if there was none |
| Moves.AuthorizingAllGrows | src/moves.rs:680-692 | Authorising requests one after another adds just their follows, keeps the tables consistent, every drift, and all that did not hang on a request |
| Accounts.Database.MoveLists | src/moves.rs:694-724 | The two statements on memberships come to `Moves.WithGained` and `Moves.WithMoved`, and leave the target on every list a local follower kept the source on |
| Accounts.Database.RewriteFollows | src/moves.rs:679-740 | The loop over requesters and the three statements come to the rewriting `Moves` defines, and the count returned is of the follows moved |
| Accounts.Database.MoveFollowers | src/moves.rs:640-643 | The whole local move, its counters settled, comes to `Moves.Moved` |
| Moves.MoveKeepsConsistent | src/moves.rs:679-740 | Pairs stay unique, nobody follows themselves, and every membership hangs on its owner's follow or request of that very member |
| MoveLaws.MoveApprovesJustFollowers | src/moves.rs:680-692 | A request is approved if and only if it was of the target by a follower of the source; every other waits as it did |
| MoveLaws.MoveChangesJustThese | src/moves.rs:727-739 | A follow changes if and only if it was of the source, by a local account other than the target that neither followed the target nor had asked to, and then into one of the target |
| MoveLaws.FollowsAfterwards | src/moves.rs:679-740 | A follow is there afterwards if and only if it was and has not moved, or it is of the target by a follower of the source whose follow moved or whose request was approved |
| MoveLaws.MoveCountsBeforehand | src/moves.rs:640-643 | How the two counts change, by follows and requests counted beforehand |
| MoveLaws.MembershipsAfterwards | src/moves.rs:694-726 | Exactly which memberships there are afterwards: the source leaves just the lists of those whose follow moves, the target joins wherever a local follower kept the source and leaves the lists where it hung on a request approved, and no other comes or goes |
| Moves.MoveConservesFollows | src/moves.rs:679-740 | Every follow keeps its row and its follower and can only change from the source to the target; the only new ones are the requests approved |
| Moves.MoveBringsEveryFollower | src/moves.rs:718-739 | Every other local follower of the source follows the target afterwards |
| Moves.MoveCarriesLists | src/moves.rs:694-731 | Every list such a follower kept the source on holds the target |
| Moves.MembershipsMoveWithFollows | src/moves.rs:712-739 | A membership moves exactly when the follow it hangs on does, though the two statements choose theirs separately |
| Moves.MoveKeepsDrift | src/moves.rs:640-674 | Any account whose counters cover its follows keeps the distance between them, whatever the state of the others' counters: exact ones stay exact and the floor is never reached |
| Moves.MoveCounts | src/moves.rs:640-643 | The source loses exactly the follows moved, and the target gains those and the requests approved |
| Accounts.Database.FollowMigration | src/moves.rs:779-821 | Following, joining lists and leaving, as the outcome has it, come to `Migration.Migrated` |
| Accounts.Database.MigrateListAccounts | src/moves.rs:857-879 | If the follower follows the new account or has asked to, each of its lists that held the old one holds the new, hung on the follow or else the request, and no other membership is added or changed |
| Accounts.Database.Unfollow | src/api/mastodon/accounts/relationships.rs:440-483 | The follow goes and is counted, or else the request goes, with what hung on either |
| Migration.MigrationBringsLists | src/moves.rs:776-821 | A list of the follower's that held the old account holds the new one, and goes on holding the old if and only if the follower has not left it |
| Migration.MigrationMovesTheFollow | src/moves.rs:776-821 | The follower follows the new account, or waits to; and has left the old one if and only if it did neither before and the new one is on this server |
| Migration.MigrationKeepsDrift | src/moves.rs:776-821 | Whatever comes of it, every account's drift is as it was |
| Migration.RefusedChangesNothing | src/moves.rs:760-766 | An account that may not be followed, or is the follower's own, changes nothing |
| Migration.MigrationTouchesOnly | src/moves.rs:776-821 | No one else's follow, request or list changes, nor any of the follower's but those of the two accounts, and lists join only if the old account was followed |
| FollowGraph.DeletingKeepsConsistent | migrations/001_initial.sql:8509-8538 | Deleting follows, requests or lists, and by cascade what hangs on them, keeps the tables consistent |
| FollowRuns.CountersKeepTheirDrift | src/counters.rs:33-84 | Over any run of follows, requests, authorisations, unfollows, list additions, purges, moves and migrations, the tables stay consistent, and an account not purged, whose counters cover its follows to begin with, keeps the distance between them, however wrong any other account's counters are |
| NotificationGroups.GroupKey.Join | src/push.rs:283-317 | Reading, joining and writing the key back: the bucket, the expiry, and that the notification falls within the span from its bucket |
| NotificationGroups.ExpiryChangesNothing | src/push.rs:293-314 | A run with the key's expiry gives the buckets of a run without: the key expires only when it would not have been joined |
| NotificationGroups.GroupsSpanAtMostTwelveHours | src/push.rs:272-317 | Notifications in order fall into groups contiguous in time, each within twelve hours of its bucket, a later group's bucket at least twelve hours after an earlier's |

## Left out

- Newest-80 de-duplication is for runs without removals: a removal drops the tracking of a newer boost, and moves every rank. With rounded scores it holds of the entries that are among the newest 80 even if every tie goes against them (`Fresh`).
- A comment in `populate_from` (src/feed.rs:1743) says a skipped account's statuses would not stay in the feed. The code compares the start of the second of `last_status_at` with the oldest entry's id, so it can skip a status of that entry's own second; and since a remote status takes its id when it is stored and its `last_status_at` from when it was published, it can skip statuses newer by any length of time. The model follows the code, with both counterexamples, the exact condition for one account, and for any number conditions on inputs under which nothing is lost. Over a whole run the exact condition depends on the oldest entry as trimming moves it (`PopulationExact` states it of what the run lost).
- Reading past the rounded score of the oldest entry, `merge` can miss the statuses that score is rounded over; the model follows the code, with a counterexample and the exact condition.
- Populating and merging are compared with full reading for posts alone; for boosts, what every run keeps holds of them too.
- `populate_home`'s own statuses and `unmerge`, `clear_from` and `vacuum_inactive_feeds`: additions, removals and clearings of feeds as modelled.
- The interleaving theorems are of additions of boosts of one post and, for the keys left, of trims: without removals or the post itself. Where a trim comes between a call's `ZADD NX` and its `SADD`, the code can leave a key that clearing the feed does not find; the model follows the code. The theorems of `Feed` are of whole operations.
- `get` is modelled as one command, and statuses a page's query then hides are not modelled.
- The documentation of `authorize` says memberships that hung on the request come to hang on the follow. Deleting the request cascades to them first (migrations/001_initial.sql:8533-8538), so they are gone; the model follows the code.
- The counters theorems are of an account whose own counters are no less than its follows to begin with: below that, the floor at nought can bite.
- Replies, reblogs and quotes counters and `purge_statuses`: the counters of replies are raised and lowered by different rules, so no such law holds of them. Of `purge_associations`, only the deletions the follow tables see.
- The source's options of a follow (boosts, notifications, languages) do not change in `Follows`; `Filtering` has its own follows with them.
- Account notes, blocks and mutes carried over by a move, and leaving the old account once a remote follow is delivered, which is an unfollow.
- Polls that never end, or whose end is changed or which are deleted; who is notified of one, and delivery. Before the first pass succeeds there is no mark, and its two-minute window moves with the clock, so a poll that ends before it is not promised.
- What publishing a scheduled status comes to, and when, is a parameter. A schedule whose time an update takes away is never published, and once it has failed keeps the loop awake; the model follows the code. A due time that is no finite number is none. Durations are real numbers, and being stopped is not modelled.
- Which error a template is refused with, beyond what the interpreter gives.
- The group key's prefix, the failure of Redis or SQL anywhere but where a property names it, jobs, streaming, delivery, search and rendering of Markdown.
- Timelines.Timeline.PopulateFrom: the filter and the accounts' statuses are fixed while it runs.
- Filtering.Build: the queries but the mentions are one set comprehension each, over one state of the tables.
