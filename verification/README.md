# Proofs about the agentchat daemon

agentchat bridges Discord to a SQLite store and to live watchers.  A message arrives
twice (from the send handler and as a gateway echo), is merged into tables, is
summarised per account, and is pushed to watchers.  This project models that path and
proves what each part keeps on every run.

`dafny verify dfyconfig.toml` checks everything.

| file | part | what is proved about it |
|---|---|---|
| `Bus.dfy`, `BusClass.dfy` | the debounced publish/subscribe engine | no update is lost, frames arrive in version order, channels are closed once |
| `BusRuns.dfy` | the bus over whole runs, told by its steps | exactly when a subscription is closed, what frames it gets, when a commit is shown |
| `Connector.dfy`, `ConnectorClass.dfy` | provider life cycle, pump and event channels | one pump per account, calls hit their own record, ordered fan-out, no send after close |
| `ConnectorOpen.dfy` | subscriptions over provider generations | exactly which subscriptions stay open |
| `ConnectorRuns.dfy` | the connector over whole runs, told by its steps | exactly which events reach a subscriber, when channels are closed |
| `Mentions.dfy` | outbound mention parser and inbound renderer | exact allow-lists; rendering undoes rewriting on every accepted string |
| `Store.dfy` | the tables and single statements of the repositories | their effect and errors |
| `Convergence.dfy`, `Merge.dfy`, `MergeOrder.dfy` | the send and ingest transactions | every order of a send and its echoes ends in the same message; nothing merged is taken back |
| `SnapshotChanges.dfy` | when a commit changes an account's snapshot | whom an ingest has to publish |
| `FileOrder.dfy` | the files of a sent message among downloads and reads | one downloaded row per upload, whatever falls in between |
| `Rooms.dfy` | room, membership and account transactions | the audit log reproduces the tables |
| `Pages.dfy`, `Aggregates.dfy`, `ReadRoom.dfy` | listings, snapshot totals and feeds, reading a room | paging is exact, totals agree with breakdowns and feeds, reads conserve and drain |
| `ReadOrder.dfy` | the order of ReadRoom's answer | exactly when the two bands are one list from oldest to newest |
| `MentionCounts.dfy` | mention counts by content and by rows | exactly when they agree, and why they do for sent messages |
| `Announcements.dfy` | versioned room announcements | versions are 1..n; posts and acknowledgements move the unread count exactly; the audit replay with them |
| `Downloader.dfy` | retry bookkeeping | the retry rate bound, and what a slow cycle does to it |
| `Lifecycle.dfy` | online, offline, delete, reconcile, with handlers overlapping freely | exactly which steps break "stored as online implies registered", and which deletions hit an online account |
| `ConnectorSlots.dfy` | the lifecycle's entries against the connector's machine | each section of the connector acts as the lifecycle's step does |
| `Lists.dfy`, `Wrappers.dfy` | shared helpers | |

Code that changes state is a class or a method over the connection `Db`, proved equal to
a function of the old state; the laws are lemmas about those functions and about
sequences of them.  A mutex-protected method, a critical section or a database
transaction (`WithTx`, one connection, commit or rollback as a whole) is one atomic step.
Environment answers (a build, a connect, an audit insert, a fetch succeeding or not, the
clock, when a timer goes off) are parameters, so the lemmas hold for all of them.

How the main results are stated:

- **Bus.** Each step may let any number of commits happen while a build runs.  A frame
  carries the commits its build had certainly seen, so "at least as new" is a lower
  bound.  The timer map is not taken to be the set of live timers, because it need not be:
  `OneTimerKeptIff` and `SecondTimerIff` say exactly which steps lose a timer and which arm
  a second one, their run forms say the same of whole runs, and `TwoTimersForOneAccount`
  is a run that does both.
- **Whole runs by their steps.** `BusRuns.dfy` and `ConnectorRuns.dfy` say what a run did to a
  subscription from the positions of its steps alone: open, listed, offered, handed, shown.
  A channel that a step forgets to close or to fill makes one of them fail.
- **Convergence.** The run may interleave any sends and echoes of other messages.  The
  outcome leaves out the internal id, the sizes and MIME types of files and the clock
  value of read times.  Only the read states can depend on the order, and exactly through
  the readers that the first transaction of the message writes (`SendAndEchoesConverge`,
  `OutcomesAgreeIff`).  The schema lets two accounts share a bot user id, and then the
  order does matter (`OrderMatters`, `SharedBotOrderMatters`).  Of those whose
  snapshot an ingest changes, exactly the members of the event's room are published; that
  is everybody unless the Discord id was seen in another room before.  A transaction undone for
  any reason is a step that changes nothing.
- **Audit replay.** A handler's second transaction is taken with arbitrary values for
  what its first one captured, which covers every interleaving between the two.  The
  `prior_member` flag of an invite may be stale for that reason; the replay does not use it.
- **Lifecycle.** Any number of handlers of one account may overlap; the steps are the
  critical sections and transactions.  `StepAgreesIff`, `AgreesThroughoutIff` and
  `DeletionHitsOnlineIff` say exactly when "stored as online implies registered" breaks
  and when a deletion hits an online account.  The code does not serialise the handlers
  of one account; `OverlapBreaksAgreement` and `DeleteOverlapHitsOnline` are runs in which
  that shows, `OnlineMeansRegistered` and `NoOnlineAccountIsDeleted` what holds when they
  happen not to overlap.
- **Downloader.** `RetriesBackOff` and `AtMostThirtyAnHour` measure by the clock a cycle
  reads at its start, which is what is booked.  `RealRetriesBackOff` and `RealHourlyCap`
  are the bounds for the time fetches really start, and `FullWaitIff` says exactly when
  the full backoff is waited for.  An hour of real time can hold 31 attempts and never
  more (`AtMostThirtyOneInRealTime`, `ThirtyOneInAnHour`).

Where the source's comments and its code differ, the model follows the code:

- `internal/state/bus.go:145-147` says that publishes within the window collapse into one
  build; the code can arm two timers.
- `internal/store/store.go:172-176` describes mention counting by content; the query
  counts `mention_everyone` and `message_mentions` rows.  `MentionCountsAgreeIff` says
  when the counts agree, `EveryoneCountsUnsubscribed` is an input where they do not.
- `internal/api/v1/messages.go:732-733` says the answer is sorted oldest to newest.
  `AnswerSortedIff` says when it is, and `OwnReplyComesFirst` is an input where it is not:
  whoever replies before reading has read their own reply.
- `internal/connector/connector.go:266-268` says that a subscription's channel is closed by
  Unsubscribe or when the pump exits.  `OpenIff` says which stay open: those registered
  after the last pump's final sweep and not unsubscribed.

## Model

| member | source | states |
|---|---|---|
| `BusModel.NoUpdateIsLost` | internal/state/bus.go:151-178 | in every interleaving each registered subscriber was last offered a frame at least as new as the last commit published for its account, or a fire for the account is outstanding, or the last build that was to be sent to this subscriber failed |
| `BusModel.ConsumerCatchesUp` | internal/state/bus.go:221-261 | once nothing is outstanding, the last build for this subscriber did not fail and its last offer found room, the last frame it gets shows the last published commit |
| `BusModel.ChannelsInOrder` | internal/state/bus.go:97-143 | a consumer gets exactly the offered frames that found room, of its own account, with strictly increasing versions; its channel is closed at most once |
| `BusModel.ListsAndFiresBounded` | internal/state/bus.go:151-219 | at most 8 subscriptions per account, each listed once and open; fires run plus fires outstanding never exceed accepted publishes |
| `BusModel.OneTimerKeptIff` | internal/state/bus.go:163-237 | a step keeps the pending map naming every armed timer exactly if it is not a fire that runs while the account's pending timer is a newer one still armed |
| `BusModel.OneTimerThroughoutIff` | internal/state/bus.go:151-261 | a run keeps it in every state exactly if it holds no such fire |
| `BusModel.SecondTimerIff` | internal/state/bus.go:163-177 | a step gives an account a second armed timer exactly if it is a publish that arms one while another, lost from the map, is armed |
| `BusModel.OneArmedThroughoutIff` | internal/state/bus.go:151-261 | a run keeps one armed timer per account in every state exactly if it holds no such publish |
| `BusModel.NoStaleFireArmsOne` | internal/state/bus.go:151-261 | so stale fires are the only way to a second timer: a run without one has at most one armed timer per account throughout |
| `BusModel.TwoTimersForOneAccount` | internal/state/bus.go:163-177 | a run from the start that reaches both: the conditions of the previous rows do occur |
| `BusRuns.RegisteredIff` | internal/state/bus.go:97-124 | on every run a subscription exists for an account exactly if a Subscribe that succeeded made it |
| `BusRuns.ClosedIff` | internal/state/bus.go:126-219 | on every run a subscription is closed exactly if an Unsubscribe of it, or a Shutdown after its registration, is among the steps |
| `BusRuns.ListedIff` | internal/state/bus.go:97-219 | and it is on a list, that of its own account, exactly while it is open |
| `BusRuns.EveryFrameIsHanded` | internal/state/bus.go:221-261 | what a subscription was offered is exactly its initial frame and one new frame per successful build of a fire of its account while it was open; it got those for which fewer than 8 were waiting, in order |
| `BusRuns.FailedIff` | internal/state/bus.go:221-261 | the last build for a subscription failed exactly if the last fire that concerned it had a failing build |
| `BusRuns.EveryPublishIsShown` | internal/state/bus.go:151-261 | after a publish each open subscription of the account was last offered a frame that shows its commit, or a timer of the account is still to fire, or the last fire that concerned the subscription failed; told by the steps of the run alone |
| `BusModel.StepKeepsInv` | internal/state/bus.go:97-261 | every bus method, commit, timer and receive keeps the channel, timer and no-lost-update invariants together |
| `BusClass.Subscription.TrySend` | internal/state/bus.go:254-259 | the non-blocking send: appended if there is room, dropped otherwise; needs an open channel |
| `BusClass.Subscription.Close` | internal/state/bus.go:139-142 | the channel is closed afterwards, what it buffers stays, and it is closed once |
| `BusClass.Bus.Subscribe` | internal/state/bus.go:97-114 | cap check, then build and registration with the initial frame, or the error with the lists unchanged; takes the model's step |
| `BusClass.Bus.Unsubscribe` | internal/state/bus.go:126-143 | the subscription is closed and on no list afterwards, its buffered frames and every other list entry stay; takes the model's step |
| `BusClass.Bus.Publish` | internal/state/bus.go:151-178 | no subscriber: nothing; pending timer stopped in time: reset; gone off already: a second timer; takes the model's step |
| `BusClass.Bus.BuildNow` | internal/state/bus.go:187-198 | draws a version of its own and changes nothing else; answers a frame of this account with that version and every commit so far, or the build's error |
| `BusClass.Bus.Watch` | internal/state/bus.go:97-114 | the consumer takes the oldest buffered frame |
| `BusClass.Bus.Fire` | internal/state/bus.go:221-261 | forgets the pending entry by account, builds, and offers the frame to every open listed subscription; takes the model's step |
| `BusClass.Bus.Shutdown` | internal/state/bus.go:203-219 | no pending entry, list or armed pending timer is left, and every subscription that was listed is closed with its frames kept; takes the model's step |
| `ConnectorModel.OnePumpPerAccount` | internal/connector/connector.go:100-147 | in every interleaving an account has at most one live pump, that of the generation in the map |
| `ConnectorModel.CallsHitTheirOwnRecord` | internal/connector/connector.go:164-206 | Connect never finds its slot gone, and what a Connect or Disconnect installs into, marks or deletes is its own record and provider |
| `ConnectorModel.PumpDoneClosedOnce` | internal/connector/connector.go:326-351 | pumpDone is closed at most once, and exactly once by the time the slot is released, when the pump is gone |
| `ConnectorModel.SweepSparesNewcomers` | internal/connector/connector.go:342-350 | a pump's tail never closes a subscription registered after its slot was released |
| `ConnectorModel.FanOutInOrder` | internal/connector/connector.go:294-351 | what a subscriber gets was emitted by its account's providers, in order, each event at most once, generation after generation |
| `ConnectorRuns.DeliverHands` | internal/connector/connector.go:328-341 | a delivery appends exactly the pump's event to each open subscription of its account with fewer than 32 events waiting; a full one and every other one is unchanged |
| `ConnectorRuns.EveryEventIsHanded` | internal/connector/connector.go:328-341 | on every run a subscription got, in order, exactly the events that pumps of its account handed on while it was open and its channel had room; what it has not consumed is waiting in its channel |
| `ConnectorRuns.EveryEventIsPumped` | internal/bot/discord/discord.go:138-177 | on every run the events that found room in a provider's channel are, in order, those its pump handed on, the one it holds, and those still in the channel |
| `ConnectorRuns.ProviderClosedIff` | internal/bot/discord/discord.go:138-177 | a provider is closed exactly if one of its Disconnects has closed it, and it numbers its events by its publishes before that |
| `ConnectorModel.NoChannelPanics` | internal/bot/discord/discord.go:138-177 | no provider or subscriber channel is sent to after close or closed twice, with Disconnect concurrent to itself and to publishes |
| `ConnectorOpen.OpenIff` | internal/connector/connector.go:266-351 | on every run a subscription is open exactly if it was not unsubscribed and every final sweep made so far by a pump of its account came before it |
| `ConnectorOpen.OpenAfterTheLast` | internal/connector/connector.go:266-351 | one that is open once every generation of its account is released was registered after the final sweep of each pump that ran, and not unsubscribed: the code closes it neither way |
| `ConnectorRuns.RegisteredIff` | internal/connector/connector.go:282-289 | on every run a subscription exists for an account exactly if a Subscribe made it |
| `ConnectorRuns.ClosedIff` | internal/connector/connector.go:294-351 | on every run a subscription is closed exactly if since its registration it was unsubscribed or a pump of its account made its final sweep |
| `ConnectorModel.StepKeepsInv` | internal/connector/connector.go:100-351 | every critical section keeps the lifecycle, list and ordering invariants together |
| `ConnectorClass.Connector.ReserveSlot` | internal/connector/connector.go:101-113 | Conflict if an entry exists, else a fresh connecting record; takes the model's step |
| `ConnectorClass.Connector.AbandonSlot` | internal/connector/connector.go:116-127 | after a refused provider connect: pumpDone signalled, entry deleted; takes the model's step |
| `ConnectorClass.Connector.InstallProvider` | internal/connector/connector.go:129-146 | the provider goes into the reserved record and its pump starts; the nil-slot branch is kept |
| `ConnectorClass.Connector.MarkDisconnecting` | internal/connector/connector.go:165-177 | Conflict without an online entry, else the entry is marked; takes the model's step |
| `ConnectorClass.Connector.KeepForRetry` | internal/connector/connector.go:181-192 | a failed provider disconnect puts the marked record back online |
| `ConnectorClass.Connector.ReleaseSlot` | internal/connector/connector.go:195-206 | after pumpDone the account's entry is deleted; takes the model's step |
| `ConnectorClass.Connector.OnlineAccounts` | internal/connector/connector.go:250-258 | Shutdown's snapshot: exactly the accounts whose entry is online |
| `ConnectorClass.Connector.Subscribe` | internal/connector/connector.go:282-289 | appends a fresh open subscription; takes the model's step |
| `ConnectorClass.Connector.Unsubscribe` | internal/connector/connector.go:294-311 | the subscription is closed afterwards, other subscriptions and the lists of other accounts are as before; takes the model's step |
| `ConnectorClass.Connector.PumpDeliver` | internal/connector/connector.go:328-341 | each open listed subscription with fewer than 32 events waiting gets the pump's event appended, a full one and every other one is unchanged; takes the model's step |
| `ConnectorClass.Connector.PumpSweep` | internal/connector/connector.go:342-351 | every listed subscription is closed and the account has no list afterwards; takes the model's step |
| `Mentions.ParseMentions` | internal/bot/mentions.go:80-125 | refused exactly if a raw mention is in the content; else the rewritten text, and both allow-lists hold exactly the last members named by a maximal token that are neither everyone nor here and have a captured bot; the everyone flag is set exactly if some maximal token is everyone |
| `Mentions.BuildByName` | internal/bot/mentions.go:85-91 | the name map: unnamed members skipped, the last member of a name wins |
| `Mentions.ScanFindsMaximalTokens` | internal/bot/mentions.go:55-61 | the scan yields a name exactly if it is a maximal token of the text |
| `Mentions.AllowListsExact` | internal/bot/mentions.go:92-122 | the bot id and account id lists hold exactly the members resolved by maximal tokens, and everyone is set exactly if some maximal token is everyone |
| `Mentions.MentionedIsResolved` | internal/bot/mentions.go:97-111 | a member is resolved exactly if some maximal token other than everyone and here names it and it has a bot id |
| `Mentions.FirstOccurrencesCorrect` | internal/bot/mentions.go:113-120 | the lists are free of duplicates, complete and in order of first occurrence |
| `Mentions.OnlyInsertedTokens` | internal/bot/mentions.go:97-122 | the only id tokens of the rewritten text are the inserted ones, each at its piece's place with that member's id |
| `Mentions.RenderUndoesRewrite` | internal/api/v1/messages.go:575-591 | rendering every id token of the rewritten text gives the original back |
| `Mentions.MentionRoundTrip` | internal/api/v1/messages.go:575-591 | renderDisplayContent of the rewritten form of any accepted content is the content, for word-or-hyphen ids that render back to the names |
| `Mentions.TargetIff` | internal/bot/mentions.go:80-112 | a name reaches exactly the last member of that name with a captured bot, everyone and here nobody |
| `Mentions.RenderMatch` | internal/api/v1/messages.go:571-598 | a match becomes @name if its id has a non-empty name and stays as it is otherwise, and rendering goes on behind it |
| `Mentions.UnknownIdsStay` | internal/api/v1/messages.go:571-598 | a text none of whose ids has a name is rendered as itself |
| `Mentions.ReparseRejected` | internal/bot/mentions.go:53-84 | parsing the rewritten text again is refused exactly if something was rewritten, for ids without > and white space |
| `Mentions.IdLengthIsSpan` | internal/api/v1/messages.go:569-569 | the render scanner's match is the pattern's match, and the only one |
| `Store.Db.CreateIgnoreConflict` | internal/store/sqlite/message_repo.go:46-80 | inserts and answers the new id, or answers the id that holds the Discord id; a missing parent fails |
| `Store.Db.ApplySendMetadata` | internal/store/sqlite/message_repo.go:203-236 | writes the send path's columns, with mention_everyone the maximum of old and new; NotFound for a missing row |
| `Store.Db.MergeMentionEveryone` | internal/store/sqlite/message_repo.go:246-276 | mention_everyone becomes the maximum of old and new flag; without a new flag nothing is written; NotFound for a missing row either way |
| `Store.Db.AddMentions` | internal/store/sqlite/message_mention_repo.go:38-63 | the loop adds one row per non-empty account id to the set, or fails on an unknown account or a missing message |
| `Store.Db.UpsertState` | internal/store/sqlite/message_state_repo.go:16-34 | one state row, whose first read time stays |
| `Store.Db.CreateAttachment` | internal/store/sqlite/attachment_repo.go:28-49 | a row with the next id at the end of the table; InvalidArgument for an empty name, Internal for a missing message |
| `Store.Db.MarkDownloaded` | internal/store/sqlite/attachment_repo.go:127-145 | path and time of the row with this id; NotFound if there is none |
| `Store.Db.CreateRoom` | internal/store/sqlite/room_repo.go:17-35 | inserts, or Conflict when the channel is taken |
| `Store.Db.UpdateRoom` | internal/store/sqlite/room_repo.go:123-142 | writes name and archived and leaves the channel; NotFound for a missing row |
| `Store.Db.DeleteRoom` | internal/store/sqlite/room_repo.go:144-157 | a message stays exactly if its room is another one, unchanged but for a reply parent that went with the room; its states, mentions, files and index entry are exactly those it had, and the room's own are gone; NotFound for a missing row |
| `Store.RoomGoneIs` | internal/store/sqlite/migrations/0002_m4_rooms_messages.up.sql:27-76 | the cascades of a room's deletion on every table, both directions, whatever the tables |
| `Store.Db.UpsertMembership` | internal/store/sqlite/membership_repo.go:17-34 | writes the flag and keeps the join time of an existing row |
| `Store.Db.SetSubscribed` | internal/store/sqlite/membership_repo.go:153-168 | writes the flag of an existing row; NotFound otherwise |
| `Store.Db.DeleteMembership` | internal/store/sqlite/membership_repo.go:170-184 | deletes an existing row; NotFound otherwise |
| `Convergence.ResolveAuthor` | internal/message/ingester.go:422-436 | the first account with the author's bot user id, nobody exactly if there is none or the id is empty |
| `Convergence.ResolveMentions` | internal/message/ingester.go:455-486 | an account is reached exactly if it is a member of the room and the last account with some mention's bot user id; each once |
| `Convergence.TargetsAre` | internal/message/ingester.go:455-486 | the set of accounts that mentions reach, told by positions in the account list |
| `Convergence.FanOutStates` | internal/message/ingester.go:363-378 | one state per member in whatever order, read only for the author, first read times kept |
| `Convergence.AddPlaceholders` | internal/message/ingester.go:389-406 | one undownloaded row per event file in order, or the error of an unnamed file |
| `Convergence.IngestNew` | internal/message/ingester.go:212-419 | the ingest transaction leaves exactly the tables of its specification, or its error and nothing changed; it publishes nobody for an unmapped channel, all members of the room for a new message, a ping or a resolved mention, else nobody; of those whose counts, or state or mention rows, the commit changed it publishes exactly the members of the event's room, and that is all of them if the message it meets is in that room |
| `Convergence.AffectedIsNotified` | internal/message/ingester.go:380-419 | of those whose unread, mention or priority count or state or mention rows an ingest changes, exactly the members of the event's room are published; that is all of them if the message it meets is in that room |
| `Convergence.StoreUploads` | internal/api/v1/messages.go:426-479 | the upload loop patches a placeholder while there is one and inserts afterwards |
| `Convergence.Address` | internal/api/v1/messages.go:376-409 | mentions, one state per member and the author's own, or the error of an unknown account |
| `Convergence.SendMessage` | internal/api/v1/messages.go:330-490 | commits exactly if the references exist, the files without a placeholder have a name and the audit row is taken: then the tables are those of its specification, the message row and the new file rows are spelled out, the audit row is there and the stored row is answered; otherwise its error and nothing changed |
| `Convergence.SendCommitsIff` | internal/api/v1/messages.go:330-490 | which sends are accepted: the room is there if the message is not, the sender, reply parent and mentioned accounts exist, and every file beyond the placeholders has a name |
| `Merge.RunKeepsKeyed` | internal/store/sqlite/message_repo.go:46-80 | on every run the unique indexes, foreign keys and attachment id order hold |
| `Merge.MergesNeverTakeBack` | internal/store/sqlite/message_repo.go:46-80 | over arbitrary sends, echoes, reads, downloads and membership changes: one row per Discord id; id, room, content and creation time fixed; mention_everyone never reset; mentions only grow; a first read time stays |
| `MergeOrder.FilesOfPatched` | internal/store/sqlite/attachment_repo.go:64-74 | patching rows by id commutes with listing one message's rows |
| `MergeOrder.PatchedInPlace` | internal/api/v1/messages.go:451-463 | patching a message's own list puts the i-th upload into the i-th row and touches no other |
| `MergeOrder.Progress` | internal/message/ingester.go:225-410 | after every run prefix the message is described by what the run held so far, whichever transaction came first |
| `MergeOrder.SendAndEchoesConverge` | internal/api/v1/messages.go:330-490 | after every run that holds the send: the sender's row, everyone the disjunction, mentions the union, a state for every member and the sender, one downloaded file per upload |
| `MergeOrder.OrderIsIrrelevant` | internal/message/ingester.go:225-410 | two orders of the same transactions end in the same message, when echo authors are the sender or unknown |
| `MergeOrder.OutcomesAgreeIff` | internal/message/ingester.go:225-410 | two orders of the same transactions end in the same message exactly if their first transactions of it wrote the same readers, up to the sender |
| `MergeOrder.OrderMatters` | internal/message/ingester.go:366-377 | in any two runs that hold the send: if an echo by another member's account comes first in the one and the send in the other, that member has read the message in the first and only the sender in the second |
| `MergeOrder.SharedBotOrderMatters` | internal/store/sqlite/migrations/0002_m4_rooms_messages.up.sql:8-10 | an instance: two members with one bot user id, whose send and echo end differently in the two orders |
| `FileOrder.SentFilesAreDownloaded` | internal/api/v1/messages.go:426-479 | with downloads, reads, membership changes and undone transactions in between too: one downloaded row per upload under the provider's name and url, at the upload's path or one a download wrote |
| `Rooms.CreateRoomTx` | internal/api/v1/rooms.go:89-126 | room, channel entry, the creator's membership and audit row together exactly if the channel is free, the creator exists and the audit row is taken; Conflict exactly for a taken channel |
| `Rooms.RenameTx` | internal/api/v1/rooms.go:233-249 | the name and its audit row together; NotFound for a missing room |
| `Rooms.ArchiveTx` | internal/api/v1/rooms.go:268-284 | the archived flag and its audit row together; NotFound for a missing room |
| `Rooms.DeleteRoomTx` | internal/api/v1/rooms.go:358-369 | the deletion with exactly these cascades and its audit row together, or nothing; NotFound if the room went meanwhile |
| `Rooms.InviteTx` | internal/api/v1/rooms.go:469-482 | the membership and its audit row together; fails if room or account went meanwhile |
| `Rooms.KickTx` | internal/api/v1/rooms.go:558-569 | the removal and its audit row together; NotFound if the membership went meanwhile |
| `Rooms.UpdateMembershipTx` | internal/api/v1/rooms.go:635-654 | the actor's own flag and its audit row together; NotFound for a non-member |
| `Rooms.ChannelDeletedTx` | internal/message/ingester.go:148-206 | archives a known room that is not archived, with its audit row, and publishes its members; otherwise nothing |
| `Rooms.DeleteAccountTx` | internal/api/v1/accounts.go:218-230 | the account with its memberships, states, mentions and authorship, nobody else's, and the audit row, together; NotFound for a missing account |
| `Store.Db.DeleteAccount` | internal/store/sqlite/account_repo.go:146-159 | deletes the row with the cascades of the schema, authored messages staying without author; NotFound for a missing row |
| `Store.AccountGoneIs` | internal/store/sqlite/account_repo.go:146-159 | an account's deletion takes exactly its own row, memberships, states, mentions and authorship; those of every other account are as they were |
| `Rooms.GoneReplays` | internal/store/sqlite/migrations/0002_m4_rooms_messages.up.sql:28-35 | the one audit row of an account's deletion replays to the loss of all its memberships |
| `Rooms.TxReplays` | internal/api/v1/rooms.go:89-126 | a committed transaction appends one audit row, and replaying that row is exactly its change of the directory |
| `Rooms.RunReproduces` | internal/api/v1/rooms.go:62-661 | from any state whose log is complete, every run keeps the keys and a complete log, whatever fails or falls in between |
| `Rooms.AuditReproducesDirectory` | internal/api/v1/rooms.go:62-661 | from empty tables, after every step of every run, with failed and rolled-back transactions, message traffic and accounts coming, changing and being deleted in between, replaying the log gives exactly the rooms and memberships there are |
| `Rooms.EveryPastDirectoryIsInTheLog` | internal/api/v1/rooms.go:62-661 | the final log, replayed only so far, gives the directory after every earlier step of the run |
| `Rooms.JoinTimesStay` | internal/store/sqlite/membership_repo.go:21-28 | no transaction moves the join time of a membership it leaves in place |
| `Pages.NewestIsTop` | internal/store/sqlite/message_repo.go:119-137 | ORDER BY created_at DESC, id DESC LIMIT n: the n newest, newest first, everything left out older |
| `Pages.ClampIsEffective` | internal/api/v1/messages.go:635-645 | ReadRoom's clamp lies in 1..200, so List never falls back to 50 and a page holds exactly min(limit, what is there) |
| `Pages.CursorAdvances` | internal/store/sqlite/message_repo.go:127-137 | what is older than the last row of a page is exactly what the page left out |
| `Pages.PagingIsExact` | internal/store/sqlite/message_repo.go:104-152 | iterating the before mode visits every older message of the room once, in descending order, and ends |
| `Pages.ShortPageIsLast` | internal/api/v1/messages.go:689-703 | a page shorter than its limit means nothing older remains |
| `Aggregates.UnreadRowsAreMessages` | internal/store/sqlite/message_state_repo.go:58-74 | the COUNT(*) over the join counts messages: unread, in a subscribed room that is not archived |
| `Aggregates.MentionRowsAreMessages` | internal/store/sqlite/message_state_repo.go:76-120 | the mention count is the number of pending messages that ping everyone, or the account by name in a subscribed room |
| `Aggregates.PriorityRowsAreMessages` | internal/store/sqlite/message_state_repo.go:122-139 | the priority count is the number of unread urgent or system messages |
| `Aggregates.RoomCountIsSize` | internal/store/sqlite/message_state_repo.go:141-170 | the grouped count of a room is the number of its unread messages, 0 for a room without a group |
| `Aggregates.TotalsAgreeWithRooms` | internal/state/aggregator.go:92-121 | Totals.Unread is the sum of the per-room unread list, in whatever order |
| `Aggregates.BuildRooms` | internal/state/aggregator.go:113-128 | the loop and sort give the subscribed rooms that are not archived, by name, summing to Totals.Unread |
| `Aggregates.NameLessIff` | internal/state/aggregator.go:100-124 | the list's order: names agree up to a position where the first ends or has the smaller character |
| `Aggregates.MentionRowsListed` | internal/store/sqlite/message_state_repo.go:181-200 | the mention list's own joins and WHERE select exactly one row per message that Totals.Mentions counts, with that message's state, membership and room |
| `Aggregates.PriorityRowsListed` | internal/store/sqlite/message_state_repo.go:212-227 | the priority list's joins and WHERE select exactly one row per message that Totals.Priority counts |
| `Aggregates.AnswerIsTop` | internal/store/sqlite/message_state_repo.go:198-199 | any answer to ORDER BY created_at DESC, id DESC LIMIT n over such rows is the newest n messages, newest first |
| `Aggregates.AnswerExists` | internal/store/sqlite/message_state_repo.go:198-199 | there is such an answer: the rows of the newest messages |
| `Aggregates.MentionFeedMatchesTotal` | internal/store/sqlite/message_state_repo.go:172-206 | any answer to the mention list query is the newest-first prefix, of length min(50, total), of exactly the messages the count query counts |
| `Aggregates.PriorityFeedMatchesTotal` | internal/store/sqlite/message_state_repo.go:208-232 | any answer to the priority list query is the newest-first prefix, of length min(50, total), of exactly the messages the count query counts |
| `MentionCounts.MentionCountsAgreeIff` | internal/store/store.go:172-177 | where mention rows follow the contents, the query's count is the count by content exactly if every pending @everyone is in a subscribed room and names the account too |
| `MentionCounts.EveryoneCountsUnsubscribed` | internal/store/sqlite/message_state_repo.go:76-120 | an instance: an @everyone in an unsubscribed room counts 1 by the query and 0 by content |
| `MentionCounts.TagIffResolved` | internal/bot/mentions.go:80-125 | the rewritten content holds an id's literal exactly if a member with that id was resolved |
| `MentionCounts.SentRowsFollowContent` | internal/api/v1/messages.go:376-390 | a sent message has a mention row for an account exactly if its stored content holds the account's literal |
| `Aggregates.LatestPerRoom` | internal/store/sqlite/message_repo.go:166-199 | the scan loop maps each room to its row numbered 1 |
| `Aggregates.LatestIsHeadOfList` | internal/store/sqlite/message_repo.go:166-199 | the windowed query covers exactly the member rooms not archived that have messages, and gives the head of List for each |
| `Aggregates.SortSlice` | internal/state/aggregator.go:313-325 | a sorted permutation under any strict weak order |
| `Aggregates.MoreRecentIsWeakOrder` | internal/state/aggregator.go:313-325 | the recent feed's comparator is a strict weak order |
| `Aggregates.SortAndCap` | internal/state/aggregator.go:326-328 | sort then truncate: full or complete, sorted, and no omitted entry ranks strictly before an included one |
| `Aggregates.BuildRoomFeeds` | internal/state/aggregator.go:252-330 | the recent feed holds up to 20 subscribed unarchived rooms by the time of their newest message, rooms without one last by join time, the new feed up to 5 that were joined after the cutoff by join time; a room is left out only of a full feed and then behind no room in it |
| `Aggregates.RecentFeedIsTop` | internal/state/aggregator.go:303-330 | the recent feed holds entries of subscribed rooms not archived only, sorted, at most 20; such a room is left out only when it is full, and then ranks strictly before none that is in |
| `ReadRoom.MarkRead` | internal/api/v1/messages.go:714-731 | the loop marks each row read and writes its audit row |
| `ReadRoom.JoinBands` | internal/api/v1/messages.go:734-740 | the two loops give the reversed context followed by the reversed unread list |
| `ReadRoom.ReadRoomTx` | internal/api/v1/messages.go:635-744 | lets in exactly members and admins; before mode: the newest messages of the room older than the cursor and no change; default mode: read ones then unread ones, each oldest first, exactly the latter marked with an audit row each |
| `ReadRoom.RefusalIs` | internal/api/v1/messages.go:627-686 | who is let in and with which error the others are refused |
| `ReadRoom.HistoryAnswer` | internal/api/v1/messages.go:692-701 | before mode answers the newest messages of the room older than the cursor, newest first, with everything left out older, marks nothing, and has more exactly for a full page |
| `ReadRoom.DefaultAnswer` | internal/api/v1/messages.go:703-744 | default mode answers the newest read messages and then the newest 200 unread ones, each oldest first, marks exactly the latter and changes nothing else |
| `ReadRoom.HandlerHistoryIsExact` | internal/api/v1/messages.go:692-701 | asking again from the last message of each answer while there is more lists every older message of the room exactly once, newest first, and ends with nothing older left |
| `ReadRoom.ReadMarksTheNewest` | internal/store/sqlite/message_repo.go:284-315 | a default read marks exactly the min(200, unread) newest unread rows of the room |
| `ReadRoom.ReadConservesUnread` | internal/api/v1/messages.go:705-744 | Totals.Unread falls by exactly min(200, unread in room) if the room is subscribed and not archived, and not at all otherwise |
| `ReadRoom.ReadConservesMentions` | internal/api/v1/messages.go:705-744 | Totals.Mentions falls by exactly the marked rows it counted |
| `ReadRoom.ReadConservesPriority` | internal/api/v1/messages.go:705-744 | Totals.Priority falls by exactly the marked rows it counted |
| `ReadRoom.ReadTouchesNothingElse` | internal/api/v1/messages.go:714-731 | no other account's sets and none of the reader's other rooms change |
| `ReadRoom.AnswerIsTwoBands` | internal/api/v1/messages.go:732-743 | context then unread, each ascending, disjoint, the newest of their kind; when the two are one ascending list, ReadOrder.AnswerSortedIff says |
| `ReadOrder.AnswerSortedIff` | internal/api/v1/messages.go:732-740 | the answer runs from oldest to newest exactly if every message it marks is newer than every message of the room the reader has read, whatever the limit |
| `ReadOrder.SecondReadSortedIff` | internal/api/v1/messages.go:705-744 | the second read of a room is in order exactly if at most 200 messages were unread before the first |
| `ReadOrder.OwnSendSortedIff` | internal/api/v1/messages.go:330-490 | after sending the room's newest message unread, the sender's read is in order exactly if nothing else was unread |
| `ReadOrder.OwnReplyComesFirst` | internal/api/v1/messages.go:732-740 | an instance: two messages, the newer one first in the answer, whatever the limit |
| `ReadRoom.MoreMeansFullBand` | internal/api/v1/messages.go:741-743 | more is set exactly if the room held 200 or more unread messages |
| `ReadRoom.DrainTakesCeiling` | internal/api/v1/messages.go:705-744 | n unread messages are gone after exactly ceil(n/200) reads |
| `Announcements.BoardDb.ScanVersion` | internal/store/sqlite/announcement_repo.go:82-93 | one more than the highest version of the room, 1 for none |
| `Announcements.BoardDb.Post` | internal/api/v1/announcements.go:72-115 | succeeds exactly for members and admins on an open room with content: the announcement with a version above all of its room's by one, and the audit row, together; otherwise nothing |
| `Announcements.BoardDb.Ack` | internal/api/v1/announcements.go:227-268 | succeeds exactly for members and admins of the announcement's room: the read row, overwritten on a second time, and its audit row together; otherwise nothing |
| `Announcements.PostRefusalIs` | internal/api/v1/announcements.go:72-115 | who may post and which error the others get: content, room, archived, account, membership in this order; admins need no membership |
| `Announcements.AckRefusalIs` | internal/api/v1/announcements.go:227-268 | who may acknowledge and which error the others get |
| `Announcements.CascadeIs` | internal/store/sqlite/account_repo.go:146-159 | a deletion leaves exactly the announcements of the remaining rooms, without the deleted author, and the read rows of the remaining accounts |
| `Announcements.VersionsAreConsecutive` | internal/store/sqlite/announcement_repo.go:82-93 | on every run from an empty board, with room, message and account transactions in between, each room's versions are exactly 1..n, each given to one announcement |
| `Announcements.AuditReproducesWithBoards` | internal/api/v1/announcements.go:72-268 | on those runs too the audit log replays to the rooms and memberships there are, after every step |
| `Announcements.LatestIsUnique` | internal/store/sqlite/announcement_repo.go:65-80 | a room with announcements has one latest, whose version is their number |
| `Announcements.PostMakesMembersUnread` | internal/store/sqlite/announcement_repo.go:155-175 | a post is the one unread row of its room for every current member; the count rises by one unless the old latest was unread; non-members see no change |
| `Announcements.AckLowersByOne` | internal/store/sqlite/announcement_repo.go:155-175 | an acknowledgement lowers the count by exactly one for an unread latest of a member's room, and changes nothing for a superseded or acknowledged one or for others |
| `Downloader.BackoffSchedule` | internal/attachment/downloader.go:254-267 | 2s doubling to 64s, then 120s; never shrinking |
| `Downloader.Worker.RecordFailure` | internal/attachment/downloader.go:211-221 | one more attempt at this time |
| `Downloader.Worker.ClearFailure` | internal/attachment/downloader.go:223-227 | the entry is gone |
| `Downloader.Worker.ProcessOnce` | internal/attachment/downloader.go:166-196 | a cycle skips rows in backoff and books every other row's outcome at the cycle's clock |
| `Downloader.MapTracksStreak` | internal/attachment/downloader.go:200-221 | the map's entry is the length and last time of the row's current streak of failures, and the streak keeps the backoffs |
| `Downloader.FetchedIff` | internal/attachment/downloader.go:166-232 | a visited row is fetched exactly if it has no failures since its last success or the last one is at least their number's backoff ago |
| `Downloader.RetriesBackOff` | internal/attachment/downloader.go:200-267 | the k-th consecutive failed fetch is at least 2^k - 2 seconds after the first up to k = 7, and 126 + 120(k - 7) after |
| `Downloader.AtMostThirtyAnHour` | internal/attachment/downloader.go:254-267 | from the seventh on any half-open hour holds at most 30 attempts, the one that ends a streak included |
| `Downloader.NextFetchWaits` | internal/attachment/downloader.go:200-209 | the fetch that ends a streak also waits for the last backoff |
| `Downloader.RealWait` | internal/attachment/downloader.go:166-186 | in real time the wait is the backoff less how late in its cycle the previous fetch ran |
| `Downloader.RealRetriesBackOff` | internal/attachment/downloader.go:166-267 | in real time the k-th consecutive failure keeps the distance of the schedule from the first, less how late in its cycle the first one ran |
| `Downloader.RealHourlyCap` | internal/attachment/downloader.go:254-267 | in real time an hour holds fewer than 31 attempts and one per two minutes by which the first was late; at most 30 if it was not |
| `Downloader.AtMostThirtyOneInRealTime` | internal/attachment/downloader.go:141-160 | as cycles follow one another, an hour of real time holds at most 31 attempts, however late the first was |
| `Downloader.ThirtyOneInAnHour` | internal/attachment/downloader.go:141-160 | an instance that reaches 31: the seventh fetch an hour late in its cycle, then one every two minutes |
| `Downloader.FullWaitIff` | internal/attachment/downloader.go:166-209 | every retry waits the full backoff in real time exactly if the failed fetch ran at its cycle's clock or the cycle went on for the whole backoff |
| `Downloader.FullWaitAtEndIff` | internal/attachment/downloader.go:166-209 | for the last fetch of a cycle: exactly if it ran at the cycle's clock |
| `Downloader.SlowCycleRetriesEarly` | internal/attachment/downloader.go:171-180 | an instance: two fetches of a file start one second apart behind a slow row |
| `Lifecycle.Daemon.OnlineAccount` | internal/api/v1/discord.go:168-225 | succeeds exactly if the row, the token, the key, a free entry, the connect and the transaction are there; the row is then online with the captured bot user id, or the old one if none was captured, with its audit row; the errors in order, and a failed transaction disconnects again |
| `Lifecycle.Daemon.OfflineAccount` | internal/api/v1/discord.go:245-293 | refused exactly without a live entry or row; else the row goes offline with its audit row and the entry goes unless the disconnect fails |
| `Lifecycle.Daemon.DeleteAccount` | internal/api/v1/accounts.go:205-234 | refused exactly on any entry or without the row; else the account row goes with its audit row; the cascades are those of Rooms.DeleteAccountTx |
| `Lifecycle.Daemon.ReconcileStaleOnline` | cmd/agentchatd/cmds/serve.go:246-286 | the sweep takes every online row offline and nothing else of any row, with exactly one audit row per online account, all or none |
| `Lifecycle.Daemon.Boot` | cmd/agentchatd/cmds/serve.go:113-156 | an empty connector and a sweep whose failure is only logged |
| `Lifecycle.StepAgreesIff` | internal/api/v1/discord.go:168-293 | a step of any overlapping handlers keeps online-implies-registered exactly if it is not: an online committing after its entry went, a failed connect or a finished disconnect of an account stored as online, a boot whose sweep fails with an online row |
| `Lifecycle.AgreesThroughoutIff` | internal/api/v1/discord.go:168-293 | a run of overlapping handlers keeps it in every state exactly if it holds no such step |
| `Lifecycle.OnlineIff` | internal/api/v1/discord.go:205-276 | an account not stored as online is so later on a run exactly if an online committed in between and nothing has taken the row out since |
| `Lifecycle.DeletionHitsOnlineIff` | internal/api/v1/accounts.go:205-234 | a deletion whose check found the agreement removes an account stored as online exactly if an online committed after the check and was not undone since |
| `Lifecycle.SlotsAreOwned` | internal/connector/connector.go:100-206 | on every run a connecting or disconnecting entry is held by one call, and each section of Connect and Disconnect finds its entry in the phase it expects |
| `Lifecycle.OnlineMeansRegistered` | cmd/agentchatd/cmds/serve.go:150-156 | on every run whose calls on one account do not overlap and whose boots commit, with arbitrary failures and crashes: an account stored as online is registered |
| `Lifecycle.NoOnlineAccountIsDeleted` | internal/api/v1/accounts.go:205-234 | on those runs no account stored as online is deleted |
| `Lifecycle.OnlineIsARun` | internal/api/v1/discord.go:194-222 | the whole OnlineAccount is a run of its atomic steps |
| `Lifecycle.OfflineIsARun` | internal/api/v1/discord.go:256-292 | the whole OfflineAccount is a run of its atomic steps |
| `Lifecycle.DeleteIsARun` | internal/api/v1/accounts.go:213-234 | the whole DeleteAccount is a run of its atomic steps |
| `Lifecycle.BootAgreesIff` | cmd/agentchatd/cmds/serve.go:282-285 | a boot restores the agreement exactly if its sweep commits or nothing was online |
| `Lifecycle.OverlapBreaksAgreement` | internal/api/v1/discord.go:194-222 | an instance, from any state: a whole offline between an online's connect and its transaction leaves an online account with no entry, open to deletion |
| `Lifecycle.DeleteOverlapHitsOnline` | internal/api/v1/accounts.go:213-234 | an instance, from any state: a whole online between a delete's check and its transaction; the online account goes and its provider stays |
| `ConnectorSlots.ConnectorActsOnSlots` | internal/connector/connector.go:100-206 | on every run of the connector's own machine each critical section acts on its account's entry as the lifecycle's step does, and nothing else touches an entry |
| `ConnectorSlots.ConnectorRunsOnSlots` | internal/connector/connector.go:100-206 | every run of the connector's machine, seen on its entries, is a sequence of sections that each find the phase they expect |
| `ConnectorSlots.LifecycleRunsOnSlots` | internal/api/v1/discord.go:168-293 | so is every run of the lifecycle's handlers while one daemon is up: the two machines agree on what an entry may go through |

## Left out

- HTTP routing, JSON, the CLI, the client package, configuration, logging, cryptography, the Discord session, file and network transfer: wrappers around I/O.
- Error-code tables, DTO conversion, account update planning, token encoding, file name sanitising, room name validation: would only add easy members.
- The SQL engine: a query is a set or sequence expression over the tables, ordered as its ORDER BY says; ties that SQL leaves open are left open.
- Account creation and editing as handlers: in `Rooms.dfy` they are arbitrary changes of account rows; a reconciliation of several accounts there is one edit after the other.  Tokens are not modelled.
- Lifecycle.Daemon.DeleteAccount: deletes the account row only; its cascades over memberships and messages are in `Rooms.dfy`.
- The first, read-only transactions of the room handlers and of SendMessage: their results are arbitrary inputs of the second ones.
- The downloader's file transfer, size cap and ListPendingDownloads order: a cycle gets any list of rows and any outcomes.
- ListUnreadForAccount of announcements: the set that the count is proved about, ordered and cut like the message feeds.
- System announcements, replies and reactions beyond the reply column, GET handlers without state.
- Timing and deadlock between the bus mutex and the store's connection: a build that times out is a failed build.
- Build issues many queries outside a transaction: the snapshot results are stated for one fixed database state.
- One drain goroutine per account in the ingester: the code does not promise it.
- Merge.MergesNeverTakeBack: runs hold no room or account deletion, which remove rows by cascade; `Rooms.dfy` has both.
- BusClass.Bus.Publish: the debounce interval is not modelled; a timer goes off at any time after it is armed, so nothing is said about how many builds a burst causes.
- Lifecycle.StepAgreesIff: attaching and detaching the ingester, and the status answer, are not part of the handlers; a run's provider generations are in `Connector.dfy`.
- Lifecycle.OnlineIsARun: the read of the account before the connect is no step of its own, so a run may reserve an entry for an account whose row has gone meanwhile.
- ConnectorClass.Connector.InstallProvider: instance records, subscriptions and channels are values in maps keyed by identity, not heap objects, so aliasing between Go variables is not captured.
- ConnectorModel.NoChannelPanics: the provider may run either critical section of Disconnect and publish in any order and number, which includes more runs than the two providers allow; the mock's ledgers are left out.
- MergeOrder.SendAndEchoesConverge: file size and MIME type are those of whichever path created the row and are not part of the outcome.
- Pages.PagingIsExact: on a fixed messages table; messages that arrive while a client pages are newer than the cursor and are not considered.
- Downloader.RetriesBackOff: for one process; the bookkeeping is lost on restart, as the source says.
- Aggregates.SortSlice: `sort.Slice` may leave any sorted permutation; the insertion loop here is one way to reach one, and the results rely only on sortedness and permutation.
