# Velora: what its matching, chat and sign-in services keep

Velora pairs people up: they like, match, block and unmatch each other, open
conversations, send messages, acknowledge and act on them, and follow all of it
through a per-account event log. This project models that protocol and proves
what it keeps.

Everything two people share (likes, blocks, the match, conversations, messages,
receipts, consents) is one `PairRow`; an account's counter and stored events are
one `UserRow`. Four views of the same protocol are tied together:

1. **The services as written** (`Store`). A class whose methods update rows one
   after another, and put everything back on an error. Every method is proved
   to be exactly one atomic step, with the exact error otherwise.
2. **The step level** (`ChatLog`, `Social`, `Safety`, `Conversations`, `Steps`,
   `Commits`, `Invariants`, `Guarantees`, `Effects`, `ChatEffects`, `Rematch`). Each committed
   transaction is one step of the database; one invariant holds after every run, and nothing
   a run does to a conversation is undone by a later one. `Effects` and `ChatEffects` say of
   each step exactly when it is taken, what it changes, and that nothing else changes, without
   the functions that compute it.
3. **The interleaving level** (`Interleaving`, `Isolation`, `Concurrency`, `Withdrawal`,
   `Progress`). Transactions run statement by statement at read committed, with
   private writes, advisory pair locks and account row locks held to commit.
   Every interleaving is proved to equal its transactions performed one at a
   time in commit order, for any lock-key function, collisions included. So the
   invariant and the guarantees of level 2 hold there too. The lock order is proved free
   of deadlock. The anonymous queue is not part of this machine: `AnonymousQueue` has its
   own, in which a join's look and its commit are apart, one join at a time
   (`Progress.JoinsAreSerial`) and anything else in between.
4. **What clients see** (`Replay`, `Snapshot`, `Inbox`, `InboxEffects`, `Threads`, `Wakeup`).
   Event replay under retention, snapshot plus replay, keyset inbox pages and
   the badge, history pages, and the coalescing wake-up.

Three self-contained parts stand beside it: refresh-token families and Google
linking (`Auth`, `AuthService`, `Tokens`, `RefreshRace`, `IdentityRace`, `FamilyRace`), the
fixed-window limiter (`RateLimit`, `RateBounds`) and the ranked feed (`Compat`, `Ranking`,
`Similarity`).

Where the documentation and the code differ, the code is followed: CHAT.md:85
says that events are never pruned and that the inbox pages by offset, while
internal/chat/service.go:53-67 prunes and internal/chat/service.go:181-203 pages
by key.

Six properties one might expect are false of the code. Each is stated with a run or
input that shows it and the exact condition under which it holds:

- *A match is made only from two standing likes.* `RemoveLike` is one statement
  without the pair lock, so it can commit between the moment `Like` reads the other
  like and the moment it commits; the match is made all the same
  (`Withdrawal.WithdrawnLikeStillMatches`, from the empty database). Once the read
  saw the like, the like still stands when the match commits exactly when no withdrawal of
  it committed in between (`Withdrawal.MatchIsFromStandingLikesIff`). No mutual like
  is lost the other way round (`Concurrency.NoMutualLikeIsLost`).
- *Two people with a match can talk.* The pair's match conversation is inserted once, and a
  later match finds it as it was left: after a match, an unmatch and a second match the two
  are matched and neither can use the conversation (`Rematch.MatchedInSilence`, from the
  empty database), for good (`Rematch.SilentForGood`). Matched and active they can use it
  exactly if no block or unmatch came after a match of theirs (`Rematch.MatchIsUsableIff`);
  seen from the like that matches them, exactly if the pair had no match conversation or an
  open one (`Rematch.NewMatchIsUsableIff`). CHAT.md:87 says that old conversations are not
  reopened, but not that a new match has none.
- *A window grants at most the limit.* A limit below one still lets the first hit of
  each window through (`RateBounds.ZeroLimitGrantsOne`; internal/config/config.go:73 lets a
  deployment set it to zero), and a ceiling reset forgets the hits of every window that is
  open (`RateBounds.ResetGrantsAgain`; internal/httpx/ratelimit.go:94-99). For a given set of
  callers the limit holds, whatever they do, exactly when it is at least one and they are
  fewer than the ceiling (`RateBounds.LimitHoldsIff`). Resets included, a stretch of one
  window's length grants at most twice max(1, limit) for each reset in it and once more
  (`RateBounds.AtMostTwiceTheLimit`).
- *An account keeps its email identity and its password beside a Google sign-in for the
  same new address.* Register takes none of the sign-in's advisory locks and may commit
  between its lookups and its writes (`IdentityRace.RegisteredInBetween`). The identity
  rules survive exactly unless that happens to a sign-in that found neither its subject nor
  its address (`IdentityRace.IdentitiesSurviveIff`).
- *Who leaves the anonymous queue is not paired.* Leaving takes no queue lock and the
  pairing does not look at the entry again, so an account whose leave was answered after it
  was offered is paired all the same (`AnonymousQueue.LeftAndPaired`). It had left at the
  pairing exactly when its leave committed between the offer and the pairing
  (`AnonymousQueue.LeaverIsPairedAllTheSame`).
- *A reuse report or a sign-out ends the family.* The update changes the rows its snapshot
  saw, so a token inserted by a rotation it had to wait for survives
  (`FamilyRace.ReportMissesRotation`). It ends the family exactly unless a token of it was
  rotated in between and nobody else ended it (`FamilyRace.FamilyEndsIff`).

## Model

| member | source | states |
|---|---|---|
| ChatLog.PairIsCanonical | internal/chatlog/chatlog.go:14-19 | the ordered pair is the same from both sides and identifies exactly the two people |
| ChatLog.AppendOne | internal/chatlog/chatlog.go:28-46 | allocating events one statement at a time numbers them as one batch would |
| Store.Database.Emit | internal/chatlog/chatlog.go:28-46 | each member's log grows by the one event at its next position; nothing else changes |
| Store.Database.EnsureMatch | internal/chatlog/chatlog.go:48-63 | the pair has a match conversation: the one it had, in whatever state, or a new open, empty, unread one with its event |
| Store.Database.SelectLive | internal/chatlog/chatlog.go:68-85 | selects each open or pending conversation of the pair once, only the match one when asked |
| Store.Database.ClosePair | internal/chatlog/chatlog.go:66-95 | exactly the selected conversations end closed, each announced to both members |
| Store.Database.Like | internal/social/social.go:108-229 | is one Like step, all or nothing, refused exactly for a block or an unknown account; answers the pair's match exactly when the other like was there |
| Store.Database.CreateMatch | internal/social/social.go:234-268 | keeps an existing match id, ensures the conversation, consumes both likes |
| Store.Database.RemoveLike | internal/social/social.go:321-336 | only the sender or the recipient can remove a stored like; otherwise refused and unchanged |
| Store.Database.Block | internal/safety/safety.go:64-112 | is one Block step over every open or pending conversation of the pair, or refused unchanged |
| Store.Database.Sever | internal/safety/safety.go:77-103 | close, then block, then drop the match and both likes |
| Store.Database.Unblock | internal/safety/safety.go:116-120 | lifts the caller's own block; the other member's, the likes, the match, the conversations and every log are as they were |
| Store.Database.FindMatch | internal/safety/safety.go:167-177 | finds the caller's match by id, or there is none |
| Store.Database.EndMatch | internal/safety/safety.go:178-193 | closes the match conversation, deletes the match by id, and both likes |
| Store.Database.Unmatch | internal/safety/safety.go:160-203 | is one Unmatch step of the caller's match, refused exactly when there is none |
| Store.Database.Insert | internal/chat/service.go:332-392 | answers the stored message on a retry, refuses a changed one, else stores the next position once with the activity moved and everybody's copy out of the archive; the limiter is asked only before a store |
| Store.Database.Write | internal/chat/service.go:316-331 | the permission check and the insert together, as seen inside a transaction |
| Store.Database.Send | internal/chat/service.go:316-331 | is one Send step, all or nothing, answering the stored message; unavailable without access, refused by the limiter exactly when it would have stored one |
| Store.Database.Open | internal/chat/service.go:219-296 | is one opening step, conversation and first message together or neither |
| Store.Database.OpenMatch | internal/chat/service.go:245-268 | needs a match; a first message, when given, is stored by the same transaction |
| Store.Database.OpenRequest | internal/chat/service.go:269-294 | reuses the pair's request or creates a pending one, and needs its introduction |
| Store.Database.MoveReceipt | internal/chat/service.go:468-477 | changes the participant row exactly when its cursor is behind |
| Store.Database.Receipt | internal/chat/service.go:448-484 | is one Receipt step, announced exactly when a row changed; unavailable exactly without access, and a bad request exactly beyond the history |
| Store.Database.Change | internal/chat/service.go:496-538 | each action's updates and the event they call for, or the refusal; `ChatEffects.ActEffect` says what they come to |
| Store.Database.Action | internal/chat/service.go:486-546 | is one Act step, all or nothing: unavailable exactly without access, forbidden exactly for who may not take it |
| Store.Database.FindMasked | internal/chat/anonymous.go:36-45 | finds an open, unrevealed, unblocked anonymous conversation of the caller, or there is none |
| Store.Database.PairUp | internal/chat/anonymous.go:78-113 | rechecks under the pair lock, then creates the anonymous conversation and announces it, or changes nothing |
| Store.Database.JoinAnonymous | internal/chat/anonymous.go:13-115 | is one joining of the queue: refused, answered with the conversation already open, left waiting, or paired and taken out of the queue; keeps the queue's invariant |
| Store.Database.LeaveQueue | internal/chat/anonymous.go:116-123 | the caller is not waiting any more, every other entry and the database are as they were, and the queue's invariant is kept |
| Store.Database.Resolve | internal/safety/safety.go:370-404 | closing a report leaves the named account inactive exactly when asked to; no other account and no pair changes |
| Store.Database.PruneEvents | internal/chat/service.go:53-67 | a sweep is a run of prune steps that changes nothing but the stored events due |
| Store.Database.Register | internal/auth/password.go:96-105 | a new account joins with an empty log |
| Commits.CommitsAs | internal/safety/safety.go:57-63 | writing an operation's pair row with its events is the atomic step, and keeps the invariant |
| Commits.LikeCommits | internal/social/social.go:170-268 | the like written first and consumed by the match is the same step as deciding at once |
| Commits.SendCommits | internal/chat/service.go:322-330 | the statements of a send add up to the Send step |
| Commits.OpenMatchCommits | internal/chat/service.go:252-268 | conversation row, its event, message and its event add up to one opening step |
| Commits.OpenRequestCommits | internal/chat/service.go:279-294 | so do a new request and its introduction |
| Conversations.Find | internal/chat/service.go:338 | finds a message with this sender and client id if and only if one is stored |
| Invariants.PerformIsSound | internal/chat/service.go:95 | every operation keeps the pair's invariant, undoes nothing, and announces every conversation it changes |
| Invariants.InsertIsSound | internal/chat/service.go:364-374 | storing a message keeps positions gap free, client ids unique and receipts in order |
| Invariants.LikeIsSound | internal/social/social.go:108-229 | a like keeps the wall and never leaves both likes |
| Invariants.ClosingIsSound | internal/chatlog/chatlog.go:66-95 | closing leaves no selected conversation live and reopens none |
| Invariants.BlockIsSound | internal/safety/safety.go:64-112 | after a block nothing is left behind it |
| Invariants.UnmatchIsSound | internal/safety/safety.go:160-203 | ending a match keeps the invariant and leaves no live match conversation, even when its id was stale |
| Invariants.OpenRequestIsSound | internal/chat/service.go:269-294 | a request is committed only together with its one introduction |
| Invariants.ActIsSound | internal/chat/service.go:496-545 | accept, decline, reveal and the rest keep the invariant |
| Invariants.StepKeepsInv | internal/safety/safety.go:4-8 | every committed transaction keeps the database invariant |
| Invariants.RunKeepsInv | internal/safety/safety.go:4-8 | the invariant holds after every run |
| Guarantees.NothingIsUndone | internal/chatlog/chatlog.go:48-55 | over any run messages are only appended, receipts and consents only advance, closed and declined are never left |
| Guarantees.AccessIsStateAndStatus | internal/chat/service.go:114-125 | in a reachable database access is granted exactly to members of an open or pending conversation with both accounts active |
| Guarantees.InboxListsWhatAccessAllows | internal/chat/service.go:174-180 | an active account's inbox lists exactly what access allows |
| Guarantees.BlockIsAWall | internal/safety/safety.go:4-8 | a block either way implies no match, no like and no accessible conversation |
| Guarantees.ClosedStaysClosed | internal/safety/safety.go:114-115 | no later unblock, like or match gives access to a closed or declined conversation |
| Guarantees.MutualLikesMatch | internal/social/social.go:134-141 | two likes with nothing taken back in between end matched |
| Guarantees.TakenKeyNeverStores | internal/chat/service.go:338-345 | a send under a taken client id answers the stored message exactly when it repeats it, and stores nothing |
| Guarantees.SendIsExactlyOnce | internal/db/migrations/0006_messages.sql:83-102 | after a send is answered, however much commits, every later send under its client id answers the same message exactly when it repeats it, and never stores one |
| Guarantees.OpenIsExactlyOnce | internal/chat/service.go:219-296 | however much commits, opening again under a used client id stores nothing, and succeeds exactly when it repeats the stored message in a conversation still reachable |
| Guarantees.MessagesAreDenseAndUnique | internal/db/migrations/0006_messages.sql:69-73 | positions are exactly 1..last_seq and no two messages share a sender and client id |
| Guarantees.MessagesNeedActiveAccounts | internal/chat/service.go:378-385 | a step that stores a message finds both accounts active |
| Guarantees.PendingIsLeftOnlyByAnswer | internal/chat/service.go:497-512 | a pending conversation leaves that state only by the other member's accept or decline, or by a block |
| Guarantees.RevealedIffBothConsent | internal/chat/service.go:513-527 | a mask is off exactly when both consents exist and never goes back on |
| Guarantees.ReceiptsAdvance | internal/chat/service.go:468-477 | 0 <= read <= delivered <= last_seq always, and neither cursor goes back |
| Guarantees.ReceiptIsRecorded | internal/chat/service.go:464-482 | an acknowledgement moves the caller's cursors up to the position, nothing else, and is announced exactly when one moved |
| Guarantees.ReceiptIsExactlyOnce | internal/chat/service.go:468-482 | however much commits after an acknowledgement, making it or an earlier one again changes and announces nothing |
| Guarantees.NoSecondIntroduction | internal/chat/service.go:349-351 | while a request waits nobody can write to it, by Send or by Open |
| Guarantees.AnsweredRequestIsFinal | internal/chat/service.go:270 | after any later run a declined or closed request cannot be asked again by either side |
| Guarantees.BlockStays | internal/safety/safety.go:114-120 | a block stands over any run in which its maker does not lift it |
| Guarantees.FlagsAreYourOwn | internal/chat/service.go:528-535 | muting and archiving touch only the caller's own flag |
| Effects.LikeRefused | internal/social/social.go:152-166 | a like of a known person is refused exactly behind a block |
| Effects.LikeWaits | internal/social/social.go:168-199 | a like that saw no other one adds itself to the likes and changes nothing else, in no log |
| Effects.LikeMatches | internal/social/social.go:201-268 | a like that saw the other one leaves the pair matched under the id it had or the new one, without likes, and with a match conversation: untouched if there was one, else open, empty and unread by both members, who are told of it; nothing else changes |
| Effects.NewMatchIsOpenToBoth | internal/chatlog/chatlog.go:48-63 | both active members can use a match conversation it made |
| Effects.RemoveLikeEffect | internal/social/social.go:321-336 | a stored like is taken away, and nothing else; there is nothing to take away otherwise |
| Effects.BlockEffect | internal/safety/safety.go:64-112 | a block is never refused: it stands, the match and both likes are gone, exactly the open and pending conversations are closed, each named once in both logs, and nothing else changes |
| Effects.UnmatchEffect | internal/safety/safety.go:178-193 | an unmatch ends the match of this id only, takes both likes and closes only the match conversation, with its event |
| Effects.UnblockEffect | internal/safety/safety.go:114-120 | an unblock is never refused and lifts the caller's block and nothing else |
| Effects.BlockStandsIff | internal/safety/safety.go:64-120 | at the end of any run a person's block stands exactly when some block of theirs has no later unblock of theirs |
| Effects.SuspendEffect | internal/safety/safety.go:397-403 | a suspended account is inactive; its log, every other account and every pair are as they were |
| Effects.ActiveUntilSuspended | internal/safety/safety.go:397-403 | over any run an account is active at the end exactly when it was before and nobody suspended it |
| Effects.SuspendedGetsNoMessage | internal/chat/service.go:378-385 | from its suspension on, after any run, no step stores a message in a conversation of the account |
| Effects.PruneEffect | internal/chat/service.go:53-67 | pruning takes exactly the oldest stored events of one account and leaves its counter |
| Rematch.RowTellsThePast | internal/chatlog/chatlog.go:48-95 | after any run a pair has a match conversation exactly if it was ever matched, and it is closed exactly if a block or an unmatch came after a match |
| Rematch.MatchIsUsableIff | internal/chatlog/chatlog.go:48-55 | matched and active, the two can use the match conversation exactly if no block or unmatch came after a match of theirs |
| Rematch.NewMatchIsUsableIff | internal/chatlog/chatlog.go:48-55 | seen from the like that matches them, exactly if the pair had no match conversation or an open one |
| Rematch.MatchedInSilence | internal/chatlog/chatlog.go:48-55 | a run from the empty database that ends matched, both active, and neither with access to the match conversation |
| Rematch.SilentForGood | internal/chatlog/chatlog.go:48-55 | no later run gives either of them access to it |
| ChatEffects.InsertEffect | internal/chat/service.go:332-392 | under an unused client id a message is stored exactly if the text is valid, the sender has the floor and the reply is absent or stored in this conversation; what is then left, and each refusal's reason |
| ChatEffects.SendStoresIff | internal/chat/service.go:316-331 | so a send stores exactly then, when the conversation stands and both accounts are active |
| ChatEffects.SendStores | internal/chat/service.go:364-377 | and leaves one message more at the next position, the activity at now, nobody's copy archived, one event in each log, and all else as it was |
| ChatEffects.SendAgainChangesNothing | internal/chat/service.go:337-345 | a retry changes nothing |
| ChatEffects.OpenMatchEffect | internal/chat/service.go:245-268 | opening a match without a message is refused exactly behind a block and without a match; else the conversation is there as after a match, and nothing else changes |
| ChatEffects.OpenMatchWithMessage | internal/chat/service.go:245-268 | with a first message it succeeds exactly when nothing stands against the message, which is stored in the one there or the new one |
| ChatEffects.OpenRequestWithMessage | internal/chat/service.go:269-294 | asking succeeds exactly when nothing stands against it; a new request is pending, asked by the caller, on that one message |
| ChatEffects.MeetEffect | internal/chat/anonymous.go:78-113 | an anonymous pairing is refused exactly behind a block or an earlier one; else a new open conversation both are told of |
| ChatEffects.ReceiptEffect | internal/chat/service.go:448-484 | an acknowledgement is taken exactly inside the history of a conversation that stands, moves only the caller's cursors forward to it, and is told only if one moved |
| ChatEffects.ActEffect | internal/chat/service.go:486-546 | accepting opens a pending request, declining ends it, revealing adds the caller's consent and lifts the masks exactly with the second, muting and archiving set the caller's flag: exactly for those who may, announced, and nothing else changes |
| AnonymousQueue.NobodyWearsTwoMasks | internal/chat/anonymous.go:22-45 | with leaves and any other transactions falling between a join's look and its commit, nobody is ever in two open unrevealed anonymous conversations, and whoever waits is in none |
| AnonymousQueue.EnterIsLookAndCommit | internal/chat/anonymous.go:22-113 | with nothing in between, look and commit are the whole join |
| AnonymousQueue.LeaverIsPairedAllTheSame | internal/chat/anonymous.go:78-123 | an offered account is paired whether it still waits or not, and it had left at the pairing exactly when its leave committed between the offer and the pairing |
| AnonymousQueue.LeftAndPaired | internal/chat/anonymous.go:116-123 | a run from the empty database in which an account leaves the queue and is paired afterwards |
| AnonymousQueue.OfferedIsPaired | internal/chat/anonymous.go:78-107 | a caller the queue has somebody for is paired and both leave the queue, unless a block or an anonymous conversation came between them, and then nothing changes |
| AnonymousQueue.QueueAfterJoin | internal/chat/anonymous.go:46-77 | a refused or already masked caller leaves the queue alone; one without a peer waits thirty seconds; every other entry stands exactly unless it has run out |
| Isolation.CommitIsAStep | internal/chat/service.go:95 | what a finished transaction publishes is the atomic step on the rows committed at that moment |
| Isolation.TockKeepsInv | internal/chatlog/chatlog.go:20-46 | locks stay exclusive and what each running transaction knows stays true under every tick of the others |
| Concurrency.InterleavingIsASequence | internal/social/social.go:134-149 | the committed rows of any interleaving are those of its transactions one at a time in commit order |
| Concurrency.EveryInterleavingKeepsInv | internal/chat/service.go:95 | the database invariant holds at every moment of every interleaving |
| Concurrency.EventsAreDense | internal/chatlog/chatlog.go:26-46 | an account's committed events are always exactly 1..event_seq in commit order |
| Concurrency.NoEventCommitsLate | internal/db/migrations/0006_messages.sql:164-168 | a reader that has seen n never later finds an unseen row at or below n |
| Concurrency.LikesAreNeverBothCommitted | internal/social/social.go:134-141 | the two likes of a pair are never both committed, and none stands behind a block |
| Concurrency.CommittedLikeLeavesATrace | internal/social/social.go:180-228 | at its commit a like leaves its row or the match, whatever ran beside it |
| Concurrency.NoMutualLikeIsLost | internal/social/social.go:134-141 | in every interleaving two likes with nothing taken back in between match |
| Concurrency.LikeMatchesIffItSaw | internal/social/social.go:180-201 | a committed like leaves a match exactly if it read the other like or the pair was matched before |
| Concurrency.WithdrawalComesTooLate | internal/social/social.go:324-335 | in any state right after a Like's read, the other person's withdrawal commits, takes the like away and leaves the Like running |
| Withdrawal.ReadSeesCommittedLike | internal/social/social.go:180-187 | a Like goes on to the match exactly when the other like is committed at its read |
| Withdrawal.MatchIsFromStandingLikesIff | internal/social/social.go:180-228 | whatever runs between that read and the commit, the match is made, and the other like still stands at that moment exactly when it was not withdrawn in between |
| Withdrawal.WithdrawnLikeStillMatches | internal/social/social.go:324-335 | a run from the empty database in which the withdrawal commits, then the Like commits, and the two are matched |
| Concurrency.NoMessageWhileSuspended | internal/chat/service.go:378-385 | no message commits while either account is suspended, in every interleaving with Resolve |
| Progress.QueueKeyIsNoPairKey | internal/chat/anonymous.go:22 | the queue's advisory key lies outside the range of pair keys |
| Progress.LocksAscend | internal/chatlog/chatlog.go:28-46 | a statement only takes an advisory or account lock above those its transaction holds |
| Progress.TouchingNeedsThePair | internal/chat/service.go:105-113 | every statement that locks or writes a conversation row runs under its pair's lock |
| Progress.ConversationRowsAreFree | internal/chatlog/chatlog.go:65-68 | so when a statement locks or writes a conversation row, no other transaction has it |
| Progress.JoinsAreSerial | internal/chat/anonymous.go:22-25 | of two running joins at most one is past taking the queue lock |
| Progress.SomeoneCanStep | internal/chatlog/chatlog.go:20-46 | in every reachable state with unfinished transactions one of them commits or runs its next statement, with no conversation row it needs in other hands |
| Replay.ReadEvents | internal/chat/service.go:548-590 | the call's loop and cut answer what the specification function does |
| Replay.EventsAnswer | internal/chat/service.go:554-588 | refused to an inactive account and ahead of the counter, Gone exactly when the next event was pruned, else the next hundred |
| Replay.FollowMissesNothing | internal/chat/service.go:557-569 | following the cursor across any appends and prunes delivers each event once in order, or is refused |
| Replay.CatchUp | internal/chat/realtime.go:229-242 | on a fixed log the loop ends with the cursor at the counter, or is told Gone |
| Replay.LogIsDense | internal/chatlog/chatlog.go:26-46 | stored rows are the last of a log numbered 1..event_seq |
| Replay.NoLateEvent | internal/db/migrations/0006_messages.sql:164-168 | no row appears later at or below a counter already read |
| Snapshot.ChangesAreLogged | internal/chat/service.go:154-160 | any change to a conversation after a snapshot has an event above its cursor naming that conversation |
| Snapshot.SnapshotThenReplayMissesNothing | internal/chat/service.go:149-216 | a client that follows from its snapshot to the end was told of every conversation that changed |
| Inbox.CollectPage | internal/chat/service.go:186-204 | the page collected is exactly the visible rows between its two cursors, in order, and a cursor means a row lies behind it |
| Inbox.QueryHasAnswer | internal/chat/service.go:178-182 | the page query has an answer from any cursor |
| Inbox.PageIsARange | internal/chat/service.go:181-204 | a page holds exactly the visible rows between its cursors |
| Inbox.WalkIsLossless | internal/chat/types.go:69-74 | whatever moves between reads, rows never repeat and none that stayed put is skipped |
| Inbox.SettledConversationIsSentOnce | internal/chat/types.go:69-74 | a conversation visible with the same activity throughout a completed walk is on exactly one page |
| Inbox.BadgeIsTheSumOverPages | internal/chat/service.go:205-212 | the badge is the sum of the unread counts over all pages |
| InboxEffects.SentIsOnTop | internal/chat/service.go:364-365 | after a message is stored its conversation is above every key with earlier activity |
| InboxEffects.OnlyNewerComeBefore | internal/chat/service.go:178-182 | so in anybody's listing only conversations active since come before it |
| InboxEffects.SentIsOneMoreUnread | internal/chat/service.go:168 | a message is one more unread for the other person and none for its sender |
| InboxEffects.ReadIsReadUpTo | internal/chat/service.go:468-474 | acknowledged as read, exactly the unread messages past the position remain; as delivered, all of them |
| InboxEffects.ReadingAllClears | internal/chat/service.go:468-474 | having read everything leaves nothing unread |
| InboxEffects.CanSendIsTrue | internal/chat/service.go:171 | an inbox row says the user can send exactly when a valid message would be stored |
| InboxEffects.CanAcceptIsTrue | internal/chat/service.go:172 | and that they can accept exactly when accepting would change anything, and exactly when they could decline instead |
| Threads.ReverseInPlace | internal/chat/service.go:440-444 | the swap loop reverses the slice |
| Threads.CollectHistory | internal/chat/service.go:436-445 | cut to the limit and put in order, with hasMore exact |
| Threads.BackwardPage | internal/chat/service.go:414-444 | a backward page is the newest messages under the bound, oldest first |
| Threads.ForwardPage | internal/chat/service.go:414-444 | a forward page is the next messages after the bound |
| Threads.BackwardWalkRebuildsTheThread | internal/chat/service.go:405-446 | a completed backward walk concatenates to the thread as it stood at the first page |
| Threads.WalkOverARun | internal/chat/service.go:405-446 | so it does in any reachable database while anything commits: positions 1..last_seq, each once |
| Wakeup.Hub.Signal | internal/chat/realtime.go:44-55 | every client of a named user, or every client, holds a token; the others are untouched |
| Wakeup.StepKeepsInv | internal/chat/realtime.go:213-243 | the frames sent are always the log from the first cursor on, and an idle loop without token owes nothing |
| Wakeup.NoWakeUpIsLost | internal/chat/realtime.go:213-243 | when the loop is idle with no token its cursor has reached every signalled event |
| AuthService.Service.RegisterEmail | internal/auth/password.go:58-131 | refused exactly when the address is taken, by a password or by Google; else a new active account with that one address, a password and the one live token of a new family, and nothing else changes |
| AuthService.Service.LoginEmail | internal/auth/password.go:134-198 | a session exactly for the right password of an active account, in a new family; nothing else changes; each refusal exactly for its reason |
| AuthService.Service.SignInWithGoogle | internal/auth/auth.go:154-254 | lets in exactly the identities it should, each refusal for its reason; creates the account, or links it and revokes exactly its earlier tokens, or leaves everything but the new session as it was |
| AuthService.Service.RefreshToken | internal/auth/auth.go:299-384 | a session exactly for a live unexpired token, which is spent for its family's one new live token with its own expiry; a reuse report exactly for a spent one, whose family ends; each other refusal exactly for its reason |
| AuthService.Service.SignOutToken | internal/auth/auth.go:399-410 | revokes the presented token's family, changes nothing else about those tokens and touches no other |
| Tokens.AtMostOneLiveToken | internal/auth/auth.go:296-298 | after any calls a family has at most one unused unrevoked token |
| Tokens.TokensAreOnePlusRotations | internal/auth/auth.go:260-293 | a family holds exactly one token more than its successful refreshes |
| Tokens.ReuseAndSignOutEndTheFamily | internal/auth/auth.go:342-353 | a reuse report and a sign-out each revoke the whole family |
| Tokens.EndedFamilyNeverReturns | internal/auth/auth.go:296-298 | over completed calls an ended family never has a live token again |
| Tokens.SuspendedStaysOut | internal/auth/auth.go:334-340 | from its suspension on, after any calls, no call gives an account a session |
| FamilyRace.RevokeSeenIsApply | internal/auth/auth.go:342-353 | with nothing in between, revoking the rows a snapshot saw is the completed report or sign-out |
| FamilyRace.FamilyEndsIff | internal/auth/auth.go:342-353 | with other calls between its snapshot and its end, a reuse report or sign-out ends the family exactly unless a token of it was rotated in between and nobody else ended it, and then a token stays live |
| FamilyRace.ReportMissesRotation | internal/auth/auth.go:342-374 | a run from the empty database in which a reuse report leaves a live token |
| Tokens.RunKeepsIdentities | internal/db/migrations/0001_init.sql:16-26 | over completed calls: one email identity an account, at most one Google subject, no password beside a Google identity |
| IdentityRace.FinishIsApply | internal/auth/auth.go:154-254 | with nothing in between, the sign-in's lookups and writes are the completed call |
| IdentityRace.IdentitiesSurviveIff | internal/auth/auth.go:183-228 | with other calls between its lookups and its writes, a Google sign-in keeps the identity rules exactly unless it found neither its subject nor its address and the address was registered in between |
| IdentityRace.RegisteredInBetween | internal/auth/password.go:96-115 | it happens: the new account is left without an email identity and the registered one without its password |
| Tokens.LinkEndsEarlierSessions | internal/auth/auth.go:208-219 | a link revokes every earlier token of the account for good |
| Tokens.LinkIff | internal/auth/auth.go:183-207 | a new subject enters an existing account exactly in Google-only mode with an authoritative address, an active account and no other subject |
| RefreshRace.OneRefreshWins | internal/auth/auth.go:313-323 | of interleaved refreshes of one token at most one gets a session, none once it was used or revoked |
| RefreshRace.ExactlyOneWins | internal/auth/auth.go:313-323 | of any number of refreshes of a live token that nothing else disturbs the first to finish wins, and no other |
| RateLimit.Limiter.SweepExpired | internal/httpx/ratelimit.go:84-100 | exactly the expired entries go, and everything at the ceiling |
| RateLimit.Limiter.AllowHit | internal/httpx/ratelimit.go:61-80 | answers as the fixed-window rule does and leaves its state |
| RateLimit.NeverOverTheCeiling | internal/httpx/ratelimit.go:82-100 | over every run the map never exceeds its ceiling |
| RateLimit.SweepsChangeNoAnswer | internal/httpx/ratelimit.go:82-100 | after any run it answers the next call as a limiter that never sweeps and saw only the calls since the last ceiling reset, and lets in a call that itself meets the ceiling |
| RateBounds.CurrentWindow | internal/httpx/ratelimit.go:70-79 | unless a ceiling reset fell in it, a key's current window holds all the hits it asked for up to max(1, limit) |
| RateBounds.AtMostTheLimitPerWindow | internal/httpx/ratelimit.go:70-79 | in any window a key is ever given, seen from any later moment, at most max(1, limit) hits are granted unless a ceiling reset fell in that window |
| RateBounds.AtMostTwiceTheLimit | internal/httpx/ratelimit.go:20-24 | in any stretch of one window's length at most twice max(1, limit), and as much again for each ceiling reset inside the stretch, over every run |
| RateBounds.LimitIsKeptIff | internal/httpx/ratelimit.go:70-79 | in a window without a ceiling reset the limit is kept exactly when it is at least one |
| RateBounds.LimitHoldsIff | internal/httpx/ratelimit.go:61-100 | for a set of callers the limit holds in every run of theirs and every window exactly when it is at least one and they are fewer than the ceiling |
| RateBounds.FewKeysNeverReset | internal/httpx/ratelimit.go:94-99 | fewer callers than the ceiling never cause a reset |
| RateBounds.ResetGrantsAgain | internal/httpx/ratelimit.go:94-99 | with a limit of one and room for two callers, a reset grants the same caller twice in one window |
| RateBounds.ZeroLimitGrantsOne | internal/config/config.go:73 | with a limit below one the first call is let through |
| Compat.JaccardOf | internal/compat/compatibility.go:54-77 | the map loops give shared over all, whatever their order |
| Compat.OverlapOf | internal/compat/compatibility.go:87-110 | the last answer to each question decides |
| Compat.CountMatching | internal/compat/compatibility.go:157-163 | the habits that match and those compared, whatever the map order |
| Compat.LifestyleOf | internal/compat/compatibility.go:153-172 | the lifestyle score of those counts |
| Compat.Recommend | internal/compat/engine.go:174-194 | ranks the scored candidates that pass, score first and then id; `Ranking` says who passes and how scores compare |
| Compat.FeedIsCanonical | internal/compat/engine.go:172-194 | the feed is the only such list: the order candidates arrive in does not show |
| Ranking.FeedShowsWhoWasAskedFor | internal/compat/engine.go:24-90 | the feed shows exactly the candidates who are not hidden, inside every bound and as asked for; with no gender asked for the viewer's own interest decides, and none means anybody |
| Ranking.OverallIsNearest | internal/compat/compatibility.go:357-364 | the overall score is the weighted sum of the six parts to the nearest whole number, and never 100 |
| Ranking.OverallIsBetweenItsParts | internal/compat/compatibility.go:357-364 | it lies between the lowest and the highest part |
| Ranking.ScoreIsBoundedByItsParts | internal/compat/engine.go:134-170 | a row's score is at least the lowest part, and at most the highest with 37 points and 1.4 for each shared interest on top |
| Ranking.SameIntentLeads | internal/compat/engine.go:136-140 | of two who differ in nothing else, the one with the viewer's intent is at least ten points ahead |
| Ranking.SameStyleLeads | internal/compat/compatibility.go:219-229 | the one with the viewer's communication style is at least one point ahead |
| Ranking.VerifiedLeads | internal/compat/engine.go:154-159 | a verified photo is worth 4.8 points and a verified telephone two |
| Ranking.FresherLeads | internal/compat/engine.go:160-167 | the one seen more recently is one to five points ahead |
| Ranking.NearerIsNotBehind | internal/compat/compatibility.go:231-250 | the nearer one is never behind |
| Ranking.OneMoreInterestLeads | internal/compat/engine.go:141 | the one who shares one more of the viewer's interests is at least 1.4 points ahead |
| Similarity.JaccardMeasures | internal/compat/compatibility.go:52-77 | the same both ways; 0.7 with nothing to compare, else 1 exactly for the same words in any case and 0 exactly for none shared |
| Similarity.LastAnswerIsLast | internal/compat/compatibility.go:91-94 | the answer compared is the last one given to the question, if any was |
| Similarity.OverlapMeasures | internal/compat/compatibility.go:87-110 | 0.7 without a question both answered, else 0.45 exactly with no answer alike and 1 exactly with all alike |
| Similarity.InterestMeasures | internal/compat/compatibility.go:187-189 | 70 with nothing to compare, 100 for the same interests, 0 for none shared, the same both ways |
| Similarity.PersonalityMeasures | internal/compat/compatibility.go:148-151 | 70 with nothing to compare, 100 with all alike, 20 with nothing alike |
| Similarity.LifestyleMeasures | internal/compat/compatibility.go:153-172 | 100 with all habits alike, 0 with none, 70 with none stated; a shared language adds eight below 100 |
| Similarity.IntentsAreNearMutuallyIff | internal/compat/compatibility.go:191-197 | whether two intents are near does not depend on who looks, except for casual and not sure |
| Similarity.CommonCounts | internal/compat/compatibility.go:254-267 | each interest is in common as often as the viewer lists it, if the candidate does at all |

## Left out

- HTTP handlers, routing, JSON, configuration, logging, push delivery, typing frames and profile editing.
- Socket I/O, tickets, access tokens, password hashing, token hashing, randomness and Google signature checking: their results are parameters. Ids are opaque, canonical and, where drawn, new.
- Hard deletion of accounts and its cascades, which would remove other people's events.
- Passes, notifications, report rows and the like's kind, label and priority.
- Which waiting account the queue offers: profiles, ages and preferences only narrow the choice, so the peer is a parameter that must have an unexpired entry.
- Daily, like, block and sending limits inside the services: the limiter's answer is a boolean parameter of each method, and at the step level a refusal is simply no step.
- Message bodies are given already trimmed and as characters; the 16,000-byte bound follows from 4,000 characters and is not repeated. Malformed UUIDs are not representable.
- A conversation is identified by its pair and origin, which is unique and whose row is never deleted; its UUID appears only as the order that breaks ties in the inbox.
- Foreign-key share locks; and conversation row locks as locks that can be waited for: `Progress.ConversationRowsAreFree` proves that nobody ever waits for one, so statements on conversation rows are merged into the one that writes them.
- Interleaving.Statement: a chat operation writes its conversation rows in one statement and then emits event by event; likes, blocks and unmatches are statement by statement throughout.
- The account check of receipts, actions, anonymous pairings and openings without a message is modelled where the code makes it, before the writes; nothing is claimed about suspensions that commit after it.
- Pruning removes a prefix of each account's stored events, and one Events call is one step over the account's row: in the code pruning goes by transaction start time and the call makes three reads.
- Store.Database.SelectLive: lists the conversations in any order instead of by id; its row locks are covered by the pair lock.
- Store.Database.JoinAnonymous: is the join with nothing between its look and its commit; `AnonymousQueue.Next` takes them apart.
- Store.Database.Resolve: the report row's own update and the check of its status are left out.
- Store.Database.PruneEvents: takes how many of each account's oldest events are due instead of their times.
- Wakeup.NoWakeUpIsLost: starts at the loop with its token in place; nothing is claimed about the first blocking send at internal/chat/realtime.go:210.
- Tokens.AtMostOneLiveToken: is over completed calls; of the interleavings on different tokens of one family only a report or sign-out beside completed calls is modelled, in `FamilyRace`. Sign-in transactions are also outside the progress claim.
- Tokens.EndedFamilyNeverReturns: is over completed calls; `FamilyRace` gives the exact condition under which a report or sign-out that others overlap ends the family at all.
- Tokens.RunKeepsIdentities: is over completed calls; interleaved, `IdentityRace` gives its exact condition for one Google sign-in beside any completed calls.
- Progress.SomeoneCanStep: rules out deadlock; it does not claim that every transaction ends, since a lock may be handed to another one each time.
- Compat.Recommend: scores are real numbers, so float rounding is not modelled, and lower-casing is ASCII only. Suggestions, summaries and insight texts are strings and are not modelled.
- Compat.SortStable: an insertion sort stands for the library's stable sort.
