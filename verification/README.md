# Verification of the thread service

Dafny models of the parts of the messaging service where state, order or arithmetic decide what
clients see, with proofs about every input, every run and every interleaving of them.

- **Bot control.** A thread's dialogs, control stack, controller and owner columns, previews and
  outbox are one `ThreadState` (`ThreadModel`). `BotControlStore`, `PreviewStore` and
  `Permissions` say what one statement or check does, `ThreadOps` what a service operation commits.
  Most operations check the thread before they open a transaction, so each function takes two
  states: the one its checks have seen, and the one it works on, which other callers may have
  moved on. `ThreadMachine` runs operations one after another (`Run`) and as histories of calls
  whose checks may have been overtaken (`History`). The class `UnitOfWork` holds the same rows as
  mutable fields behind statements that may each fail, and the methods of `ThreadManager` carry out
  the operations on it statement by statement; each method is proved against its function in
  `ThreadOps`, overtaking, error paths and rollback included. The results over histories are in
  `ThreadInvariant`, `Histories`, `Strandings`, `Announcements`, `OperatorControl`,
  `PreviewUpgrades` and `RoleRuns`, those over completions in `Completion`. `Outcomes` and `Answers`
  say in rows, entries, events and spelled-out roles what each operation leaves and whom it refuses.
  `Witnesses` holds short runs from a new thread into the cases named below.
- **Deleting batches of messages.** `MessageDeletion` (splitting, sorting, memoised lookups,
  announcing), `ThreadOrder` (byte order and stable sort), `LockOrder` (any number of concurrent
  batches, with their locks on messages, contact marks and dialogs, as a transition system) and
  `DeletionRetries` (batches over the message table).
- **Status batching.** `StatusBatching` keeps the aliasing of the single pass: the list and the map
  share mutable event objects. `BatchingMeaning` says what a reader of the events learns.
- **Typing previews and timeouts** (`Typing`) and the **write-skipping cache** (`ReferenceCache.dfy`).

A member's id is the place its row was inserted at, which stands for a fresh uuid. Its creation time
is a field of its own, because it is the time its transaction began, and a transaction can wait for
others that began later. One `ThreadState` is one thread, because every statement filters on the thread.
Where the store interface leaves a case open, the Postgres statements decide it: a pop of a member
off the stack is NotFound, a push takes position max + 1, an owner that is popped last is still the
fallback. `UnitOfWork.Refused` and `Fails` stand for any failing statement or commit, `Overtaken`
for what other callers commit between a check and its transaction.

## Where the code and its documentation differ

The model follows the code; the lemmas named state each of these exactly, and `Witnesses` reaches
the ones about control from a new thread.

- A pop is documented to move the controller only if the popped member was the top; the statement
  always re-points it (`PopMeetsItsDocumentation`). So a completion below the top ends an operator's
  take-over without an event (`LowerCompletionKeepsControllerIff`, `LowerCompletionEndsATakeOver`).
- The lookup behind a removal selects neither `is_bot` nor `auto_leave`, so the bot branch the
  service has for removals is not taken and the bot's stack entry outlives its dialog
  (`StepStrandsExactly`, `ShippedRemovalStrandsTheBot`). `RemoveRequest.carriesBotFlags` is false
  for that query and true for a lookup that carries the columns, as the service expects.
- A grant can name a bot that has left: one whose entry was stranded, or the owner, whose column
  outlives its membership (`GrantsGoToLiveBotsIff`, `RemovedBotIsGranted`, `DepartedOwnerIsGranted`).
- Retroactive bot control re-points at the stack top but grants the first bot listed
  (`GrantsNameTheController`, `EnsureGrantsTheWrongBot`).
- Control moves without an event when a bot hands the thread to a person, and when a completion
  falls to the owner or happens below the top (`TellsIffNotSilent`, `HandoffIsSilent`,
  `FallToTheOwnerIsSilent`, `LowerCompletionEndsATakeOver`).
- The push statement makes the bot created first of those off the stack the owner, and a row's
  creation time is that of its transaction's begin (`FirstPushMakesTheOwnerIff`). So a bot that waited
  for the thread can become the owner above a younger bot that it adopts, which is then never handed
  control back (`FirstPushedBotOwnsIff`, `NewcomerOwnsTheThread`).
- A completion, a release and a retroactive grant read the stack without a lock. A completion that is
  overtaken grants control to a bot that has it (`OvertakenCompletionDiffersIff`,
  `RunningBotIsGrantedAgain`); a retroactive grant can leave control with a bot that is not on top
  (`OvertakenEnsureKeepsIff`).
- An equal role is said to be enough to release a bot, so that an owner can reclaim a chat. With the
  shipped lookup it never is (`BotRemovalAdmittedIff`, `OwnerBotIsNeverReleased`,
  `OwnerCannotReclaimTheThread`).
- A supervisor outranks an admin and may bring one in, but holds fewer permissions
  (`OnlySupervisorsHandOutMore`, `SupervisorBringsInAnAdmin`).
- The permission service names its target by dialog, its statement looks for a contact, and the
  lookup leaves the react column out: no checked change succeeds (`CheckedChangeNeedsItsQueries`).
  `PermitRequest.matchesDialog` and `loadsReact` are false for these queries and true for queries
  that do what the service expects.
- Each publish is said to row-lock its thread. None does any more: it writes the marks of the
  thread's people, in the order of their contacts, and the recount then updates the dialogs in an
  order it does not promise. The sort still keeps batches apart wherever every thread has a person,
  as it does when the caller is one, because that person's mark guards the dialogs
  (`SeparateDeletionsNeverDeadlock`); in a thread of bots alone two batches can block each other
  (`CrossedRecountsDeadlockIff`). The message rows come first and in no promised order either
  (`DeletionsNeverDeadlock`, `CrossedScansDeadlock`).
- A message is said never to be announced twice; two overlapping batches can
  (`AnnouncedOnceWhenDeleted`, `OverlappingBatchesAnnounceTwiceIff`).
- The release inside a removal's grant carries the new top's position plus one rather than the
  removed entry's own. `Granted.previous` and `Released.position` hold that number.

## Model

| member | source | states |
|---|---|---|
| `ThreadInvariant.StepKeepsCore` | internal/service/thread_manager.go:351-1776 | Each of the twelve operations, however old the state its checks read, keeps: distinct stack members in strictly increasing positions, only bots on the stack, every live auto_leave bot on it, controller nobody, the top, or the owner of an empty stack, an owner once there is a bot, one live dialog per contact, one open preview per contact |
| `Histories.HistoryKeepsCore` | internal/service/thread_manager.go:351-1776 | The same after every call of every history, in which calls may overtake each other's checks |
| `Histories.RunKeepsCore` | internal/service/thread_manager.go:351-1776 | In particular after every run of operations one after another, with no guard on any of them |
| `Histories.StepAges` | internal/service/thread_manager.go:351-1776 | No operation revives a dialog, changes its contact, role or auto_leave mark, turns a bot into a person, or replaces the owner bot |
| `Histories.HistoryKeepsOwner` | internal/store/postgres/bot_control_store.go:54-70 | Once set, the owner bot is never replaced or cleared in any history, not even by a call that removes its membership |
| `Histories.FirstPushedBotOwnsIff` | internal/service/thread_manager.go:1682-1687 | The first bot pushed, at the bottom of the stack, becomes the owner if and only if it was not an adopted bot whose row was created after the newcomer's; in that case the newcomer does |
| `ThreadInvariant.OvertakenEnsureKeepsIff` | internal/service/thread_manager.go:1732-1764 | When the stack moves between the look of a retroactive grant and its write, the invariant survives if and only if the stack looked empty or its top is still who control falls back to |
| `Strandings.StepStrandsExactly` | internal/service/thread_manager.go:351-1776 | After any operation exactly these stack entries belong to a member that is gone: that of whom the operation strands (a removal without the bot columns, a transfer whose initiator's entry is not popped, an ensure that pushes a bot that left meanwhile), and those of before unless it pops them |
| `Strandings.StrandedBySomeCall` | internal/service/thread_manager.go:351-1776 | Whoever is stranded at the end of any history was stranded by one particular call of it, which is named |
| `Strandings.StepKeepsInvIff` | internal/service/thread_manager.go:351-1776 | Run one after another, each operation also keeps every entry a live bot of the thread; a removal and a transfer if and only if their guard holds, all others always |
| `Strandings.RunKeepsInv` | internal/service/thread_manager.go:351-1776 | So does every run whose removals and transfers meet their guards; what other runs keep is HistoryKeepsCore, and whom they strand StrandedBySomeCall |
| `Strandings.RemoveKeepsIff` | internal/service/thread_manager.go:948-1058 | A removal keeps every entry live exactly when the lookup carried the bot columns or the target had no stack entry |
| `Strandings.TransferToBotKeepsIff` | internal/service/thread_manager.go:588-669 | A transfer to a bot keeps every entry live exactly when the swallowed cleanup pop succeeded or there was no entry to clean up |
| `Strandings.TransferToHumanKeeps` | internal/service/thread_manager.go:671-710 | A transfer to a human keeps every entry live always |
| `Strandings.ShippedRemovalStrandsTheBot` | internal/store/postgres/thread_dialog_store.go:359-383 | The lookup of a removal selects neither is_bot nor auto_leave: with it, removing the bot of any fresh direct thread leaves a dead dialog on the stack that still holds control |
| `Strandings.CreatedFits` | internal/service/thread_manager.go:1787-2019 | A freshly created direct thread between two different peers satisfies the whole invariant, with an addressee bot as owner and controller |
| `ThreadInvariant.PushKeeps` | internal/store/postgres/bot_control_store.go:33-92 | A push of a bot off the stack keeps the invariant and settles that bot if it was joining |
| `ThreadInvariant.PopKeeps` | internal/store/postgres/bot_control_store.go:103-262 | A pop, for every reason, keeps the invariant, whether the popped member's dialog is live or not |
| `Witnesses.RemovedBotIsGranted` | internal/store/postgres/thread_dialog_store.go:359-383 | A run from a new thread after which a removed bot that is not the owner is granted control by the completion of the bot above it |
| `Witnesses.DepartedOwnerIsGranted` | internal/store/postgres/bot_control_store.go:340-405 | A run from a new thread after which a hand back grants control to the owner bot that has left |
| `Witnesses.HandoffIsSilent` | internal/service/thread_manager.go:680-683 | In a new thread a bot's transfer to a person clears control with no event, so the outbox names the wrong holder |
| `Witnesses.FallToTheOwnerIsSilent` | internal/service/thread_manager.go:1377-1391 | A run from a new thread after which control falls to the owner with no event |
| `Witnesses.LowerCompletionEndsATakeOver` | internal/store/store.go:212-216 | A run from a new thread in which the pop of a lower bot hands control to the top, where its documentation leaves it with nobody, and no event says so |
| `Witnesses.EnsureGrantsTheWrongBot` | internal/service/thread_manager.go:1738-1774 | A run from a new thread after which control is re-pointed at one bot and granted to another |
| `Witnesses.NewcomerOwnsTheThread` | internal/service/thread_manager.go:1682-1687 | A run from a new thread in which a bot whose transaction began early adopts a younger bot, becomes the owner above it and so never hands control back to it |
| `Witnesses.RunningBotIsGrantedAgain` | internal/service/thread_manager.go:1307-1397 | A bot that was on top when it completed and is not when it is popped makes the service grant control once more to the bot that holds it, where without the delay it publishes nothing |
| `Witnesses.SupervisorBringsInAnAdmin` | internal/service/thread_manager.go:747-761 | In a new thread a supervisor adds an admin, who holds a permission the supervisor does not |
| `Witnesses.OwnerCannotReclaimTheThread` | internal/service/thread_manager.go:1271-1281 | The person who opened a thread with a bot is refused the release of that bot, which a lookup with the bot columns would allow |
| `BotControlStore.PopMeetsItsDocumentation` | internal/store/store.go:212-216 | The pop statement re-points the controller to the new top whoever was popped; it leaves the documented controller if and only if the popped member was the top or the top held control |
| `BotControlStore.PopReportsTheController` | internal/store/postgres/bot_control_store.go:103-262 | Whoever a pop reports as new top is the controller it leaves, and it reports nobody exactly when it leaves none |
| `BotControlStore.FirstPushMakesTheOwnerIff` | internal/store/postgres/bot_control_store.go:56-68 | The first push makes its bot the permanent owner if and only if it was created before every other live bot off the stack |
| `BotControlStore.EarliestBotOffStack` | internal/store/postgres/bot_control_store.go:56-68 | The owner chosen by a push is a live bot off the stack that was created before every other one |
| `Completion.RunOfCompletions` | internal/service/thread_manager.go:1306-1398 | Closed form of any run of completions: the stack without its non-owner callers, their auto_leave dialogs deleted, controller the remaining top or the owner if any caller left, else unchanged |
| `Completion.CompletionIsConfluent` | internal/service/thread_manager.go:1312-1315 | Two runs of completions with the same set of callers end in the same rows, whatever the order and the duplicates |
| `Completion.OwnerOutlastsCompletions` | internal/service/thread_manager.go:1344-1354 | The owner keeps its stack entry over any run of completions and is the controller whenever somebody completed and only the owner is left on top |
| `Completion.OwnerIsNeverGranted` | internal/service/thread_manager.go:1377-1391 | No run of completions ever publishes a grant that names the owner, and the owner and the outbox's past stay as they were |
| `Completion.LowerCompletionKeepsControllerIff` | internal/service/thread_manager.go:1363-1371 | A completion below the top is silent, and leaves the controller alone, as the service assumes, if and only if the top held control |
| `Completion.LowerCompletionUndoesTakeOver` | internal/service/thread_manager.go:1363-1371 | After an operator took over, a completion below the top hands control back to the top bot with no event but the take-over's release |
| `Announcements.HistoryStaysLinked` | internal/service/thread_manager.go:2229-2239 | In the outbox of every history each grant with a previous holder directly follows a release of that holder with its position, the same reason and the granted member as next |
| `Announcements.GrantsNameTheController` | internal/service/thread_manager.go:1738-1774 | Every grant an operation publishes names the controller it commits, if and only if the operation is not an ensure that re-points control at a top other than the first bot listed |
| `Announcements.TellsIffNotSilent` | internal/service/thread_manager.go:680-683 | A consumer that folds the outbox still knows the controller after an operation from any state of the kept invariant and with checks of any age, if and only if the operation is not one of the silent ones: bot to human transfer, completion that moves control below the top or to the owner, ensure that names another bot than it re-points to |
| `Announcements.HistoryTellsTheController` | internal/service/thread_manager.go:2229-2290 | Folding the outbox of a whole history without a silent step, stranded entries or not, yields exactly the controller the thread holds |
| `Announcements.CreatedTells` | internal/service/thread_manager.go:1987-2016 | The outbox of a fresh thread is linked and yields its controller |
| `Announcements.OvertakenCompletionDiffersIff` | internal/service/thread_manager.go:1307-1397 | That other calls came between the look of a completion and its pop matters if and only if its caller was on top then and is not now, or the other way round, and control falls to somebody other than the owner |
| `Announcements.OvertakenCompletionGrantsTheTop` | internal/service/thread_manager.go:1336-1397 | A caller that was on top and is not any more grants control to the bot on top, with itself as the previous holder |
| `OperatorControl.HandBackUndoesTakeOver` | internal/service/thread_manager.go:1465-1507 | Take over then hand back, by whichever operators, restores every row of the thread and appends exactly Released(c) and Granted(c) for the former controller c |
| `OperatorControl.RepeatedTakeOverIsQuiet` | internal/service/thread_manager.go:1545-1553 | A repeated take-over changes nothing and publishes nothing |
| `OperatorControl.LastOperatorLeaves` | internal/service/thread_manager.go:1019-1033 | When an operator leaves and another stays, control and outbox are untouched; after the last one a bot holds control if there is a top or an owner, with one grant exactly when nobody held it |
| `OperatorControl.GrantsGoToLiveBotsIff` | internal/store/postgres/bot_control_store.go:246-258 | From any state of the kept invariant and with checks of any age, every grant of an operation goes to a live bot of the thread, if and only if the member control falls to (the top that remains, the stack top, the owner, or the bot an ensure names) has not left and does not leave with the operation |
| `OperatorControl.RemovalGrantsLiveBotsIff` | internal/service/thread_manager.go:992-1033 | The same, exactly, for a removal, with or without the bot columns |
| `Outcomes.CompletionOutcome` | internal/service/thread_manager.go:1306-1398 | The whole state after a completion, for any look and any stack it pops from: the entry is gone, an auto_leave dialog too, control is with the top that remains or the owner, and exactly Released and Granted with both entries' own positions are appended if the caller was seen on top and somebody other than the owner gets control |
| `Outcomes.CompletionResumesTheNext` | internal/service/thread_manager.go:1393-1397 | The ordinary case: with n at q below m at p, appended are Released(m, p, completed, n) and Granted(n, q, completed, resumed, previous m at p) |
| `Outcomes.CompletionIsIdle` | internal/service/thread_manager.go:1316-1354 | A completion by the owner or by somebody without an entry changes nothing |
| `Outcomes.CompletionCameTooLate` | internal/store/postgres/bot_control_store.go:142-146 | One whose entry went after it was seen is NotFound |
| `Outcomes.ReleaseOutcome` | internal/service/thread_manager.go:1430-1460 | The whole state after the client releases the bot seen on top: its release is announced, and again before the grant if another entry remains; the owner never resumes |
| `Outcomes.ReleaseOfNobody` | internal/service/thread_manager.go:1417-1428 | With no entry seen, control is cleared and announced if somebody held it |
| `Outcomes.TakeOverOutcome` | internal/service/thread_manager.go:1495-1507 | A take-over goes through if and only if a live dialog of the contact is no bot and no owner, every other role spelled out; then nobody holds control and exactly a former holder's release is appended; else it is Forbidden |
| `Outcomes.HandBackOutcome` | internal/service/thread_manager.go:1465-1492 | A hand back goes through for the same people; control is with its holder, else the top, else the owner, which is granted it once more; FailedPrecondition without any |
| `Outcomes.PersonJoins` | internal/service/thread_manager.go:460-509 | The whole state after a person is added, its role's permissions spelled out: every role but owner clears control and announces a former holder's release |
| `Outcomes.BotJoinsOthers` | internal/service/thread_manager.go:460-498 | The whole state after a bot is added to others on the stack: one position above the top, in control, released and granted in this order |
| `Outcomes.BotJoinsAlone` | internal/service/thread_manager.go:460-498 | A bot added to an empty stack without unmarked bots: position 0, in control, granted with no previous holder, the owner if there was none |
| `Outcomes.BotJoinsTheUnmarked` | internal/service/thread_manager.go:1688-1713 | A bot added to an empty stack with unmarked bots: the one created first is marked and put below it, and announced as the previous holder |
| `Outcomes.PersonFollowsPerson` | internal/service/thread_manager.go:706-710 | The whole state after a transfer between people: both rows, and control cleared with exactly a former holder's release unless the new role is owner |
| `Outcomes.PersonFollowsBot` | internal/service/thread_manager.go:671-704 | The whole state after a transfer from a bot to a person: the bot's entry is gone, nobody holds control, nothing is announced |
| `Outcomes.BotFollowsBot` | internal/service/thread_manager.go:620-669 | The whole state after a transfer from a bot with an entry to a bot: the new one above the top, which is announced as previous, and the initiator's entry gone |
| `Outcomes.BotFollowsOthers` | internal/service/thread_manager.go:620-669 | The same from an initiator without an entry |
| `Outcomes.BotRemovalOutcome` | internal/service/thread_manager.go:992-1016 | The whole state after a removal that knows its target for a bot: dialog and entry gone, control with the top that remains or the owner, released with that position plus one and granted |
| `Outcomes.RowRemovalOutcome` | internal/service/thread_manager.go:1017-1033 | The whole state after any other removal: the dialog gone, and control given back, with one grant, only by the last person who acted for the thread when nobody held it and there is a top or an owner |
| `Outcomes.EnsureOutcome` | internal/service/thread_manager.go:1720-1774 | The whole state after a retroactive grant: the top in control, or the first bot listed pushed at position 0, and that bot granted as new |
| `Outcomes.EnsureIsIdle` | internal/service/thread_manager.go:1651-1661 | With a controller, with a person who acts, or with an addressee that is no bot, an existing thread is left alone |
| `Outcomes.CreationOutcome` | internal/service/thread_manager.go:1911-2019 | The whole new thread, permissions, entry, owner, controller and grant spelled out |
| `Answers.AddAnswers` | internal/service/thread_manager.go:351-405 | An add fails exactly by its checks in their order, each error spelled out (already a member, no initiator, an initiator without the right, of lower role or against the contact's privacy, no such role, added meanwhile), and succeeds otherwise |
| `Answers.TransferAnswers` | internal/service/thread_manager.go:516-582 | A transfer fails exactly by its checks in their order, or when a bot without an entry hands over to a person, and succeeds otherwise |
| `Answers.RemoveAnswers` | internal/service/thread_manager.go:948-976 | A removal fails exactly by its checks, or when a known bot has no entry, and succeeds otherwise; the roles are spelled out |
| `Answers.RanksOrderRoles` | internal/service/thread_manager.go:747-761 | The order of the roles: owner, supervisor, admin, member |
| `Answers.GiveAnswers` | internal/service/thread_preview.go:70-123 | A preview is granted for more than nothing and at most an hour, to a contact that is not a member, with the error of each refusal |
| `Answers.GivenPreviewRuns` | internal/store/postgres/thread_preview_store.go:74-139 | After giving a preview exactly one row of the contact is unrevoked, and it ends after the time given; rows of others are untouched |
| `Answers.GivenPreviewMovesTheRunning` | internal/store/postgres/thread_preview_store.go:74-139 | A running preview is kept and its end moved; a lapsed one is marked expired and a new one started |
| `Answers.WithdrawLeavesNone` | internal/service/thread_preview.go:125-168 | After withdrawing no preview of the contact runs; the one that did is marked removed and no other row changes |
| `Answers.UpgradeAnswers` | internal/service/thread_preview.go:174-215 | An upgrade answers for role, membership and preview in this order, and else is the trusted add of the same contact and role with the preview closed |
| `Answers.PermitAnswers` | internal/service/thread_permission.go:175-329 | A checked change is admitted if and only if its initiator is somebody else of strictly higher role who may change permissions and holds each one touched, and the target's role may hold each, all spelled out |
| `Answers.PermitNeedsMembers` | internal/service/thread_permission.go:140-163 | A checked change by or of somebody who is no member is refused; an unchecked one is never |
| `Answers.PermitOutcome` | internal/store/postgres/thread_permission_store.go:171-211 | A change that goes through gives its target each permission as asked and leaves the others and every other row |
| `Answers.RegularMembersHaveNoSay` | internal/service/thread_permission.go:15-54 | Members and supervisors within their allowance cannot change permissions or thread information |
| `PreviewUpgrades.UpgradeSucceedsIff` | internal/service/thread_preview.go:174-215 | With no database failure an upgrade succeeds if and only if the role is known, the contact is not a member, neither when it is checked nor in the transaction, and has an unrevoked, unexpired preview; no bot control step can refuse it |
| `PreviewUpgrades.UpgradeClosesOneAndJoins` | internal/service/thread_preview.go:187-214 | A successful upgrade closes exactly the active preview, leaves none active and creates a live member with the role's default permissions, all together |
| `PreviewUpgrades.UpgradesConsumeGrants` | internal/service/thread_preview.go:187-214 | Over any history the successful upgrades of a contact are exactly the rows closed by upgrade, and never outnumber the previews granted to it |
| `PreviewStore.UpsertKeepsOneOpen` | internal/store/postgres/thread_preview_store.go:74-139 | Giving a preview keeps at most one unrevoked row per contact, also when lapsed rows are about |
| `PreviewStore.CountAfterUpsert` | internal/store/postgres/thread_preview_store.go:74-139 | Giving a preview adds at most one row, for that contact alone, and none that counts as upgraded |
| `PreviewStore.FindActive` | internal/store/postgres/thread_preview_store.go:29-72 | The preview found is the contact's, unrevoked and unexpired; when none is found every unrevoked one has expired |
| `RoleRuns.HistoryKeepsPermitted` | internal/service/thread_permission.go:175-276 | Over every history of adds, transfers (inherited permissions included), upgrades, removals and checked permission changes, each member's permissions stay within its role's allowance |
| `RoleRuns.HistoryNeverEscalates` | internal/service/thread_manager.go:747-761 | Over every history of verified joins, transfers and permission changes nobody in the thread comes to outrank the highest live member it started with |
| `RoleRuns.JoinsRankBelowTheirInviter` | internal/service/thread_manager.go:747-761 | A verified add or transfer brings in a role no higher than that of its inviter, who is a live member of the thread the check read |
| `RoleRuns.CheckedChangeNeedsItsQueries` | internal/store/postgres/thread_permission_store.go:171-211 | No checked permission change gets through the statement as it is, which compares the target's id with contacts, and none that touches reacting gets past the lookup as it is, which does not select that column |
| `RoleRuns.OnlySupervisorsHandOutMore` | internal/service/thread_manager.go:747-761 | Among members with their role's default permissions a verified join hands out only what its inviter holds, if and only if it is not a supervisor bringing in an admin |
| `RoleRuns.SupervisorAlwaysHandsOutMore` | internal/service/thread_manager.go:747-761 | An admin brought in by a supervisor always holds more, whatever was changed about the supervisor's permissions |
| `RoleRuns.BotRemovalAdmittedIff` | internal/service/thread_manager.go:1262-1288 | A verified removal of a bot is admitted if and only if it is the bot's own, or its initiator may remove members and ranks no lower, higher when the lookup lacks the bot columns |
| `RoleRuns.OwnerBotIsNeverReleased` | internal/service/thread_manager.go:1271-1281 | Without the bot columns nobody but itself can release a bot that holds the highest role, the case the equal-role rule was made for |
| `Permissions.CheckedChangeIsBounded` | internal/service/thread_permission.go:175-329 | A change that passes the five checks keeps its target within its role's allowance, turns on only permissions the initiator holds, and its target ranks strictly below the initiator |
| `Permissions.DefaultsArePermitted` | internal/service/thread_permission.go:15-92 | A role has defaults exactly when it is known, and they lie within its allowance |
| `UnitOfWorks.UnitOfWork.Push` | internal/store/postgres/bot_control_store.go:33-97 | In place: one entry on top at the next position, m the controller, the owner set only if there was none; returns the former top; a second entry for m or a failing statement changes nothing |
| `UnitOfWorks.UnitOfWork.Pop` | internal/store/postgres/bot_control_store.go:103-262 | In place, in two statements: the entry goes and an auto_leave dialog dies, then the controller is re-pointed by reason; NotFound for a member off the stack; when a statement fails the transaction is doomed, and after the first one the entry is gone until it is rolled back |
| `UnitOfWorks.UnitOfWork.ClearController` | internal/store/postgres/bot_control_store.go:290-322 | Clears the controller and returns who held it |
| `UnitOfWorks.UnitOfWork.SetController` | internal/store/postgres/bot_control_store.go:326-337 | Points the controller at a member and changes nothing else |
| `UnitOfWorks.UnitOfWork.RestoreController` | internal/store/postgres/bot_control_store.go:340-406 | Grants the fallback only when nobody holds control and returns the holder and whether it was granted |
| `UnitOfWorks.UnitOfWork.AdoptUntrackedBot` | internal/store/postgres/thread_dialog_store.go:221-266 | Only with an empty stack: marks the earliest live, unmarked member whose contact is a bot, other than the newcomer |
| `UnitOfWorks.UnitOfWork.CreateDialog` | internal/store/postgres/thread_dialog_store.go:50-139 | Appends a dialog under a fresh id, its react permission the column's default, or refuses a contact that has a live one |
| `UnitOfWorks.UnitOfWork.DeleteDialog` | internal/store/postgres/thread_dialog_store.go:200-219 | Marks one dialog deleted and changes nothing else |
| `UnitOfWorks.UnitOfWork.UpsertPreview` | internal/store/postgres/thread_preview_store.go:74-139 | Closes the contact's lapsed rows, then moves its active preview's expiry or starts a new one |
| `UnitOfWorks.UnitOfWork.RevokePreview` | internal/store/postgres/thread_preview_store.go:141-167 | Closes one preview with its reason and changes nothing else |
| `UnitOfWorks.UnitOfWork.Finish` | internal/store/postgres/uow.go:200-241 | Commit or rollback: success, with no failed write, keeps what the body did, every error restores the saved rows; a commit may fail too |
| `UnitOfWorks.UnitOfWork.UpdatePermissions` | internal/store/postgres/thread_permission_store.go:171-211 | One statement that writes every row that matches, live or not, and reports an error unless there was exactly one |
| `ThreadManagers.ThreadManager.AddMember` | internal/service/thread_manager.go:351-514 | Add with an optional hook after the thread lock; checks read the thread as it was, the transaction works on it as others have left it; success commits exactly the specified state, every error leaves stack, controller, members, previews and outbox as they were and is the database's or the specified one |
| `ThreadManagers.ThreadManager.UpgradePreviewToFullMember` | internal/service/thread_preview.go:174-215 | Upgrade as an add whose transaction closes the preview; checks read the thread as it was, the transaction works on it as others have left it; success commits exactly the specified state, every error leaves stack, controller, members, previews and outbox as they were and is the database's or the specified one |
| `ThreadManagers.ThreadManager.Transfer` | internal/service/thread_manager.go:516-723 | Transfer with its three control branches; a failed cleanup pop is swallowed but dooms the commit, so what is committed is always the clean transfer; checks read the thread as it was, the transaction works on it as others have left it; success commits exactly the specified state, every error leaves stack, controller, members, previews and outbox as they were and is the database's or the specified one |
| `ThreadManagers.ThreadManager.RemoveMember` | internal/service/thread_manager.go:948-1058 | Removal, bot and human branches; checks read the thread as it was, the transaction works on it as others have left it; success commits exactly the specified state, every error leaves stack, controller, members, previews and outbox as they were and is the database's or the specified one |
| `ThreadManagers.ThreadManager.CompleteBotControl` | internal/service/thread_manager.go:1293-1399 | Completion: the stack and the owner are read as they were, the entry is popped as others have left it; success commits exactly the specified state, every error leaves stack, controller, members, previews and outbox as others left them |
| `ThreadManagers.ThreadManager.CompleteBotControlTx` | internal/service/thread_manager.go:1312-1397 | What follows the look: the scan for the caller's entry finds its position wherever it sat, and the owner, duplicates and strangers are no-ops |
| `ThreadManagers.ThreadManager.ReleaseBotControl` | internal/service/thread_manager.go:1402-1462 | Release by the client of the bot seen on top, with the release published before the grant that names it again; success commits exactly the specified state, every error leaves stack, controller, members, previews and outbox as others left them |
| `ThreadManagers.ThreadManager.HandBackToBot` | internal/service/thread_manager.go:1465-1492 | Hand back, refused to anyone but an operator of the thread; checks read the thread as it was, the transaction works on it as others have left it; success commits exactly the specified state, every error leaves stack, controller, members, previews and outbox as they were and is the database's or the specified one |
| `ThreadManagers.ThreadManager.TakeOverFromBot` | internal/service/thread_manager.go:1495-1507 | Take over, refused to anyone but an operator of the thread; checks read the thread as it was, the transaction works on it as others have left it; success commits exactly the specified state, every error leaves stack, controller, members, previews and outbox as they were and is the database's or the specified one |
| `ThreadManagers.ThreadManager.EnsureDirectThread` | internal/service/thread_manager.go:1635-1661 | An existing thread gets its bot control back by what the lookup saw and the stack the transaction looked at or, when that fails, stays as others left it and the failure is not reported |
| `ThreadManagers.ThreadManager.EnsureBotControlTx` | internal/service/thread_manager.go:1738-1774 | What follows the look at the stack: re-points at the top seen or pushes the first bot listed, then grants that bot |
| `ThreadManagers.ThreadManager.CreateDirectThread` | internal/service/thread_manager.go:1787-2019 | Both dialogs, the push and the grant of a new direct thread; checks read the thread as it was, the transaction works on it as others have left it; success commits exactly the specified state, every error leaves stack, controller, members, previews and outbox as they were and is the database's or the specified one |
| `ThreadManagers.ThreadManager.GivePreview` | internal/service/thread_preview.go:70-123 | Preview for a non-member, bounded lifetime; checks read the thread as it was, the transaction works on it as others have left it; success commits exactly the specified state, every error leaves stack, controller, members, previews and outbox as they were and is the database's or the specified one |
| `ThreadManagers.ThreadManager.RemoveFromPreview` | internal/service/thread_preview.go:125-168 | Withdraws the active preview, or does nothing; checks read the thread as it was, the transaction works on it as others have left it; success commits exactly the specified state, every error leaves stack, controller, members, previews and outbox as they were and is the database's or the specified one |
| `ThreadManagers.ThreadManager.UpdatePermissions` | internal/service/thread_permission.go:135-195 | Permission change with its checks and, as parameters, whether the lookup loads the react column (it does not) and whether the statement compares the target with dialogs (it compares with contacts); with at most one matching row success commits exactly the specified state and an error nothing, with several an error is reported although all are written |
| `ThreadManagers.ThreadManager.AdoptUntracked` | internal/service/thread_manager.go:1688-1713 | The adopted bot, if any, is pushed before the newcomer |
| `ThreadManagers.ThreadManager.PublishGranted` | internal/service/thread_manager.go:2200-2290 | Appends the previous holder's release, if there is one, and then the grant |
| `ThreadManagers.ThreadManager.ReleaseControlToAgent` | internal/service/thread_manager.go:1545-1573 | Clears control and announces it exactly when somebody held it |
| `ThreadManagers.ThreadManager.RestoreControlAfterAgent` | internal/service/thread_manager.go:1575-1602 | Restores control and announces it, only with no operator left and nobody in control |
| `LockOrder.NoDeadlock` | internal/service/message.go:774-832 | For any number of batches whose locks on message rows and contact marks rise in one order, and whose dialogs come last and are guarded by a mark, every reachable state with an unfinished batch lets some batch step |
| `LockOrder.SomeBatchCanStep` | internal/store/postgres/outbox.go:145-182 | The same for every mutually exclusive state: a batch at its dialogs is never blocked, and else the holder of the greatest lock wanted can move |
| `LockOrder.MaximalRunsFinish` | internal/service/message.go:774-832 | Every schedule that cannot be extended has finished every batch after exactly the locks there were to take |
| `LockOrder.DeletionPlanIsOrdered` | internal/service/message.go:792-832 | The locks of a batch (message rows as met, then for each message in sorted order the marks of its thread's people by contact, then the dialogs of its threads as met) have that shape if the rows are met in the order and every thread has a person |
| `LockOrder.DeletionsNeverDeadlock` | internal/service/message.go:774-832 | Concurrent deletion batches in threads with people, whose statements meet the message rows in one common order, all run to the end, however they interleave |
| `LockOrder.SeparateDeletionsNeverDeadlock` | internal/service/message.go:774-832 | So do batches without a common message in threads with people, in whatever order their rows and dialogs are met |
| `LockOrder.CrossedRecountsDeadlockIff` | internal/store/postgres/message_status_store.go:805-834 | Two batches that each delete one message of a thread and recount two of its dialogs in opposite orders can block each other for good if and only if the thread has no live member but bots |
| `LockOrder.CrossedScansDeadlock` | internal/store/postgres/message.go:347-356 | Two batches of the same two messages whose statements meet them in opposite orders reach a state neither can leave: the thread sort does not order message rows |
| `LockOrder.UnsortedBatchesDeadlock` | internal/service/message.go:792-793 | Without the sort two batches that publish to two threads, one person each, reach a state no batch can leave |
| `ThreadOrder.SortStableSorts` | internal/service/message.go:794-796 | The stable sort permutes the messages, orders their threads and keeps each thread's own order |
| `ThreadOrder.CompareIsTotal` | internal/service/message.go:794-796 | The byte comparison is antisymmetric and zero only on equal ids |
| `ThreadOrder.CompareIsTransitive` | internal/service/message.go:794-796 | The byte comparison is transitive, strictly if either side is strict |
| `ThreadOrder.StrictlyAscendingIsUnique` | internal/service/message.go:826-830 | Sorting a set of thread ids has one result, so the recount order is the publishing order |
| `ThreadOrder.CompareIsBytewise` | internal/service/message.go:794-796 | The first byte that differs decides, and a text comes before those it begins |
| `MessageDeletion.RefusalIsAnew` | internal/service/message.go:781-786 | The guard of the refusal holds if and only if each requested message is refused anew: neither deleted by this batch nor found deleted |
| `MessageDeletion.AnnouncedToItsMembers` | internal/service/message.go:798-817 | A deleted message is announced to the active members of its own thread |
| `MessageDeletion.KeptFollowsTheRows` | internal/store/postgres/message.go:426-440 | The deleted half is in the order of the statement's rows |
| `MessageDeletion.SplitSkipOutcome` | internal/store/postgres/message.go:421-453 | The deleted and skipped halves contain every requested id exactly once and no other; each skip has its first row's reason, or not_found when there is no row |
| `MessageDeletion.SortedKeys` | internal/service/message.go:826-830 | The memo's keys come back as one strictly ascending list of exactly them |
| `MessageDeletion.SortedThreads` | internal/service/message.go:826-830 | That list equals the distinct threads in the order they were announced |
| `MessageDeletion.ThreadOrderIsKept` | internal/service/message.go:792-796 | What is announced is a permutation of the deleted half, and messages of one thread keep their order |
| `MessageDeletion.MessageUnit.DeleteMessages` | internal/service/message.go:753-845 | The ids are partitioned, each deleted message is announced once with the members of its own thread, members are looked up once per distinct thread, the recount gets exactly those threads ascending; an error announces nothing, and Forbidden means that every message was refused anew, so a retry of deleted ones succeeds |
| `DeletionRetries.Classify` | internal/store/postgres/message.go:369-381 | Each skip reason exactly when it applies: never a member, not the author, deleted before, left the thread, not allowed |
| `DeletionRetries.RemovesExactlyTheRemovable` | internal/store/postgres/message.go:322-381 | A batch removes exactly the requested live messages of the caller's own in threads it is in and may delete in, each once |
| `DeletionRetries.RetryIsSafe` | internal/service/message.go:746-752 | No later batch removes a message again, and its remover's retry is told already_deleted, even after it left the thread or lost the permission |
| `DeletionRetries.AnnouncedOnceWhenDeleted` | internal/service/message.go:746-752 | Over any run of batches one after another, by anybody, a message is announced exactly as often as it goes from live to deleted, hence at most once |
| `DeletionRetries.OverlappingBatchesAnnounceTwiceIff` | internal/store/postgres/message.go:347-356 | Two batches that overlap and read one table announce a message twice if and only if both ask for it and both callers may remove it: the update does not test again that it is live |
| `StatusBatching.GroupStatusChanges` | internal/service/message_status.go:172-236 | The single pass over shared, mutable events returns distinct fresh objects that show, event by event, the declarative grouping of the non-nil changes, in order of first occurrence |
| `BatchingMeaning.EventNamesItsLeader` | internal/service/message_status.go:195-206 | An event has its first change's thread, domain, member, sender and error, and says sent, delivered, read or failed exactly for status 1, 2, 3 or 4 |
| `BatchingMeaning.ToldTogetherIff` | internal/service/message_status.go:208-232 | Two changes are told in one event if and only if they agree on thread, member, status and sender, none being as good as empty, and the status is not 4 |
| `StatusBatching.LeadersLead` | internal/service/message_status.go:186-206 | Events are opened in input order by changes no earlier change shares a batch with |
| `StatusBatching.LeaderOf` | internal/service/message_status.go:186-206 | Every change has an event: its own or the one of its batch |
| `StatusBatching.LeadersDiffer` | internal/service/message_status.go:186-206 | No two events stand for the same (thread, member, status, via) batch; failures stay apart |
| `BatchingMeaning.MessagesAreConserved` | internal/service/message_status.go:172-236 | The message ids in all events together are exactly those of the changes, each as often as reported |
| `BatchingMeaning.EachChangeHasOneEvent` | internal/service/message_status.go:172-236 | Each change is in the group of exactly one event; a failed change has one of its own |
| `BatchingMeaning.SummaryIsTheWatermark` | internal/service/message_status.go:208-232 | An event's horizon is the greatest of its group, its unread count that of the first change to reach it, its time the latest |
| `BatchingMeaning.BatchingKeepsHorizons` | internal/service/message_status.go:208-232 | Folding the grouped events gives every (thread, member, status) reader the horizon that one event per change gives |
| `BatchingMeaning.BatchingKeepsUnreadCounts` | internal/service/message_status.go:208-232 | The unread count too, where changes of one reader agree on the count at each horizon |
| `Typing.TruncateUtf8` | internal/service/typing.go:208-219 | Text within the limit, or without one, is unchanged; else the result is the prefix cut at the last non-continuation byte at or below the limit |
| `Typing.CutIsTheLongestValidPrefix` | internal/service/typing.go:208-219 | On valid UTF-8 that prefix is valid, no longer one within the limit is, and it is at most three bytes short of the limit |
| `Typing.BoundarySplits` | internal/service/typing.go:213-216 | Valid text splits into valid text in front of every non-continuation byte |
| `Typing.OnlyBoundariesSplit` | internal/service/typing.go:213-216 | And nowhere else |
| `Typing.ResolveTypingTimeout` | internal/service/typing.go:133-144 | For every positive 32-bit request and non-negative 64-bit maximum, the exact minimum of the two in whole milliseconds; without a request the clamped default, exactly when it fits in 32 bits |
| `ReferenceCaches.CacheIsInvisible` | internal/service/reference_cache.go:61-169 | Over any run of refreshes with misses, failing upserts and evictions, in which no lost Set keeps a replaced value, the table equals the one a process without a cache leaves |
| `ReferenceCaches.RefreshStaysCoherentIff` | internal/service/reference_cache.go:135-169 | One refresh keeps every cached value equal to its row if and only if its Set did not get lost with a replaced value left behind |
| `ReferenceCaches.KeptEntryHidesAWrite` | internal/service/reference_cache.go:76-82 | With such a lost Set two writes end in another table than without a cache |
| `ReferenceCaches.CachedValuesAreNotWritten` | internal/service/reference_cache.go:135-169 | A refresh whose value is cached writes nothing; any other writes exactly that row, unless the upsert fails, and remembers it as the Set turns out |
| `ReferenceCaches.QueueCacheKeyIsInjective` | internal/service/reference_cache.go:108-110 | Different (domain, queue) pairs have different keys, negative numbers included |
| `ReferenceCaches.ReferenceCache.SourceChanged` | internal/service/reference_cache.go:61-72 | True unless the very value is cached under the gate |
| `ReferenceCaches.ReferenceCache.QueueChanged` | internal/service/reference_cache.go:85-96 | True unless the very name is cached under the pair's key |
| `ReferenceCaches.ReferenceCache.RefreshSource` | internal/service/reference_cache.go:135-147 | From a coherent cache the row ends up equal to the argument unless the upsert fails, and only that row changes |
| `ReferenceCaches.ReferenceCache.RefreshQueue` | internal/service/reference_cache.go:152-169 | The same for a queue; one without a positive id or a name changes nothing |

## Left out

- ThreadManagers.ThreadManager.CompleteBotControl: others may commit between the look at the stack and the pop, but the stack and the owner are read at one moment, and so are the rows the two statements of a pop work on.
- Histories.HistoryKeepsCore: a retroactive grant reads the stack in the state it writes; what happens when it does not is `ThreadInvariant.OvertakenEnsureKeepsIff`.
- LockOrder.DeletionsNeverDeadlock: nobody joins or leaves the threads while the batches run, and other transactions take no part.
- ThreadManagers.ThreadManager.UpdatePermissions: a request whose thread is not its target's thread.
- StatusBatching.GroupStatusChanges: the recipients and participants that are attached to the events afterwards.
- MessageDeletion.MessageUnit.DeleteMessages: the rows of the delete statement are a parameter; `DeletionRetries` says which rows it returns. The text that summarises skip reasons and the deletion time of the response.
- Legacy stack entries without a member id, and the branches that only they reach.
- System messages, member-joined and member-left events, tag hooks, timestamps, domain ids, leave reasons and the contact enrichment of events.
- Contact and privacy lookups: their answers are fields of the requests (`isBot`, `invitable`, `toIsBot`).
- Requests with missing ids are refused before any state is read; the model starts after that check, except where a refusal is part of an outcome (`InvalidArgument`, `Unknown`).
- Preview lifetimes are whole milliseconds, and the clock is a parameter of each call.
- Publishing typing events and choosing their recipients; deriving a source from a message's peers; a service without a cache, which behaves like one whose every lookup misses and whose Set is dropped.
- Reference rows written by another process or marked as deleted: a cached value can hide those until it expires.
- The outbox forwarder and journal, search, history, reactions, forwarding, tags, variables, media, providers and transport.
