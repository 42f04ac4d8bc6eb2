# Remote browser mirroring, verified

A worker drives a Chrome browser and publishes its page; a relay server passes the page on;
a controller shows a mirror of it and sends commands back. This project models the parts of
that loop that have to be right for the mirror to be the page and for commands to land where
they were aimed, and proves them correct, or proves exactly when they are.

1. **Normaliser, diff and patch** (`Strings`, `Dom`, `Pipeline`, `Differ`, `Replay`, `Flat`,
   `Patch`, `Frame`, `Quiet`, `Contract`, `PageContract`, `Fragment`, `Fallback`, `Publish`,
   `Essence`).
   Documents are trees; rendering and parsing again drops empty text and merges adjacent
   text. The stated contract of the differ, `apply_diff(old, compute_diff(old, new)) == new`,
   is false in general (a body without an id loses the children it gains).
   `PageContract.PatchContract` gives the exact condition, for every pair of comparable pages.
   Pages without keys outside the body always are comparable; keys on the html element or in
   the head may not be names from the body, and their tags may not change.
2. **Synchronisation protocol** (`StateManager`, `Tabs`, `WorkerSync`, `SyncProof`, `Turns`,
   `Exactness`, `LossySync`, `SyncRaces`, `Locks`). The worker appends to a log; a controller reads it in
   order and may miss messages. Even when nothing is lost the mirror need not be the page,
   since diffs are not always replayed exactly. `Exactness.MirrorIff` says when it is.
   The worker's tasks share two locks and cannot block each other for good.
3. **Command queue, relay and messages** (`CommandQueue`, `QueueProof`, `Attribution`,
   `Answers`, `Relay`, `RelayProof`, `Routing`, `Messages`, `Parsing`). A command whose dispatch raises stays in flight,
   unsent, until it times out. Results carry no command id; `Attribution.CreditIff` says when
   one is credited rightly.
4. **Selectors** (`Selector`, `Mirror`): computed on the mirror, resolved on the live page
   (sections 6.6.5.4 and 8.2 of W3C Selectors Level 3).

The chain ends in two statements. `LossySync.GapIff`: whatever messages but snapshots got
lost, every tab a controller holds for fresh is what some message of the worker left; and
that has been exactly the worker's page since the snapshot before if and only if every diff
in between, of comparable pages, was between equal or patchable ones.
`Mirror.SelectorsLand`: the selector of a mirrored element finds that element on the live
page if and only if the elements it names by their tag have names in lower case that no
sibling before them has in other letter case.

Classes and methods follow the source's own classes and loops. Each method's contract ties
its result, or its new state, to a function of the old one; the lemmas are about those
functions. A failing check or a raised exception is a value (`raised`, `Option`), not a
precondition. What Selenium sees, whether a send succeeds and which id a command gets are
parameters.

Where the code and its documentation differ, the model follows the code:

- `shared/dom_differ.py:5` promises the patch contract without a condition; see above.
- `ARCHITECTURE.md:478` says version numbers are never reused after a crash. The counter
  restarts at 0 and reuses them (`worker/worker.py:258-259`), and a snapshot does not bump
  it, so one version can name several pages. The results below hold regardless.
- `controller/command_queue.py:195-204` means to turn a failed dispatch into a failed result.
  The result message is built without its type, which has no default
  (`shared/models.py:103`), so a TypeError leaves the queue instead: the item stays in
  flight and nothing more is sent (`QueueProof.StuckIff`, `Attribution.StuckForever`).
- `worker/dom_pipeline.py:74` renders text unescaped. Trees are not strings here, and
  nothing is claimed about text that does not survive being parsed again.

## Model

| member | source | states |
|---|---|---|
| Pipeline.CleanTagAttributes | worker/dom_pipeline.py:77-99 | the cleaning loop leaves out event handlers, defuses javascript: links and keeps everything else |
| Pipeline.RemoveTags | worker/dom_pipeline.py:49-58 | removing tag after tag, in any order of the set, is removing them all at once |
| Pipeline.AssignStructuralDomIds | worker/dom_pipeline.py:117-124 | the counter loop labels every element with its path |
| Pipeline.NormalizeTextNodes | worker/dom_pipeline.py:101-115 | the text loop squeezes whitespace outside the preserving tags |
| Pipeline.Normalize | worker/dom_pipeline.py:35-75 | blank documents vanish; otherwise comments, tags, attributes, whitespace and labels are dealt with in this order |
| Pipeline.StripTwice | worker/dom_pipeline.py:56-58 | the result of tag removal does not depend on the set's order |
| Pipeline.NormalForm | worker/dom_pipeline.py:35-75 | no comment, stripped tag, event handler or javascript: link at any depth, whitespace squeezed, every element labelled |
| Pipeline.PublishedShape | worker/dom_pipeline.py:73-75 | the normal form survives rendering and parsing |
| Pipeline.SecondPass | worker/dom_pipeline.py:35-75 | a second pass is the identity if and only if the document is blank, or nothing of it is left by stripping, or what is left is not blank and no two squeezed texts of it meet with blanks |
| Pipeline.SeamExample | worker/dom_pipeline.py:45-47 | a document on which the second pass is not the identity |
| Strings.SqueezeRun | worker/dom_pipeline.py:112-113 | a run of whitespace of any kind between two words becomes exactly one blank, and what is around it is squeezed by itself |
| Strings.StripExact | shared/dom_differ.py:213-216 | stripping takes whitespace off both ends, all of it, and nothing else |
| Essence.PublishedEssence | worker/dom_pipeline.py:35-75 | publishing keeps, in order and nesting, exactly the elements not stripped, their harmless attributes and every letter of their text, and neither joins words nor parts them; under a preserving tag it keeps every character; a document of nothing but whitespace becomes an empty one |
| Essence.HandlerIff | worker/dom_pipeline.py:82-86 | event handlers are the attributes whose names begin with "on", in whatever letter case |
| Strings.DecInjective | worker/dom_pipeline.py:121 | decimal numerals determine their number |
| Strings.UnderOne | worker/dom_pipeline.py:121 | underscore-joined paths: a label lies below only one child of a given label |
| Pipeline.LabelLabelled | worker/dom_pipeline.py:117-124 | labels are the paths, child indices contiguous from 0 |
| Flat.WalkSound | shared/dom_differ.py:181-199 | every entry of the node map is the element its key names |
| Flat.WalkComplete | shared/dom_differ.py:181-199 | every labelled element is in the node map |
| Flat.WalkDistinct | shared/dom_differ.py:181-199 | in document order and without repetition |
| Differ.BuildNodeMap | shared/dom_differ.py:181-188 | the loop builds the dictionary: first position, last value |
| Differ.RemovedNodes | shared/dom_differ.py:44-49 | the loop over the old node map emits the removals that RemovalPass shows to be the topmost unmatched subtrees |
| Differ.ChangedNodes | shared/dom_differ.py:51-107 | the loop over the new node map emits the additions and changes that ChangePass shows to follow the tree |
| Differ.ComputeDiff | shared/dom_differ.py:29-125 | nothing for equal documents, else the two passes, else one replacement by the whole new document |
| Differ.ApplyDiff | shared/dom_differ.py:128-178 | the loop replays one operation at a time, skipping those without a target, and normalises the outcome without labels |
| Flat.RemovalPass | shared/dom_differ.py:44-49 | the flat removal pass removes exactly the topmost unmatched subtrees |
| Flat.ChangePass | shared/dom_differ.py:51-107 | the flat change pass is the structural one, parent before children |
| Replay.RemovalFold | shared/dom_differ.py:137-160 | replaying the removals prunes, every key found on each intermediate tree |
| Replay.SelfFold | shared/dom_differ.py:145-154 | replaying an element's own operations gives its new attributes and text |
| Replay.NodeFold | shared/dom_differ.py:137-175 | replaying a subtree's operations, a replacement included, patches that subtree and nothing else |
| Patch.PageDiff | shared/dom_differ.py:29-107 | what the main passes emit for two pages without keys outside the body |
| Frame.FramedOps | shared/dom_differ.py:44-107 | for comparable pages the main passes emit what they would without the html element and the head, keys there included |
| Frame.PageFold | shared/dom_differ.py:128-178 | what the replay of the main passes leaves of the old page: its frame, and the patched body |
| Quiet.MainSilent | shared/dom_differ.py:44-110 | the main passes emit nothing if and only if the two trees are alike in tags, attributes, texts that are looked at, and children |
| Contract.NodeIff | shared/dom_differ.py:65-107 | a patched subtree is the new one if and only if NodeKept, also below a replaced element |
| PageContract.PatchContract | shared/dom_differ.py:5 | for all comparable pages: replaying the diff gives the new page if and only if the pages are equal or Patchable |
| PageContract.PlainContract | shared/dom_differ.py:5 | so for every two pages without keys outside their bodies |
| PageContract.FallbackFails | shared/dom_differ.py:109-123 | the whole-document fallback never reproduces the new page |
| Fallback.FallbackLands | shared/dom_differ.py:109-123 | it replaces the first element child of the old body by the new root, or the body itself if that has no child and nothing else is named body |
| Fallback.Unanswered | shared/dom_differ.py:137-143 | operations that no tag answers to are skipped |
| Fallback.ValueSets | shared/dom_differ.py:148-157 | setting a value is setting the attribute, unless it is empty, which an attribute operation takes for a removal |
| PageContract.IdentityLost | shared/dom_differ.py:191-199 | nor does any diff between bodies with different ids |
| Fragment.DiffComplete | shared/dom_differ.py:109-110 | wherever the main passes could reproduce the new page they emit something, so the fallback is not reached |
| Fragment.SimpleContract | shared/dom_differ.py:5 | the contract holds on documents whose elements are empty, one trimmed text, or elements only, unless an attribute is set to the empty string or an element that changes its tag gains children, in it or below |
| Fragment.BodyGainLost | shared/dom_differ.py:54-55 | children gained by a body without an id are always lost |
| Fragment.ReplacedGainDoubled | shared/dom_differ.py:54-69 | an element that changes its tag and gains children gets them twice |
| Fragment.GainExample | shared/dom_differ.py:54-55 | two concrete pages on which the contract fails |
| Publish.PublishedPage | worker/dom_pipeline.py:35-75 | the published form of an ordinary document is a page, with no names in its frame that were not there before |
| Publish.PublishedComparable | worker/dom_pipeline.py:35-75 | two ordinary documents with the same frame, whose keys are not the names of anything in the body, publish to comparable pages |
| Selector.GetCssSelector | web_controller/interceptor.js:3-26 | the nested loops compute the path from the nearest id or the root, positions counted from 1 and left out at 1 |
| Selector.LeastMatch | web_controller/interceptor.js:15-20 | of all matches of the selector, its own element, if addressable, comes first in document order |
| Selector.NotUnique | web_controller/interceptor.js:15-20 | a tree on which a selector matches two elements |
| Selector.MixedCase | web_controller/interceptor.js:9 | a live SVG element whose selector does not find it |
| Selector.Resolves | web_controller/interceptor.js:3-26 | resolving by first match gives back the element if and only if it is addressable: from it up to the nearest id, names are in lower case and no sibling before differs in letter case only |
| Selector.CountStripped | worker/dom_pipeline.py:49-58 | stripping does not change any other tag's position among its type |
| Selector.MirrorToLive | web_controller/interceptor.js:3-26 | the selector computed on the mirror gives the corresponding element of the live tree if and only if that is addressable |
| Mirror.PublishedSkeleton | worker/dom_pipeline.py:49-58 | the published element tree is the live one without the stripped tags |
| Mirror.SelectorsLand | worker/command_handler.py:465-489 | end to end: parse and publish the live page, compute the selector on the mirror, resolve it on the live page; it lands if and only if the element is addressable |
| StateManager.ControllerStateManager.ApplyTabOpened | controller/state_manager.py:104-109 | the new slot is Received of the old one; other workers' slots are unchanged |
| StateManager.ControllerStateManager.ApplyTabClosed | controller/state_manager.py:111-116 | likewise, with the next active tab |
| StateManager.ControllerStateManager.ApplyFullSnapshot | controller/state_manager.py:118-137 | likewise; the tab is fresh at the snapshot's version |
| StateManager.ControllerStateManager.ApplyDomUpdate | controller/state_manager.py:139-161 | applied exactly when the tab is known, fresh and at the base version, and stale otherwise |
| StateManager.ControllerStateManager.UpdateStatus | controller/state_manager.py:163-170 | the slot takes the status, and every tab of a disconnected worker is stale |
| StateManager.ControllerStateManager.MarkAllStale | controller/state_manager.py:201-208 | every tab of every worker is stale, all else unchanged |
| Tabs.OpenIff | controller/state_manager.py:104-137 | after any messages, a tab is open exactly if it was opened, by an announcement or a snapshot, and not closed since |
| Tabs.FreshIff | controller/state_manager.py:104-170 | a tab is fresh exactly when its page is known, told message by message for that tab alone, and then shows that page, address, title and version |
| Tabs.ActiveOpen | controller/state_manager.py:104-137 | the active tab is open, if any tab is |
| Tabs.ActiveStays | controller/state_manager.py:118-137 | a snapshot activates its tab until another tab's snapshot comes or it is closed |
| Tabs.ActiveCloses | controller/state_manager.py:111-116 | when the active tab is closed, the one opened first of those left becomes active |
| Tabs.OpenedLast | controller/state_manager.py:104-137 | a tab that is opened is last in that order |
| Tabs.StatusLast | controller/state_manager.py:163-170 | the status is the last one reported |
| Tabs.Counted | controller/state_manager.py:118-161 | every snapshot is counted, and every update that is applied |
| WorkerSync.Worker.SendFullSnapshot | worker/worker.py:190-231 | sends the current version, does not bump it, and stores the baseline; a dead browser is restarted first, as often as it is found dead |
| WorkerSync.Worker.OnServerConnected | worker/worker.py:153-172 | a snapshot first, and only then ready to poll; not ready if the snapshot could not be sent or the mutations not be drained |
| WorkerSync.Worker.OnServerDisconnected | worker/worker.py:182-188 | no longer ready; version and baseline stay |
| WorkerSync.Worker.RecoverFromBrowserCrash | worker/worker.py:233-269 | statuses, reset to version 0, snapshot |
| WorkerSync.Worker.AfterNavigatingCommand | worker/worker.py:357-374 | baseline overwritten, unless the browser was dead, then a snapshot |
| WorkerSync.Worker.PollTabs | worker/worker.py:489-518 | closed tabs announced, a new tab followed with a snapshot |
| WorkerSync.Worker.Poll | worker/worker.py:428-542 | one turn of the polling loop with all its early exits |
| WorkerSync.Worker.SendDiff | worker/worker.py:520-542 | sends the diff against the baseline, if any, and bumps the version with it |
| SyncProof.RunSound | worker/worker.py:217-231 | in every reachable state every logged update fits the replica built by the messages before it and is the diff of two pages of the worker's, and a ready worker's tab is mirrored at its version |
| Turns.SnapshotsSent | worker/worker.py:190-269 | on connecting, a resync, a crash, after a navigating command, and on every turn that finds another address without the tracker injected, or a new tab: the mirror's active tab then is just the page, address and title the browser shows, fresh, at the worker's version |
| Turns.ReadyIff | worker/worker.py:153-188 | over all runs: the worker is ready to poll exactly if some connection since the last disconnect sent the page and left the mutation buffer clear |
| Turns.RecoveredLog | worker/worker.py:233-269 | a recovery reports the crash and the return, once for every time the browser was found dead, and then sends the page at version 0 |
| Turns.UnheardRecovery | worker/worker.py:233-269 | while nobody is listening it sends nothing, and only the version starts again |
| Turns.TurnSends | worker/worker.py:428-542 | what any other turn sends and leaves in the worker: nothing if it waits, else the changed address, the tabs closed and opened, and one diff if there were mutations and the page is another |
| Turns.SaidIn | worker/worker.py:470-518 | of address and tabs it announces exactly what has changed |
| Turns.TurnMirrors | worker/worker.py:449-540 | and in the mirror it leaves exactly the browser's tabs, and the old page or that page with the diff applied |
| Turns.SilentIff | worker/worker.py:428-542 | a turn sends nothing if and only if it waits, or finds the same address, the same tabs, and no mutation or no other page; and then it changes nothing |
| Exactness.PatchesIff | shared/dom_differ.py:5 | the contract of the differ in terms of two documents instead of two pages |
| Exactness.LogIff | worker/worker.py:521-540 | message for message, as long as diffs are between comparable pages: a mirror that misses nothing was exact since the last snapshot if and only if every diff since then was between equal or patchable pages |
| Exactness.MirrorIff | worker/worker.py:521-540 | so in every run; and then it is the page the worker last published |
| Exactness.TurnIff | worker/worker.py:449-540 | one turn: on an exact mirror, a turn that reaches the diff leaves the tab fresh, at the worker's version, and exact if and only if the two pages are equal or patchable |
| SyncRaces.LosslessFails | worker/worker.py:521-540 | a run without loss whose mirror is fresh, at the worker's version, and not the worker's page |
| LossySync.GapSafety | controller/state_manager.py:149-155 | whatever is lost but snapshots, and through windows that survive: every fresh tab is one the worker published, at that version |
| LossySync.GapIff | controller/state_manager.py:118-161 | and the replica of that message was exact since the snapshot before if and only if every diff in between, of comparable pages, was between equal or patchable ones; if so, the tab shows the page the worker was looking at |
| SyncRaces.WindowBreaks | controller/main_window.py:371-384 | a tab closed and opened again resumes without a resync if its slot is fresh; if it missed a snapshot of another page at the same version, the next update is accepted and leaves a tab that was never published |
| SyncRaces.WindowNewer | controller/main_window.py:522-535 | likewise if, after a crash, the tab is newer than what the worker now has |
| LossySync.TabSoundness | controller/state_manager.py:144-157 | an update is accepted only on the html of a replica that missed nothing; it is the diff of two pages of the worker's, of which that html is the first as long as the replica is exact, and the replay gives the second exactly if it stays exact |
| LossySync.MissedUpdate | controller/state_manager.py:152-155 | after a missed update all later ones of the tab are turned down until its next snapshot |
| LossySync.DisconnectStales | controller/state_manager.py:163-170 | once a controller has learned, from the worker or the relay, that the worker is gone, no tab is fresh and no update of it accepted until a snapshot of it is delivered |
| LossySync.SnapshotJoins | controller/state_manager.py:118-137 | taking a snapshot puts a controller in step, whatever it held |
| LossySync.StaysInStep | controller/state_manager.py:139-161 | a controller in step that loses nothing accepts every update |
| LossySync.ReplayPending | worker/worker.py:526-540 | delivering what is in transit ends fresh at the worker's version and baseline |
| SyncRaces.LostSnapshot | worker/worker.py:217-231 | a run in which losing one snapshot goes unnoticed: the tab is fresh, at the worker's version, and shows another page |
| SyncRaces.UnannouncedBaseline | worker/worker.py:357-373 | a run in which a poll between the overwritten baseline and its snapshot makes even a mirror that loses nothing fresh, at the worker's version, and wrong |
| Locks.JobsFlat | worker/worker.py:190-540 | no task of the worker takes a lock inside a critical section, however its branches go, and what belongs under a lock is done while holding it |
| Locks.Exclusive | worker/worker.py:91-94 | in every interleaving, with exceptions anywhere: no task holds both locks, no lock has two holders |
| Locks.Alone | worker/worker.py:200-205 | what a task does under a lock is never interrupted by what another does under it |
| Locks.NoDeadlock | worker/worker.py:200-231 | in every reachable state with an unfinished task, some task can take its next step |
| Locks.RunEnds | worker/worker.py:327-366 | once no task is started any more, every run is finite, by the number of acts left |
| Locks.RunFinishes | worker/worker.py:449-540 | and from every such state all tasks can run to their end |
| Locks.SelfBlocked | worker/worker.py:91-94 | the locks are not reentrant: taken inside itself, one would block its task for good |
| CommandQueue.ControllerCommandQueue.EnqueueCommand | controller/command_queue.py:81-104 | the new state in closed form, and whether an exception escapes, of an unsendable message or of a send that raises |
| CommandQueue.ControllerCommandQueue.HandleCommandResult | controller/command_queue.py:106-142 | the item in flight is closed with the result, whatever command the result was for, and the next one dispatched |
| CommandQueue.ControllerCommandQueue.HandleTimeout | controller/command_queue.py:144-164 | only the named item in flight times out, and the next one is dispatched |
| CommandQueue.ControllerCommandQueue.ProcessNext | controller/command_queue.py:166-204 | at most one item is in flight; it is put there before it is sent, and stays if sending raises |
| CommandQueue.ControllerCommandQueue.ClearHistory | controller/command_queue.py:217-221 | only the history is emptied |
| QueueProof.CallKeeps | controller/command_queue.py:81-221 | one call: order kept, terminal items unchanged, other workers' queues untouched, states match positions, idle means empty |
| QueueProof.Conservation | controller/command_queue.py:81-221 | over all runs: cleared, history, in flight and queued are, in this order, exactly what was enqueued |
| QueueProof.LogAscends | controller/command_queue.py:95-96 | no item occurs twice |
| QueueProof.ClosesIff | controller/command_queue.py:106-164 | a call adds to the history exactly if it is a result or the right timeout for the item in flight; then one item: Success, Failed with the error or a default one, or TimedOut, with the result's payload; for a result, that item is handed back |
| QueueProof.HistoryAnswered | controller/command_queue.py:106-164 | over all runs: whatever is in the history was in flight when one call of the run closed it, and records that call |
| QueueProof.StuckIff | controller/command_queue.py:178-204 | whatever call puts a command in flight, an enqueue, a result or a timeout: it stays there, and it is unsent if and only if no send function is set, its message cannot be built or the send raises; in the latter two cases, and no other, an exception escapes |
| QueueProof.IdleDispatches | controller/command_queue.py:81-104 | after any run, what is enqueued on an idle worker is put in flight at once |
| QueueProof.StuckExample | controller/command_queue.py:195-204 | an allowed command whose send raises: in flight, unsent, nothing in the history |
| Attribution.Credited | controller/command_queue.py:106-135 | without timeouts, at most one command is under way and every result is credited to the command that produced it |
| Answers.AllMatch | controller/command_queue.py:106-135 | and the history is, entry by entry, the results taken last, each recorded for the command it was credited to |
| Answers.RepliesOnce | worker/worker.py:306-395 | even with timeouts and losses, the worker replies to a command at most once |
| Answers.OwnReply | controller/command_queue.py:106-135 | without timeouts, the worker replied to every command of the history, and the entry is Success if and only if just that reply succeeded, and carries its payload and error |
| Attribution.CreditIff | controller/command_queue.py:111-135 | with timeouts, losses, failing sends and a history that may be cleared, the next result goes to its own command if and only if that has neither timed out nor been credited with a result before |
| Attribution.ClosedHistory | controller/command_queue.py:106-164 | which is so for all commands in the history, and, unless the history has been cleared, for no others |
| Attribution.CreditOldest | controller/command_queue.py:111-135 | unless restart_worker is in flight: if and only if nothing older than the command in flight is still under way |
| Attribution.CreditCount | controller/command_queue.py:106-164 | when nothing is lost and no send fails, and the one in flight is not restart_worker: if and only if exactly one command is under way |
| Attribution.LateResult | controller/command_queue.py:144-164 | a run in which a late result closes the wrong command |
| Attribution.Overtaking | worker/worker.py:306-324 | a run in which the answer to restart_worker overtakes a running command and is credited rightly, with two commands under way |
| Attribution.StuckForever | controller/command_queue.py:166-204 | without timeouts, a worker whose command in flight was never sent gets nothing any more |
| Relay.WorkerManager.RegisterWorker | server/worker_manager.py:38-73 | the new maps, the replaced socket closed, and who is notified |
| Relay.WorkerManager.UnregisterWorker | server/worker_manager.py:75-102 | only the socket that holds the registration ends it |
| Relay.WorkerManager.ForgetWorker | server/worker_manager.py:104-119 | state and subscribers of an offline worker are dropped, and then an exception raised |
| Relay.WorkerManager.RemoveSubscriberFromAll | server/worker_manager.py:164-170 | the controller leaves every subscriber set, and the workers it was watching are due an observer count |
| Relay.WorkerManager.NotifyWorkerObserverCount | server/worker_manager.py:136-146 | the current socket of a connected worker is told the present number of subscribers |
| Relay.WorkerManager.UpdateStatus | server/worker_manager.py:183-210 | status stored, and sent to that worker's subscribers only |
| Relay.ControllerManager.SetSubscriptions | server/controller_manager.py:45-85 | the filtering loop keeps the authorised ones and returns the previous set |
| Relay.SessionManager.IsAuthorized | server/session.py:85-95 | a live session that names the worker, or names none |
| Relay.MessageRouter.HandleRegister | server/message_router.py:101-154 | both maps updated, observer counts due, and the statuses sent |
| Relay.MessageRouter.HandleForget | server/message_router.py:283-286 | forgetting an offline worker ends the connection of the controller that asked |
| Relay.MessageRouter.HandleCommand | server/message_router.py:156-211 | refused, rejected or forwarded to the one current socket, and a failed forward reported |
| Relay.MessageRouter.HandleRequest | server/message_router.py:213-275 | resync requests, throttle profiles and browser configurations likewise, a failed forward being kept quiet |
| Relay.MessageRouter.HandleWorkerMessage | server/message_router.py:322-370 | identity checked, then passed on to that worker's subscribers; pings answered, what cannot be parsed reported to the sender |
| Relay.MessageRouter.ControllerConnected | server/websocket_manager.py:196-244 | session, first statuses, first subscription |
| Relay.MessageRouter.ControllerDisconnected | server/websocket_manager.py:255-257 | session and subscriptions end together |
| RelayProof.Registration | server/worker_manager.py:38-102 | for any history: a worker is connected through a socket exactly when that is its latest registered one and has not been unregistered |
| RelayProof.ForwardAlways | server/controller_manager.py:45-107 | in every reachable state, whoever is in a subscriber set has a live, authorised session that asked for the worker |
| RelayProof.AgreementAlways | server/worker_manager.py:148-170 | without forgetting, subscriber sets and sessions agree |
| RelayProof.AskIff | server/message_router.py:102-115 | a request keeps the agreement if and only if all of it is authorised |
| RelayProof.OpenIff | server/websocket_manager.py:200-231 | so does a connection, if and only if the worker in its address is authorised |
| RelayProof.ForgetIff | server/worker_manager.py:104-119 | so does forgetting, if and only if the worker is connected or nobody but the asking controller is subscribed to it |
| RelayProof.AskingAgain | server/message_router.py:108-115 | a subscription lost by forgetting is not restored by asking again |
| RelayProof.Isolation | server/message_router.py:323-386 | over all histories: a page, update or result reaches only controllers subscribed at that time, from a socket registered for that worker; a command, a request or an observer count reaches only the current socket of the worker it names; and every other packet has its reason too, each error code its condition |
| RelayProof.Delivery | server/message_router.py:372-386 | and what a worker says goes to exactly the controllers that want it |
| RelayProof.CountSettles | server/worker_manager.py:136-170 | once no notice is due, what a connected worker was last told, if anything, is the number of controllers subscribed to it |
| RelayProof.JoinUntold | server/worker_manager.py:38-73 | but a worker that registers when controllers are subscribed already is not told |
| Routing.AuthorizedIff | server/session.py:85-95 | over all histories: a controller is authorised for a worker exactly when its present connection was opened with that worker on its list, or without a list |
| Routing.SubscribedIff | server/controller_manager.py:45-107 | in fair runs without forgetting, it is subscribed to exactly the workers it asked for last on that connection |
| Routing.SendsIff | server/message_router.py:101-386 | every event sends exactly the packets owed for it: to whom, which status, which error code |
| Routing.OrderIff | server/message_router.py:156-275 | an order reaches the worker's socket if and only if the controller is authorised, the worker connected and the send works; else the controller gets exactly the error of its case, if there is one, and nothing else is sent |
| Routing.SendsOnce | server/message_router.py:372-386 | and no packet twice |
| Routing.StatusTold | server/worker_manager.py:38-102 | the status a subscribed controller was told last is the one in the registry |
| Routing.KnownIff | server/worker_manager.py:38-119 | the relay knows a worker exactly if it was registered and not forgotten since |
| Routing.LastVersion | server/worker_manager.py:183-210 | the page version it has for a worker is the one mentioned last |
| Messages.OpsRound | shared/models.py:63-94 | diff operations come back from their dictionaries, without the fields that are None |
| Messages.RoundTripIff | shared/messages.py:383-627 | parsing the dictionary of a message that can be constructed gives it back if and only if it has a time stamp and is not an alert notice, a command off the allowlist, an update with a URL, or a tab_closed of another time |
| Messages.ParsedValid | shared/messages.py:383-627 | whatever the parser accepts can be constructed, names a worker that is not blank if it has to name one, and is parsed as the same message when sent on, but for the time stamp of a tab_closed |
| Parsing.RefusedIff | shared/messages.py:398-627 | a dictionary of a known type is refused with a wrong version, a missing worker, an unknown type, a command off the allowlist, or an escaping KeyError, exactly in these cases |
| Parsing.Untyped | shared/messages.py:398-404 | one without a known type is refused whatever else it holds |
| Parsing.BareIff | shared/messages.py:424-627 | an envelope alone is accepted exactly for these types, with these values in place of the missing keys |

## Left out

- PageContract.PatchContract: is about pages with one body whose id does not look like a label. Tags with keys outside the body must be unchanged and not share a name with the body or anything below it, nor may html be named body; an html element with a key must keep its attributes, and its body the id.
- Pipeline.Normalize: works on trees; parsing and rendering of text, entities and raw unescaped text are not modelled, nor is letter case beyond ASCII or the order of attributes.
- Differ.ApplyDiff: rebuilds the tree instead of updating it in place, so sharing between the old and the new tree is not captured.
- StateManager.ControllerStateManager.ApplyDomUpdate: slots and tabs are values in a map, so a caller holding on to a tab object does not see it change; an update's URL is not part of its message, as the constructor drops it.
- WorkerSync.Worker.Poll: one turn, from the look at the browser to the send, is atomic, and so are a reconnect, a crash recovery and a navigating command's tail with their snapshots; SyncRaces.UnannouncedBaseline shows why. Exceptions other than a dead browser and a failed send are left out.
- SyncProof.RunSound: takes the browser's focused tab to change only together with a snapshot; alerts, which mark a worker ready without one, are not modelled.
- WorkerSync.Worker.OnServerConnected: without the path of an alert.
- LossySync.GapSafety: takes channels to keep order, and snapshots to get lost only while the controller's own connection is down, or in a window that survives: one after which every tab that missed a snapshot is stale, of an older version than the worker now has, or just the same. SyncRaces.WindowBreaks and SyncRaces.WindowNewer show why.
- CommandQueue.ControllerCommandQueue.EnqueueCommand: items are values; the caller's item does not change with the queue's. Time stamps, signals and the text of exceptions are left out.
- Attribution.Credited: one controller per worker; results of another controller's commands would be credited too.
- Relay.MessageRouter.ControllerConnected: connecting is one action; the awaits between its steps are not interleaved with other connections.
- Relay.WorkerManager.ForgetWorker: the lines that use a field that is never created (server/worker_manager.py:121-122) are a raised exception.
- Relay.MessageRouter.HandleWorkerMessage: sets are walked in ascending order, which stands for any order; a send to a subscriber that raises is as good as one that does not.
- Selector.GetCssSelector: ids are not escaped, and resolution is by id, name, position and child combinator, which is all the selectors use; names in namespaces that share a local name are not told apart.
- The scripts that surround getCssSelector, and getUniqueSelector in controller/browser_view.py.
- Messages.RoundTripIff: JSON text is not modelled, nor are fractional numbers; str() and int() of values that are not text or whole numbers already are parameters.
- Compression, tokens and access lists, session expiry, throttling, logging, the user interface.
- Locks.JobsFlat: what happens inside the critical sections is not part of this module; tasks are lists of acts, and the polling loop is a finite list of turns.
- Selenium, Chrome and command execution: the page is an arbitrary tree that the environment changes at will.
- The list of items shown for a worker (controller/command_queue.py:206-215).
