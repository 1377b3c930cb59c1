# TACTIX: verified models of its state machines

TACTIX is an incident-management system made of small services. This project models the parts of it that are real
state machines, protocols or parsers, and proves what they are for. Each module is one component; a method is proved
against a function on values, and the properties are lemmas about those functions over every run.

- `IncidentLog`: incident-svc's append-only event log, its read model and the replay that defines the read model.
- `Realtime`: realtime-svc's bounded queue, single pending send and subscription per socket, and `broadcast`.
- `CatchUp`: both services and the notification channel as one state machine. Losing a notification, failing a fetch,
  failing a send and closing a socket are steps of the environment. A fetch fixes its incident when it is issued and
  reads the log when it is answered.
- `Schedule`: command-post shifts, with `Sql` giving the meaning of the UPDATE statement the repository builds.
- `TaskPatch`: the UPDATE builder of the task PATCH route.
- `Filters`: the two branches of GET /incidents, with a LIKE matcher.
- `ZeroTrust`: the cached zero-trust flag with a suspended database read, and the PUT route.
- `Aggregate`: the event-sourced Incident, its stores, and the handlers interleaved at their awaits.
- `Multipart`: the hand-written multipart reader and the printer it has to invert (sections 4.2 and 4.3 of RFC 7578,
  section 5.1.1 of RFC 2046). `Strings` holds substring search.
- `StreamConsumer`: the read, print, save loop under crashes and restarts.
- `Rbac`: the two role evaluators.

`dafny verify dfyconfig.toml` verifies everything.

## What the code does not do

These are results about the code as it is. Each names the exact condition first, then an input or run on which the code
fails.

- Catch-up (AGENT.md:28, "snapshot+delta catch-up") does not cover attachments: the JSON of an incident does not list
  them. An attachment arrives if and only if its notice was still due when the client subscribed and no delivery to a
  full queue took it (`CatchUp.ReceivedExactly`); one uploaded and broadcast before that never arrives
  (`CatchUp.AttachmentMissed`).
- If the heads are such that a non-empty name comes first and, in a file's head, only the filename parameter looks like
  one, `readMultipart` returns the file unchanged if and only if it has no blank line and does not end in a line break
  (`Multipart.ReadsBackExactly`); any other file is cut at its first blank line and loses two bytes more
  (`Multipart.CutAtBlankLine`). A part with an empty filename is passed over (`Multipart.EmptyFilename`), and a filename
  that comes before the name is taken for the name (`Multipart.FilenameReadAsName`).
- `updateShift` spreads the patch over the raw database row, whose user and dates are under other keys than those it
  reads. So it accepts a patch if and only if the patch restates the user, the start and the end and the intended merge
  would accept it, and refuses for example every patch of the notes alone (`Schedule.RawRowNeedsFullPatch`). The other
  results about updates hold for both forms of the row, except for `Schedule.RawUpdateKeepsTableExactly`, which is about
  the code's form.
- A patch with an empty user or role is checked for the empty one and stored for the old one. With either form of the
  row, the no-overlap invariant survives an update if and only if the patch does not stray: that check fails, or the
  stored key is the checked one, or the row stays within its old place (`Schedule.UpdateKeepsTableExactly`,
  `Schedule.UpdateStoresWhatItChecked`); otherwise two shifts are made to overlap (`Schedule.StrayBreaksTable`).
- `listActiveAt` throws if and only if a role on duty has a name that plain objects inherit, such as `constructor`
  (`Schedule.GroupByRole`).
- The two branches of GET /incidents agree if and only if the search text has no `%`, `_` or backslash
  (`Filters.BranchesAgree`, `Filters.SampleTellsBranchesApart`).
- The two role evaluators differ if and only if the configured suffix list is empty and a user without a grant is in a
  default read group (`Rbac.EvaluatorsAgree`, `Rbac.EmptySuffixesDiffer`).
- Emptying the zero-trust cache takes effect if and only if no other resolve is between its read and its return with an
  outdated answer younger than five seconds (`ZeroTrust.BustHoldsExactly`, `ZeroTrust.PutHoldsExactly`); otherwise the
  old flag can come back into the cache (`ZeroTrust.BustCanBeUndone`).
- Over Postgres an incident is submitted more than once if and only if two of its submits waited at the same time with
  copies that both pass the check, and both went on (`Aggregate.PostgresSubmitsTwiceExactly`,
  `Aggregate.PostgresSubmitsTwice`).

## Model

| member | source | states |
|---|---|---|
| IncidentLog.IncidentService.FindIncident | services/incident-svc/src/index.ts:540 | the loop finds the first incident with the id, or the length |
| IncidentLog.IncidentService.CommitEvent | services/incident-svc/src/index.ts:59-74 | appends one event with the next id and nothing else |
| IncidentLog.IncidentService.CreateIncident | services/incident-svc/src/index.ts:464-489 | refuses an empty title or severity; otherwise adds the incident and its event together |
| IncidentLog.IncidentService.AddComment | services/incident-svc/src/index.ts:535-552 | 400 before 404; otherwise changes the one incident and logs the event |
| IncidentLog.IncidentService.ChangeStatus | services/incident-svc/src/index.ts:554-573 | needs a dispatcher; 400 before 404; otherwise changes the one incident and logs the event |
| IncidentLog.IncidentService.AddAttachment | services/incident-svc/src/index.ts:575-601 | 404 before 400; stores the bytes, the attachment and the event |
| IncidentLog.RefusedExactly | services/incident-svc/src/index.ts:464-601 | exactly when each request is refused, with which code and in which order of the checks; only a dispatcher changes a status; a refusal changes nothing |
| IncidentLog.AcceptedDoes | services/incident-svc/src/index.ts:464-601 | what an accepted request changes, field by field, and what it answers; the answer to a comment or a status change is what a reader gets from then on |
| IncidentLog.EveryEventWasAskedFor | services/incident-svc/src/index.ts:464-601 | over every run each logged event comes from a request with that content, a status change from a dispatcher's |
| IncidentLog.LogOnlyGrows | services/incident-svc/src/index.ts:464-601 | over every run the log only ever gets longer, by exactly one event for each accepted request |
| IncidentLog.ReadModelIsReplay | services/incident-svc/src/index.ts:464-601 | after any requests the incidents and attachments equal the fold of the log, all ids are dense from 1, and the stored objects are exactly those the attachments name |
| IncidentLog.IncidentMeans | services/incident-svc/src/index.ts:464-573 | for every log of a run and every incident: its creation, all its comments in order, and the last status set, or open |
| IncidentLog.UploadSurvives | services/incident-svc/src/index.ts:582-600 | an uploaded file stays stored byte for byte under its attachment's name through any later run that does not reuse the name |
| IncidentLog.ReplayShows | services/incident-svc/src/index.ts:527-533 | a read of an incident made after an event was logged shows that event, whatever came between, unless it is an attachment: a creation by its fields, a comment at its place, a status change by the last status set |
| Realtime.Connection.Flush | services/realtime-svc/index.js:162-175 | hands the front of the queue to the socket only when it is open and nothing is pending |
| Realtime.Connection.Enqueue | services/realtime-svc/index.js:147-160 | queues and flushes, or on a full queue drops everything and starts a fetch for the subscription of that moment |
| Realtime.Connection.OnSendDone | services/realtime-svc/index.js:167-174 | clears the pending send; closes on error, flushes the next on success |
| Realtime.Connection.OnSubscribe | services/realtime-svc/index.js:188-200 | sets the subscription and fetches only when a numeric seq is given |
| Realtime.Connection.OnClose | services/realtime-svc/index.js:203-205 | the socket leaves the map |
| Realtime.Hub.OnConnection | services/realtime-svc/index.js:177-179 | adds a fresh, unsubscribed client |
| Realtime.Hub.Broadcast | services/realtime-svc/index.js:139-145 | every registered client gets the notice exactly if it is a playbook notice or about its incident; every other client is untouched |
| Realtime.EnqueueKeeps | services/realtime-svc/index.js:147-160 | keeps the fan-out invariant and the accounting of every notice; an overflow only happens behind a pending send or a socket that is not open |
| Realtime.SendDoneKeeps | services/realtime-svc/index.js:167-174 | a send callback, good or bad, keeps the fan-out invariant and the accounting |
| Realtime.Conservation | services/realtime-svc/index.js:147-175 | offered = handed over + queued + 101 per overflow, also as multisets, and the queue is a suffix of what was offered |
| Realtime.HandedOrdered | services/realtime-svc/index.js:147-175 | frames go out in strictly increasing seq order whenever notices come in so |
| Realtime.EnqueueDoes | services/realtime-svc/index.js:147-160 | behind fewer than 100 queued notices a notice joins them; behind 100 all of them and it are lost and a request goes out, for the incident subscribed to, under the seq of the notice |
| Realtime.SendDoneDoes | services/realtime-svc/index.js:167-174 | an error closes the socket; a success delivers the frame and hands over the next |
| CatchUp.DeliverDoes | services/realtime-svc/index.js:139-145 | a delivery offers the notice to exactly the registered clients that subscribed to its incident, or to all for a playbook notice, and leaves every other client as it is |
| CatchUp.NothingForeign | services/realtime-svc/index.js:139-145 | a client that only ever subscribes to one incident is offered, sent and delivered only notices about it and playbook notices |
| CatchUp.ChannelDoes | services/incident-svc/src/index.ts:59-74 | each committed event and each published notice goes to the end of the channel, and only a delivery or a loss takes from it |
| CatchUp.Drains | services/realtime-svc/index.js:162-175 | an open socket whose sends succeed delivers everything handed over or queued, in that order |
| CatchUp.SubscribeDoes | services/realtime-svc/index.js:188-200 | a subscription replaces the one before and requests a body only with a seq; a client that is gone cannot subscribe |
| CatchUp.FetchDoes | services/realtime-svc/index.js:191-198 | a failed request is forgotten and nothing else; an answered one is sent once |
| CatchUp.ShutDoes | services/realtime-svc/index.js:167-205 | a failed send, the peer and the close event shut the socket, and the last takes the client out of the map |
| CatchUp.ShutStaysQuiet | services/realtime-svc/index.js:162-206 | once a socket is shut it is sent no more notices and snapshots, and once it is out of the map it is offered none |
| CatchUp.EverySnapshotWasAskedFor | services/realtime-svc/index.js:147-199 | every request and every snapshot goes back to a subscription with a seq or to an overflow, with the incident and the seq of that moment |
| CatchUp.EveryClientIsOk | services/realtime-svc/index.js:139-206 | in every reachable state: fan-out invariant, conservation, strictly increasing seq across resubscriptions, and every snapshot is the incident as it was when its body was read, and one for an overflow was read with the event it is labelled with in the log |
| CatchUp.EnqueueHolds | services/realtime-svc/index.js:147-160 | an overflow loses notices but leaves a fetch that will show them |
| CatchUp.AnsweredHolds | services/realtime-svc/index.js:191-198 | a fetch answered now shows everything logged by now |
| CatchUp.NoGap | services/realtime-svc/index.js:139-199 | a client that subscribes with a seq and stays open and subscribed has, at quiescence, received every event of its incident except possibly attachments, as a delta or in a snapshot that was read after the event was logged and shows it |
| CatchUp.OfferedExactly | services/realtime-svc/index.js:139-145 | under the same hypotheses a notice finds the client if and only if, when the client subscribed, it had been offered before, was in the channel, or was yet to be committed |
| CatchUp.RunTakes | services/realtime-svc/index.js:147-157 | over any run a notice is dropped if and only if it was before, or some delivery of a wanted notice finds the queue full and it is in that queue or is that notice |
| CatchUp.ReceivedExactly | services/incident-svc/src/index.ts:527-601 | which events reach the client: all but attachments, and an attachment if and only if its notice was due and not yet dropped when the client subscribed and no later delivery to a full queue takes it; without an overflow from then on, that is settled at the subscription |
| CatchUp.AttachmentMissed | services/incident-svc/src/index.ts:527-533 | a run without loss or failure in which an attachment that was not due never reaches a subscribed client |
| Sql.BuiltMeans | services/incident-svc/src/repo/schedule.repo.ts:79-109 | a statement built field by field uses placeholders 1..n once each and overwrites exactly the listed fields of exactly the rows with the given keys |
| TaskPatch.PushFields | services/incident-svc/src/routes/incidents/tasks.ts:112-129 | fields and parameters stay aligned; nothing is pushed exactly when no field is admitted |
| TaskPatch.BuildPatch | services/incident-svc/src/routes/incidents/tasks.ts:112-138 | for every patch: placeholders 1..n, and the statement changes only the row of that incident and task, by the admitted fields and `updated_at` |
| TaskPatch.PatchedMeans | services/incident-svc/src/routes/incidents/tasks.ts:112-138 | column by column what a patch does to its row, and that no other column or row changes |
| Schedule.BuildUpdate | services/incident-svc/src/repo/schedule.repo.ts:73-110 | for every patch: placeholders 1..n, and the statement stores the non-empty fields in the one named row; no statement means nothing to store |
| Schedule.ScheduleService.CreateShift | services/incident-svc/src/services/schedule.service.ts:23-63 | each refusal in the order of the checks, a real conflicting shift in the overlap answer, and the new table |
| Schedule.ScheduleService.UpdateShift | services/incident-svc/src/services/schedule.service.ts:65-109 | the same for updates, leaving the shift's own row out of the overlap test |
| Schedule.ScheduleService.RepoUpdate | services/incident-svc/src/repo/schedule.repo.ts:102-109 | stores the patch in the named row and nothing else |
| Schedule.ScheduleService.DeleteShift | services/incident-svc/src/repo/schedule.repo.ts:112-114 | removes the shift only under its own operation |
| Schedule.CheckExactly | services/incident-svc/src/services/schedule.service.ts:30-38 | exactly when each check refuses, in order: dates, horizon, length in milliseconds against the limit unless oversize is allowed, roster |
| Schedule.CreateExactly | services/incident-svc/src/services/schedule.service.ts:23-47 | a create that passes adds the row with the given values, any other changes nothing |
| Schedule.UpdateExactly | services/incident-svc/src/services/schedule.service.ts:65-91 | an update is about a shift of its operation, is refused for overlap exactly if another shift is in the way, and changes nothing unless it is written |
| Schedule.RunKeepsTable | services/incident-svc/src/services/schedule.service.ts:23-121 | over every run of create, update and delete, every shift ends after it starts, after at most the maximum of hours unless oversize is allowed, and no two shifts of one operation, user and role overlap, given that no patch strays from the row it finds |
| Schedule.UnblankedNeverStrays | services/incident-svc/src/repo/schedule.repo.ts:82-89 | no patch strays if nobody on the roster is unnamed, or if it has no empty user or role |
| Schedule.ClashMeansSharedInstant | services/incident-svc/src/services/schedule.service.ts:39-45 | refused for overlap if and only if the other checks pass and some instant lies in both the request and another stored shift of its operation, user and role; otherwise the first check that fails decides |
| Schedule.OnDutyOnce | services/incident-svc/src/repo/schedule.repo.ts:116-125 | at no instant is a user active twice in one role of one operation |
| Schedule.WorkloadBound | services/incident-svc/src/services/schedule.service.ts:39-46 | the shifts of one (operation, user, role), clipped to any window, never add up to more than the window |
| Schedule.CreatedShiftStays | services/incident-svc/src/repo/schedule.repo.ts:57-114 | a new row holds the checked values and stays so through every later run that does not patch or delete it under its operation; no other row changes; deleting it at once gives the table back, and does nothing under another operation |
| Schedule.UpdateStoresWhatItChecked | services/incident-svc/src/repo/schedule.repo.ts:73-110 | an update stores what it checked if and only if the patch does not blank a user or role; always so with a named roster; no other row changes |
| Schedule.MergeReads | services/incident-svc/src/services/schedule.service.ts:71-77 | what is read from the patched row, derived from the keys of the row: user and dates of a raw row are undefined unless patched, role and notes are not |
| Schedule.RawRowNeedsFullPatch | services/incident-svc/src/services/schedule.service.ts:71-83 | as written, an update succeeds if and only if the patch restates user, start and end and the intended merge succeeds |
| Schedule.UpdateKeepsTableExactly | services/incident-svc/src/services/schedule.service.ts:65-91 | with either form of the row, an update of a given row keeps every good table good if and only if the patch does not stray from it |
| Schedule.RawUpdateKeepsTableExactly | services/incident-svc/src/services/schedule.service.ts:65-91 | as written, an update keeps every good table good, whatever row it finds, if and only if its check cannot pass for an empty user or role |
| Schedule.StrayBreaksTable | services/incident-svc/src/repo/schedule.repo.ts:82-89 | a patch that strays makes two shifts overlap that did not |
| Schedule.GroupByRole | services/incident-svc/src/services/schedule.service.ts:142-155 | each role that occurs is listed with its rows in order, and no other role; it throws if and only if a role has an inherited property name |
| Filters.BuildFilter | services/incident-svc/src/index.ts:495-509 | the built clauses, with their parameters, select exactly the rows the search parameters ask for |
| Filters.ListInMemoryExactly | services/incident-svc/src/index.ts:512-524 | the list is exactly the incidents with the given status and text, all of them, in order |
| Filters.ListBySqlExactly | services/incident-svc/src/index.ts:495-511 | the same for the rows the database selects, with the text as a pattern |
| Filters.LikeIsContains | services/incident-svc/src/index.ts:503-508 | for a text without pattern characters, ILIKE '%q%' is case-folded substring search |
| Filters.SampleTellsBranchesApart | services/incident-svc/src/index.ts:503-521 | for any other non-empty text there is an incident the database lists and the memory branch does not |
| Filters.BranchesAgree | services/incident-svc/src/index.ts:491-525 | both branches list the same incidents from every list if and only if the search text has no `%`, `_` or backslash |
| ZeroTrust.ZeroTrustFlag.Begin | packages/feature-flags/src/zeroTrustFlag.ts:12-24 | a fresh entry is returned as it is; locked answers true; otherwise the call suspends with the cache unchanged |
| ZeroTrust.ZeroTrustFlag.Resume | packages/feature-flags/src/zeroTrustFlag.ts:23-38 | caches and returns the row's value, or the default, under the time the call began |
| ZeroTrust.ZeroTrustFlag.Bust | packages/feature-flags/src/zeroTrustFlag.ts:45-47 | empties the cache |
| ZeroTrust.ZeroTrustFlag.AfterPutWrite | apps/api/src/routes/admin/security.ts:35-46 | after its write an unlocked PUT always resolves from the database |
| ZeroTrust.BoundedStaleness | packages/feature-flags/src/zeroTrustFlag.ts:12-47 | under every interleaving a hit at time r was right at some instant in (r-5000, r] and any other answer at some instant since its call began |
| ZeroTrust.ResolveDoes | packages/feature-flags/src/zeroTrustFlag.ts:12-24 | a call is served an entry younger than 5000 ms, or locked to true, or reads |
| ZeroTrust.FinishDoes | packages/feature-flags/src/zeroTrustFlag.ts:23-38 | what was read becomes the answer and the entry, from the database or by default, as of the start of the call |
| ZeroTrust.AnswersExactly | packages/feature-flags/src/zeroTrustFlag.ts:12-38 | over every run each answer is a cached one of some call, less than 5000 ms old, or locked, or what the call read, with its source |
| ZeroTrust.PutDoes | apps/api/src/routes/admin/security.ts:29-46 | a PUT is refused while locked; otherwise it writes its value, empties the cache and resolves |
| ZeroTrust.ReadYourWrite | apps/api/src/routes/admin/security.ts:29-47 | an unlocked PUT whose read succeeds, with no write in between, answers with its own value and source DB |
| ZeroTrust.LockedMeansOn | apps/api/src/routes/admin/security.ts:30-31 | while locked every PUT is refused and every answer is true in every run, and the stored setting only changes by a direct write to the database |
| ZeroTrust.BustHoldsExactly | packages/feature-flags/src/zeroTrustFlag.ts:23-47 | after a bust every call that has not read yet and every later call answers what is right now, in every continuation without a write or an outage, if and only if no call is about to cache a wrong answer that is still fresh |
| ZeroTrust.PutHoldsExactly | apps/api/src/routes/admin/security.ts:36-46 | the same for the bust and the resolve of a PUT |
| ZeroTrust.BustCanBeUndone | packages/feature-flags/src/zeroTrustFlag.ts:23-29 | a run in which a resolve that is stale after the bust of a PUT undoes it, and the next call is served the old value |
| Aggregate.Incident.Create | services/incident/src/domain/Incident.ts:21-36 | the new aggregate is the replay of its own creation event |
| Aggregate.Incident.From | services/incident/src/domain/Incident.ts:38-44 | the loop replays the log |
| Aggregate.Incident.Apply | services/incident/src/domain/Incident.ts:67-86 | changes the fields each event type names and no other |
| Aggregate.Incident.AddMessage | services/incident/src/domain/Incident.ts:46-50 | returns and applies the event |
| Aggregate.Incident.Submit | services/incident/src/domain/Incident.ts:52-59 | fails without a change unless the incident is a draft |
| Aggregate.Incident.Update | services/incident/src/domain/Incident.ts:61-65 | returns and applies the event |
| Aggregate.InMemoryEventStore.Append | services/incident/src/infrastructure/EventStore.ts:12-16 | extends one log in place, keeping every known incident's array object |
| Aggregate.InMemoryEventStore.Load | services/incident/src/infrastructure/EventStore.ts:18-20 | hands out the live array of a known incident, otherwise a new empty one |
| Aggregate.ResumeSend | services/incident/src/api.ts:49-56 | from the first await on, the handler replays the array it holds and appends to the store in one turn |
| Aggregate.ResumeSubmit | services/incident/src/api.ts:66-73 | the same for submit, with 404 and failure leaving every log alone |
| Aggregate.DraftUntilSubmitted | services/incident/src/domain/Incident.ts:52-82 | an incident is a draft exactly until its log holds a submission |
| Aggregate.ReplayMeans | services/incident/src/domain/Incident.ts:38-86 | the replayed state field by field: last title and description given, organisation of the creation, all messages in order, submitted or not |
| Aggregate.CreateDoes | services/incident/src/api.ts:15-26 | a creation starts the log and answers the new incident |
| Aggregate.ArriveDoes | services/incident/src/infrastructure/EventStore.ts:18-39 | a load takes the whole log of that moment, and in memory keeps following it |
| Aggregate.SendDoes | services/incident/src/api.ts:43-60 | a message is added to the log and comes last in the answer |
| Aggregate.SubmitDoes | services/incident/src/api.ts:62-77 | a submit goes through exactly if the events it sees hold no submission |
| Aggregate.ReadDoes | services/incident/src/api.ts:28-41 | a read answers with the replay of what it sees, and nothing seen is 404; no other request is touched |
| Aggregate.HandlersAreAtomic | services/incident/src/api.ts:15-77 | with the in-memory store, under every interleaving: one creation, first; at most one submission; every response is the replay up to its own event; as many events as successful writes; a submit fails only if there was one before |
| Aggregate.NotFoundMeansUnknown | services/incident/src/api.ts:31-71 | with either store a request is answered 404 only if its incident had no log when it arrived |
| Aggregate.OneLogPerStep | services/incident/src/api.ts:15-77 | a step appends at most one event, to its own incident's log, and leaves the others alone |
| Aggregate.SubmitsOverlap | services/incident/src/api.ts:63-73 | over Postgres any two successful submits of one incident waited at the same time and were both resumed afterwards |
| Aggregate.PostgresSubmitsTwiceExactly | services/incident/src/infrastructure/EventStore.ts:26-40 | over Postgres, for every run, an incident has more than one submission if and only if two of its submits waited at the same time with copies that pass the check, and both were resumed |
| Aggregate.PostgresSubmitsTwice | services/incident/src/infrastructure/EventStore.ts:33-39 | a run of that kind |
| Aggregate.ReplayRecombines | services/incident/src/domain/Incident.ts:67-86 | the replayed state is put together from what each event type replays to alone |
| Aggregate.ReplayIgnoresCrossTypeOrder | services/incident/src/infrastructure/EventStore.ts:33-39 | logs with the same events of each type in the same order replay to the same state, so ties in the timestamp order do not matter across types |
| Multipart.ReadMultipart | services/incident-svc/src/index.ts:95-126 | the loop with its skips and early return is the reader's specification |
| Multipart.BoundaryIs | services/incident-svc/src/index.ts:98-102 | the boundary of a printed content type is found again, whether or not other parameters follow it |
| Multipart.NoBoundary | services/incident-svc/src/index.ts:98-101 | without a content type or a boundary in it nothing is read |
| Multipart.SplitPrinted | services/incident-svc/src/index.ts:108 | splitting a printed body at the boundary gives exactly its parts |
| Multipart.NameIs | services/incident-svc/src/index.ts:113 | the name found is the part's name, although `filename="` also ends in `name="` |
| Multipart.FilenameIs | services/incident-svc/src/index.ts:114 | the filename found is the part's filename, if that is not empty |
| Multipart.EmptyFilename | services/incident-svc/src/index.ts:114 | no filename is found in a part whose filename is empty |
| Multipart.FilenameReadAsName | services/incident-svc/src/index.ts:113 | a filename parameter before the name parameter is found as the name |
| Multipart.HeadAndTail | services/incident-svc/src/index.ts:111 | the head ends at the first blank line and the tail starts with the content |
| Multipart.RoundTrip | services/incident-svc/src/index.ts:95-126 | a printed body reads back as the first part named `file` with a non-empty filename, with its exact bytes, or as nothing if there is none |
| Multipart.ReadsBackExactly | services/incident-svc/src/index.ts:111-118 | a body with one file reads back unchanged if and only if the file has no blank line and does not end in a line break |
| Multipart.CutAtBlankLine | services/incident-svc/src/index.ts:111-118 | what the reader returns for any other file: what comes before its first blank line less two bytes, or nothing |
| Multipart.FirstBlankLine | services/incident-svc/src/index.ts:111 | every file that does not read back has a first blank line to be cut at, counting the one its closing line break completes |
| StreamConsumer.Consumer.constructor | services/realtime-svc/stream-consumer.js:18-21 | a process starts from the saved id, or from the start of the stream |
| StreamConsumer.Consumer.HandleBatch | services/realtime-svc/stream-consumer.js:28-35 | prints the batch in order and saves its last id once; a timeout changes nothing |
| StreamConsumer.NothingSkipped | services/realtime-svc/stream-consumer.js:18-36 | over any run with crashes and restarts every entry up to the greatest printed id is printed, and the saved id has been printed |
| StreamConsumer.NeverReprintsSaved | services/realtime-svc/stream-consumer.js:18-36 | once an id is saved nothing up to it is printed again, in this or any later process |
| StreamConsumer.SessionPrintsOnce | services/realtime-svc/stream-consumer.js:23-36 | without a crash no entry is printed twice |
| StreamConsumer.BatchDoes | services/realtime-svc/stream-consumer.js:28-35 | the steps of a batch print all of it in order and then save its last id |
| StreamConsumer.CatchesUp | services/realtime-svc/stream-consumer.js:18-36 | a restarted process that is left alone for one turn prints exactly the entries after the saved id and saves the last |
| Rbac.Escalate | services/incident-svc/src/rbac/effective.ts:16-32 | adds exactly the roles at or below the given one |
| Rbac.Effective | services/incident-svc/src/rbac/effective.ts:34-57 | a role is held if and only if a read group gives VIEWER or a grant of the user is at least as high; with a role come all lower ones |
| Rbac.EffectiveIsClosed | services/incident-svc/src/rbac/effective.ts:34-57 | the roles do not depend on the order or number of grants, and are closed downward |
| Rbac.ComputeEffective | services/rbac/src/index.ts:29-55 | the roles without duplicates, and the highest of them, VIEWER when there is none |
| Rbac.SameReadGroups | services/incident-svc/src/rbac/effective.ts:43-48 | looking up prefix and suffix in the groups equals looking up each group's rest in the suffixes |
| Rbac.WhoCan | services/incident-svc/src/rbac/effective.ts:34-77 | who may do what: a read group allows reading only, a grant what its role is for |
| Rbac.WhoCanByMap | services/rbac/src/index.ts:20-60 | the same for the rbac service, with its default suffixes |
| Rbac.EvaluatorsAgree | services/rbac/src/index.ts:29-60 | both evaluators allow the same actions if and only if the suffix list is not empty, or the user has a grant, or no group matches the default suffixes |
| Rbac.EmptySuffixesDiffer | services/rbac/src/index.ts:29-42 | a user and a group list on which they differ, with an empty suffix list |

## Left out

- Timestamps of incidents, events and attachments, and the `updated_at` trigger: a clock reading is a parameter where a
  check uses it and is dropped where it is only stored.
- The response of the comment and status routes serialises the live incident after the notification was sent; the model
  answers with the incident as it was when the event was logged.
- A body field of the wrong JSON type, and an attachment upload's early lookup: incidents are never removed, so the
  lookup is modelled at the moment of storing.
- Random UUIDs are parameters. A new incident id in `Aggregate` is assumed to be new, and `IncidentLog.UploadSurvives`
  assumes that object names do not repeat.
- Over Postgres, a load is taken to see every insert made before it, in the order in which they were made; ties of the
  timestamp are the subject of `Aggregate.ReplayIgnoresCrossTypeOrder`.
- Over Postgres an INSERT takes effect some time after the handler that issued it resumed. In `Aggregate`, `Resume` of a
  writing request stands for the moment at which it does, so a request waits until then.
- `StreamConsumer` takes the save of the last id as atomic. The code's file write truncates before it writes, so a crash
  in between could leave an empty or partial id; such a file is not modelled.
- Concurrent schedule requests: each call runs alone on the table, although nothing in the code enforces it.
- Date parsing: a date string is an instant, empty, or unparsable, and Postgres is taken to read it as JavaScript does.
- `withinHorizon` and `durationHours` over floating point: settings and durations are reals.
- Case folding that changes length: `Filters` folds character by character. A LIKE pattern ending in a backslash, an error
  in Postgres, matches nothing.
- A quoted boundary parameter and a preamble in a multipart body; the reader takes the quotes as part of the boundary.
- What a client does with snapshots and deltas: no code here merges them. `CatchUp` therefore says what a snapshot
  shows, not what a client would rebuild from it.
- The `NOTIFY` itself: `commitEvent` passes the payload as a bound parameter, which Postgres does not accept in a NOTIFY
  statement, and swallows the error. The channel of `CatchUp` models what the call is for; with every notice refused,
  the hypothesis of `CatchUp.NoGap` that none is lost does not hold, and only the snapshots remain.
- Chat, task, schedule and playbook notices are only queue traffic in `CatchUp`; they carry no seq and are in no snapshot.
- A changing environment: the lock and default of the zero-trust flag are fixed for the life of the process.
- The in-memory role assignments of the rbac service (`assignRole`), a plain map.
- The roster and shift listing queries, message drafts, activity feed, and the operation permission routes, which test for
  roles that `effective` never returns.
- HTTP routing, authentication, the database, Redis and WebSocket libraries.
