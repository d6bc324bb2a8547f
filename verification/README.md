# arena0 verification

A Dafny 4.11 model of the parts of arena0 whose correctness is hardest to see
by reading: the daemon's lifecycle, the coordinator of multi-Host runs, the
seeded permutation, the date printer, the text machines (escape scanner,
wrapping, agent line framing, shell quoting), and the shared indexes and
waiters. `dafny verify dfyconfig.toml` checks the whole project.

## How it is laid out

The daemon is a protocol between tasks, so it is a state machine. `HostLedger`
records what was done to each store, in order, sensible or not. `Construction`
is the sequential start-up, as a class with loops. `Daemon` is everything after
construction: one serving task, one provisioning job, any number of `stop`
callers and open callers, with one step between any two points at which another
task can run; a run is any list of actions. `DaemonTurns` sums up what a step
of any task can do to the stores, the job and the answers. `DaemonControl`,
`DaemonStores`, `DaemonOpens`, `DaemonAnswers`, `DaemonTraffic` and
`DaemonShutdown` prove what holds in every run; `DaemonProgress` proves what
every run can still come to.

Code that works in place or in loops is modelled as methods and classes proved
against specification functions (`Permutation`, `Sanitize`, `WrapText`,
`AgentFraming`, `OfferBook`, `Catalog`, `Construction`, `Coordinator`,
`EventRoster.AddHosts`). Pure code (`CivilDate`, `ShellQuote`) is functions and
lemmas. `Uniformity` counts the word sequences behind each seeded permutation.
`Waiters` and `EventRoster` are state machines over interleavings.

Randomness, the clock, the network, the file system, child
processes and other Hosts are parameters: a stream of words, a list of replies,
a function from read number to read, or a choice made at each step.

## What the proofs found

- A creator Host that answers `exec.new` with a success of another kind leaves
  its execution without a cancel request; every other failure withdraws all
  that was asked for (`Coordinator.CreateExecutions`,
  `Coordinator.UnexpectedCreatorIsLeft`).
- A printed time has 20 characters exactly up to the end of year 9999
  (`CivilDate.TextRoundTrip`).
- A waiter asleep on facts that would end its wait cannot be woken exactly when
  the supervisor was stopped, no task owes a notification, and none was made
  since the waiter registered. `await_state` then ends at its deadline with the
  right answer; `next` sleeps on until a task commits and notifies
  (`Waiters.WakeupsExactly`, `Waiters.StrandedStays`, `Waiters.DeadlineEnds`,
  `Waiters.StoppedSupervisorStrands`).
- A program may be removed between the listing that resolved a reference to it
  and the answer (`Catalog.AnswerMayBeRemoved`). It is still active exactly when
  the last import or removal of it since that listing, if any, is not a removal
  (`Catalog.AnswerStaysActive`).
- A `next` already waiting when a request fails before an execution exists is
  woken, finds no execution and sleeps again, while a second call is told of the
  failure as it arrives (`Waiters.WaitingNextMissesTheFailure`). In every run
  without an execution a waiting call waits on, unless a read fails
  (`Waiters.WaitingNextIsNotTold`), and a call returns exactly if its first step
  finds the request failed (`Waiters.NextWithoutExecution`).

## Model

| member | source | states |
|---|---|---|
| `Construction.ValidateHostNames` | crates/arena0-daemon/src/ensemble.rs:1449-1462 | accepts a list of names exactly when it has at most 64 and no two are equal |
| `Construction.Startup.OpenHost` | crates/arena0-daemon/src/ensemble.rs:156-192 | when opening succeeds, what is added to the ledger, and the identities afterwards: one on disk is never replaced, and one is minted exactly under bootstrap for a name without |
| `Construction.Startup.ShutdownConfigs` | crates/arena0-daemon/src/ensemble.rs:263-270 | shuts each pending store once and no other |
| `Construction.Startup.StopServices` | crates/arena0-daemon/src/ensemble.rs:277-279 | stops the service of every listed Host once and touches no other |
| `Construction.Startup.ShutSlots` | crates/arena0-daemon/src/ensemble.rs:281-285 | shuts the store of every listed Host once and touches no other |
| `Construction.Startup.ShutdownOwners` | crates/arena0-daemon/src/ensemble.rs:272-287 | from any point of composition, afterwards every store was shut exactly once, after its service if it had one, and the ensemble was stopped once |
| `Construction.Startup.Provision` | crates/arena0-daemon/src/ensemble.rs:422-443 | succeeds exactly when every home can be opened; on failure every store opened so far was shut once |
| `Construction.Startup.ComposeAll` | crates/arena0-daemon/src/ensemble.rs:467-520 | files every Host under its own name with a running service, or releases everything |
| `Construction.Startup.Construct` | crates/arena0-daemon/src/ensemble.rs:401-544 | the exact condition of success; then the directory files exactly the names over open, served, identified stores; on every failing path all stores are released and the ensemble stopped as often as started |
| `DaemonControl.EveryRunKeepsControl` | crates/arena0-daemon/src/ensemble.rs:601-779 | in every interleaving one task alone leaves NEW, only it enters cleanup, and each point of each task is reached only in its phases |
| `DaemonControl.PhaseMovesForward` | crates/arena0-daemon/src/ensemble.rs:1337-1395 | in every run no action moves the state backwards or changes the task that won |
| `DaemonControl.OpensAreSerialized` | crates/arena0-daemon/src/ensemble.rs:711-745 | the set of spawned provisioning jobs never holds more than one, and none once cleanup has begun |
| `DaemonControl.CleanupIsEnteredOnce` | crates/arena0-daemon/src/ensemble.rs:1350-1395 | cleanup and the ensemble stop happen at most once, exactly once by FINISHED, and a `stop` returns only when FINISHED |
| `DaemonControl.TooLateCalls` | crates/arena0-daemon/src/ensemble.rs:1350-1376 | in every run a `stop` of a finished daemon returns at its first step, and a `serve` of one stopped before is refused |
| `DaemonStores.EveryRunKeepsAccounts` | crates/arena0-daemon/src/ensemble.rs:864-1035 | in every run each store has at most one owner among the directory, the job and cleanup, in the condition that owner needs, and one without an owner was released |
| `DaemonStores.NoStoreIsLost` | crates/arena0-daemon/src/ensemble.rs:968-1035 | at every moment what was done to each store is the beginning of a proper life (service started, service stopped, store shut, or only shut), and the open stores are exactly the owned ones |
| `DaemonStores.StopReleasesEverything` | crates/arena0-daemon/src/ensemble.rs:1350-1395 | once FINISHED, or once any `stop` returned, every store ever opened was shut exactly once, after its service was stopped exactly once |
| `DaemonStores.TakeKeeps` | crates/arena0-daemon/src/ensemble.rs:1378-1384 | emptying the directory hands every listed store to cleanup and no other |
| `DaemonStores.JobLists` | crates/arena0-daemon/src/ensemble.rs:988-1003 | installing a prepared Host keeps every other entry and every store accounted for |
| `DaemonOpens.DirectoryStaysWithinCapacity` | crates/arena0-daemon/src/ensemble.rs:781-847 | in every run at most 64 Hosts are listed, and a job that provisions has room for its Host |
| `DaemonOpens.DirectoryEntriesStay` | crates/arena0-daemon/src/ensemble.rs:988-1009 | an entry is never replaced or removed before cleanup takes all, and appears only while RUNNING |
| `DaemonOpens.EveryRunIsHonest` | crates/arena0-daemon/src/ensemble.rs:781-862 | every store, job and answer agrees with the identity on disk, which is never replaced |
| `DaemonOpens.AnswersAgree` | crates/arena0-daemon/src/ensemble.rs:548-595 | an answer names the Host asked for, for a reopen with the authenticated peer, and two answers for one name never differ |
| `DaemonOpens.OnlyCreatesMint` | crates/arena0-daemon/src/ensemble.rs:197-248 | in every run an identity is added only by a create, under bootstrap, for a name without one |
| `DaemonOpens.CreatesMint` | crates/arena0-daemon/src/ensemble.rs:156-192 | in every run provisioning mints exactly for a create let in, under bootstrap, of a name without an identity, whether or not the store then opens |
| `DaemonOpens.NoNameIsOpenTwice` | crates/arena0-daemon/src/ensemble.rs:711-745 | in every run no two stores are open for one name |
| `DaemonAnswers.AnsweredHostsWereLive` | crates/arena0-daemon/src/ensemble.rs:968-1009 | a Host an open was answered with was in the directory, under that identity, while RUNNING |
| `DaemonAnswers.AnsweredHostsAreListed` | crates/arena0-daemon/src/ensemble.rs:968-1009 | at the very step that answers an open with a Host, the directory holds that Host under that identity, before and after |
| `DaemonAnswers.ListedOpenIsAnswered` | crates/arena0-daemon/src/ensemble.rs:781-807 | in every run an open of a listed name is answered when its job ends, with the Host of that name and its identity on disk exactly if the daemon is RUNNING then as it was at the check and the Host suits: for a reopen its peer is the expected one, for a create its change went well; else it is refused |
| `DaemonAnswers.ListingOpenIsAnswered` | crates/arena0-daemon/src/ensemble.rs:988-1009 | in every run the open that lists a Host is answered with it, under its identity on disk, when its job ends, and the Host is published by then |
| `DaemonAnswers.FailedOpenIsRefused` | crates/arena0-daemon/src/ensemble.rs:864-966 | in every run an open one step of which failed is refused when its job ends and lists nothing |
| `DaemonAnswers.CallersAreServed` | crates/arena0-daemon/src/ensemble.rs:548-595 | in every run nobody is answered but a caller who gives up, finds the queue closed, is drained from it, or whose job ends; a waiting caller enters the queue at its end whenever there is room |
| `DaemonTraffic.EveryRequestIsAnswered` | crates/arena0-daemon/src/ensemble.rs:711-765 | in every state the requests let in, each with a ticket of its own, are exactly those waiting, queued, in work and answered, and no two answers are to one request; when `serve` returned all are answered but those the closed queue still turns away |
| `DaemonTraffic.InitialHostsPublishTogether` | crates/arena0-daemon/src/ensemble.rs:635-687 | the initial Hosts are published all or none, and all of them while RUNNING |
| `DaemonTraffic.OnlyListedHostsPublish` | crates/arena0-daemon/src/ensemble.rs:994-1003 | a Host is marked published only while the directory holds it |
| `DaemonTraffic.OnlyRecoveredHostsPublish` | crates/arena0-daemon/src/ensemble.rs:635-687 | a Host is announced only after its own recovery succeeded, and an initial one only after all of theirs did |
| `DaemonProgress.QueuedOpenSucceedsExactly` | crates/arena0-daemon/src/ensemble.rs:711-862 | in every run that is RUNNING with no open in work, a queued open of a Host that can be opened can be answered with that Host if and only if the serving task is still in its loop |
| `DaemonProgress.EveryCallerCanOpen` | crates/arena0-daemon/src/ensemble.rs:548-745 | in every run with the serving task free in its loop, whoever asks for a Host that can be opened can be answered with it, its identity included, however many wait before them |
| `DaemonProgress.TroubleEndsService` | crates/arena0-daemon/src/ensemble.rs:611-745 | in every run a failed bind or recovery, a server task that ends, or the wake-up of a stop makes the serving task leave its loop for good, and nothing is opened after |
| `DaemonProgress.StartSucceedsExactly` | crates/arena0-daemon/src/ensemble.rs:601-710 | in every run that is STARTING, the daemon can come to be RUNNING if and only if the serving task has not given up, and then all initial Hosts are published |
| `DaemonShutdown.StepKeepsWake` | crates/arena0-daemon/src/ensemble.rs:712-746 | a serving task asleep while FINISHING has its wake-up stored or about to be sent |
| `DaemonShutdown.EffortFalls` | crates/arena0-daemon/src/ensemble.rs:747-779 | during shutdown every step of any task changes nothing or lessens a natural number |
| `DaemonShutdown.ShutdownNeverStalls` | crates/arena0-daemon/src/ensemble.rs:1350-1376 | until serve, all stop calls and all callers have returned, some task of the daemon can take a step by itself |
| `DaemonShutdown.EveryShutdownEnds` | crates/arena0-daemon/src/ensemble.rs:601-779 | from every reachable state with shutdown begun, or with the cleanup of a failed start begun, the daemon's own steps can end it within a computed bound, with everything returned and every store released |
| `DaemonShutdown.CancelledStartReleases` | crates/arena0-daemon/src/ensemble.rs:371-399 | the stop call that a cancelled start is left to is enough to release every store |
| `DaemonShutdown.EveryStopBegins` | crates/arena0-daemon/src/ensemble.rs:1350-1376 | in every run three steps of any `stop` of its own begin the shutdown, and one that waits or has returned waited for a shutdown that had begun |
| `EventRoster.AddHosts` | crates/arena0-daemon/src/http.rs:249-267 | the loop adds a stream for each listed Host not seen, as the specification does |
| `EventRoster.AddedMeaning` | crates/arena0-daemon/src/http.rs:249-267 | afterwards exactly the old and the listed Hosts are seen, each with one stream, the old streams first |
| `EventRoster.NoHostIsMissedOrRepeated` | crates/arena0-daemon/src/http.rs:229-302 | in every interleaving with publications, however far the reader lags, no Host has two streams and a reader with nothing unread follows the whole directory |
| `EventRoster.EveryRunIsSound` | crates/arena0-daemon/src/http.rs:229-302 | a listed Host not yet seen is announced ahead of the reader or the reader is about to list |
| `EventRoster.ReaderCatchesUp` | crates/arena0-daemon/src/http.rs:273-295 | left alone, a reader follows the whole directory within a number of steps bounded by its backlog |
| `EventRoster.ReadsInTurn` | crates/arena0-daemon/src/http.rs:276-283 | the reader takes notifications one at a time, passes over none still kept, and lists the directory after each |
| `Waiters.NoWakeupIsLost` | crates/arena0-daemon/src/exec_manager.rs:159-198 | in every interleaving under a running supervisor, a waiter of `await_state` or `next` asleep on facts that would end its wait returns them within five owed and own steps |
| `Waiters.WakeupsExactly` | crates/arena0-daemon/src/exec_manager.rs:159-198 | in every run such a waiter can be brought to return if and only if it was notified or a notification is owed, and that fails if and only if the supervisor was stopped, no task owes one and none was made since it registered |
| `Waiters.AnswersWereTrue` | crates/arena0-daemon/src/exec_manager.rs:159-213 | in every run a waiter that returned gives what the durable facts said at some moment of the run, the failure of its request included |
| `Waiters.StoppedSupervisorStrands` | crates/arena0-daemon/src/exec_manager.rs:641-654 | for every kind of wait, a run that strands its waiter |
| `Waiters.StrandedStays` | crates/arena0-daemon/src/exec_manager.rs:189-198 | a stranded waiter sleeps on through every run without a task that commits, short of its deadline; a wait for the next event has no deadline that could end it |
| `Waiters.DeadlineEnds` | crates/arena0-daemon/src/exec_manager.rs:174-185 | a deadline ends a stranded wait for a state, with the state if it holds and else with a timeout |
| `Waiters.AwaitMeaning` | crates/arena0-daemon/src/exec_manager.rs:426-448 | for all facts, what a wait for a state returns: a stored ending as it is stored, Active for an active or waiting execution, Failed for a request that failed without one, and else nothing, with the state shown meanwhile |
| `Waiters.NextMeaning` | crates/arena0-daemon/src/exec_manager.rs:471-513 | for all facts, when the wait for the next event ends and with which event: an open callout with its id first, else a completion, else a stop with its recorded cause, and an error exactly for what cannot be shown; never without an execution |
| `Waiters.ArrivingNextIsGiven` | crates/arena0-daemon/src/server.rs:2615-2673 | a `next` that finds an event as it arrives is given it before it waits |
| `Waiters.EveryCommitIsNotified` | crates/arena0-daemon/src/exec_manager.rs:641-654 | in every run without a stop of the supervisor, the notifications made, the message in hand and those pending are together the commits of the actor and the notifications of tasks |
| `Waiters.CommitsOwe` | crates/arena0-daemon/src/exec_manager.rs:641-654 | whoever changes the facts leaves a notification owed, a stopped supervisor excepted |
| `Waiters.EndedStays` | crates/arena0-daemon/src/exec_manager.rs:159-198 | a failed read ends its call, and a call that ended keeps its outcome through every run |
| `Waiters.WaitingNextIsNotTold` | crates/arena0-daemon/src/exec_manager.rs:190-198 | in every run without an execution, a `next` that has begun to wait waits on or fails to read, whoever records a failed request and however often it is notified |
| `Waiters.NextWithoutExecution` | crates/arena0-daemon/src/server.rs:2615-2673 | in every such run a `next` returns nothing but a failed request, and its next step returns exactly if it is the one that asks and the request has failed by then |
| `Waiters.WaitingNextMissesTheFailure` | crates/arena0-daemon/src/server.rs:2615-2673 | for all facts before and after, a run in which a sleeping `next` is woken by the failure of its request and sleeps again with nothing owed, and a second call is told |
| `Coordinator.InOrder` | crates/arena0-cli/src/coordinated.rs:618-643 | results arriving in any order are put at the positions asked for, exactly when none failed |
| `Coordinator.ConnectHosts` | crates/arena0-cli/src/coordinated.rs:726-782 | the peers in selected order, exactly when all answered and no two share an identity |
| `Coordinator.PlacedOnce` | crates/arena0-cli/src/coordinated.rs:757-765 | the ordered results do not depend on the order of arrival |
| `Coordinator.StopParticipants` | crates/arena0-cli/src/coordinated.rs:664-716 | every participant gets one cancel request, and a status request exactly if it does not know the creation; success means each was withdrawn or had ended |
| `Coordinator.AskJoiners` | crates/arena0-cli/src/coordinated.rs:976-1034 | Hosts are asked in order until a cancellation is seen, each at its own position, with its own peer and drawn id, to join the negotiation of the first; a failure is counted exactly when one did not take its id |
| `Coordinator.JoinOthers` | crates/arena0-cli/src/coordinated.rs:976-1077 | once the creator agreed: all Hosts in, each with its own position, peer and id, or all that were asked withdrawn |
| `Coordinator.CollectParticipants` | crates/arena0-cli/src/coordinated.rs:1040-1058 | the participants are the Hosts given an id, in order, each with its position, peer and id; repeats are counted exactly when ids repeat |
| `Coordinator.CreateExecutions` | crates/arena0-cli/src/coordinated.rs:897-1077 | the exact condition of success; that participant, creation and cancel i are for Host i, its peer and its drawn id; how many Hosts are asked, and in which role; and, for a failure, that the cancels made are all the creations made if and only if the creator was not asked or did not answer with another kind of success |
| `Coordinator.UnexpectedCreatorIsLeft` | crates/arena0-cli/src/coordinated.rs:956 | a call over two Hosts whose requests are one creation and no cancel |
| `Coordinator.SuccessCoversEveryHost` | crates/arena0-cli/src/coordinated.rs:1036-1060 | success means that one execution was asked of every Host, at its position and with its peer, all ids distinct |
| `Coordinator.AwaitActivation` | crates/arena0-cli/src/coordinated.rs:1099-1176 | a session exactly when every Host activated it |
| `Coordinator.CompareTerminals` | crates/arena0-cli/src/coordinated.rs:1471-1516 | agrees exactly when all completed with one session and outcome or all failed |
| `Coordinator.CompareEvidence` | crates/arena0-cli/src/coordinated.rs:1520-1545 | the field checks accept exactly identical receipts |
| `Coordinator.SameSetIsReordering` | crates/arena0-cli/src/coordinated.rs:562-581 | the length and set checks make the receipt's ensemble a duplicate-free reordering of the selected peers |
| `Coordinator.Complete` | crates/arena0-cli/src/coordinated.rs:518-593 | accepts exactly unanimous evidence, and says completed exactly when every Host completed the activated session with one outcome and the receipt did |
| `Coordinator.DriveToEnd` | crates/arena0-cli/src/coordinated.rs:476-594 | a result exactly when the run was not interrupted and the Hosts' own reports are unanimous for it |
| `Coordinator.RunCoordinated` | crates/arena0-cli/src/coordinated.rs:307-466 | a result exactly for a run that deserves it; otherwise every execution asked for was asked to withdraw, with the one exception |
| `Permutation.ThresholdIsRemainder` | crates/arena0-crypto/src/permutation.rs:33 | the wrapped negation modulo the bound is 2^64 modulo the bound |
| `Permutation.ResiduesAreEquallyLikely` | crates/arena0-crypto/src/permutation.rs:29-41 | each residue has exactly floor(2^64 / bound) accepted words and fewer than bound words are rejected |
| `Permutation.SampleMeaning` | crates/arena0-crypto/src/permutation.rs:34-40 | a draw fails exactly on a whole budget of rejected words, else it is the residue of the first accepted one |
| `Permutation.Choose` | crates/arena0-crypto/src/permutation.rs:29-41 | the loop over the generator computes that draw and consumes exactly its words |
| `Permutation.PassArranges` | crates/arena0-crypto/src/permutation.rs:22-25 | every draw sequence rearranges duplicate-free items |
| `Permutation.DrawsFor` | crates/arena0-crypto/src/permutation.rs:22-25 | every rearrangement is reached by some draw sequence |
| `Permutation.PassIsInjective` | crates/arena0-crypto/src/permutation.rs:22-25 | different draw sequences give different results |
| `Permutation.DrawsCorrespondToPermutations` | crates/arena0-crypto/src/permutation.rs:11-27 | for every n the pass is a bijection from draw sequences onto permutations |
| `Permutation.SeededPermutationActsOnItems` | crates/arena0-crypto/src/permutation.rs:14-17 | indexing any items by the seeded permutation equals shuffling them directly from the same stream |
| `Permutation.SeededPermutation` | crates/arena0-crypto/src/permutation.rs:19-27 | the in-place descending loop computes the shuffle of the identity |
| `Permutation.TupleShuffles` | crates/arena0-crypto/src/permutation.rs:19-41 | a stream that begins with accepted words shuffles by exactly their residues |
| `Permutation.EveryPermutationIsEquallyLikely` | crates/arena0-crypto/src/permutation.rs:11-41 | for every permutation of 0..n the same number of accepted word tuples, one word a draw, make every stream that begins with them shuffle to it |
| `Uniformity.DrawnMeaning` | crates/arena0-crypto/src/permutation.rs:29-41 | reading a finite word sequence, rejected words and budgets included, draws what the sampler draws from every stream that holds it |
| `Uniformity.EveryLengthIsUniform` | crates/arena0-crypto/src/permutation.rs:11-41 | for every length, the word sequences of that length, rejected words and all, with which the shuffle of 0..n finishes and gives a permutation are equally many for every permutation |
| `CivilDate.CivilFromDaysInvertsTheCount` | crates/arena0-cli/src/main.rs:1150-1169 | for every day count the closed form is a valid Gregorian date whose year-by-year count is that number |
| `CivilDate.YearOfEraIs` | crates/arena0-cli/src/main.rs:1157-1160 | the year-of-era formula undoes the split into centuries, groups of four, years and days |
| `CivilDate.YearOfEraBounds` | crates/arena0-cli/src/main.rs:1157-1160 | no subtraction of the closed form goes below zero |
| `CivilDate.DayNumberIsOrder` | crates/arena0-cli/src/main.rs:1150-1169 | counting days is one-to-one and keeps the calendar order |
| `CivilDate.StampKeepsSeconds` | crates/arena0-cli/src/main.rs:1152-1153 | whole seconds survive the split into date and clock |
| `CivilDate.TextRoundTrip` | crates/arena0-cli/src/main.rs:1150-1176 | the text has the form of section 5.6 of RFC 3339 exactly before year 10000, and then reads back to the second |
| `CivilDate.TextOrderIsTimeOrder` | crates/arena0-cli/src/main.rs:1150-1176 | up to year 9999 byte order of texts is time order, as section 5.1 of RFC 3339 wants |
| `Sanitize.ScanText` | crates/arena0-client/src/sanitize.rs:22-41 | the consuming loop computes the scan specification |
| `Sanitize.ScanEscape` | crates/arena0-client/src/sanitize.rs:54-67 | what an escape takes and keeps, for each introducer |
| `Sanitize.ScanCsi` | crates/arena0-client/src/sanitize.rs:69-101 | the control sequence taken, kept exactly when complete, SGR and wanted |
| `Sanitize.SkipOsc` | crates/arena0-client/src/sanitize.rs:103-116 | skips through BEL or the string terminator |
| `Sanitize.SkipControlString` | crates/arena0-client/src/sanitize.rs:118-128 | skips through the string terminator only |
| `Sanitize.TruncateOnCharBoundary` | crates/arena0-client/src/sanitize.rs:43-52 | the longest whole-character prefix within the byte limit |
| `Sanitize.BoundaryMeaning` | crates/arena0-client/src/sanitize.rs:43-52 | a byte index is a boundary exactly when some character prefix ends there |
| `Sanitize.Utf8LengthIsShortest` | crates/arena0-client/src/sanitize.rs:43-52 | a character takes the shortest UTF-8 sequence that carries its code, as section 3 of RFC 3629 says |
| `Sanitize.SanitizeText` | crates/arena0-client/src/sanitize.rs:9-11 | truncation, then the scan that keeps SGR |
| `Sanitize.StripAnsi` | crates/arena0-client/src/sanitize.rs:18-20 | the scan that keeps nothing, without the limit |
| `Sanitize.ScanIsSafe` | crates/arena0-client/src/sanitize.rs:9-101 | for every input the only control characters left are newlines and an ESC that begins a complete SGR sequence |
| `Sanitize.StripIsPrintable` | crates/arena0-client/src/sanitize.rs:18-41 | for every input stripped text has no control character |
| `Sanitize.CleanTextIsKept` | crates/arena0-client/src/sanitize.rs:22-101 | text of printable characters, newlines and complete SGR sequences is kept whole |
| `Sanitize.OtherSequencesVanish` | crates/arena0-client/src/sanitize.rs:54-128 | every other complete sequence vanishes and takes nothing of what follows |
| `Sanitize.VanishingMeans` | crates/arena0-client/src/sanitize.rs:22-128 | what is no printable character, newline or complete SGR sequence (single controls, short escapes, complete and broken control sequences, strings closed or not) vanishes and takes nothing of what follows |
| `Sanitize.EveryTextSplits` | crates/arena0-client/src/sanitize.rs:22-128 | every nonempty text begins with a kept token or with something that vanishes, so those two laws say what becomes of every text |
| `Sanitize.ClassesAreColumns` | crates/arena0-client/src/sanitize.rs:28-94 | the character classes are the columns of the code table of section 5 of ECMA-48 |
| `Sanitize.ScanIsIdempotent` | crates/arena0-client/src/sanitize.rs:22-41 | scanning twice is scanning once |
| `Sanitize.SanitizeIsIdempotent` | crates/arena0-client/src/sanitize.rs:9-11 | sanitizing twice is sanitizing once, the limit included |
| `Sanitize.StripOfSanitized` | crates/arena0-client/src/sanitize.rs:9-20 | stripping sanitized text strips the longest whole-character prefix within 64 KiB |
| `WrapText.WrapChars` | crates/arena0-cli/src/ui.rs:350-371 | the chunks concatenate to the text and are greedy; the column bound holds exactly when the count cannot pass a machine word, so for every text that fits in memory |
| `WrapText.RustTextFits` | crates/arena0-cli/src/ui.rs:355-366 | a text with no more columns than bytes per character has no more columns than bytes |
| `WrapText.GreedyIsMinimal` | crates/arena0-cli/src/ui.rs:350-371 | no split into fitting nonempty pieces has fewer pieces than a greedy one |
| `WrapText.WrappingIsOptimal` | crates/arena0-cli/src/ui.rs:350-371 | when every character fits, all chunks fit and there are as few as possible |
| `WrapText.GreedyIsUnique` | crates/arena0-cli/src/ui.rs:350-371 | the greedy conditions leave one result |
| `AgentFraming.ExecutableAgent.ReadAnswerLine` | crates/arena0-cli/src/agent.rs:324-366 | the read loop computes the line specification and leaves the rest pending |
| `AgentFraming.ExecutableAgent.RejectExtraOutput` | crates/arena0-cli/src/agent.rs:368-390 | passes exactly when nothing is pending and the grace read times out |
| `AgentFraming.ExecutableAgent.Terminate` | crates/arena0-cli/src/agent.rs:240-265 | closes input at once, and the driver when cleanup succeeds |
| `AgentFraming.ExecutableAgent.Answer` | crates/arena0-cli/src/agent.rs:129-207 | succeeds exactly if the agent was silent, was sent the callout, and sent one line of JSON, in whatever pieces and within the bound, and was silent again in time; the answer is the text of that line, framed by CR LF or LF; and a failure other than of encoding closes the agent |
| `AgentFraming.ReadLineMeaning` | crates/arena0-cli/src/agent.rs:324-366 | however the pipe cut it, a read gives the first line of what was received and leaves exactly the rest, within the buffer bound |
| `AgentFraming.EveryChunkingDelivers` | crates/arena0-cli/src/agent.rs:324-366 | every way of cutting a line of at most 64 KiB into reads delivers it |
| `AgentFraming.SendsMeaning` | crates/arena0-cli/src/agent.rs:324-366 | the reader returns a text if and only if the reads are, in whatever pieces, that text and a line end within the bound, and then silence |
| `AgentFraming.AnswerAll` | crates/arena0-cli/src/agent.rs:129-207 | over any callouts the k-th line received is the k-th success with CR LF or LF after it, all bytes received are those lines while the agent is open, and after a failure, unless it was of encoding, nothing succeeds |
| `AgentFraming.AnswerAfterEncodeFailure` | crates/arena0-cli/src/agent.rs:142-151 | the encoding error branch closes nothing; the callouts of this program are text and JSON values and do not reach it |
| `AgentFraming.OneAnswerIsGiven` | crates/arena0-cli/src/agent.rs:142-151 | an output for which a callout after that branch would succeed |
| `AgentFraming.LinesOfConcat` | crates/arena0-cli/src/agent.rs:324-366 | splitting concatenated lines gives the lines back |
| `ShellQuote.QuoteRoundTrip` | crates/arena0-cli/src/harness_hook.rs:80-82 | for every string the shell reads the quoted form as that one word |
| `ShellQuote.QuotedValueIsLiteral` | crates/arena0-cli/src/harness_hook.rs:80-82 | in any word, before any text, a quoted value adds exactly its characters, all literal |
| `ShellQuote.QuoteIsInjective` | crates/arena0-cli/src/harness_hook.rs:80-82 | equal quoted forms come from equal values |
| `ShellQuote.ScriptReads` | crates/arena0-cli/src/agent_launch.rs:344-372 | a script of plain text, quoted values and operators reads as exactly its tokens, whatever the values |
| `ShellQuote.LaunchUnquotesInTwoPasses` | crates/arena0-cli/src/agent_launch.rs:344-372 | the launch command unquotes to the script, and the script to every path, the context and the prompt, each in its own word |
| `OfferBook.EveryRunKeepsTheBook` | crates/arena0-daemon/src/offers.rs:50-130 | after any operations at most 256 entries, in order, and for every key seen events equal closed events plus evictions plus presence |
| `OfferBook.ResidentKeepsFirstSeen` | crates/arena0-daemon/src/offers.rs:50-77 | a key that stays resident keeps its first-seen time and its sequence number never falls |
| `OfferBook.EvictKeeps` | crates/arena0-daemon/src/offers.rs:67-76 | eviction removes one entry, the first seen longest ago and among those the first by key, without an event |
| `OfferBook.ClosingsMean` | crates/arena0-daemon/src/offers.rs:79-130 | a close takes exactly the offer of the key, an expiry exactly those whose deadline has come, a dropped program exactly those for it; each is told as closed, for that reason, in key order, and nothing else changes |
| `OfferBook.UpdateMeaning` | crates/arena0-daemon/src/offers.rs:50-66 | a newer offer under a resident key takes its place and keeps the first-seen time, without an event; an older one changes nothing |
| `OfferBook.InsertMeaning` | crates/arena0-daemon/src/offers.rs:50-77 | a new key is told as seen and enters; in a full book the oldest of all, perhaps the new one, leaves |
| `OfferBook.Offers.InsertOne` | crates/arena0-daemon/src/offers.rs:50-77 | the class operation is the specified step and keeps the book |
| `OfferBook.Offers.CloseOne` | crates/arena0-daemon/src/offers.rs:79-94 | the class operation is the specified step and keeps the book |
| `OfferBook.Offers.ExpireAll` | crates/arena0-daemon/src/offers.rs:96-112 | the class operation is the specified step and keeps the book |
| `OfferBook.Offers.DropAll` | crates/arena0-daemon/src/offers.rs:114-130 | the class operation is the specified step and keeps the book |
| `OfferBook.Offers.List` | crates/arena0-daemon/src/offers.rs:40-48 | closes the expired offers, lets any operations of others in, and then reads the book in key order: each offer read was live or was inserted in between, and with nothing in between exactly the live ones are read |
| `OfferBook.EntryOrigin` | crates/arena0-daemon/src/offers.rs:50-130 | after any operations an entry was there before or one of them inserted it |
| `OfferBook.FindOldest` | crates/arena0-daemon/src/offers.rs:67-76 | the search finds the first entry with the least first-seen time |
| `Catalog.EveryInterleavingAgrees` | crates/arena0-daemon/src/catalog.rs:57-194 | in every interleaving of imports, removals, reads, listings and resolutions a finished read equals parsing the stored bytes, listings and resolutions agree with the store they listed, and no hash is parsed for the cache twice |
| `Catalog.UndisturbedRead` | crates/arena0-daemon/src/catalog.rs:146-169 | a read nothing interrupts equals parsing the stored bytes, absence included |
| `Catalog.TaskEndsExactly` | crates/arena0-daemon/src/catalog.rs:57-69 | in every interleaving a listing or resolution at work can end by itself, answered if and only if the bytes of everything it listed parse |
| `Catalog.OnlyTroubleErrs` | crates/arena0-daemon/src/catalog.rs:57-69 | a listing or resolution errs only on a failed read or on listed bytes that do not parse |
| `Catalog.ResolveMeaning` | crates/arena0-daemon/src/catalog.rs:72-132 | resolution succeeds exactly with the full id, the only program of the name, or, when no name matches, the only hash that begins with the digits, written out on characters |
| `Catalog.FailureMeaning` | crates/arena0-daemon/src/catalog.rs:93-131 | not found means that nothing is meant; ambiguous means several programs are, and tells all of them, each once, in the order of the listing |
| `Catalog.ResolvedMeansNamed` | crates/arena0-daemon/src/catalog.rs:72-132 | over the details that the stored bytes give, resolution succeeds with a hash exactly when the reference names it, and then that program is active |
| `Catalog.ResolutionsAreNamed` | crates/arena0-daemon/src/catalog.rs:72-132 | in every interleaving an answered resolution listed the store of one moment of the run and succeeded with a hash exactly when the reference names it among the programs listed, as their stored bytes describe them; it was active then; else it failed for the right reason |
| `Catalog.ListingsAreDetails` | crates/arena0-daemon/src/catalog.rs:57-69 | in every interleaving a finished listing holds what the stored bytes of the programs active at one moment say |
| `Catalog.AnswerStaysActive` | crates/arena0-daemon/src/catalog.rs:72-132 | in every interleaving the program a resolution was answered with was active when it was listed, and is active now exactly when the last import or removal of it since, if any, is not a removal |
| `Catalog.AnswerMayBeRemoved` | crates/arena0-daemon/src/catalog.rs:72-132 | a run in which the program resolved to is removed before the answer |
| `Catalog.ListedMeansRank` | crates/arena0-daemon/src/catalog.rs:57-69 | an active program is listed exactly when fewer than the limit come before it |
| `Catalog.ProgramCatalog.ReadDetail` | crates/arena0-daemon/src/catalog.rs:146-169 | the cached read equals the uncached one and parses nothing already cached |
| `Catalog.ProgramCatalog.ImportProgram` | crates/arena0-daemon/src/catalog.rs:180-194 | registers exactly the bytes that parse and load, as an active row under their hash, unless other bytes have that hash |
| `Catalog.ProgramCatalog.RemoveProgram` | crates/arena0-daemon/src/catalog.rs:198-204 | the program is no longer active and its details stay readable |
| `Catalog.ProgramCatalog.ListPrograms` | crates/arena0-daemon/src/catalog.rs:57-69 | exactly the details that parsing the listed bytes gives, exactly when all parse |
| `Catalog.ProgramCatalog.ResolveReference` | crates/arena0-daemon/src/catalog.rs:72-132 | succeeds with a hash exactly when the reference names it among the listed programs as their bytes describe them, always an active one; fails only when details are needed and one does not parse; an exact id parses nothing |

## Left out

- `Daemon` is a machine over values, not a class: tasks interleave at its steps, so updates in place and aliasing inside one step are not modelled.
- `Construction.Startup.Construct`: the home lease, the upload directory and the signing key are taken to be fine; a failure there comes before any store is opened.
- `DaemonStores.StopReleasesEverything` and the other daemon results are about runs without task panics; a panicking provisioning job loses its store in the source.
- `DaemonShutdown.EveryShutdownEnds`: a step that the surroundings must finish (a store call, a service stop) is taken to return; the 10-second limits on server tasks are not modelled.
- `DaemonStores.NoStoreIsLost`: a shutdown call counts when made; a failing one is only logged by the source.
- `DaemonTraffic.EveryRequestIsAnswered`: reserving a queue slot and filling it is one step.
- `DaemonProgress.EveryCallerCanOpen` and the other results there say which runs exist; that a scheduler takes one of them is not modelled.
- `DaemonControl.EveryRunKeepsControl`: sockets, tokens, activity streams and start-up progress are not part of the state.
- `Waiters.WakeupsExactly`: reading the durable facts is one step, a missing request, schema or driver is a failed read, and the wake-up retry of `submit` is not modelled.
- `EventRoster.NoHostIsMissedOrRepeated`: the frames inside each Host's stream and the connection's channel are not modelled.
- `Coordinator.RunCoordinated`: drivers, callouts, prompts, receipt cryptography and the program resolution before creation are not modelled; a timed-out call is a failed one.
- `Coordinator.CreateExecutions`: random execution ids are given, possibly equal; the cancellation flag is read as never taken back, which is how it is set.
- `ShellQuote.ScriptReads`: expansion, comments, here-documents, substitutions and the reserved words of the shell grammar are not modelled; the tokenizer covers quoting, blanks and operators.
- `WrapText.WrapChars`: column widths of characters are a parameter; `render_stacked_table` is presentation.
- `CivilDate.TextRoundTrip`: integers are unbounded; the largest intermediate is the day count plus 719468, far below 2^64.
- `AgentFraming.ExecutableAgent.Answer`: encoding is an outcome of the surroundings, although for text and JSON values it succeeds; JSON parsing is a predicate, process groups, `finish` and the tail of standard error are not modelled.
- `Catalog.EveryInterleavingAgrees`: the store is a map, its errors and the engine's loading cost are not modelled.
- `Permutation.SeededPermutation`: ChaCha20 is an arbitrary stream of 64-bit words.
- The sync stream, negotiation, activation, step agreement and receipts: not modelled.
- Request and response shapes, event kinds, command parsing, rendering and setup plans: they hold no state and no algorithm, and reading them settles what they do.
- Cryptography, the WebAssembly engine, JSON Schema and SQLite: libraries outside this model.
