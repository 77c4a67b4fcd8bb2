# A verified model of the Gronin runtime's hard core

Gronin runs playbooks on schedules, on deliveries and by hand, on one host or on several. Four of
its parts promise something over whole runs rather than over single calls: the claim that keeps a
playbook to one run at a time, the ledger that hands a delivery to each bound playbook at most once,
the one waiting slot a playbook has, and the index that is brought up to date by many writers. This
project models those, and the harder text and schedule code beside them: cutting documents into
passages, binding a shell line's references, redaction, and the scheduler's catch-up. The properties
are stated over every input, every interleaving and every crash, and proved.

## How it is laid out

| modules | what they hold |
|---|---|
| `Common`, `Coordination` | options, requests, refusals, and the checks every coordinator makes first |
| `EtcdStore`, `Claims`, `ClaimsSafety`, `ClaimTheorems`, `ClaimEndings` | a revisioned store with leases; any number of attempts, one remote call at a time; what every step keeps; what follows; what ends a claim and what prolongs it |
| `EtcdAnswers`, `EtcdAdapter`, `EtcdCalm` | what a round answers, read off the stores it finds; the adapter's own loop as a class over that world, everyone else's steps interleaved between its calls; when a call must take the claim |
| `Renewal`, `HoldWorld`, `HoldTheorems` | the configured durations, the renewal loop as a class, timed tenures of one name, and when two runs can overlap |
| `Composition`, `CompositionWitness` | the protocol and the timed tenures of one name as one world over one clock, what their theorems say together, and a first run in it |
| `Fake`, `FakeTheorems` | the in-memory backend as a class over its maps, its own promises, and where it and etcd answer differently |
| `FileLock` | the single-host coordinator: an exclusive lock, the recorded tick and the counted starts |
| `Ledger`, `LedgerWorld`, `LedgerWaits`, `LedgerChains`, `LedgerTally`, `LedgerTheorems`, `LedgerCrashes`, `LedgerAnswers`, `LedgerRuns`, `LedgerProcesses` | the tables and their transactions as a class, any number of crashing processes over them, the invariants, the theorems, the crash between a record and its column, when an acceptance is new, the runs behind columns and waits, and `HandOff` and `Reconcile` as loops |
| `WaitLoop`, `WaitEndings` | one waiting trigger's rounds: read the file, ask for the claim, look at the directory again; and how each round and each wait ends |
| `Generations`, `Index`, `IndexWorld`, `IndexTheorems`, `IndexEndings`, `IndexUpdates` | the generation's encoding, the database as a class, many optimistic writers, how each write ends, and the update loop |
| `Utf8`, `Passages`, `Packing`, `Reports` | section 3 of RFC 3629, the cutters' loops, text passages, and the token-stack walk over JSON trees (sections 3 to 7 of RFC 8259) |
| `Shell`, `EscapedReference`, `Schedule`, `ScheduleLog`, `Redact` | the binder and its quote scanner, an accepted line it does not preserve, the scheduler, what its events tell, the redactor |

Code that changes state is a class, and each of its methods is proved equal to a function of the old
state; the theorems are about that function. A method that makes several remote calls or several
transactions takes what everyone else does in between as a parameter, so its contract holds for every
interleaving. A deadline is that parameter running out.

## What was found

- **The hold.** `Config.Check` admits durations under which two runs of one playbook overlap, and the
  defaults are such: the last attempt begins at the stop deadline and may take `RenewBound` (4 s),
  which the margin floor (2 s) does not cover. `HoldTheorems.ApartExactlyWhenFits` gives the exact
  condition, `renewBound + 3 * late <= MARGIN_FLOOR` and
  `decisionBound + stopBound + 2 * late <= claimExpiry`; the second matters because `Check` does not
  bound the decision. `SurvivesExactly` gives when a hold whose renewals succeed outlives its run.
- **Held and full.** With the claim held and every slot full, etcd names the limit where the
  in-memory backend names the holder: `FakeTheorems.AnswersAgree`, both directions.
- **The file lock** is not all or nothing, and `FileLock.RefusedPastExactly` says exactly when, from the
  moment a scheduled attempt holds the lock, whatever others do: it ends refused with its occurrence
  spent if and only if the occurrence was unspent, the store does not fail at the tick's turn, and the
  request has a limit whose window is full (`CountSince(starts, wall - per) >= runs`) or meets the store
  failing. `OthersKeepOff` is why those readings stand: the lock keeps others off the name's tick and
  starts. `RefusedButSpent` says it by the answer, and that nothing later runs the occurrence.
  `FailedButSpent` and `LimitedButSpent` are runs that get there; `DeadButSpent` is the same of a
  process that dies.
- **The ledger.** The guard records a refusal without naming the delivery, whether it refuses at once
  (`runtime/internal/guard/guard.go:183-204`) or ends a wait (`runtime/internal/guard/wait.go:277-293`).
  So when a process dies between that row and the hand-off's column, reconciling drops the hand-off,
  and a retry, however much later and whatever others did, is handed to the playbook again exactly if
  the row did not name the delivery: `LedgerCrashes.RetryAfterCrash`, and `HandedAgain` for a run from the empty store. Decisions are
  still at most one along a chain, and so are runs.
- **The waiting slot.** In `Reconcile` the branch for a waiting row that already names a run is never
  taken: `LedgerWaits.StillWaitingHasNoRun`.
- **The re-read.** That equal stamps mean equal content is not enough for the file read to be the file
  in force: an edit undone between two stamps is admitted (`WaitLoop.UndoneEditAdmitted`). It is
  enough that stamps never return (`WaitLoop.ReturnlessSettles`).
- **Binding.** A reference whose own dollar sign is escaped is accepted, and the quoting of the text
  after it changes: `Shell.PreservedExactly` says it happens exactly then, and
  `EscapedReference.IsAccepted` gives a line and what it becomes.
- **Redaction** hides every secret as long as none can be laid across a placeholder or inside it
  (`Redact.AllHidden`); without brackets in any secret, exactly as long as none is spelt inside it
  (`Redact.HiddenExactly`). `Redact.PutTogether` is a bracketed secret that hiding another one spells.
- **The scheduler's** walk ends exactly if the expression occurs again after the tick
  (`Schedule.WalkEndsExactly`): for one that does not, the source loops at
  `runtime/internal/schedule/schedule.go:156`, since no next occurrence is answered with the zero time.
  `Schedule.NeverAgain` is one: an expression for 30 February.
- **Reports.** An empty string leaf makes an empty passage (`Reports.EmptyLeaf`). `Packing.TidyExactly`
  says exactly which passages are empty or have white space at an end; a report whose values are all
  tidy is cut as a text is.

## Assumptions

- Hashes are taken as their preimages, so distinct contents have distinct digests; digests have one
  length and no NUL, and sources have no NUL.
- Clocks run at one rate, timers fire at most `late` after they are due, and a renewal returns by its
  bound plus `late`.
- A run is admitted within `decisionBound + late` of the instant its claim was asked for. `Guard.Admit`
  bounds the acquisition; what comes between its answer and the start of the hold is taken to fit too.
- A rate slot's lease is granted for at least the window asked for, since a server rounds up.
- A call to the record store that fails has written nothing.
- Up to a report's end or its first fault, the decoder hands over the first tokens of some JSON values
  one after another, strings and numbers in valid UTF-8.
- A process found dead takes no further step. Run, delivery and wait identifiers are never reused.
- The dispatcher records the run, the refusal or the wait before a playbook does anything.
- `Next(t)` is the least occurrence after `t`, or the zero time, before every other, when there is none.
  Playbook names are distinct.

## Model

| member | source | states |
|---|---|---|
| ClaimsSafety.StepKeeps | runtime/internal/guard/etcd/etcd.go:108-153 | Every step of every interleaving (grants, reads, transactions, lost replies and late commits, renewals, fences, releases, lapses, time) keeps the claim invariant. |
| ClaimTheorems.TokensIncrease | runtime/internal/guard/etcd/etcd.go:308-334 | In every reachable world tokens of successive commits strictly increase, and no commit of a name is newer than its live claim. |
| ClaimTheorems.FenceExactly | runtime/internal/guard/etcd/etcd.go:429-442 | A held claim's fence passes if and only if its name still has a claim and no later commit took the name. |
| ClaimTheorems.OneFenceAtATime | runtime/internal/guard/etcd/etcd.go:429-442 | Of all attempts that believe they hold one name, at most one can pass a fence. |
| ClaimTheorems.SupersededForGood | runtime/internal/guard/etcd/etcd.go:413-454 | Once superseded, in every continuation a holder never fences again, and its release removes no claim and no slot. |
| ClaimTheorems.EffectsBeforeSuccessor | runtime/internal/sink/sink.go:114-138 | After a later grant the older run begins at most one more stage or sink, one whose fence had passed before that grant. |
| ClaimTheorems.RefusalJustified | runtime/internal/guard/etcd/etcd.go:256-351 | A held, tick-ran or rate-limited answer was true of one store between call and answer, and its attempt never commits. |
| ClaimTheorems.RefusalChangesNothing | runtime/internal/guard/etcd/etcd.go:141-151 | Giving back what a refused attempt was granted changes no claim, no tick and no slot. |
| ClaimTheorems.GrantJustified | runtime/internal/guard/etcd/etcd.go:303-334 | A claim answered as taken took claim, tick and slot together between two adjacent stores of the call. |
| ClaimTheorems.TicksIncrease | runtime/internal/guard/etcd/etcd.go:291-318 | Committed scheduled ticks of a name increase strictly in due instant across hosts, so one occurrence takes the claim at most once. |
| ClaimTheorems.ManualLeavesTicks | runtime/internal/guard/etcd/etcd.go:236-241 | No step of a manual attempt moves a tick, and every one is the step it would be over any other record of ticks. |
| ClaimTheorems.WindowHolds | runtime/internal/guard/etcd/etcd.go:131-139 | Any `Runs + 1` answered rated claims span at least the window, less one claim's delay from the grant of its slot's lease to its commit. |
| ClaimTheorems.SlotsBounded | runtime/internal/guard/etcd/etcd.go:297-318 | Under a fixed limit, live slots of a name never exceed `Runs`. |
| ClaimTheorems.ReleaseFreesNoSlot | runtime/internal/guard/etcd/etcd.go:446-454 | Neither releasing a claim nor its lease lapsing frees any slot. |
| EtcdStore.FirstFree | runtime/internal/guard/etcd/etcd.go:245-252 | The lowest-numbered free slot, or none when every slot is taken. |
| EtcdStore.DecideBears | runtime/internal/guard/etcd/etcd.go:280-301 | Every refusal decided from a read, or from what a lost transaction read back, is true of that store. |
| EtcdAnswers.DecideExactly | runtime/internal/guard/etcd/etcd.go:286-301 | A read lets the attempt go on if and only if its occurrence has not run and its limit has a slot free, the lowest of which it goes by. |
| EtcdAnswers.RoundDecides | runtime/internal/guard/etcd/etcd.go:282-350 | What a round answers is what the claims, ticks, slots and leases its two calls find, and whether they fail, decide. |
| EtcdAnswers.AnswerEnds | runtime/internal/guard/etcd/etcd.go:278-350 | A call's answer is its first round's that lost no race, or unavailable when its time runs out. |
| EtcdAnswers.UnavailableExactly | runtime/internal/guard/etcd/etcd.go:278-350 | The rounds answer unavailable if and only if time ran out on lost races, or the first round not lost had a call fail or a lease gone at its transaction. |
| EtcdAnswers.MustTake | runtime/internal/guard/etcd/etcd.go:303-334 | The first round not lost takes the claim when nobody has it, its calls succeed, nothing it went by moved and its leases stand. |
| EtcdAdapter.DecideFromState | runtime/internal/guard/etcd/etcd.go:193-232 | The adapter's branches over what it parsed decide what the protocol decides at the store read. |
| EtcdAdapter.FreeSlot | runtime/internal/guard/etcd/etcd.go:245-252 | The loop over the slots finds the lowest-numbered free one. |
| EtcdAdapter.Coordinator.Acquire | runtime/internal/guard/etcd/etcd.go:108-153 | The call is a run of the protocol whatever others do between its requests and whichever fail; its answer is its attempt's phase, its token the commit's, its expiry at least the one asked. Malformed exactly for a malformed request; unavailable when a lease cannot be had; otherwise what its rounds answer. Refused, each lease is gone whose revocation reached the server. |
| EtcdAdapter.Coordinator.Lend | runtime/internal/guard/etcd/etcd.go:116-139 | A short grant, or a grant that fails, ends unavailable with the lease given back when the server is reached; otherwise, and exactly then, the attempt decides on a grant no shorter than asked. |
| EtcdAdapter.Coordinator.Take | runtime/internal/guard/etcd/etcd.go:256-351 | The read, decide and transact loop answers exactly what its attempt came to, which is the answer of its rounds over the stores they find. |
| EtcdCalm.CalmTakes | runtime/internal/guard/etcd/etcd.go:108-153 | A well-formed call granted long enough leases, none of its calls failing, over a free name whose occurrence has not run and whose limit has room, takes the claim whenever the others leave the name and its leases alone. |
| ClaimEndings.EndsFree | runtime/internal/guard/etcd/etcd.go:446-454 | A claim that stands is gone once released, and once its lease has run out and lapsed. |
| ClaimEndings.RenewProlongs | runtime/internal/guard/etcd/etcd.go:413-421 | A renewal gives a standing lease its whole term again and moves no key. |
| Renewal.DecidesInTime | runtime/internal/guard/holder.go:75-112 | However late timers fire and whatever comes back, the loop decides within `renewBound` and two latenesses of the deadline of what it last proved, or where it started. |
| Renewal.StopsExactly | runtime/internal/guard/holder.go:75-112 | The loop decides to stop exactly at the first head at or past the deadline of what it last proved, or as the first lost answer comes back; a failed renewal stops nothing. |
| Renewal.Hold.Renew | runtime/internal/guard/holder.go:75-112 | The loop takes exactly the specified turns, and calls stop once if it stops and not at all otherwise. |
| Renewal.Hold.DecideToStop | runtime/internal/guard/holder.go:140-149 | The stop decision is made once; a second call changes neither the instant nor the count. |
| HoldTheorems.TurnIsSteps | runtime/internal/guard/holder.go:83-112 | Any turn the loop can take is a run of steps of the timed world that leaves the tenure where the loop stands, so what holds there holds of the loop. |
| HoldTheorems.TurnsAreSteps | runtime/internal/guard/holder.go:83-112 | Any number of turns of the loop, each one the timed world can take, is a run of that world that leaves the tenure where the loop ends. |
| HoldWorld.ReachableInv | runtime/internal/guard/holder.go:75-162 | In every interleaving of tenures, backend and clock, no loop is past its limit, and of two holders one began only after the other's proof ran out. |
| HoldTheorems.OverInTime | runtime/internal/guard/holder.go:75-162 | A live run is never later than `sent + granted + RenewBound - MarginFloor` plus three latenesses, or, admitted late, one stop bound past its decision bound. |
| HoldTheorems.NoOverlap | runtime/internal/guard/holder.go:174-176 | When the durations fit, two runs of one name are never both going, in any interleaving. |
| HoldTheorems.ApartExactlyWhenFits | runtime/internal/guard/config.go:201-223 | For every accepted configuration and lateness, runs never overlap if and only if the durations fit. |
| HoldTheorems.DefaultsOverlap | runtime/internal/guard/config.go:50-58 | The default durations pass the check and still let two runs overlap with timers never late. |
| HoldTheorems.SurvivesExactly | runtime/internal/guard/config.go:201-223 | Every hold admitted after a given delay, its renewals succeeding within their bound, keeps lease and claim and never decides to stop, if and only if delay, lateness and bound fit inside the expiry. |
| Composition.HalvesReachable | runtime/internal/guard/guard.go:108-127 | Every run of the protocol and the runs' loops over one clock is a run of each half, and the two agree on every phase, lease and claim. |
| Composition.FenceIsHeld | runtime/internal/guard/etcd/etcd.go:429-442 | An attempt's fence passes if and only if its tenure holds the claim. |
| Composition.LiveRunFences | runtime/internal/guard/holder.go:125-136 | A live run was answered as holding its claim, and its fence passes if and only if the backend still has its lease. |
| Composition.NeverOverlaps | runtime/internal/guard/etcd/etcd.go:108-153 | When the durations fit, runs never overlap over any interleaving of the protocol, late commits and lost replies included. |
| Composition.AtMostOneFences | runtime/internal/guard/etcd/etcd.go:429-442 | Whatever the durations, of two live runs one has lost its lease, and the one under the earlier commit fails its fence. |
| CompositionWitness.FirstRunLives | runtime/internal/guard/guard.go:108-127 | For every accepted configuration, a call on a name nobody has reaches a world where its run lives and its fence passes. |
| Fake.Backend.LiveLocked | runtime/internal/guard/guardtest/fake.go:83-94 | Looking at a claim deletes it if it has lapsed, and returns it exactly when it stands. |
| Fake.Backend.PruneSlots | runtime/internal/guard/guardtest/fake.go:98-106 | The loop keeps exactly the expiries still to come, in order. |
| Fake.Backend.RateFull | runtime/internal/guard/guardtest/fake.go:109-112 | True exactly when the unexpired slots reach the limit. |
| Fake.Backend.ReadSection | runtime/internal/guard/guardtest/fake.go:246-257 | The first hold of the lock moves the whole backend as the specified read does. |
| Fake.Backend.CommitSection | runtime/internal/guard/guardtest/fake.go:272-300 | The second takes claim, slot and tick together, or decides again when what was read has moved. |
| Fake.Backend.RenewClaim | runtime/internal/guard/guardtest/fake.go:359-372 | Prolongs exactly the handle's own standing claim, and says lost exactly when there is none. |
| Fake.Backend.FenceClaim | runtime/internal/guard/guardtest/fake.go:374-385 | Lost exactly when the claim that stands is not the handle's; nothing else moves. |
| Fake.Backend.ReleaseClaim | runtime/internal/guard/guardtest/fake.go:387-399 | Deletes the claim only if it is the handle's own. |
| Fake.Backend.ExpireClaim | runtime/internal/guard/guardtest/fake.go:70-79 | Ends the claim of that token where it is, and moves nothing else. |
| Fake.Backend.Acquire | runtime/internal/guard/guardtest/fake.go:226-302 | A run of the specified steps whatever others do between lock holds; the answer is the attempt's own phase and token, and that of its first round to have one: the read's refusal, the taking, or the deadline. |
| FakeTheorems.TokensIncrease | runtime/internal/guard/guardtest/fake.go:270-300 | Tokens are ordered exactly as the takings were. |
| FakeTheorems.FenceExactly | runtime/internal/guard/guardtest/fake.go:351-385 | A handle's fence passes if and only if its taking is the newest of its name and a claim on that name stands. |
| FakeTheorems.OneFenceAtATime | runtime/internal/guard/guardtest/fake.go:351-385 | Of the handles on one name, at most one can pass a fence. |
| FakeTheorems.SupersededForGood | runtime/internal/guard/guardtest/fake.go:359-399 | After a later taking, in every continuation a handle fails its fence, prolongs nothing and ends nobody's claim. |
| FakeTheorems.TicksIncrease | runtime/internal/guard/guardtest/fake.go:245-300 | Scheduled takings of a name increase strictly in due instant. |
| FakeTheorems.ManualLeavesTicks | runtime/internal/guard/guardtest/fake.go:245-300 | A manual attempt moves no tick, and from backends that differ only in their ticks it goes on alike. |
| FakeTheorems.RefusalChangesNothing | runtime/internal/guard/guardtest/fake.go:246-257 | A refusal leaves every standing claim, every tick and every live slot. |
| FakeTheorems.SlotsBounded | runtime/internal/guard/guardtest/fake.go:98-119 | Under a fixed limit, slots kept never exceed `Runs`. |
| FakeTheorems.SlotsOutliveClaims | runtime/internal/guard/guardtest/fake.go:387-399 | No step frees a slot before its own expiry, release and early expiry included. |
| FakeTheorems.WindowHolds | runtime/internal/guard/guardtest/fake.go:272-294 | Any `Runs + 1` rated takings of a name span at least `Per`. |
| FakeTheorems.EtcdTakes | runtime/internal/guard/etcd/etcd.go:280-334 | When nothing refuses at a store, the adapter's transaction decided there commits there. |
| FakeTheorems.AnswersAgree | runtime/internal/guard/guardtest/fake.go:246-253 | Over the same holdings the two backends answer alike unless, and only unless, the name is held, its slots are full and its tick has not run. |
| FileLock.OneHolder | runtime/internal/run/filelock.go:55-79 | In every interleaving of processes at most one attempt on a name is inside the lock. |
| FileLock.ReleaseFreesOwn | runtime/internal/run/filelock.go:198-203 | A release repeated, or of a claim since replaced, leaves the present holder's lock. |
| FileLock.OccurrencePassesOnce | runtime/internal/run/filelock.go:117-134 | A scheduled attempt passes its tick exactly if its occurrence is unspent, and the occurrence is spent ever after. |
| FileLock.RateRefusalSpends | runtime/internal/run/filelock.go:68-77 | A scheduled attempt refused by its limit, or by the store at its rate's turn, has spent its occurrence in every continuation. |
| FileLock.RefusedButSpent | runtime/internal/run/filelock.go:68-77 | In every run a refused scheduled attempt has written to the store if and only if its limit refused it or the store failed at its rate's turn, and its occurrence is then spent in every continuation. |
| FileLock.OthersKeepOff | runtime/internal/run/filelock.go:117-157 | While an attempt is in the lock, no steps of the others move it, its name's tick or its name's starts. |
| FileLock.TurnsEnd | runtime/internal/run/filelock.go:68-77 | A scheduled attempt's two turns, others before each and the store failing at either, end it as the tick and the starts it found on taking the lock decide. |
| FileLock.RefusedPastExactly | runtime/internal/run/filelock.go:68-77 | From taking the lock a scheduled attempt ends refused with its occurrence spent by itself if and only if the occurrence is unspent, the tick's store call succeeds, and its limit's window is full or the store fails at the rate's turn. |
| FileLock.CountExactly | runtime/internal/record/rate.go:8-16 | The count is the number of indices whose starts lie at or after the instant. |
| FileLock.LimitedExactly | runtime/internal/run/filelock.go:141-157 | At the rate's turn a request is refused by its limit if and only if at least `Runs` recorded starts lie at or after its window's beginning; otherwise its start is recorded. |
| FileLock.DeadButSpent | runtime/internal/run/filelock.go:117-134 | A process that dies at any point has written to the store if and only if it died past its tick's turn, and dying moves no tick. |
| FileLock.WrittenExactly | runtime/internal/run/filelock.go:117-157 | Over any run, a scheduled attempt moved the ticks or the starts if and only if it came past its tick's turn. |
| FileLock.FailedButSpent | runtime/internal/run/filelock.go:141-157 | A run from nothing in which the store fails at the rate's turn and the refused occurrence is spent. |
| FileLock.LimitedButSpent | runtime/internal/run/filelock.go:141-157 | A run from nothing in which a run by hand fills the window and the scheduled occurrence is refused and spent. |
| FileLock.RefusalLeaves | runtime/internal/run/filelock.go:68-77 | The refusing step writes no tick and no start and gives back exactly that lock; it comes after the tick's turn if and only if it is the limit's or the store's at the rate's turn, which only a request with a limit can meet. |
| FileLock.WindowHolds | runtime/internal/run/filelock.go:141-157 | Of any `Runs` starts recorded before one, in whatever order walls read, at least one lies outside its window. |
| FileLock.Coordinator.TickOf | runtime/internal/run/filelock.go:117-134 | Reads and moves the tick exactly as specified, and passes exactly when it moved it. |
| FileLock.Coordinator.CountStarts | runtime/internal/record/rate.go:8-16 | Counts the starts at or after an instant: the size of the set of their indices. |
| FileLock.Coordinator.RateOf | runtime/internal/run/filelock.go:141-157 | Records a start exactly when the window has room, and refuses otherwise. |
| FileLock.Coordinator.Acquire | runtime/internal/run/filelock.go:55-79 | Lock, tick and rate as a run of the specified steps, others between each and the store failing at any; taken exactly when the lock is held at the end, and a scheduled call is refused having written exactly if the tick, the starts and the failing calls on taking the lock meet the same guard. From the world it asks for the lock in: taken if and only if nobody has the lock, nothing it needs fails, the occurrence is unspent and the window has room; and its refusal otherwise. |
| Ledger.Store.AcceptWaiting | runtime/internal/record/waiting.go:62-113 | Inserts a waiting row exactly when none is live, and otherwise names the live one. |
| Ledger.Store.End | runtime/internal/record/waiting.go:128-158 | Ends a wait and records its refusal together, exactly when the wait had not ended. |
| Ledger.Store.AddRun | runtime/internal/record/runs.go:13-60 | Records the run and ends its wait together, or neither when the wait has ended. |
| Ledger.Store.Elsewhere | runtime/internal/record/accept.go:360-397 | What a run row, a refusal row other than a drop, or a value refusal decides, in that order. |
| Ledger.Store.Reconcile | runtime/internal/record/accept.go:271-355 | The loop over undecided hand-offs leaves the tables as the specified reconciliation does. |
| Ledger.Store.Chain | runtime/internal/record/accept.go:403-435 | The walk ends, and gathers exactly what any delivery of the chain decided. |
| Ledger.Store.AcceptDelivery | runtime/internal/record/accept.go:63-191 | One transaction: repeat, new delivery, retry, or nothing at all when any insert fails. |
| Ledger.AcceptCases | runtime/internal/record/accept.go:63-191 | An acceptance writes nothing, one repeat, or one delivery that stands alone or supersedes a dropped one and is handed to exactly the playbooks undecided in that chain. |
| LedgerAnswers.AcceptExactly | runtime/internal/record/accept.go:222-249 | A well-formed acceptance is a new delivery superseding none if and only if its identity is unknown or a window old; within the window it supersedes exactly an abandoned delivery, and is a repeat otherwise. |
| LedgerAnswers.FailsExactly | runtime/internal/record/accept.go:63-191 | An acceptance fails, leaving every table, if and only if it has no instant or would hand its delivery to one playbook twice. |
| Ledger.FinishDelivery | runtime/internal/ingress/handoff.go:129-152 | The loop's state sums up the hand-offs: unbound if none, dropped if any is, waiting if any is undecided, handed off otherwise. |
| Ledger.SummaryIsOne | runtime/internal/ingress/handoff.go:129-152 | Exactly one delivery state sums up any hand-offs. |
| LedgerWaits.OneSlot | runtime/internal/record/waiting.go:87-113 | At most one row of a playbook is waiting, whoever raced. |
| LedgerWaits.OneEnding | runtime/internal/record/runs.go:39-58 | A wait is over if and only if exactly one run or exactly one refusal names it, never both. |
| LedgerWaits.EndedForGood | runtime/internal/record/waiting.go:128-158 | An ended wait keeps its row in every continuation. |
| LedgerWaits.StillWaitingHasNoRun | runtime/internal/guard/instance.go:122-162 | No run names a wait that is still waiting. |
| LedgerChains.ReconcileSettles | runtime/internal/record/accept.go:271-355 | Reconciling decides every undecided hand-off by its durable record or drops it, and drops the delivery exactly when some hand-off had none. |
| LedgerChains.ChainFrozen | runtime/internal/record/accept.go:403-435 | What a dropped delivery's chain decided never changes. |
| LedgerChains.StepKeeps | runtime/internal/record/accept.go:222-249 | Every step of every process, crashes included, keeps the chain invariant. |
| LedgerTheorems.OneRunEach | runtime/internal/ingress/handoff.go:54-123 | A delivery's playbook has at most one run, through waits and crashes. |
| LedgerRuns.HandedOffHasRun | runtime/internal/ingress/handoff.go:107-119 | In every reachable world a hand-off recorded as handed off has a run that names it. |
| LedgerRuns.WaiterRunsOnce | runtime/internal/record/runs.go:39-58 | A trigger waiting in a living process always gets to record its run, under its own hand-off, and its wait ends with it. |
| LedgerRuns.WaiterRefusedOnce | runtime/internal/record/waiting.go:128-158 | So does its refusal. |
| LedgerTheorems.ChainOnce | runtime/internal/record/accept.go:125-138 | What a delivery is handed to, no delivery it supersedes decided, by column, run, refusal or value refusal. |
| LedgerTheorems.OneDecision | runtime/internal/record/accept.go:403-435 | Along any chain a playbook has at most one decided hand-off. |
| LedgerTheorems.OneRun | runtime/internal/record/accept.go:360-435 | Along any chain a playbook has at most one run. |
| LedgerTheorems.RetryHandedTo | runtime/internal/record/accept.go:125-138 | A retry is handed to exactly the bound playbooks no delivery of its chain decided. |
| LedgerCrashes.CrashBeforeColumn | runtime/internal/record/accept.go:360-397 | In every reachable world, after a crash between the guard's refusal and the column, reconciling decides the hand-off if the row names the delivery and drops it otherwise. |
| LedgerCrashes.RetryAfterCrash | runtime/internal/record/accept.go:125-138 | Whatever others do between the refusal, the process's death and the retry, the retry is handed to the playbook again if and only if the row did not name the delivery. |
| LedgerCrashes.HandedAgain | runtime/internal/guard/guard.go:183-204 | A run from the empty store: offered, read, refused without a name, killed, offered again, and handed to the same playbook again. |
| LedgerCrashes.AtIsFresh | runtime/internal/ingress/handoff.go:79-107 | In every reachable world, a playbook a living hand-off is at is still pending, named by no record, and its delivery is open. |
| LedgerTheorems.FinishSumsUp | runtime/internal/ingress/handoff.go:129-152 | A living hand-off that finishes leaves a state that sums up its rows as stored, none of them dropped. |
| LedgerTally.AcceptancesAddUp | runtime/internal/record/accept.go:96-190 | Per identity, successful acceptances equal deliveries plus the sum of their repeats. |
| LedgerTally.DeliveriesFollow | runtime/internal/record/accept.go:222-249 | A later delivery supersedes its immediate, dropped predecessor or came at least its replay window after it; a first one supersedes none. |
| LedgerProcesses.Process.HandOff | runtime/internal/ingress/handoff.go:54-123 | A hand-off that finishes leaves none of its loaded playbooks pending and the delivery summed up, no call of its own having failed; one that does not was killed, or met a store's error and leaves the delivery open. |
| LedgerProcesses.Process.Reconcile | runtime/internal/guard/instance.go:122-162 | Racing anyone, it leaves no wait of a process it found gone waiting, undoes no ending, and counts exactly the waits it dropped. |
| WaitLoop.WaitingTrigger.RereadBook | runtime/internal/guard/wait.go:216-238 | Reads the file exactly when the stamp may have changed, and remembers what was read with the stamp before it. |
| WaitLoop.WaitingTrigger.TryOnce | runtime/internal/guard/wait.go:145-192 | One round, with every reading of the clock and every claim noted as specified. |
| WaitLoop.WaitingTrigger.AwaitClaim | runtime/internal/guard/wait.go:117-141 | The rounds in order until one admits, ends the wait or the process stops. |
| WaitEndings.TryDecides | runtime/internal/guard/wait.go:145-245 | A round's result is exactly what its instants, the directory at them and its answers decide, whether it expires, ends as changed or errored, stops, is admitted or goes round. |
| WaitEndings.WaitEnds | runtime/internal/guard/wait.go:117-141 | A wait ends as its first round that does not go round decides, and only in a process that is not stopping; with none, or in one that is, the row is left. |
| WaitEndings.ExpiresExactly | runtime/internal/guard/wait.go:145-152 | An ended wait ended as expired if and only if the last thing it did was read a clock that had run out. |
| WaitLoop.AdmitsCurrentExactly | runtime/internal/guard/wait.go:145-245 | Every admission carries the directory's content at an instant its claim was already held, if and only if nothing else stands between two equal stamps. |
| WaitLoop.SettledAdmits | runtime/internal/guard/wait.go:145-245 | Over such a directory, the admitted playbook is what loads at the final check, after the claim was taken. |
| WaitLoop.ReturnlessSettles | runtime/internal/guard/stamp.go:26-52 | Stamps that never return and tell contents apart are enough. |
| WaitLoop.UndoneEditAdmitted | runtime/internal/guard/stamp.go:26-52 | An edit undone before the check is admitted, though equal stamps tell equal contents. |
| WaitLoop.ClaimsBalance | runtime/internal/guard/wait.go:249-256 | Claims taken less claims given back is one for an admission and none otherwise. |
| WaitLoop.NoneAskedAfterExpiry | runtime/internal/guard/wait.go:145-192 | No claim is asked for after a reading that found the expiry passed. |
| Generations.GenerationId | runtime/internal/index/index.go:94-102 | The loop writes the specified encoding of the sorted pairs. |
| Generations.SortedIsOne | runtime/internal/index/index.go:94-102 | Two sorted lists of the same documents are equal, so the encoding does not depend on order. |
| Generations.BodyParses | runtime/internal/index/index.go:94-102 | The encoding of pairs is injective for sources without NUL and digests of one length. |
| Generations.SameIdSameDocuments | runtime/internal/index/index.go:86-102 | Two generations have one identifier if and only if they have one identity and the same documents. |
| Index.DifferenceOf | runtime/internal/index/index.go:641-669 | The two passes compute the specified removals and additions. |
| Index.Database.Apply | runtime/internal/index/index.go:675-709 | Deletes, then inserts, stopping at a file that changed or a source already there. |
| Index.Database.CommitChange | runtime/internal/index/index.go:716-769 | Commits change and generation together, or leaves every table as it was. |
| IndexWorld.ApplyExact | runtime/internal/index/index.go:641-709 | A difference applied to the tables it was read from makes documents and passages exactly the walk's. |
| IndexWorld.SameIdSameIndex | runtime/internal/index/index.go:716-769 | An index found with the identifier read holds the documents read, wherever it has been since. |
| IndexWorld.CommitExact | runtime/internal/index/index.go:716-769 | A commit moves the index to exactly its own walk or moves nothing. |
| IndexTheorems.EqualsRebuild | runtime/internal/index/index.go:575-709 | In every reachable index, documents and passages equal what a rebuild from its own documents would hold, over any tables. |
| IndexTheorems.IdentifierTells | runtime/internal/index/index.go:716-769 | Under many writers the identifier is unchanged if and only if generation and documents are those read. |
| IndexTheorems.CommitLands | runtime/internal/index/index.go:575-630 | A writer's commit step leaves the index exactly at its walk, or leaves it as it was. |
| IndexEndings.WriteEnds | runtime/internal/index/index.go:604-630 | After a write the update reads again if and only if the stored identifier moved; if not, it is done exactly when every document it adds is there as walked, walks again exactly when the first that is not has changed, and fails exactly when that one cannot be read. |
| IndexTheorems.NeverDuplicates | runtime/internal/index/index.go:675-709 | No interleaving makes a commit insert a source already there. |
| IndexTheorems.Compare | runtime/internal/index/index.go:508-544 | Every document of the walk is marked by what is held under this identity, the added and the modified are counted, and the removed are exactly those specified. |
| IndexTheorems.ChangedExactly | runtime/internal/index/index.go:508-544 | A comparison says changed if and only if nothing was indexed, the identity differs, a mark is not unchanged, or something is removed. |
| IndexUpdates.Update.BringUpToDate | runtime/internal/index/index.go:575-630 | With others writing in between, an update that returns an identifier landed it; without a deadline it walks again fewer than `maxRewalks` times. One that returns none has written once a round in vain, and is out of rounds, met an unreadable file, or met `maxRewalks` changed ones. |
| IndexUpdates.QuietFinishes | runtime/internal/index/index.go:597-630 | A round with no write between its read and its own, finding every file it adds as walked, is the update's last. |
| Utf8.CharAt | runtime/internal/index/passage.go:248-256 | In valid text a character begins at every byte that can start one and nowhere inside another. |
| Utf8.EndsAt | runtime/internal/index/passage.go:225-245 | Decoding backwards from a boundary finds the whole character that ends there. |
| Passages.LastWhitespaceRun | runtime/internal/index/passage.go:225-245 | Where the last run of white space in the window begins, with none after it, though the window may end inside a character. |
| Passages.Boundary | runtime/internal/index/passage.go:248-256 | The largest cut within a limit that splits no character, at most three bytes below it. |
| Passages.CutAt | runtime/internal/index/passage.go:206-221 | Each window is cut past its start, within the cap, on a boundary, at its last white space when it has one, dropping only white space. |
| Passages.Cut | runtime/internal/index/passage.go:206-221 | Cutting ends; its pieces follow one another, fit the cap, keep whole characters, and leave only white space. |
| Passages.NowhereToCut | runtime/internal/index/passage.go:248-256 | A run of continuation bytes has no place to cut: progress needs valid UTF-8. |
| Packing.IsHeading | runtime/internal/index/passage.go:30-33 | A heading line is recognised exactly. |
| Packing.Blocks | runtime/internal/index/passage.go:169-202 | Blocks hold all of the text but white space, split exactly at blank lines and before headings. |
| Packing.Pack | runtime/internal/index/passage.go:54-81 | Pieces fill passages in order while they fit, and a heading opens a new one. |
| Packing.TextPassages | runtime/internal/index/passage.go:45-81 | For valid UTF-8: numbered from 1, in order, disjoint, 1 to 1024 bytes, the text at its offset, on boundaries, no white space at either end, and only white space uncovered. |
| Packing.TidyExactly | runtime/internal/index/passage.go:54-81 | Whatever the blocks hold, a passage is empty or has white space at an end if and only if a block's own empty text or edge shows there, or it ends inside the white space a long block starts with. |
| Packing.PackedCuts | runtime/internal/index/passage.go:54-81 | Any packing of blocks that cover the text has those properties. |
| Reports.RunValue | runtime/internal/index/passage.go:107-160 | The token-stack walk over a value's tokens adds exactly what the recursive walk of its tree adds, at any stack. |
| Reports.WalkEmits | runtime/internal/index/passage.go:93-164 | For any JSON values one after another the walk emits exactly their string and number leaves in order, never a key, each span selecting its own literal. |
| Reports.KeysTaken | runtime/internal/index/passage.go:107-160 | At every token of a value the walk takes for an object's key exactly what is one. |
| Reports.PartEmits | runtime/internal/index/passage.go:125-163 | However far the tokens are read, what is emitted is exactly the values of the leaves read, each span its own literal. |
| Reports.FlagExactly | runtime/internal/index/passage.go:107-160 | A leaf's heading flag is set if and only if an object was opened as an array element since the leaf before it, across values too. |
| Reports.RunLays | runtime/internal/index/passage.go:93-164 | Whatever the tokens, the joined text is valid and its spans follow one another. |
| Reports.WalkTokens | runtime/internal/index/passage.go:107-160 | The loop over tokens builds the text and spans of the specified machine. |
| Reports.ReportPassages | runtime/internal/index/passage.go:93-164 | A report's passages, whole or cut short by a fault, are a packing of one block per value read; which of them are untidy is said exactly, and when every value is tidy they have all the properties of a text's. |
| Reports.EmptyLeaf | runtime/internal/index/passage.go:93-164 | A report that is one empty string has one passage, and it is empty. |
| Shell.ScansPosix | runtime/internal/config/shell.go:140-159 | The scanner's toggles are the quoting states of section 2.2 of the POSIX Shell Command Language at every byte. |
| Shell.Quoted | runtime/internal/config/shell.go:140-159 | True exactly when the byte at the offset is inside quotes. |
| Shell.FindReferences | runtime/internal/config/interpolate.go:13 | The references, leftmost first and not overlapping. |
| Shell.CountUnterminated | runtime/internal/config/interpolate.go:109-135 | Reports a problem exactly when an opening follows every reference. |
| Shell.BindShell | runtime/internal/config/shell.go:39-105 | The walk by offset computes the specified binding, every problem included. |
| Shell.PreservedExactly | runtime/internal/config/shell.go:39-105 | An accepted line's own bytes keep their quoting state if and only if no reference's dollar sign is escaped, and then each expansion has its own double quotes. |
| EscapedReference.IsAccepted | runtime/internal/config/shell.go:54-105 | A line whose one reference follows a backslash is accepted, what it becomes, and that its own text is no longer quoted as it was. |
| Shell.EnvironmentExact | runtime/internal/config/shell.go:54-105 | The environment maps each variable to its one name's value, holds no other, and no two names share one. |
| Shell.AcceptsExactly | runtime/internal/config/shell.go:39-105 | A line is accepted if and only if no opening dangles, every reference stands outside quotes under a name that stands for something, and no two names share a variable. |
| Shell.ResolvesExactly | runtime/internal/config/shell.go:107-133 | `config.k` stands for the configuration's `k`, `trigger.k` for the trigger's, and no other name for anything. |
| Schedule.OccurrencesExact | runtime/internal/schedule/schedule.go:145-165 | Stepping by `Next` visits exactly the occurrences of an interval. |
| Schedule.WalkEndsExactly | runtime/internal/schedule/schedule.go:156 | The walk of a tick reaches an instant after now if and only if the expression occurs again after now. |
| Schedule.NeverAgain | runtime/internal/schedule/schedule.go:156 | Of an expression for a day there never is, every instant the walk looks at is at or before now. |
| Schedule.AccountOf | runtime/internal/schedule/schedule.go:145-192 | What a tick found is, in order, what it records missed, counts past the limit, and fires last. |
| Schedule.EveryOccurrenceOnce | runtime/internal/schedule/schedule.go:145-192 | Over any ticks, in whatever order, every occurrence after arming up to the latest is accounted for exactly once. |
| Schedule.FiresRise | runtime/internal/schedule/schedule.go:145-192 | The instants fired for a playbook strictly increase. |
| ScheduleLog.LogTellsAll | runtime/internal/schedule/schedule.go:128-192 | Over any history of ticks, the events of a playbook tell every occurrence after its arming up to the latest tick once and in order, as missed, counted or fired, and fire exactly those fired. |
| Schedule.Scheduler.Due | runtime/internal/schedule/schedule.go:145-165 | For an expression that occurs again, the loop ends having kept the first occurrences and the last, and counted the rest. |
| Schedule.Scheduler.TickOne | runtime/internal/schedule/schedule.go:145-192 | One entry's tick moves that entry and tells exactly its events. |
| Schedule.Scheduler.Names | runtime/internal/schedule/schedule.go:95-104 | The armed playbooks, each once, in order. |
| Schedule.Scheduler.Tick | runtime/internal/schedule/schedule.go:128-143 | Every armed playbook is ticked once, and the events are theirs alone, playbook after playbook in order of name. |
| Schedule.Scheduler.Add | runtime/internal/schedule/schedule.go:88-92 | Arms one playbook from an instant and leaves the rest. |
| Redact.Redactor.constructor | runtime/internal/record/redact.go:29-42 | Keeps exactly the secrets that are not empty, the longest first. |
| Redact.Redactor.Redact | runtime/internal/record/redact.go:44-53 | The loop applies the replacements one after another. |
| Redact.StretchesStay | runtime/internal/record/redact.go:44-53 | Replacing leaves the text's own stretches between occurrences, taken from the left, as they are, with placeholders between. |
| Redact.AllHidden | runtime/internal/record/redact.go:29-53 | For every text, no secret that overlaps no placeholder occurs in the result, whatever the secrets share. |
| Redact.HiddenExactly | runtime/internal/record/redact.go:29-53 | Over secrets without brackets, no text keeps a secret if and only if none is spelt by the placeholder. |
| Redact.PutTogether | runtime/internal/record/redact.go:29-53 | A secret that overlaps a placeholder is left to read where hiding another secret spells it. |
| Redact.ReplacedWhole | runtime/internal/record/redact.go:29-42 | Longest first, a text that is a secret becomes the placeholder alone, though other secrets be parts of it. |

## Left out

- Redact.HiddenExactly: the equivalence is over secrets without brackets; of a bracketed one that overlaps a placeholder only a leak is shown, since a later replacement can hide it again.
- ClaimTheorems.WindowHolds: speaks of claims that were answered; a transaction that commits after its client stopped listening has its slot revoked with it. A slot's lease shorter than its window is assumed away, as the source does.
- FileLock.WindowHolds: counts on the wall readings as they came, since the single host's clock can step back.
- EtcdAdapter.Coordinator.Acquire: context deadlines are the script of calls running out; a revocation tried again after the call is a step of the world's, not of the method's.
- Renewal.Hold.Renew: the loop is given a finite number of turns, and the run ending under it is a step of `HoldWorld`, which the loop's turns refine.
- LedgerProcesses.Process.HandOff: the names loaded are distinct, as the load gate makes them; repeated, a name would be dispatched twice.
- Schedule.Scheduler.Tick: the scheduler's mutex, and callbacks that fail; a tick is one step, over expressions that occur again.
- Schedule.Scheduler.Due: for an expression that does not occur again the source's loop does not end, and the method is not called.
- Composition.NeverOverlaps: every request is well formed and for the one name; other names share no claim with it. A claim is renewed for its run and released after it.
- Shell.ScansPosix: command substitution, here-documents and comments have no quoting state of their own in the scanner and none here.
- Shell.EnvironmentExact: the environment is a map rather than the sorted list it is written as, and upper-casing is ASCII's.
- Files, SQLite and its busy retries, etcd's client, HTTP, signals and process groups: transactions, an exclusive lock and a revisioned store stand for them.
- The rows' descriptive columns (peers, bodies, details, decided-at instants, JSON values) and the index's built-at and byte counts.
- The dispatcher itself, and the reconciliation of deliveries by a command: only the dispatcher's contract is assumed.
- Deleting an instance's lock file and probing the file lock for whether a run is in flight.
- Waiting for a claim to be released, by watch or by poll, which only decides when to ask again.
- Reading a directory's stamp, or loading a playbook, is one instant each.
- Redaction of names inside the ledgers, identifier minting, cron parsing, JSON Schema, full-text ranking.
- The command line, the read-only API, agent processes, sinks' own delivery, the results-file renderer: validation or I/O with little state.
