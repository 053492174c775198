# A model of the uni-api admission system

This project models the parts of uni-api that decide how much work and how much memory a
process takes on, and proves what they promise over every input, every run and every
interleaving.

* **The weighted admission system** (`uni_api/admission/core.py`, `uni_api/admission/memory.py`).
  A request buffers its body under a pending reservation, passes the bytes to a request lease,
  grows response memory under temporaries and direct reservations, and gives everything back when
  its last owner leaves. `Ledger` holds one function per critical section of the controller;
  `Governor`, `FairQueue`, `RequestGate` and `ControlGate` are the parent memory governor, the
  two-lane wait queue and the two request gates. `System` puts ledger, governor and queue together
  as a state machine whose steps are the critical sections, in any order and by any number of
  tasks; `SystemFigures` and `Wakeups` say what its steps do in the figures of configuration,
  owners, counters, waiters and samples alone. The queue, the gates, the governor and the controller are also written as classes
  (`FairQueueObject`, `RequestGate`, `ControlGate`, `Governor`, `Controller`) that update their
  fields in place. Each method is proved to carry out exactly the step of the state machine, error
  branches included, and on a `Valid()` object, one whose state satisfies the invariant of the
  runs, to report no error and to leave a `Valid()` object.
* **The JSON memory estimator** (`uni_api/admission/json_memory.py`). The run-skipping scanner is a
  class with loops (`JsonEstimator`), proved equal to a byte-at-a-time automaton (`JsonScan`);
  `JsonGrammar` writes JSON trees with any whitespace and escapes that RFC 8259 allows (sections 2
  to 7) and proves what the scanner computes on them; `JsonMeaning` says what it computes on any
  bytes at all.
* **Startup sizing** (`uni_api/admission/resources.py`): the binary search and the plan around it
  (`StartupSizing`), with ratios as rationals; `StartupFigures` says what the plan is in the figures
  of its inputs.
* **The session rendezvous** (`uni_api/rust_responses_control.py`), **the retry runner**
  (`upstream.py`) and **the smart key order** (`utils.py`): `ResponsesSession`, `RetryRun`,
  `KeyOrdering`.

Owner objects (leases, reservations, temporaries, deferrals, waiters, log entries) are records
numbered in order of creation. A step names them by number, so a record is never forgotten and
conservation is stated over all of them, live or not. Fields called history in the comments
(grant logs, message streams, outstanding turns) are read by no step.

What the code does that one might not expect is stated as a lemma with a concrete input, next to
the exact condition for all inputs:

* a transfer does not check the retained limit of a request, so the limit is not an invariant
  (`RetainedLimit.RetainedCanBeExceeded`); it holds over a run exactly when every transfer fits
  (`RetainedExactly`);
* a reservation whose release section has run can grow again before its flag is raised, and then
  counts as released while it holds bytes (`PendingResidue.ReleasedButHolding`); it does so exactly
  when a later round or turn of its own is granted some (`ResidueExactly`), and the bytes are lost
  for good unless another release call is still to run (`ResidueForever`, `ResidueMovesExactly`);
* the verdict of the estimator does not depend on chunking, but the phase and the reason reported
  with a rejection do (`JsonScan.PhaseDependsOnChunking`, `JsonPhases.ReasonDependsOnChunking`);
  `JsonPhases` gives the report of every splitting in closed form, when a splitting is rejected in
  the raw-charge phase, and when two splittings report the same (`SplittingReports`,
  `RawPhaseExactly`, `SameReportExactly`);
* a client that answers a plan before taking it can make a later put wait, and nothing else can
  (`ResponsesSession.PutWaitsExactly`);
* a requested total below one is accepted and gives a plan that serves nobody
  (`StartupSizing.TotalOfZeroAccepted`), and this is the only such plan (`PlanServes`). Only a
  direct call of the calculation can ask for it: the environment variable behind it is parsed as
  a positive number (`uni_api/admission/resources.py:843-847`);
* a host with more memory can refuse what a smaller one accepts, because an automatic active count
  takes the room of explicit waiters (`StartupSizing.RoomierRefused`); exactly when they no longer
  stay within the total or no longer fit beside it (`RoomierExactly`);
* a group size of zero always fails, and a negative one works only for a single key
  (`KeyOrdering.OrderedExactly`).

## Model

| member | source | states |
|---|---|---|
| SystemInvariant.ApplyOk | uni_api/admission/core.py:1435-1859 | no critical section fails in any state of the invariant; each keeps ledger, queue and parent in agreement; and only a step that passed every limit lets a counter grow |
| SystemRuns.RunInv | uni_api/admission/core.py:1145-1290 | every state of every run from an empty controller satisfies the system invariant |
| SystemRuns.NothingFails | uni_api/admission/core.py:1435-1577 | in any reachable state no allowed step reaches an underflow, a missing holder, a ledger overflow or a turn underflow |
| SystemRuns.Conservation | uni_api/admission/core.py:3273-3282 | body, pending and response counters are the sums over all owner records; the parent's response category is the response counter and its body category the body counter plus at most one reservation in flight per lane |
| SystemRuns.OneFlightPerLane | uni_api/admission/core.py:1704-1755 | two tasks of one lane never both hold parent bytes under a wait turn |
| SystemRuns.BudgetSafety | uni_api/admission/core.py:1776-1831 | in every reachable state bodies plus responses fit the budget, every lease its response limit, and every owner outside resource-only mode its body limit |
| SystemRuns.GrowthIsChecked | uni_api/admission/core.py:1595-1660 | whenever a counter grows, the growth passed every check: a body growth stays within the budget and, unless its request is small, leaves the small-lane reserve free, and its request is within the retained limit; a response growth leaves request and system within theirs |
| SystemFigures.RoundExactly | uni_api/admission/core.py:1595-1702 | a round of a body reservation is committed if and only if, in the figures themselves, its owner may grow, its limits and its lane's part of the budget hold, a slot is found if it is large, no turn is out and nobody in line before a newcomer, and the parent consents; it is refused at once exactly for its own limits; otherwise it is refused or joins the line, and its lane sleeps exactly for want of budget or slots |
| SystemFigures.TurnExactly | uni_api/admission/core.py:1704-1755 | under a turn the growth is carried out if and only if owner, limits, budget and slots allow it, else the first reason is reported and the parent gets its bytes back; the turn is over for good either way |
| SystemFigures.TurnAskExactly | uni_api/admission/core.py:1717-1727 | under a turn the task holds the bytes exactly if the parent consents, and the parent holds just those more |
| SystemFigures.GiveUpExactly | uni_api/admission/core.py:1750-1755 | a turn given up returns exactly what was taken under it, wakes both lanes if that was anything, and is over for good |
| SystemFigures.StopExactly | uni_api/admission/core.py:138-144 | whoever stops waiting is out of line, has no turn, and changes neither books nor parent |
| SystemFigures.ResponseExactly | uni_api/admission/core.py:1991-2084 | a response growth is admitted exactly when it breaks none of the four limits, refused for the first one it breaks with counters and parent as before, and a temporary is made for the attempt then bound |
| SystemFigures.TransferExactly | uni_api/admission/core.py:1435-1505 | a transfer is refused for the first reason against it, without a change, or moves all bytes and the slot |
| SystemFigures.MarksExactly | uni_api/admission/core.py:686-735 | new owners start empty, active and in their mode, and a mark changes nothing but that mark |
| Wakeups.ReserveKept | uni_api/admission/core.py:1798-1807 | over runs, whenever the body counter grows, an owner has grown by as much, and it is small or the budget keeps the reserve free |
| Wakeups.ReleaseServes | uni_api/admission/core.py:3278-3282 | after any step of a run by which a counter falls, or a turn is given up with parent bytes, both lanes are awake and each has its turn out or nobody in line |
| Wakeups.SleepsExactly | uni_api/admission/core.py:1667-1674 | in every state of every run a lane sleeps if and only if some earlier round found no room in it and no memory has been given back since; an awake lane has its turn out or nobody in line |
| SystemFairness.QueueRefined | uni_api/admission/core.py:146-220 | what a run of the whole system does to the wait queue is a run of the queue's own events |
| SystemFairness.Fairness | uni_api/admission/core.py:1637-1643 | over runs of the system, for a task still in line: turns of its own tenant in its lane number at most its predecessors there; if it is the first of them, all turns of the lane number at most the tokens before its tenant's, and at most one more request that held nothing commits in the lane |
| SystemFairness.FairnessBehind | uni_api/admission/core.py:178-202 | the same for a task with predecessors of its own tenant: in a lane of at most that many tokens, the turns handed out before its own number at most a round of tokens for each predecessor and the tokens before its tenant's, and at most one more request that held nothing commits |
| SystemFairness.NoOvertaking | uni_api/admission/core.py:1637-1643 | while a task is in line, a round by a request of its lane that holds nothing changes neither books nor parent, at any step of the run |
| SystemRuns.SlotSafety | uni_api/admission/core.py:2916-3049 | holders never exceed the limit, claims and flagged owners are in bijection, each record shows its owner's bytes, every owner above the threshold holds a slot, and no owner without bytes does |
| SystemRuns.FinalForever | uni_api/admission/core.py:2740-2757 | a finalized lease stays finalized for good, without owner, byte, live temporary or deferral |
| SystemRuns.FinalizedExactly | uni_api/admission/core.py:2586-2612 | once its release has run, a lease is finalized exactly when its last temporary and deferral are gone, until then it is deferred, and its published records are settled |
| SystemRuns.NothingLeaks | uni_api/admission/core.py:2721-2805 | when every request is released, every owner gone and every reservation empty, all counters and both parent categories are zero and no slot is held |
| RetainedLimit.RetainedExactly | uni_api/admission/core.py:1446-1454 | the retained limit holds throughout a run if and only if every transfer in it leaves its request within the limit |
| RetainedLimit.RetainedCanBeExceeded | uni_api/admission/core.py:1435-1505 | a run under the default retained limit in which a transfer exceeds it |
| PendingResidue.ResidueExactly | uni_api/admission/core.py:686-694 | a reservation whose release section has run holds bytes later if and only if a round or turn of its own was then about to be granted some: no limit, no waiter and no parent refused it, on the state before the step |
| PendingResidue.ResidueForever | uni_api/admission/core.py:674-694 | marked released with no release call left to run, a reservation keeps exactly its bytes for ever, and its flag stays up |
| PendingResidue.ResidueMovesExactly | uni_api/admission/core.py:686-694 | a reservation marked released that holds bytes can still change them if and only if another release call is left to run, which gives them all back |
| PendingResidue.ResidueLeaks | uni_api/admission/core.py:1507-1536 | the bytes of such a reservation stay in the body counter, and with the parent, for ever |
| PendingResidue.ReleasedButHolding | uni_api/admission/core.py:686-694 | a run that ends with a reservation marked released, holding bytes, and no release call left to run |
| PendingResidue.StepGains | uni_api/admission/core.py:1833-1859 | one step adds to a reservation exactly the bytes granted to it, as decided before the step, unless it transfers or releases it |
| WaitRecords.WaitersRemember | uni_api/admission/core.py:1664-1686 | every waiter stands for one earlier request and keeps its owner, its bytes and the lane its size gave it |
| WaitRecords.StepWaits | uni_api/admission/core.py:674-694 | a step never changes the request behind a waiter, adds one only for the round of a reservation, with its owner, bytes and lane, and moves on only the release calls it belongs to |
| AttemptAccounting.RecordsShowCharges | uni_api/admission/core.py:1933-1982 | in every reachable state an attempt's record, kept or published, shows exactly what the run's events charge to it: bytes asked for, reservations started, refusals and their bytes, commits and their bytes, rollbacks and theirs |
| AttemptAccounting.AttemptBound | uni_api/admission/core.py:765-894 | a lease is bound to the attempt last begun for it and not yet ended, and to none begun after its release was requested |
| AttemptAccounting.TemporariesRemember | uni_api/admission/core.py:2471-2520 | everything charged to a temporary goes to the attempt that the run's events had bound to its request when it was activated |
| StepFrames.StepKept | uni_api/admission/core.py:1435-1577 | a step leaves every owner it does not act on with exactly its bytes, lets no lease retain more unless it grows it, and lowers no flag |
| LedgerBody.CommitGrowthOk | uni_api/admission/core.py:1833-1859 | an unrefused growth adds its bytes to its owner and to the counters, reaches no fault, claims a slot exactly when the owner is above the threshold, leaves the small-lane reserve free unless the owner is small, and the retained limit respected |
| LedgerBody.ReleasePendingOk | uni_api/admission/core.py:1507-1536 | releasing a reservation empties it, drops both body counters by exactly its bytes, gives up its slot and reaches no fault |
| LedgerBody.ReleaseStagedOk | uni_api/admission/core.py:1538-1579 | a staged release is refused exactly when it asks for more than an active lease holds, and otherwise takes exactly the bytes asked for, or none from a released lease, from lease and counter, and the slot exactly with the last byte |
| LedgerBody.SettleOk | uni_api/admission/core.py:2916-3010 | claiming and updating a slot restores the slot invariant of an owner whose bytes have changed |
| LedgerLifetime.TransferOk | uni_api/admission/core.py:1435-1505 | a transfer is carried out exactly when nothing refuses it; it moves all the bytes and the slot to the lease, leaves both global counters alone and reaches no fault |
| LedgerLifetime.FinalizeOk | uni_api/admission/core.py:2740-2914 | a finalization that is due gives back exactly what the lease holds, once, and reaches no ledger error |
| LedgerLifetime.NothingElseHeld | uni_api/admission/core.py:2765-2785 | with no owner left the committed allocations add up to the response bytes, so no synthetic allocation is ever made |
| LedgerLifetime.PublishedExactly | uni_api/admission/core.py:2808-2880 | finalization publishes each attempt's record as it stood, with everything committed now released, and settled; preprocessing outside attempts is not published |
| LedgerLifetime.FinishOwnerOk | uni_api/admission/core.py:2721-2738 | the last owner to leave a released lease finalizes it; any other owner just leaves |
| LedgerLifetime.CommitTempOk | uni_api/admission/core.py:2659-2701 | a commit is refused exactly for a released temporary, repeated without effect, and otherwise gives back nothing unless it was the last owner of a released request |
| LedgerLifetime.ReleaseTempOk | uni_api/admission/core.py:2614-2657 | a live temporary gives back its size, or the whole request when it was its last owner; a closed one nothing |
| LedgerLifetime.ReleaseDeferralOk | uni_api/admission/core.py:1115-1142 | a deferral ends once and gives back the request when it was its last owner |
| LedgerLifetime.RunReleaseOk | uni_api/admission/core.py:2586-2612 | releasing a request finalizes it exactly when it has no owner, and otherwise defers it |
| LedgerSteps.ReserveDirectOk | uni_api/admission/core.py:2387-2469 | a direct reservation keeps every facet of the ledger, its own entry and its attempt's record included |
| LedgerSteps.ActivateTempOk | uni_api/admission/core.py:2471-2520 | activating a temporary keeps every facet and adds one owner |
| LedgerSteps.GrowTempOk | uni_api/admission/core.py:2522-2573 | growing a temporary keeps every facet, even after its request asked for release |
| LedgerSteps.RecordRejectionOk | uni_api/admission/core.py:2034-2061 | a refused response growth keeps the attempt's record balanced |
| LedgerSteps.DeferOk | uni_api/admission/core.py:2575-2584 | a deferral adds an owner to an active request and never fails |
| LedgerSteps.BeginAttemptOk | uni_api/admission/core.py:765-841 | binding response ownership to an attempt keeps every facet, also when its key has a record already |
| ReleaseOrder.GiveBackTwice | uni_api/admission/core.py:3278-3282 | two releases in a row return to parent and queue exactly what one release of both would, and fail exactly when it would |
| Controller.RequestAdmissionController.TransferPendingBody | uni_api/admission/core.py:1435-1505 | the outcome and the new fields are those of the transfer step, refusals included; on a valid object with both flags down no fault occurs and it stays valid |
| Controller.RequestAdmissionController.ReleasePendingBody | uni_api/admission/core.py:1507-1536 | bytes, parent and slot given back in the source's order come to the one release step; a valid object stays valid and no error is reported |
| Controller.RequestAdmissionController.ReleaseBodyBytes | uni_api/admission/core.py:1538-1579 | shrinking, returning and updating the holder come to the one staged release step; a valid object stays valid and no error is reported |
| Controller.RequestAdmissionController.ReserveBodyOwner | uni_api/admission/core.py:1595-1702 | one round of a body reservation: commit, refuse, or put the lane to sleep and join the queue; a valid object stays valid and no error is reported |
| Controller.RequestAdmissionController.CommitAfterWaitTurn | uni_api/admission/core.py:1704-1755 | the second check under the turn commits with the parent bytes already taken, or gives them and the turn back; on a valid object, for the holder of the turn, no error is reported and it stays valid |
| Controller.RequestAdmissionController.ReleaseTemporaryResponse | uni_api/admission/core.py:2614-2657 | rollback, return and the owner's leaving, finalization included, come to one step; a valid object stays valid and no error is reported |
| Controller.RequestAdmissionController.ReleaseAllocations | uni_api/admission/core.py:2786-2805 | the loop that releases allocation by allocation ends where one release of their sum does, and fails exactly when that would |
| Controller.RequestAdmissionController.FinalizeRequestMemory | uni_api/admission/core.py:2740-2914 | body, allocations, records and slot given back step by step come to the one finalization step |
| Controller.RequestAdmissionController.ReleaseRequest | uni_api/admission/core.py:2586-2612 | the release section finalizes or defers as the release step does; a valid object stays valid and no error is reported |
| FairQueue.ApplyInv | uni_api/admission/core.py:146-220 | no event loses a turn: the invariant is kept and the underflow error is unreachable |
| FairQueue.RunInv | uni_api/admission/core.py:75-220 | in every state of every run the count is the queued waiters and within the limit, every waiting tenant has a token, a lane has at most one turn out, and an awake lane without a turn has nobody waiting |
| FairQueue.RotateSettles | uni_api/admission/core.py:178-202 | promotion ends with a turn handed out or nobody left, and leaves the other lane alone |
| FairQueue.BoundedBypass | uni_api/admission/core.py:121-132 | while a tenant waits, the other turns handed out in its lane number at most the place of its first token, whatever arrives or leaves |
| FairQueueTurns.PromoteOldest | uni_api/admission/core.py:186-202 | a tenant's turns go to its waiters in order of arrival |
| FairQueueTurns.SleepingLane | uni_api/admission/core.py:152-158 | a lane put to sleep hands out no turn until memory is released |
| FairQueueTurns.ReleaseHandsOut | uni_api/admission/core.py:155-158 | after a release every lane has its turn out or nobody waiting |
| FairQueueTurns.NotifyIdempotent | uni_api/admission/core.py:155-158 | a second notification in the same critical section changes nothing |
| FairQueueEffects.HasWaitersExactly | uni_api/admission/core.py:98-100 | a newcomer has to wait exactly when its lane's turn is out or somebody is in line |
| FairQueueEffects.JoinEffects | uni_api/admission/core.py:102-132 | an arrival is refused exactly by a full queue, and otherwise stands in the queue as one more waiter of its tenant and lane, in line or with the turn |
| FairQueueEffects.NormalizeMeaning | uni_api/admission/core.py:115-115 | tenants are told apart by their first 96 characters, and the unnamed one is called anonymous |
| FairQueueEffects.FinishEffects | uni_api/admission/core.py:146-150 | a turn that is ended is over for good |
| FairQueueEffects.RemoveEffects | uni_api/admission/core.py:204-220 | whoever gives up waiting is out of the line and has no turn |
| FairQueueOrder.StillInLine | uni_api/admission/core.py:121-220 | over any queue events, a waiter still in line has seen at most as many turns go to its own tenant as it had waiters of that tenant ahead, and while there were none, at most as many turns in its lane as tokens stood before its tenant's |
| FairQueueObject.FairBodyMemoryWaitQueue.Promote | uni_api/admission/core.py:178-202 | the promotion loop on the dictionaries and deques is the promotion of the model |
| FairQueueObject.FairBodyMemoryWaitQueue.Enqueue | uni_api/admission/core.py:102-132 | joins the tenant's line, or on a valid object is refused exactly by a full queue; a valid object stays valid |
| FairQueueObject.FairBodyMemoryWaitQueue.EndTurn | uni_api/admission/core.py:146-150 | ends the turn and promotes; on a valid object the holder's call reports no underflow and leaves it valid |
| FairQueueObject.FairBodyMemoryWaitQueue.Abandon | uni_api/admission/core.py:204-220 | takes a queued waiter out or returns a granted turn; on a valid object no underflow is reported and it stays valid |
| RequestGate.RunInv | uni_api/admission/core.py:321-512 | over every interleaving active equals leases out plus grants undelivered and fits the capacity, waiters fit their limit and exist only at a full gate, and grants follow arrival without overtaking |
| RequestGate.EventExactly | uni_api/admission/core.py:349-512 | what each event does to the states of the requests: who is admitted, queued or refused, who holds, is abandoned or released, and that nobody else changes but queued requests handed a free slot |
| RequestGate.BeginAcquireInv | uni_api/admission/core.py:349-390 | admission is immediate exactly past an empty queue with room, and refused exactly when the queue is full |
| RequestGate.AbandonInv | uni_api/admission/core.py:470-495 | timeout and cancellation keep the count exact whether or not the grant came first |
| RequestGate.BoundedAdmissionGate.PromoteWaiters | uni_api/admission/core.py:504-512 | the promotion loop in place is the promotion of the model |
| RequestGate.BoundedAdmissionGate.Begin | uni_api/admission/core.py:349-390 | a valid gate refuses exactly when it is full and its queue is, and stays valid |
| RequestGate.BoundedAdmissionGate.AbandonWaiter | uni_api/admission/core.py:470-495 | on a valid gate no waiter is missing, and it stays valid |
| ControlGate.RunInv | uni_api/admission/core.py:530-600 | over every run of a new gate the active count is the leases out and the parent holds control memory for exactly those |
| ControlGate.AdmittedExactly | uni_api/admission/core.py:550-561 | a request is admitted exactly when its control memory is safe on the sample in use |
| ControlGate.EffectsExactly | uni_api/admission/core.py:550-600 | an admission is one more lease with its control memory, and a return gives both back, once |
| ControlGate.MemoryResourceAdmissionGate.ReleaseSlot | uni_api/admission/core.py:593-600 | on a valid gate a return reports no underflow, and the gate stays valid |
| Governor.AdmitsExactlySafe | uni_api/admission/memory.py:383-427 | a positive reservation is admitted exactly when usage plus everything reserved stays within the soft limit, as the settings and the hard and high limits give it, and within the fallback budget when figures are unknown or stale |
| Governor.RunSafe | uni_api/admission/memory.py:472-490 | every positive reservation admitted in any run over any samples was safe |
| Governor.RunSample | uni_api/admission/memory.py:334-358 | over runs of a new governor every decision is taken on the last sample read, which is stale exactly since a reading has failed |
| Governor.RunBalances | uni_api/admission/memory.py:553-565 | each category holds exactly what it was granted minus what it returned |
| Governor.SoftLimitExactly | uni_api/admission/memory.py:360-381 | the soft limit is the least of a configured one, the hard and the high limit; or the most that keeps free below the tightest limit both the fixed margin, at most half of it, and the ratio's share, and one byte where nothing does |
| Governor.SoftLimitRange | uni_api/admission/memory.py:371-379 | without a configured soft limit the derived one lies in [1, limit] for every positive limit, and is one byte exactly when the margins leave no more |
| Governor.CapacityCoversOwned | uni_api/admission/memory.py:383-395 | capacity never drops below what is owned |
| Governor.AdaptiveMemoryGovernor.ReserveNowait | uni_api/admission/memory.py:406-433 | the reservation, its peak and its rejection count in place |
| Governor.AdaptiveMemoryGovernor.ReleaseBytes | uni_api/admission/memory.py:553-565 | the release in place, or the underflow |
| Governor.AdaptiveMemoryGovernor.TotalReserved | uni_api/admission/memory.py:383-383 | the loop over categories computes their sum |
| JsonScan.FeedExact | uni_api/admission/json_memory.py:263-277 | a chunk is accepted exactly when raw charge, items, depth and the longest scalar stay within limits, from any resumable state |
| JsonScan.ChunkIndependence | uni_api/admission/json_memory.py:263-366 | two splittings of the same bytes give the same verdict and, when accepted, the same state |
| JsonScan.PhaseDependsOnChunking | uni_api/admission/json_memory.py:266-277 | a concrete text rejected in different phases under two splittings |
| JsonPhases.SplittingReports | uni_api/admission/json_memory.py:263-366 | a rejected splitting reports, in closed form, the first of raw charge, items, depth and scalar that the unlimited scan of the whole text breaks at the rejected chunk |
| JsonPhases.RejectedExactly | uni_api/admission/json_memory.py:263-277 | a splitting is rejected exactly when the text leaves the limits within one of its chunks |
| JsonPhases.RawPhaseExactly | uni_api/admission/json_memory.py:266-277 | a splitting is rejected in the raw-charge phase if and only if after some of its chunks the text is within the limits and charging the next chunk alone breaks the estimate |
| JsonPhases.SameReportExactly | uni_api/admission/json_memory.py:263-366 | two rejected splittings of one text report the same reason and phase if and only if both or neither break the estimate by the charge, and both or neither by items |
| JsonPhases.EstimateFits | uni_api/admission/json_memory.py:263-366 | when the whole text's estimate fits, every splitting reports the one depth or scalar limit that the text breaks first |
| JsonPhases.ReasonDependsOnChunking | uni_api/admission/json_memory.py:266-277 | three brackets refused for their size in one chunk and for their depth in two |
| JsonEstimator.IncrementalEstimator.Feed | uni_api/admission/json_memory.py:263-366 | the run-skipping scanner equals the byte-at-a-time automaton from any state: same final state, or same reason, phase and counters |
| JsonEstimator.IncrementalEstimator.ScalarRun | uni_api/admission/json_memory.py:315-334 | charging a scalar run at once equals charging it byte by byte, with the exact rejection point |
| JsonEstimator.EstimateBytes | uni_api/admission/json_memory.py:422-428 | the byte estimator returns the automaton's verdict on the whole payload, or refuses the limits |
| JsonEstimator.EstimateText | uni_api/admission/json_memory.py:431-445 | the chunked text estimator returns exactly the verdict of feeding its pieces of 262144 characters up to one that cannot be encoded, and accepts an encodable text exactly as the byte estimator accepts its encoding, with the same snapshot |
| JsonEstimator.Utf8Exactly | uni_api/admission/json_memory.py:436-444 | the encoding of a code point is the one to four bytes of RFC 3629 (section 3), from which it is read back |
| JsonGrammar.ScansJson | uni_api/admission/json_memory.py:263-420 | on every JSON tree, however written, the scanner accepts exactly within the limits and ends at depth 0 outside strings with tokens equal to values plus keys and peak depth equal to the height |
| JsonMeaning.StringsExactly | uni_api/admission/json_memory.py:281-309 | on any bytes, the scanner is in a string exactly where an unescaped quote has opened one that none has closed, an escape being an odd number of backslashes |
| JsonMeaning.CountersExactly | uni_api/admission/json_memory.py:311-392 | on any bytes, the items counted are the strings, brackets and scalars that begin outside strings, the scalar length is that of the run, and the depth is the greatest excess of opening over closing brackets in any stretch ending there |
| JsonMeaning.EstimateExactly | uni_api/admission/json_memory.py:263-420 | any bytes are accepted exactly when bytes and items weigh no more than the estimate limit, no stretch nests deeper than the depth limit, and no scalar is longer than the scalar limit |
| JsonMeaning.RejectionShows | uni_api/admission/json_memory.py:263-420 | a rejection reports the first value above the limit it names, with the whole chunk charged |
| StartupSizing.FitsDownward | uni_api/admission/resources.py:666-690 | whatever fits still fits with fewer active requests and fewer waiters |
| StartupSizing.LargestFitting | uni_api/admission/resources.py:692-700 | binary search finds the greatest value of a downward closed predicate |
| StartupSizing.BoundsExcludeNothing | uni_api/admission/resources.py:705-723 | the arithmetic bounds of the search exclude no value that fits |
| StartupSizing.ResourceLimitExactly | uni_api/admission/resources.py:702-735 | with any resource known, a count is within the resource limit exactly when it fits and the ports allow it |
| StartupSizing.PlanOptimal | uni_api/admission/resources.py:737-781 | an accepted plan fits, with the greatest feasible active count up to what it aims at (ActiveOnFigures) and then the most waiters up to the number desired (WaitersOnFigures) |
| StartupFigures.FitsExactly | uni_api/admission/resources.py:666-690 | a plan fits exactly when some headroom and reserve, each enough for its fixed part and its ratio, leave room for its connections in memory and descriptors |
| StartupFigures.LimitOnFigures | uni_api/admission/resources.py:702-735 | with any resource known, the resource limit is exactly the greatest count that memory, descriptors and ports carry; otherwise the burst over the CPU limit |
| StartupFigures.ActiveOnFigures | uni_api/admission/resources.py:737-765 | the active count is the explicit one, or else the least of resource limit, cap, total and, only for a CPU-bound plan, CPU limit |
| StartupFigures.WaitersOnFigures | uni_api/admission/resources.py:767-788 | the waiters are the explicit ones, or else the most the host carries beside the active count, up to the total or the burst |
| StartupFigures.ServerOnFigures | uni_api/admission/resources.py:790-800 | the server limit is the total with the least headroom that is enough, and the backlog holds the waiters and that headroom within the system's limit |
| StartupFigures.SettledOnFigures | uni_api/admission/resources.py:612-765 | the checks before the waiters pass exactly when the inputs make sense, a known host carries one request, and an explicit count is positive, within cap and total, and carried |
| StartupFigures.CountOnFigures | uni_api/admission/resources.py:737-765 | the count that explicit waiters are held against is the explicit one or the least of the same figures |
| StartupSizing.PlanHonours | uni_api/admission/resources.py:746-783 | explicit requests are honoured exactly, and caps and totals respected |
| StartupSizing.ActiveRefusedExactly | uni_api/admission/resources.py:763-765 | an explicit active count is refused for lack of resources exactly when it is not feasible |
| StartupSizing.WaitersRefusedExactly | uni_api/admission/resources.py:767-788 | explicit waiters are refused for the total exactly when they and the active count exceed it, for lack of resources exactly when they stay within it and do not fit, and granted otherwise |
| StartupSizing.AcceptedExactly | uni_api/admission/resources.py:737-788 | a plan is accepted exactly when its active count passes its checks and explicit waiters, if any, are within the total and carried by the resources beside it |
| StartupSizing.PlanServes | uni_api/admission/resources.py:755-763 | an accepted plan serves at least one request exactly when no total below one was asked for |
| StartupSizing.TotalOfZeroAccepted | uni_api/admission/resources.py:755-763 | a request for a total of zero is accepted on some host with a plan that serves nobody |
| StartupSizing.ResourceLimitMonotone | uni_api/admission/resources.py:649-665 | more memory or more file descriptors never lower the resource limit |
| StartupSizing.ActiveMonotone | uni_api/admission/resources.py:737-765 | between two accepted plans for the same request, the roomier host never serves fewer requests |
| StartupSizing.RoomierExactly | uni_api/admission/resources.py:767-788 | a request accepted on a host is accepted on a roomier one if and only if its explicit waiters stay within the total and fit beside the active count there; always, when the waiters are automatic or the active count is explicit |
| StartupSizing.RoomierRefused | uni_api/admission/resources.py:776-788 | with the default constants, hosts on which two explicit waiters are accepted, and roomier ones that refuse them: for the total of 42, and without a total for lack of resources |
| StartupSizing.CpuLimitMeaning | uni_api/admission/resources.py:490-535 | the CPU limit is at least one and at most a cap; uncapped it is the most requests whose reference share the entitlement covers, or one, or the base when nothing is known |
| StartupSizing.EntitlementMeaning | uni_api/admission/resources.py:509-529 | the entitlement is the quota if there is one, else the weight's share of the reference pair, else the affinity set, and never more than the affinity set allows |
| StartupSizing.CpuLimitMonotone | uni_api/admission/resources.py:526-535 | a host entitled to no less never gets a lower CPU limit |
| StartupSizing.EntitlementMonotone | uni_api/admission/resources.py:509-529 | a larger quota, weight or affinity set never lowers the entitlement |
| StartupSizing.CalculateStartupConcurrency | uni_api/admission/resources.py:547-820 | the whole calculation returns the plan, with its refusals in the order of the checks |
| ResponsesSession.StreamSafety | uni_api/rust_responses_control.py:152-163 | beside any client whatever, in every state the stream is plans under increasing ids and then at most one final message, nothing lost or repeated between runner, slot and client, at most one message in the slot; and no attempt is answered twice or under another id |
| ResponsesSession.ProtocolSafety | uni_api/rust_responses_control.py:152-216 | in every state reached without a premature answer, the accepted outcomes answer the plans of the stream in order, all but at most the last, each under its own id; a final message has all of them answered; and the runner works on exactly those |
| ResponsesSession.PlanAfterAnswer | uni_api/rust_responses_control.py:156-174 | without a premature answer, a plan appears only after the plan before it has been answered |
| ResponsesSession.SlotFreeAtPut | uni_api/rust_responses_control.py:152-154 | without a premature answer, whenever the runner puts a message the one-slot queue is empty |
| ResponsesSession.RoundTrip | uni_api/rust_responses_control.py:152-174 | one attempt from end to end: a plan goes out under a new id, the client takes and answers exactly that plan, and the runner works on exactly that outcome |
| ResponsesSession.FinalTrip | uni_api/rust_responses_control.py:176-216 | the final message goes out, the client takes it, and the session is over |
| ResponsesSession.NothingAfterTheEnd | uni_api/rust_responses_control.py:122-139 | after a cancellation or the final message nothing is put, begun, accepted or worked on any more |
| ResponsesSession.AcceptedExactly | uni_api/rust_responses_control.py:77-91 | any outcome under any id is accepted exactly under the id of the open attempt, whatever the state; every other one changes nothing, and no second one is accepted |
| ResponsesSession.OpenExactly | uni_api/rust_responses_control.py:156-174 | an attempt is open exactly while it is built, offered or awaited unanswered, and it is the one begun last |
| ResponsesSession.PutWaitsExactly | uni_api/rust_responses_control.py:77-91 | over every run beside any client, the runner can be brought to a put that waits if and only if an accepted answer named a plan not yet taken |
| ResponsesSession.RustResponsesSession.Deliver | uni_api/rust_responses_control.py:77-91 | delivers or refuses without a change; a valid session stays valid unless the answer comes before its plan was taken |
| ResponsesSession.RustResponsesSession.PublishPlan | uni_api/rust_responses_control.py:152-163 | a valid session that is about to offer its plan finds the slot free, puts the plan and stays valid |
| RetryRun.RunConcludes | upstream.py:868-939 | a run starts exactly as many attempts as supply, limit, hook and the first ending attempt leave it, and ends for the first of these reasons; it leaves earlier records alone, keeps the log window, and gives every retried attempt exactly one fate |
| RetryRun.FirstRunLog | upstream.py:502-536 | after n starts the log holds attempts 1 to n when n is at most 32, else the first 16 and the last 16 with n - 32 counted |
| RetryRun.WindowMeaning | upstream.py:41-43 | exactly the first and last attempts are kept, in order |
| RetryRun.StartAttemptOk | upstream.py:502-536 | one more start keeps the log the window of all attempts |
| RetryRun.UpstreamRunner.StartRoutingAttempt | upstream.py:471-536 | the edit of the bounded list and its counters in place |
| RetryRun.UpstreamRunner.RecordRetryTransition | upstream.py:573-587 | links the retried record to the next one in place |
| RetryRun.UpstreamRunner.RunAttempts | upstream.py:850-939 | the loop in place, terminating on every finite supply |
| KeyOrdering.OrderingPermutes | utils.py:90-116 | the result is a permutation of the configured keys |
| KeyOrdering.GroupsBalanced | utils.py:100-113 | the result is as few groups as the size allows end to end, none empty, none above the size, and no two differing by more than one key |
| KeyOrdering.EarlierRanksNoWorse | utils.py:105-113 | a key ranks no worse than every key at a later position of any group, and than the key at its own position of a later group |
| KeyOrdering.BetterKeysFirst | utils.py:78-113 | on the rows themselves: of two keys with statistics the one placed before has the higher success rate in its last row, or the same and no fewer requests; a key without statistics is never placed before one with a rate of at least zero |
| KeyOrdering.GroupsEndToEnd | utils.py:110-113 | every group stands whole in the result, behind all the keys of the groups before it |
| KeyOrdering.SortStable | utils.py:90-98 | keys of equal rank keep their configured order |
| KeyOrdering.OrderedExactly | utils.py:73-108 | the operation succeeds exactly for a positive size, a negative one with a single key, no keys, or no statistics, and without keys or statistics the configured order stands |
| KeyOrdering.GetSortedApiKeys | utils.py:73-116 | the loops that build the ranking, deal the groups and join them compute the ordering |

## Left out

- Tasks, shields, `wait_for` and cancellation loops: they appear as steps (grant, timeout, cancel, give up) that may happen at any moment; a temporary's closing flag is one such choice of the schedule and is not a field.
- Owner objects are records in sequences, not heap objects of their own: what aliasing of one object under two names could do is not modelled.
- AttemptAccounting.RecordsShowCharges: leaves out responses read outside any attempt, whose record is dropped at finalization, and attempts whose key is the literal `unattributed`.
- Events, history deques, observers, holder timestamps, deferred summaries and every counter that only reports: only the counters that enter a property are kept.
- Governor.AdaptiveMemoryGovernor.ReserveNowait: category names are taken as given, without trimming, and the polling loop of the asynchronous reserve is any number of single tries.
- cgroup, procfs, rlimit and environment reading: samples, limits and host figures are inputs; ratios are rationals, so rounding of floating point is not modelled.
- JsonEstimator.IncrementalEstimator.Feed: the native scanner is not part of this model; the Python scanner is modelled in full.
- ResponsesSession.ProtocolSafety: attempt ids are numbers given out in order, so two attempts with one id are not modelled; for runs without a premature answer (`PutWaitsExactly` says what one does); assumes that a cancelled task stops at its next pause; what the execution object does with an outcome, and the commit observation that only reads the active attempt, are not modelled.
- RetryRun.RunConcludes: an exception out of an attempt, which leaves the loop without a fate for a waiting retry, and everything in a record but its index, outcome and link are not modelled.
- KeyOrdering.EarlierRanksNoWorse: statistics are rationals, so a rate that is not a number is not modelled.
- Provider selection, error classification, cooldown, headers and response building: the verdict on an attempt is an input of the retry loop.
- uni_api/admission/network.py, cpu.py and json_parsing.py: allocators of the same shapes with easier invariants.
- Server, database, handlers, video and tools: no part of admission.
