/**
 The whole admission system as a state machine: the ledger, the parent governor and the body
 wait queue, stepped by any interleaving of critical sections of any number of tasks.
 */
module System {
  import opened Common
  import opened Ledger
  import G = Governor
  import Q = FairQueue

  const BODY: G.Category := "request_body"
  const RESPONSE: G.Category := "buffered_response"

  /** A task in the body wait queue; `reserved` says it holds parent bytes under its turn. */
  datatype Wait = Wait(owner: Owner, additional: nat, small: bool, reserved: bool)

  /**
   Release calls on one reservation: tasks created whose section has not run yet, and sections
   that have run while the flag that follows them has not been raised yet.
   */
  datatype Releasing = Releasing(called: nat, ran: nat)

  /** Waiter `w` of the queue is the task `waits[w]`; `releasing` holds the release calls under way. */
  datatype Sys = Sys(
    books: Books, parent: Option<G.Gov>, queue: Q.Queue, waits: seq<Wait>, releasing: map<nat, Releasing>)

  function Start(parent: Option<G.Gov>, waiterLimit: Option<nat>): Sys {
    Sys(EMPTY, parent, Q.New(waiterLimit), [], map[])
  }

  function Calls(s: Sys, p: nat): Releasing { if p in s.releasing then s.releasing[p] else Releasing(0, 0) }

  function SetCalls(s: Sys, p: nat, x: Releasing): Sys { s.(releasing := s.releasing[p := x]) }

  datatype Failure = OfLedger(fault: Fault) | ParentUnderflow | QueueUnderflow

  /** A step may refuse its caller; it fails only when the system contradicts itself. */
  datatype Outcome = Next(sys: Sys, refusal: Option<Refusal>) | Failed(failure: Failure)

  // ----- the parent -----

  function Held(s: Sys, k: G.Category): nat
    requires s.parent.Some?
  {
    G.Amount(s.parent.value, k)
  }

  /** Asks the parent for bytes; without a parent they are granted. */
  ghost function AskParent(s: Sys, k: G.Category, size: nat, r: G.Reading): (Sys, bool) {
    if s.parent.None? then (s, true)
    else
      var (g, allowed) := G.Reserve(s.parent.value, k, size, r);
      (s.(parent := Some(g)), allowed)
  }

  /** Returns bytes to the parent and lets waiters try again. */
  function ReturnParent(s: Sys, k: G.Category, size: nat): Outcome {
    if size == 0 then Next(s, None)
    else if s.parent.None? then Next(s.(queue := Q.Notify(s.queue)), None)
    else match G.Release(s.parent.value, k, size)
      case Some(g) => Next(s.(parent := Some(g), queue := Q.Notify(s.queue)), None)
      case None => Failed(ParentUnderflow)
  }

  function Drop(before: nat, after: nat): nat { if after < before then before - after else 0 }

  /** Adopts the books left by a release, and returns to the parent what they no longer hold. */
  function GiveBack(s: Sys, r: Reply): Outcome {
    match r
    case Broken(f) => Failed(OfLedger(f))
    case Refused(x) => Next(s, Some(x))
    case Done(b) =>
      match ReturnParent(s.(books := b), BODY, Drop(s.books.body, b.body))
      case Next(s', _) => ReturnParent(s', RESPONSE, Drop(s.books.response, b.response))
      case failed => failed
  }

  function Adopt(s: Sys, r: Reply): Outcome {
    match r
    case Done(b) => Next(s.(books := b), None)
    case Refused(x) => Next(s, Some(x))
    case Broken(f) => Failed(OfLedger(f))
  }

  // ----- body growth -----

  function LaneOf(c: Config, b: Books, o: Owner, additional: nat): bool
    requires Known(b, o)
  {
    SmallLane(c, Bytes(b, o) + additional)
  }

  /** Why a growth cannot be carried out now although its limits allow it. */
  ghost function MustWait(c: Config, s: Sys, o: Owner, additional: nat): Option<Refusal>
    requires Known(s.books, o)
  {
    match Unavailable(c, s.books, o, Bytes(s.books, o) + additional, additional)
    case Some(x) => Some(x)
    case None =>
      if Bytes(s.books, o) == 0 && Q.HasWaiters(s.queue, LaneOf(c, s.books, o, additional)) then Some(BudgetExhausted)
      else None
  }

  /** A lane is put to sleep unless only the parent, or fairness, stood in the way. */
  function Sleep(c: Config, s: Sys, o: Owner, additional: nat, reason: Refusal): Q.Queue
    requires Known(s.books, o)
  {
    var small := LaneOf(c, s.books, o, additional);
    if reason != BudgetExhausted || s.books.body + s.books.response + additional > LaneBudget(c, small)
    then Q.Block(s.queue, small) else s.queue
  }

  function Enqueue(c: Config, s: Sys, o: Owner, additional: nat, reason: Refusal, tenant: string): Outcome
    requires Known(s.books, o)
  {
    var small := LaneOf(c, s.books, o, additional);
    var asleep := Sleep(c, s, o, additional, reason);
    match Q.Join(asleep, tenant, small)
    case None => Next(s.(queue := asleep), Some(reason))
    case Some(q) => Next(s.(queue := q, waits := s.waits + [Wait(o, additional, small, false)]), None)
  }

  /** One round of a body reservation: commit, refuse, or join the wait queue. */
  ghost function Ask(c: Config, s: Sys, o: Owner, additional: nat, r: G.Reading, tenant: string, expired: bool): Outcome
    requires Known(s.books, o)
  {
    match HardRefusal(c, s.books, o, Bytes(s.books, o) + additional)
    case Some(x) => Next(s, Some(x))
    case None =>
      var reason := MustWait(c, s, o, additional);
      var (asked, allowed) := if reason.None? then AskParent(s, BODY, additional, r) else (s, false);
      if reason.None? && allowed then Adopt(asked, CommitGrowth(c, asked.books, o, additional))
      else
        var x := if reason.Some? then reason.value else BudgetExhausted;
        if expired || s.queue.limit == Some(0) then Next(asked, Some(x))
        else Enqueue(c, asked, o, additional, x, tenant)
  }

  // ----- under a wait turn -----

  predicate HasTurn(s: Sys, w: nat) {
    w < |s.waits| && w < |s.queue.waiters| && w in Q.Get(s.queue, s.waits[w].small).turns
  }

  /** One try of the waiting reservation; for nothing at all the parent is not even asked. */
  ghost function TurnAsk(s: Sys, w: nat, r: G.Reading): Outcome
    requires HasTurn(s, w)
  {
    var additional := s.waits[w].additional;
    var (asked, allowed) := if additional == 0 then (s, true) else AskParent(s, BODY, additional, r);
    Next(if allowed then asked.(waits := s.waits[w := s.waits[w].(reserved := true)]) else asked, None)
  }

  function EndTurn(s: Sys, w: nat, refusal: Option<Refusal>): Outcome
    requires w < |s.waits|
  {
    match Q.FinishTurn(s.queue, s.waits[w].small, w)
    case Some(q) => Next(s.(queue := q), refusal)
    case None => Failed(QueueUnderflow)
  }

  /** Leaves the turn without a commit; parent bytes taken under it go back first. */
  function TurnGiveUp(s: Sys, w: nat, refusal: Option<Refusal>): Outcome
    requires w < |s.waits|
  {
    var x := s.waits[w];
    var without := s.(waits := s.waits[w := x.(reserved := false)]);
    match ReturnParent(without, BODY, if x.reserved then x.additional else 0)
    case Next(s', _) => if w < |s'.waits| then EndTurn(s', w, refusal) else Failed(QueueUnderflow)
    case failed => failed
  }

  /** The second check under the turn: commit with the parent bytes already taken, or give up. */
  function TurnCommit(c: Config, s: Sys, w: nat): Outcome
    requires w < |s.waits| && Known(s.books, s.waits[w].owner)
  {
    var x := s.waits[w];
    match GrowthRefusal(c, s.books, x.owner, x.additional)
    case Some(refusal) => TurnGiveUp(s, w, Some(refusal))
    case None =>
      match CommitGrowth(c, s.books, x.owner, x.additional)
      case Done(b) => EndTurn(s.(books := b, waits := s.waits[w := x.(reserved := false)]), w, None)
      case Broken(f) => Failed(OfLedger(f))
      case Refused(_) => Next(s, None)
  }

  function WaitAbandon(s: Sys, w: nat): Outcome
    requires w < |s.queue.waiters|
  {
    match Q.Remove(s.queue, w)
    case Some(q) => Next(s.(queue := q), Some(BudgetExhausted))
    case None => Failed(QueueUnderflow)
  }

  // ----- response growth -----

  /** The limits in their order, the parent last; a refusal is charged to the attempt. */
  ghost function AdmitResponse(c: Config, s: Sys, i: nat, k: Key, additional: nat, r: G.Reading): (Sys, Option<Refusal>)
    requires i < |s.books.leases|
  {
    var charged := s.(books := RecordRejection(s.books, i, k, additional));
    match ResponseRefusal(c, s.books, i, additional)
    case Some(x) => (charged, Some(x))
    case None =>
      var (asked, allowed) := AskParent(s, RESPONSE, additional, r);
      if allowed then (asked, None) else (asked.(books := charged.books), Some(ParentGovernor))
  }

  ghost function TakeDirect(c: Config, s: Sys, i: nat, additional: nat, r: G.Reading): Outcome
    requires i < |s.books.leases|
  {
    if s.books.leases[i].releaseRequested then Next(s, Some(Inactive))
    else
      var (asked, refusal) := AdmitResponse(c, s, i, CurrentKey(s.books.leases[i]), additional, r);
      Next(if refusal.None? then asked.(books := ReserveDirect(asked.books, i, additional)) else asked, refusal)
  }

  ghost function TakeTemporary(c: Config, s: Sys, i: nat, additional: nat, r: G.Reading): Outcome
    requires i < |s.books.leases|
  {
    if s.books.leases[i].releaseRequested then Next(s, Some(Inactive))
    else
      var (asked, refusal) := AdmitResponse(c, s, i, CurrentKey(s.books.leases[i]), additional, r);
      Next(if refusal.None? then asked.(books := ActivateTemp(asked.books, i, additional)) else asked, refusal)
  }

  ghost function TakeGrowth(c: Config, s: Sys, t: nat, additional: nat, r: G.Reading): Outcome
    requires t < |s.books.temps| && s.books.temps[t].lease < |s.books.leases|
  {
    var x := s.books.temps[t];
    if !x.Live() then Next(s, Some(Inactive))
    else
      var (asked, refusal) := AdmitResponse(c, s, x.lease, x.key, additional, r);
      Next(if refusal.None? then asked.(books := GrowTemp(asked.books, t, additional)) else asked, refusal)
  }

  // ----- steps -----

  datatype Event =
    | OpenLease(resourceOnly: bool)
    | OpenPending(resourceOnly: bool)
    | AskBody(owner: Owner, additional: nat, reading: G.Reading, tenant: string, expired: bool)
    | AskUnderTurn(waiter: nat, reading: G.Reading)
    | CommitUnderTurn(waiter: nat)
    | GiveUpTurn(waiter: nat)
    | StopWaiting(waiter: nat)
    | TransferPending(pending: nat, lease: nat)
    | CallRelease(pending: nat)
    | DropPending(pending: nat)
    | MarkPending(pending: nat)
    | ReleaseBody(lease: nat, bytes: nat)
    | AskDirect(lease: nat, additional: nat, reading: G.Reading)
    | AskTemporary(lease: nat, additional: nat, reading: G.Reading)
    | AskGrowth(temp: nat, additional: nat, reading: G.Reading)
    | CommitTemporary(temp: nat)
    | ReleaseTemporary(temp: nat)
    | DeferRelease(lease: nat)
    | EndDeferral(deferral: nat)
    | RequestLeaseRelease(lease: nat)
    | RunLeaseRelease(lease: nat)
    | BeginRouting(lease: nat, key: Key)
    | EndRouting(lease: nat)
    | ForeignAsk(category: G.Category, size: nat, reading: G.Reading)
    | ForeignReturn(category: G.Category, size: nat)

  /** Neither transferred nor marked released. */
  predicate Unflagged(b: Books, p: nat)
    requires p < |b.pendings|
  {
    !b.pendings[p].transferred && !b.pendings[p].released
  }

  /** The release section of a reservation is about to run. */
  function SectionRuns(s: Sys, p: nat): Sys
    requires Calls(s, p).called > 0
  {
    SetCalls(s, p, Releasing(Calls(s, p).called - 1, Calls(s, p).ran + 1))
  }

  /** The flag that follows a release section is raised. */
  function FlagRaised(s: Sys, p: nat): Sys
    requires p < |s.books.pendings| && Calls(s, p).ran > 0
  {
    SetCalls(s, p, Releasing(Calls(s, p).called, Calls(s, p).ran - 1)).(books := MarkPendingReleased(s.books, p))
  }

  /**
   What the tasks themselves guarantee: they name existing objects, only the task holding a
   turn acts under it, it commits only with the parent's consent, a reservation is transferred
   or its release called only while neither flag is up, each section and each flag of a release
   follows its call, and foreign users of the parent leave these two categories alone.
   */
  predicate Allowed(s: Sys, e: Event) {
    match e
    case OpenLease(_) => true
    case OpenPending(_) => true
    case AskBody(o, _, _, _, _) => Known(s.books, o)
    case AskUnderTurn(w, _) => HasTurn(s, w) && !s.waits[w].reserved && s.parent.Some?
    case CommitUnderTurn(w) =>
      HasTurn(s, w) && Known(s.books, s.waits[w].owner) && (s.parent.Some? ==> s.waits[w].reserved)
    case GiveUpTurn(w) => HasTurn(s, w)
    case StopWaiting(w) =>
      && w < |s.waits| && w < |s.queue.waiters|
      && (s.queue.waiters[w].state == Q.Granted ==> HasTurn(s, w) && !s.waits[w].reserved)
    case TransferPending(p, i) => p < |s.books.pendings| && i < |s.books.leases| && Unflagged(s.books, p)
    case CallRelease(p) => p < |s.books.pendings| && Unflagged(s.books, p)
    case DropPending(p) => p < |s.books.pendings| && Calls(s, p).called > 0
    case MarkPending(p) => p < |s.books.pendings| && Calls(s, p).ran > 0
    case ReleaseBody(i, _) => i < |s.books.leases|
    case AskDirect(i, _, _) => i < |s.books.leases|
    case AskTemporary(i, _, _) => i < |s.books.leases|
    case AskGrowth(t, _, _) => t < |s.books.temps| && s.books.temps[t].lease < |s.books.leases|
    case CommitTemporary(t) => t < |s.books.temps| && s.books.temps[t].lease < |s.books.leases|
    case ReleaseTemporary(t) => t < |s.books.temps| && s.books.temps[t].lease < |s.books.leases|
    case DeferRelease(i) => i < |s.books.leases|
    case EndDeferral(d) => d < |s.books.deferrals| && s.books.deferrals[d].lease < |s.books.leases|
    case RequestLeaseRelease(i) => i < |s.books.leases|
    case RunLeaseRelease(i) => i < |s.books.leases|
    case BeginRouting(i, _) => i < |s.books.leases|
    case EndRouting(i) => i < |s.books.leases|
    case ForeignAsk(k, _, _) => k != BODY && k != RESPONSE
    case ForeignReturn(k, _) => k != BODY && k != RESPONSE
  }

  ghost function Apply(c: Config, s: Sys, e: Event): Outcome
    requires Allowed(s, e)
  {
    match e
    case OpenLease(resourceOnly) => Next(s.(books := AddLease(s.books, resourceOnly)), None)
    case OpenPending(resourceOnly) => Next(s.(books := AddPending(s.books, resourceOnly)), None)
    case AskBody(o, additional, r, tenant, expired) => Ask(c, s, o, additional, r, tenant, expired)
    case AskUnderTurn(w, r) => TurnAsk(s, w, r)
    case CommitUnderTurn(w) => TurnCommit(c, s, w)
    case GiveUpTurn(w) => TurnGiveUp(s, w, Some(BudgetExhausted))
    case StopWaiting(w) => WaitAbandon(s, w)
    case TransferPending(p, i) => Adopt(s, Transfer(c, s.books, p, i))
    case CallRelease(p) => Next(SetCalls(s, p, Releasing(Calls(s, p).called + 1, Calls(s, p).ran)), None)
    case DropPending(p) => GiveBack(SectionRuns(s, p), ReleasePending(s.books, p))
    case MarkPending(p) => Next(FlagRaised(s, p), None)
    case ReleaseBody(i, bytes) => GiveBack(s, ReleaseStaged(s.books, i, bytes))
    case AskDirect(i, additional, r) => TakeDirect(c, s, i, additional, r)
    case AskTemporary(i, additional, r) => TakeTemporary(c, s, i, additional, r)
    case AskGrowth(t, additional, r) => TakeGrowth(c, s, t, additional, r)
    case CommitTemporary(t) => GiveBack(s, CommitTemp(s.books, t))
    case ReleaseTemporary(t) => GiveBack(s, ReleaseTemp(s.books, t))
    case DeferRelease(i) => Adopt(s, Defer(s.books, i))
    case EndDeferral(d) => GiveBack(s, ReleaseDeferral(s.books, d))
    case RequestLeaseRelease(i) => Next(s.(books := RequestRelease(s.books, i)), None)
    case RunLeaseRelease(i) => GiveBack(s, RunRelease(s.books, i))
    case BeginRouting(i, k) => Next(s.(books := BeginAttempt(s.books, i, k)), None)
    case EndRouting(i) => Next(s.(books := EndAttempt(s.books, i)), None)
    case ForeignAsk(k, size, r) => Next(AskParent(s, k, size, r).0, None)
    case ForeignReturn(k, size) =>
      if s.parent.Some? && G.Release(s.parent.value, k, size).Some?
      then Next(s.(parent := G.Release(s.parent.value, k, size)), None) else Next(s, None)
  }
}
