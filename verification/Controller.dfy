/**
 The admission controller object: counters, owner records, the large-body holders and the
 memory owners of each request, updated in place together with its wait queue and its parent.
 */
module Controller {
  import opened Common
  import opened Ledger
  import opened LedgerInvariant
  import opened LedgerLifetime
  import opened System
  import opened SystemInvariant
  import opened FairQueueObject
  import opened ReleaseOrder
  import FairQueueTurns
  import G = Governor
  import Q = FairQueue

  class RequestAdmissionController {
    const config: Config
    const governor: G.AdaptiveMemoryGovernor?
    const waitQueue: FairBodyMemoryWaitQueue
    var reservedBodyBytes: nat
    var pendingBodyBytes: nat
    var reservedResponseBytes: nat
    var leases: seq<Lease>
    var pendings: seq<Pending>
    var temporaries: seq<Temp>
    var deferrals: seq<Deferral>
    var deferredLeases: set<nat>
    var holders: map<nat, Holder>
    var claims: nat
    var waits: seq<Wait>
    ghost var releasing: map<nat, Releasing>

    function Record(): Books
      reads this
    {
      Books(reservedBodyBytes, pendingBodyBytes, reservedResponseBytes, leases, pendings, temporaries, deferrals,
            deferredLeases, holders, claims)
    }

    /** The object can be read as a state of the system. */
    ghost predicate Ready()
      reads this, waitQueue
    {
      waitQueue.Ready()
    }

    /** The state satisfies the invariant that every critical section keeps. */
    ghost predicate Valid()
      reads this, waitQueue, governor
    {
      Ready() && SysInv(config, View())
    }

    ghost function Parent(): Option<G.Gov>
      reads this, governor
    {
      if governor == null then None else Some(governor.View())
    }

    ghost function View(): Sys
      reads this, waitQueue, governor
      requires Ready()
    {
      Sys(Record(), Parent(), waitQueue.View(), waits, releasing)
    }

    constructor (config: Config, governor: G.AdaptiveMemoryGovernor?, waiterLimit: Option<nat>)
      ensures Ready() && fresh(waitQueue) && this.governor == governor && this.config == config
      ensures View() == Start(Parent(), waiterLimit)
      ensures governor == null || G.Amount(governor.View(), BODY) == G.Amount(governor.View(), RESPONSE) == 0 ==>
                Valid()
    {
      hide SysInv, Q.Inv;
      this.config := config;
      this.governor := governor;
      waitQueue := new FairBodyMemoryWaitQueue(waiterLimit);
      reservedBodyBytes, pendingBodyBytes, reservedResponseBytes := 0, 0, 0;
      leases, pendings, temporaries, deferrals := [], [], [], [];
      deferredLeases, holders, claims, waits, releasing := {}, map[], 0, [], map[];
      new;
      if governor == null || G.Amount(governor.View(), BODY) == G.Amount(governor.View(), RESPONSE) == 0 {
        StartsValid(config, Parent(), waiterLimit);
      }
    }

    // ----- new owners -----

    method OpenLease(resourceOnly: bool) returns (i: nat)
      requires Ready()
      modifies this`leases
      ensures Ready() && i == |old(leases)|
      ensures View() == old(View()).(books := AddLease(old(Record()), resourceOnly))
      ensures old(Valid()) ==> Valid()
    {
      hide SysInv;
      StepCarries(config, View(), Event.OpenLease(resourceOnly));
      i := |leases|;
      leases := leases + [NewLease(resourceOnly)];
    }

    method OpenPending(resourceOnly: bool) returns (p: nat)
      requires Ready()
      modifies this`pendings
      ensures Ready() && p == |old(pendings)|
      ensures View() == old(View()).(books := AddPending(old(Record()), resourceOnly))
      ensures old(Valid()) ==> Valid()
    {
      hide SysInv;
      StepCarries(config, View(), Event.OpenPending(resourceOnly));
      p := |pendings|;
      pendings := pendings + [Pending(0, false, false, false, None, resourceOnly)];
    }

    // ----- the parent -----

    method ReserveParentMemory(k: G.Category, size: nat, r: G.Reading) returns (allowed: bool)
      requires Ready()
      modifies governor
      ensures Ready() && (View(), allowed) == AskParent(old(View()), k, size, r)
    {
      if governor == null { return true; }
      allowed := governor.ReserveNowait(k, size, r);
    }

    /** Returns bytes and wakes the queue; `ok` is false when the parent disagrees. */
    method ReleaseParentMemory(k: G.Category, size: nat) returns (ok: bool)
      requires Ready()
      modifies governor, waitQueue
      ensures Ready()
      ensures ok <==> ReturnParent(old(View()), k, size).Next?
      ensures ok ==> View() == ReturnParent(old(View()), k, size).sys
    {
      if size == 0 { return true; }
      if governor != null {
        ok := governor.ReleaseBytes(k, size);
        if !ok { return; }
      }
      waitQueue.NotifyMemoryReleased();
      ok := true;
    }

    // ----- large-body slots -----

    method SetOwnerClaim(o: Owner, claim: Option<nat>)
      requires Known(Record(), o)
      modifies this`leases, this`pendings
      ensures Record() == SetClaim(old(Record()), o, claim)
    {
      match o
      case OfLease(i) => leases := leases[i := leases[i].(slot := claim.Some?, claim := claim)];
      case OfPending(i) => pendings := pendings[i := pendings[i].(slot := claim.Some?, claim := claim)];
    }

    method SetOwnerBytes(o: Owner, bytes: nat)
      requires Known(Record(), o)
      modifies this`leases, this`pendings
      ensures Record() == SetBytes(old(Record()), o, bytes)
    {
      match o
      case OfLease(i) => leases := leases[i := leases[i].(body := bytes)];
      case OfPending(i) => pendings := pendings[i := pendings[i].(bytes := bytes)];
    }

    method ClaimLargeBodySlot(o: Owner, next: nat) returns (ok: bool)
      requires Known(Record(), o)
      modifies this
      ensures waits == old(waits) && releasing == old(releasing)
      ensures ok <==> ClaimSlot(config, old(Record()), o, next).Done?
      ensures ok ==> Record() == ClaimSlot(config, old(Record()), o, next).books && Known(Record(), o)
    {
      if config.largeLimit == 0 || HasSlot(Record(), o) || next <= config.largeThreshold { return true; }
      if |holders| >= config.largeLimit { return false; }
      var id := claims;
      claims := claims + 1;
      holders := holders[id := Holder(o, next)];
      SetOwnerClaim(o, Some(id));
      ok := true;
    }

    method UpdateLargeBodyHolder(o: Owner, bytes: nat) returns (ok: bool)
      requires Known(Record(), o)
      modifies this`holders
      ensures ok <==> UpdateHolder(old(Record()), o, bytes).Done?
      ensures ok ==> Record() == UpdateHolder(old(Record()), o, bytes).books
    {
      if !HasSlot(Record(), o) { return true; }
      var claim := Claim(Record(), o);
      if claim.None? || claim.value !in holders { return false; }
      holders := holders[claim.value := Holder(o, bytes)];
      ok := true;
    }

    method ReleaseLargeBodySlot(o: Owner) returns (ok: bool)
      requires Known(Record(), o)
      modifies this`holders, this`leases, this`pendings
      ensures ok <==> ReleaseSlot(old(Record()), o).Done?
      ensures ok ==> Record() == ReleaseSlot(old(Record()), o).books
    {
      if !HasSlot(Record(), o) { return true; }
      var claim := Claim(Record(), o);
      if claim.None? || claim.value !in holders { return false; }
      SetOwnerClaim(o, None);
      holders := holders - {claim.value};
      ok := true;
    }

    /** Claims a slot if the owner's bytes need one, and brings its holder record up to date. */
    method SettleSlot(o: Owner) returns (ok: bool)
      requires Known(Record(), o)
      modifies this
      ensures waits == old(waits) && releasing == old(releasing)
      ensures ok <==> Settle(config, old(Record()), o).Done?
      ensures ok ==> Record() == Settle(config, old(Record()), o).books
    {
      var bytes := Bytes(Record(), o);
      ok := ClaimLargeBodySlot(o, bytes);
      if ok { ok := UpdateLargeBodyHolder(o, bytes); }
    }

    // ----- body bytes -----

    method CommitBodyOwner(o: Owner, additional: nat) returns (ok: bool)
      requires Known(Record(), o)
      modifies this
      ensures waits == old(waits) && releasing == old(releasing)
      ensures ok <==> CommitGrowth(config, old(Record()), o, additional).Done?
      ensures ok ==> Record() == CommitGrowth(config, old(Record()), o, additional).books
    {
      SetOwnerBytes(o, Bytes(Record(), o) + additional);
      if o.OfPending? { pendingBodyBytes := pendingBodyBytes + additional; }
      reservedBodyBytes := reservedBodyBytes + additional;
      assert Record() == GrownBooks(old(Record()), o, additional);
      ok := SettleSlot(o);
    }

    /** Hands a reservation's slot, if it has one, and its bytes to a lease. */
    method MoveBody(p: nat, i: nat)
      requires p < |pendings| && i < |leases| && pendings[p].bytes <= pendingBodyBytes
      requires pendings[p].slot ==> pendings[p].claim.Some?
      modifies this`leases, this`pendings, this`holders, this`pendingBodyBytes
      ensures Record() == MovedBooks(old(Record()), p, i)
    {
      var from, to := pendings[p], leases[i];
      var next := to.body + from.bytes;
      if from.slot {
        leases := leases[i := to.(slot := true, claim := from.claim)];
        pendings := pendings[p := from.(slot := false, claim := None)];
        holders := holders[from.claim.value := Holder(OfLease(i), next)];
      }
      leases := leases[i := leases[i].(body := next)];
      pendings := pendings[p := pendings[p].(bytes := 0, transferred := true)];
      pendingBodyBytes := pendingBodyBytes - from.bytes;
    }

    /** The bytes of a reservation pass to a lease; `ok` is false for a fault. */
    method TransferPendingBody(p: nat, i: nat) returns (ok: bool, refusal: Option<Refusal>)
      requires Ready() && p < |pendings| && i < |leases|
      modifies this
      ensures Ready()
      ensures ok <==> Adopt(old(View()), Transfer(config, old(Record()), p, i)).Next?
      ensures ok ==> Next(View(), refusal) == Adopt(old(View()), Transfer(config, old(Record()), p, i))
      ensures old(Valid()) && old(Unflagged(Record(), p)) ==> ok && Valid()
    {
      hide MovedBooks, Settle, SysInv;
      TransferCarries(config, View(), p, i);
      var from, to := pendings[p], leases[i];
      var next := to.body + from.bytes;
      if to.releaseRequested { return true, Some(Inactive); }
      if !to.resourceOnly && next > config.maxBody { return true, Some(TransferTooLarge); }
      if from.resourceOnly != to.resourceOnly { return true, Some(ModeChanged); }
      if from.bytes > pendingBodyBytes { return false, None; }
      if from.slot {
        if to.slot { return true, Some(DoubleTransfer); }
        if from.claim.None? || from.claim.value !in holders { return false, None; }
      } else if config.largeLimit != 0 && !to.slot && next > config.largeThreshold && |holders| >= config.largeLimit {
        return true, Some(LargeCapacityExhausted);
      }
      MoveBody(p, i);
      MovedKnown(old(Record()), p, i);
      ok := SettleSlot(OfLease(i));
      SettleNeverRefuses(config, MovedBooks(old(Record()), p, i), OfLease(i));
      refusal := None;
    }

    /** A reservation may be released while neither of its flags is up; the section itself follows later. */
    method CallRelease(p: nat) returns (called: bool)
      requires Ready() && p < |pendings|
      modifies this`releasing
      ensures Ready() && (called <==> Unflagged(Record(), p))
      ensures called ==> Next(View(), None) == Apply(config, old(View()), Event.CallRelease(p))
      ensures !called ==> View() == old(View())
      ensures old(Valid()) ==> Valid()
    {
      hide SysInv;
      StepCarries(config, View(), Event.CallRelease(p));
      called := !pendings[p].transferred && !pendings[p].released;
      if called {
        releasing := SetCalls(View(), p, Releasing(Calls(View(), p).called + 1, Calls(View(), p).ran)).releasing;
      }
    }

    method DrainBody(p: nat)
      requires p < |pendings| && pendings[p].bytes <= pendingBodyBytes && pendings[p].bytes <= reservedBodyBytes
      modifies this`leases, this`pendings, this`pendingBodyBytes, this`reservedBodyBytes
      ensures Record() == DrainedPending(old(Record()), p)
    {
      var released := pendings[p].bytes;
      SetOwnerBytes(OfPending(p), 0);
      pendingBodyBytes := pendingBodyBytes - released;
      reservedBodyBytes := reservedBodyBytes - released;
    }

    /** The release section: bytes, parent, slot. The flag is raised later. */
    method ReleasePendingBody(p: nat) returns (ok: bool)
      requires Ready() && p < |pendings| && Calls(View(), p).called > 0
      modifies this, governor, waitQueue
      ensures Ready()
      ensures ok <==> GiveBack(SectionRuns(old(View()), p), ReleasePending(old(Record()), p)).Next?
      ensures ok ==> Next(View(), None) == GiveBack(SectionRuns(old(View()), p), ReleasePending(old(Record()), p))
      ensures old(Valid()) ==> ok && Valid()
    {
      hide ReturnParent, ReleaseSlot, ReleasePending, GiveBack, SysInv, SectionRuns, Calls, DrainedPending;
      DropCarries(config, View(), p);
      SectionKeeps(View(), p);
      ghost var start := SectionRuns(View(), p);
      DropPath(start, p);
      releasing := start.releasing;
      var released := pendings[p].bytes;
      if released > pendingBodyBytes || released > reservedBodyBytes { return false; }
      DrainBody(p);
      assert View() == start.(books := Record());
      ok := ReleaseParentMemory(BODY, released);
      if ok { ok := ReleaseLargeBodySlot(OfPending(p)); }
    }

    /** After its section, a release raises the flag. */
    method MarkReleased(p: nat)
      requires Ready() && p < |pendings| && Calls(View(), p).ran > 0
      modifies this`pendings, this`releasing
      ensures Ready() && Next(View(), None) == Apply(config, old(View()), MarkPending(p))
      ensures old(Valid()) ==> Valid()
    {
      hide SysInv;
      StepCarries(config, View(), MarkPending(p));
      releasing := FlagRaised(View(), p).releasing;
      pendings := pendings[p := pendings[p].(released := true)];
    }

    method ShrinkBody(i: nat, released: nat)
      requires i < |leases| && released <= leases[i].body && released <= reservedBodyBytes
      modifies this`leases, this`pendings, this`reservedBodyBytes
      ensures Record() == ShrunkBooks(old(Record()), i, released)
    {
      SetOwnerBytes(OfLease(i), leases[i].body - released);
      reservedBodyBytes := reservedBodyBytes - released;
    }

    /** A request gives back part of its body while it is active. */
    method ReleaseBodyBytes(i: nat, released: nat) returns (ok: bool, refusal: Option<Refusal>)
      requires Ready() && i < |leases|
      modifies this, governor, waitQueue
      ensures Ready()
      ensures ok <==> GiveBack(old(View()), ReleaseStaged(old(Record()), i, released)).Next?
      ensures ok ==> Next(View(), refusal) == GiveBack(old(View()), ReleaseStaged(old(Record()), i, released))
      ensures old(Valid()) ==> ok && Valid()
    {
      hide GiveBack, ReturnParent, ReleaseStaged, ReleaseSlot, UpdateHolder, ShrunkBooks, SysInv;
      ReleaseBodyCarries(config, View(), i, released);
      StagedPath(View(), i, released);
      var o := OfLease(i);
      if released == 0 || leases[i].releaseRequested { return true, None; }
      if released > leases[i].body { return true, Some(StagedTooLarge); }
      if released > reservedBodyBytes { return false, None; }
      ghost var start := View();
      ShrinkBody(i, released);
      assert View() == start.(books := Record());
      refusal := None;
      ok := ReleaseParentMemory(BODY, released);
      if !ok { return; }
      if leases[i].body == 0 { ok := ReleaseLargeBodySlot(o); } else { ok := UpdateLargeBodyHolder(o, leases[i].body); }
    }

    /** Why a growth that its limits allow has to wait. */
    method WaitReason(o: Owner, additional: nat) returns (reason: Option<Refusal>)
      requires Ready() && Known(Record(), o)
      ensures reason == MustWait(config, View(), o, additional)
    {
      var next := Bytes(Record(), o) + additional;
      var small := SmallLane(config, next);
      if reservedBodyBytes + reservedResponseBytes + additional > LaneBudget(config, small) {
        return Some(BudgetExhausted);
      }
      if NeedsSlot(config, Record(), o, next) && |holders| >= config.largeLimit {
        return Some(LargeCapacityExhausted);
      }
      if Bytes(Record(), o) == 0 {
        var some := waitQueue.HasWaiters(small);
        if some { return Some(BudgetExhausted); }
      }
      reason := None;
    }

    /** Puts the lane to sleep unless only the parent or fairness was in the way. */
    method SleepLane(o: Owner, additional: nat, reason: Refusal)
      requires Ready() && Known(Record(), o)
      modifies waitQueue
      ensures Ready() && View() == old(View()).(queue := Sleep(config, old(View()), o, additional, reason))
    {
      var small := SmallLane(config, Bytes(Record(), o) + additional);
      if reason != BudgetExhausted
         || reservedBodyBytes + reservedResponseBytes + additional > LaneBudget(config, small) {
        waitQueue.BlockUntilRelease(small);
      }
    }

    method JoinWaitQueue(o: Owner, additional: nat, reason: Refusal, tenant: string) returns (refusal: Option<Refusal>)
      requires Ready() && Known(Record(), o)
      modifies this`waits, waitQueue
      ensures Ready() && Next(View(), refusal) == Enqueue(config, old(View()), o, additional, reason, tenant)
    {
      hide Q.Join, Sleep, Enqueue, SmallLane;
      EnqueueCases(config, View(), o, additional, reason, tenant);
      var small := SmallLane(config, Bytes(Record(), o) + additional);
      SleepLane(o, additional, reason);
      var waiter := waitQueue.Enqueue(tenant, small);
      if waiter.None? { return Some(reason); }
      waits := waits + [Wait(o, additional, small, false)];
      refusal := None;
    }

    /** One round of a body reservation: commit, refuse or join the wait queue, without a pause in between. */
    method ReserveBodyOwner(o: Owner, additional: nat, r: G.Reading, tenant: string, expired: bool)
      returns (ok: bool, refusal: Option<Refusal>)
      requires Ready() && Known(Record(), o)
      modifies this, governor, waitQueue
      ensures Ready()
      ensures ok <==> Ask(config, old(View()), o, additional, r, tenant, expired).Next?
      ensures ok ==> Next(View(), refusal) == Ask(config, old(View()), o, additional, r, tenant, expired)
      ensures old(Valid()) ==> ok && Valid()
    {
      hide Ask, Enqueue, CommitGrowth, MustWait, HardRefusal, AskParent, SysInv;
      RoundCarries(config, View(), o, additional, r, tenant, expired);
      AskCases(config, View(), o, additional, r, tenant, expired);
      var hard := HardRefusal(config, Record(), o, Bytes(Record(), o) + additional);
      if hard.Some? { return true, hard; }
      var reason := WaitReason(o, additional);
      if reason.None? {
        ghost var start := View();
        var allowed := ReserveParentMemory(BODY, additional, r);
        AskKeepsBooks(start, BODY, additional, r);
        if allowed {
          ok := CommitBodyOwner(o, additional);
          GrowthNeverRefuses(config, start.books, o, additional);
          return ok, None;
        }
        reason := Some(BudgetExhausted);
      }
      ok := true;
      if expired || waitQueue.limit == Some(0) { return true, reason; }
      refusal := JoinWaitQueue(o, additional, reason.value, tenant);
    }

    // ----- under a wait turn -----

    method ReserveUnderTurn(w: nat, r: G.Reading) returns (allowed: bool)
      requires Ready() && HasTurn(View(), w)
      modifies this`waits, governor
      ensures Ready() && Next(View(), None) == TurnAsk(old(View()), w, r)
      ensures old(Valid()) && old(Allowed(View(), AskUnderTurn(w, r))) ==> Valid()
    {
      hide SysInv;
      StepCarries(config, View(), AskUnderTurn(w, r));
      allowed := true;
      if waits[w].additional != 0 { allowed := ReserveParentMemory(BODY, waits[w].additional, r); }
      if allowed { waits := waits[w := waits[w].(reserved := true)]; }
    }

    /** Leaves the turn; parent bytes taken under it go back first. */
    method GiveUpWaitTurn(w: nat) returns (ok: bool)
      requires Ready() && w < |waits|
      modifies this`waits, governor, waitQueue
      ensures Ready()
      ensures ok <==> TurnGiveUp(old(View()), w, None).Next?
      ensures ok ==> View() == TurnGiveUp(old(View()), w, None).sys
      ensures old(Valid()) && old(HasTurn(View(), w)) ==> ok && Valid()
    {
      hide TurnGiveUp, ReturnParent, Q.FinishTurn, Q.Inv, HoldsTurn, HasTurn, SysInv;
      GiveUpCarries(config, View(), w);
      GiveUpPath(View(), w);
      ghost var start := View();
      var bytes := if waits[w].reserved then waits[w].additional else 0;
      waits := waits[w := waits[w].(reserved := false)];
      assert View() == start.(waits := waits);
      ok := ReleaseParentMemory(BODY, bytes);
      if ok { ok := waitQueue.EndTurn(waits[w].small, w); }
    }

    /** Commits with the parent bytes already taken under the turn, and ends the turn. */
    method CommitAndEndTurn(w: nat) returns (ok: bool)
      requires Ready() && w < |waits| && Known(Record(), waits[w].owner)
      modifies this, waitQueue
      ensures Ready()
      ensures var x := old(waits[w]);
              var reply := CommitGrowth(config, old(Record()), x.owner, x.additional);
              && !reply.Refused?
              && (reply.Broken? ==> !ok)
              && (reply.Done? ==>
                    var s := old(View()).(books := reply.books, waits := old(waits)[w := x.(reserved := false)]);
                    && (ok <==> EndTurn(s, w, None).Next?)
                    && (ok ==> Next(View(), None) == EndTurn(s, w, None)))
    {
      hide CommitGrowth, Q.FinishTurn, Q.Inv, HoldsTurn;
      var x := waits[w];
      GrowthNeverRefuses(config, Record(), x.owner, x.additional);
      ok := CommitBodyOwner(x.owner, x.additional);
      if !ok { return; }
      waits := waits[w := x.(reserved := false)];
      ok := waitQueue.EndTurn(x.small, w);
    }

    /** The second check under the turn: commit, or give the turn up with the refusal. */
    method CommitAfterWaitTurn(w: nat) returns (ok: bool, refusal: Option<Refusal>)
      requires Ready() && w < |waits| && Known(Record(), waits[w].owner)
      modifies this, governor, waitQueue
      ensures Ready()
      ensures ok <==> TurnCommit(config, old(View()), w).Next?
      ensures ok ==> Next(View(), refusal) == TurnCommit(config, old(View()), w)
      ensures old(Valid()) && old(Allowed(View(), CommitUnderTurn(w))) ==> ok && Valid()
    {
      hide TurnCommit, TurnGiveUp, CommitGrowth, GrowthRefusal, EndTurn, SysInv, Allowed;
      TurnCommitCarries(config, View(), w);
      TurnCommitCases(config, View(), w);
      refusal := GrowthRefusal(config, Record(), waits[w].owner, waits[w].additional);
      if refusal.Some? { ok := GiveUpWaitTurn(w); } else { ok := CommitAndEndTurn(w); }
    }

    /** Timeout or cancellation of a waiting task; `ok` is false for the queue's underflow error. */
    method StopWaiting(w: nat) returns (ok: bool)
      requires Ready() && w < |waits| && w < |waitQueue.waiters|
      modifies waitQueue
      ensures Ready()
      ensures ok <==> WaitAbandon(old(View()), w).Next?
      ensures ok ==> Next(View(), Some(BudgetExhausted)) == WaitAbandon(old(View()), w)
      ensures old(Valid()) && old(Allowed(View(), Event.StopWaiting(w))) ==> ok && Valid()
    {
      hide Q.Remove, SysInv;
      StepCarries(config, View(), Event.StopWaiting(w));
      ok := waitQueue.Abandon(w);
    }

    // ----- attempt records and response bytes -----

    /** A refusal is charged to the attempt it was made for. */
    method ChargeRejection(i: nat, k: Key, additional: nat)
      requires i < |leases|
      modifies this`leases
      ensures Record() == RecordRejection(old(Record()), i, k, additional)
    {
      var l, y := leases[i], Cycle(leases[i], k);
      leases := leases[i := l.(cycles := l.cycles[k := y.(
        requested := y.requested + additional,
        rejections := y.rejections + 1, rejectedBytes := y.rejectedBytes + additional)])];
    }

    /** A direct reservation enters the lease's allocations under its attempt, committed at once. */
    method EnterDirect(i: nat, additional: nat)
      requires i < |leases|
      modifies this`leases, this`reservedResponseBytes
      ensures Record() == ReserveDirect(old(Record()), i, additional)
    {
      hide PutAllocation, EntryBytes;
      var l, k := leases[i], CurrentKey(leases[i]);
      var y, held := Cycle(l, k), EntryBytes(l.allocations, Direct(k));
      leases := leases[i := l.(
        response := l.response + additional,
        allocations := PutAllocation(l.allocations, Allocation(Direct(k), k, held + additional)),
        cycles := l.cycles[k := y.(
          started := y.started + 1, requested := y.requested + additional,
          commits := y.commits + 1, committed := y.committed + additional)])];
      reservedResponseBytes := reservedResponseBytes + additional;
    }

    /** A temporary becomes an owner of the lease's memory. */
    method EnterTemporary(i: nat, additional: nat)
      requires i < |leases|
      modifies this`leases, this`temporaries, this`reservedResponseBytes
      ensures Record() == ActivateTemp(old(Record()), i, additional)
    {
      var l, k := leases[i], CurrentKey(leases[i]);
      var y := Cycle(l, k);
      leases := leases[i := l.(
        response := l.response + additional, owners := l.owners + 1,
        cycles := l.cycles[k := y.(started := y.started + 1, requested := y.requested + additional)])];
      temporaries := temporaries + [Temp(i, k, additional, false, false)];
      reservedResponseBytes := reservedResponseBytes + additional;
    }

    method EnterGrowth(t: nat, additional: nat)
      requires t < |temporaries| && temporaries[t].lease < |leases|
      modifies this`leases, this`temporaries, this`reservedResponseBytes
      ensures Record() == GrowTemp(old(Record()), t, additional)
    {
      var x := temporaries[t];
      var l, y := leases[x.lease], Cycle(leases[x.lease], x.key);
      leases := leases[x.lease := l.(
        response := l.response + additional,
        cycles := l.cycles[x.key := y.(requested := y.requested + additional)])];
      temporaries := temporaries[t := x.(size := x.size + additional)];
      reservedResponseBytes := reservedResponseBytes + additional;
    }

    /** A temporary's bytes enter the lease's allocations. */
    method EnterCommit(t: nat)
      requires t < |temporaries| && temporaries[t].lease < |leases|
      modifies this`leases, this`temporaries
      ensures Record() == BeforeCommitEnds(old(Record()), t)
    {
      hide PutAllocation;
      var x := temporaries[t];
      var l, y := leases[x.lease], Cycle(leases[x.lease], x.key);
      leases := leases[x.lease := l.(
        allocations := PutAllocation(l.allocations, Allocation(FromTemporary(t), x.key, x.size)),
        cycles := l.cycles[x.key := y.(commits := y.commits + 1, committed := y.committed + x.size)])];
      temporaries := temporaries[t := x.(committed := true)];
    }

    /** A temporary's bytes leave its lease and the global counter. */
    method EnterRollback(t: nat)
      requires t < |temporaries| && temporaries[t].lease < |leases|
      requires temporaries[t].size <= leases[temporaries[t].lease].response
      requires temporaries[t].size <= reservedResponseBytes
      modifies this`leases, this`temporaries, this`reservedResponseBytes
      ensures Record() == BeforeReleaseEnds(old(Record()), t)
    {
      var x := temporaries[t];
      var l, y := leases[x.lease], Cycle(leases[x.lease], x.key);
      leases := leases[x.lease := l.(
        response := l.response - x.size,
        cycles := l.cycles[x.key := y.(rollbacks := y.rollbacks + 1, rolledBack := y.rolledBack + x.size)])];
      reservedResponseBytes := reservedResponseBytes - x.size;
      temporaries := temporaries[t := x.(released := true)];
    }

    /** The first limit of the ledger itself that a response growth would break. */
    method LimitRefusal(i: nat, additional: nat) returns (refusal: Option<Refusal>)
      requires i < |leases|
      ensures refusal == ResponseRefusal(config, Record(), i, additional)
    {
      var l := leases[i];
      if l.response + additional > config.maxResponse { return Some(ResponseTooLarge); }
      if l.body + l.response + additional > config.maxRetained { return Some(RetainedTooLarge); }
      if reservedBodyBytes + reservedResponseBytes + additional > config.budget { return Some(GlobalBudget); }
      refusal := None;
    }

    /** The limits in their order, the parent last; a refusal is charged to the attempt. */
    method AdmitResponseBytes(i: nat, k: Key, additional: nat, r: G.Reading) returns (refusal: Option<Refusal>)
      requires Ready() && i < |leases|
      modifies this`leases, governor
      ensures Ready() && (View(), refusal) == AdmitResponse(config, old(View()), i, k, additional, r)
    {
      hide RecordRejection, ResponseRefusal, AskParent;
      refusal := LimitRefusal(i, additional);
      if refusal.None? {
        AskKeepsBooks(View(), RESPONSE, additional, r);
        var allowed := ReserveParentMemory(RESPONSE, additional, r);
        if !allowed { refusal := Some(ParentGovernor); }
      }
      if refusal.Some? { ChargeRejection(i, k, additional); }
    }

    method ReserveResponse(i: nat, additional: nat, r: G.Reading) returns (refusal: Option<Refusal>)
      requires Ready() && i < |leases|
      modifies this`leases, this`reservedResponseBytes, governor
      ensures Ready() && Next(View(), refusal) == TakeDirect(config, old(View()), i, additional, r)
      ensures old(Valid()) ==> Valid()
    {
      hide AdmitResponse, ReserveDirect, SysInv;
      AskCarries(config, View(), AskDirect(i, additional, r));
      if leases[i].releaseRequested { return Some(Inactive); }
      AdmitKeeps(config, View(), i, CurrentKey(leases[i]), additional, r);
      refusal := AdmitResponseBytes(i, CurrentKey(leases[i]), additional, r);
      if refusal.Some? { return; }
      EnterDirect(i, additional);
    }

    method ActivateTemporaryResponse(i: nat, additional: nat, r: G.Reading) returns (refusal: Option<Refusal>)
      requires Ready() && i < |leases|
      modifies this`leases, this`temporaries, this`reservedResponseBytes, governor
      ensures Ready() && Next(View(), refusal) == TakeTemporary(config, old(View()), i, additional, r)
      ensures old(Valid()) ==> Valid()
    {
      hide AdmitResponse, ActivateTemp, SysInv;
      AskCarries(config, View(), AskTemporary(i, additional, r));
      if leases[i].releaseRequested { return Some(Inactive); }
      AdmitKeeps(config, View(), i, CurrentKey(leases[i]), additional, r);
      refusal := AdmitResponseBytes(i, CurrentKey(leases[i]), additional, r);
      if refusal.Some? { return; }
      EnterTemporary(i, additional);
    }

    method GrowTemporaryResponse(t: nat, additional: nat, r: G.Reading) returns (refusal: Option<Refusal>)
      requires Ready() && t < |temporaries| && temporaries[t].lease < |leases|
      modifies this`leases, this`temporaries, this`reservedResponseBytes, governor
      ensures Ready() && Next(View(), refusal) == TakeGrowth(config, old(View()), t, additional, r)
      ensures old(Valid()) ==> Valid()
    {
      hide AdmitResponse, GrowTemp, SysInv;
      AskCarries(config, View(), AskGrowth(t, additional, r));
      var x := temporaries[t];
      if !x.Live() { return Some(Inactive); }
      AdmitKeeps(config, View(), x.lease, x.key, additional, r);
      refusal := AdmitResponseBytes(x.lease, x.key, additional, r);
      if refusal.Some? { return; }
      EnterGrowth(t, additional);
    }

    // ----- lease lifetime -----

    method SumAllocations(a: seq<Allocation>) returns (total: nat)
      ensures total == AllocatedBytes(a, None)
    {
      total := 0;
      for j := 0 to |a|
        invariant total == AllocatedBytes(a[..j], None)
      {
        AllocatedNext(a, j);
        total := total + a[j].bytes;
      }
      assert a[..|a|] == a;
    }

    /** Releases one allocation; `ok` is false for a ledger error or when the parent disagrees. */
    method ReleaseAllocation(i: nat, x: Allocation) returns (ok: bool)
      requires Ready() && i < |leases| && x.bytes <= leases[i].response && x.bytes <= reservedResponseBytes
      modifies this`leases, this`reservedResponseBytes, governor, waitQueue
      ensures Ready()
      ensures var b := SetLease(old(Record()), i, ReleasedOne(old(leases)[i], x))
                         .(response := old(reservedResponseBytes) - x.bytes);
              && (ok <==> GiveBack(old(View()), Done(b)).Next?)
              && (ok ==> View() == GiveBack(old(View()), Done(b)).sys && Record() == b)
    {
      hide ReturnParent, ReleasedOne;
      ghost var start := View();
      ghost var b := SetLease(Record(), i, ReleasedOne(leases[i], x)).(response := reservedResponseBytes - x.bytes);
      leases := leases[i := ReleasedOne(leases[i], x)];
      reservedResponseBytes := reservedResponseBytes - x.bytes;
      assert View() == start.(books := b);
      ResponseReturn(start, b);
      ReturnFrame(View(), b, RESPONSE, x.bytes);
      ok := ReleaseParentMemory(RESPONSE, x.bytes);
    }

    /** Releases all the given allocations of a lease, one after the other. */
    method ReleaseAllocations(i: nat, a: seq<Allocation>) returns (ok: bool)
      requires Ready() && i < |leases| && leases[i].response <= reservedResponseBytes
      modifies this`leases, this`reservedResponseBytes, governor, waitQueue
      ensures Ready()
      ensures ok <==> AllocatedBytes(a, None) <= old(leases)[i].response
                      && GiveBack(old(View()), Done(Partly(old(Record()), i, a))).Next?
      ensures ok ==> View() == GiveBack(old(View()), Done(Partly(old(Record()), i, a))).sys
      ensures ok ==> Record() == Partly(old(Record()), i, a)
    {
      hide GiveBack, Partly, ReleasedOne, AllocatedBytes;
      ghost var start := View();
      ghost var b := Record();
      PartlyStart(b, i);
      assert a[..0] == [];
      NothingReturned(start, b);
      for j := 0 to |a|
        invariant Ready() && i < |b.leases| && AllocatedBytes(a[..j], None) <= b.leases[i].response <= b.response
        invariant Record() == Partly(b, i, a[..j])
        invariant GiveBack(start, Done(Partly(b, i, a[..j]))) == Next(View(), None)
      {
        NextAllocation(start, View(), i, a, j);
        if a[j].bytes > leases[i].response { return false; }
        ok := ReleaseAllocation(i, a[j]);
        if !ok { return; }
      }
      assert a[..|a|] == a;
      ok := true;
    }

    /** The first part of a finalization: the body bytes. */
    method ReleaseLeaseBody(i: nat) returns (ok: bool)
      requires Ready() && i < |leases| && leases[i].body <= reservedBodyBytes
      modifies this`leases, this`reservedBodyBytes, governor, waitQueue
      ensures Ready()
      ensures ok <==> GiveBack(old(View()), Done(WithoutBody(old(Record()), i))).Next?
      ensures ok ==> Next(View(), None) == GiveBack(old(View()), Done(WithoutBody(old(Record()), i)))
    {
      hide ReturnParent;
      ghost var start := View();
      var body := leases[i].body;
      leases := leases[i := leases[i].(body := 0)];
      reservedBodyBytes := reservedBodyBytes - body;
      assert View() == start.(books := WithoutBody(start.books, i));
      BodyReturn(start, WithoutBody(start.books, i));
      ReturnFrame(View(), Record(), BODY, body);
      ok := ReleaseParentMemory(BODY, body);
    }

    /** The last part of a finalization: the emptied lease, its published records and its slot. */
    method CloseLease(i: nat) returns (ok: bool)
      requires i < |leases|
      modifies this`leases, this`deferredLeases, this`holders, this`pendings
      ensures ok <==> ReleaseSlot(Closed(old(Record()), i), OfLease(i)).Done?
      ensures ok ==> Done(Record()) == ReleaseSlot(Closed(old(Record()), i), OfLease(i))
    {
      leases := leases[i := leases[i].(
        allocations := [], summaries := leases[i].cycles - {UNATTRIBUTED}, cycles := map[], finalized := true)];
      deferredLeases := deferredLeases - {i};
      ok := ReleaseLargeBodySlot(OfLease(i));
    }

    /** The allocations to release, completed if bytes are missing; `ok` is false if they are too many. */
    method AllocationsOf(l: Lease) returns (a: seq<Allocation>, ok: bool)
      ensures ok <==> AllocatedBytes(l.allocations, None) <= l.response
      ensures ok ==> a == FinalAllocations(l) && AllocatedBytes(a, None) == l.response
    {
      hide AllocatedBytes, FinalAllocations;
      a := l.allocations;
      var total := SumAllocations(l.allocations);
      if total > l.response { return a, false; }
      if total < l.response { a := a + [Allocation(Synthetic, CurrentKey(l), l.response - total)]; }
      FinalAllocationsAre(l, a, total);
      ok := true;
    }

    /** Gives back everything a lease owns, once: its body, its allocations one by one, its slot. */
    method FinalizeRequestMemory(i: nat) returns (ok: bool)
      requires Ready() && i < |leases|
      modifies this, governor, waitQueue
      ensures Ready()
      ensures ok <==> GiveBack(old(View()), Finalize(old(Record()), i)).Next?
      ensures ok ==> Next(View(), None) == GiveBack(old(View()), Finalize(old(Record()), i))
    {
      hide GiveBack, Finalize, Partly, ReleaseSlot, WithoutBody, Closed, FinalAllocations, AllocatedBytes;
      ghost var start := View();
      ghost var b := Record();
      var l := leases[i];
      FinalizeGuards(start, i);
      if l.finalized { return true; }
      if l.body > reservedBodyBytes || l.response > reservedResponseBytes { return false; }
      FinalizePath(start, b, i);
      WithoutBodyLease(b, i);
      ok := ReleaseLeaseBody(i);
      if !ok { return; }
      GiveBackRefusal(start, WithoutBody(b, i));
      var a: seq<Allocation>;
      a, ok := AllocationsOf(l);
      if !ok { return; }
      ok := ReleaseAllocations(i, a);
      if !ok { return; }
      ok := CloseLease(i);
    }

    /** One owner leaves; the last one of a released request finalizes it. */
    method FinishMemoryOwner(i: nat) returns (ok: bool)
      requires Ready() && i < |leases|
      modifies this, governor, waitQueue
      ensures Ready()
      ensures ok <==> GiveBack(old(View()), FinishOwner(old(Record()), i)).Next?
      ensures ok ==> Next(View(), None) == GiveBack(old(View()), FinishOwner(old(Record()), i))
    {
      hide GiveBack, Finalize;
      ghost var start := View();
      BrokenIsFailure(start, FinishOwner(Record(), i));
      if leases[i].owners <= 0 { return false; }
      leases := leases[i := leases[i].(owners := leases[i].owners - 1)];
      ghost var left := Record();
      assert View() == start.(books := left);
      NothingReturned(start, left);
      FinalizeNeverRefuses(left, i);
      SameCounterReplies(start, left, Finalize(left, i));
      ok := true;
      if leases[i].releaseRequested && leases[i].owners == 0 { ok := FinalizeRequestMemory(i); }
    }

    /** A temporary's bytes pass to its request. */
    method CommitTemporaryResponse(t: nat) returns (ok: bool, refusal: Option<Refusal>)
      requires Ready() && t < |temporaries| && temporaries[t].lease < |leases|
      modifies this, governor, waitQueue
      ensures Ready()
      ensures ok <==> GiveBack(old(View()), CommitTemp(old(Record()), t)).Next?
      ensures ok ==> Next(View(), refusal) == GiveBack(old(View()), CommitTemp(old(Record()), t))
      ensures old(Valid()) ==> ok && Valid()
    {
      hide GiveBack, FinishOwner, BeforeCommitEnds, SysInv;
      CommitTempCarries(config, View(), t);
      ghost var start := View();
      var x := temporaries[t];
      BrokenIsFailure(start, CommitTemp(Record(), t));
      NothingReturned(start, Record());
      refusal := None;
      if x.released { return true, Some(Inactive); }
      if x.committed { return true, None; }
      CommittedCounts(start.books, t);
      EnterCommit(t);
      ghost var before := Record();
      assert View() == start.(books := before);
      FinishDrops(before, x.lease);
      SameCounterReplies(start, before, FinishOwner(before, x.lease));
      ok := FinishMemoryOwner(x.lease);
    }

    /** A temporary's bytes are given back; releasing again does nothing. */
    method ReleaseTemporaryResponse(t: nat) returns (ok: bool)
      requires Ready() && t < |temporaries| && temporaries[t].lease < |leases|
      modifies this, governor, waitQueue
      ensures Ready()
      ensures ok <==> GiveBack(old(View()), ReleaseTemp(old(Record()), t)).Next?
      ensures ok ==> Next(View(), None) == GiveBack(old(View()), ReleaseTemp(old(Record()), t))
      ensures old(Valid()) ==> ok && Valid()
    {
      hide GiveBack, FinishOwner, BeforeReleaseEnds, ReturnParent, SysInv;
      ReleaseTempCarries(config, View(), t);
      ghost var start := View();
      var x := temporaries[t];
      BrokenIsFailure(start, ReleaseTemp(Record(), t));
      NothingReturned(start, Record());
      if x.committed || x.released { return true; }
      if x.size > leases[x.lease].response || x.size > reservedResponseBytes { return false; }
      RolledBackCounts(start.books, t);
      EnterRollback(t);
      ghost var before := Record();
      assert View() == start.(books := before);
      ResponseReturn(start, before);
      GiveBackRefusal(start, before);
      FinishedAfterReturn(start, before, x.lease);
      ok := ReleaseParentMemory(RESPONSE, x.size);
      if ok { ok := FinishMemoryOwner(x.lease); }
    }

    method ActivateMemoryDeferral(i: nat) returns (refusal: Option<Refusal>)
      requires Ready() && i < |leases|
      modifies this`leases, this`deferrals
      ensures Ready() && Next(View(), refusal) == Adopt(old(View()), Defer(old(Record()), i))
      ensures old(Valid()) ==> Valid()
    {
      hide SysInv;
      DeferCarries(config, View(), i);
      if leases[i].releaseRequested || leases[i].finalized { return Some(Inactive); }
      leases := leases[i := leases[i].(owners := leases[i].owners + 1)];
      deferrals := deferrals + [Deferral(i, false)];
      refusal := None;
    }

    method EndMemoryDeferral(d: nat) returns (ok: bool)
      requires Ready() && d < |deferrals| && deferrals[d].lease < |leases|
      modifies this, governor, waitQueue
      ensures Ready()
      ensures ok <==> GiveBack(old(View()), ReleaseDeferral(old(Record()), d)).Next?
      ensures ok ==> Next(View(), None) == GiveBack(old(View()), ReleaseDeferral(old(Record()), d))
      ensures old(Valid()) ==> ok && Valid()
    {
      hide GiveBack, FinishOwner, SysInv;
      EndDeferralCarries(config, View(), d);
      ghost var start := View();
      NothingReturned(start, Record());
      if deferrals[d].released { return true; }
      deferrals := deferrals[d := deferrals[d].(released := true)];
      ghost var before := Record();
      assert View() == start.(books := before);
      FinishDrops(before, deferrals[d].lease);
      SameCounterReplies(start, before, FinishOwner(before, deferrals[d].lease));
      ok := FinishMemoryOwner(deferrals[d].lease);
    }

    /** A request asks for its release; its section follows later. */
    method RequestMemoryRelease(i: nat)
      requires Ready() && i < |leases|
      modifies this`leases
      ensures Ready() && View() == old(View()).(books := RequestRelease(old(Record()), i))
      ensures old(Valid()) ==> Valid()
    {
      hide SysInv;
      StepCarries(config, View(), RequestLeaseRelease(i));
      leases := leases[i := leases[i].(releaseRequested := true)];
    }

    /** The release critical section: finalize now, or leave that to the last owner. */
    method ReleaseRequest(i: nat) returns (ok: bool)
      requires Ready() && i < |leases|
      modifies this, governor, waitQueue
      ensures Ready()
      ensures ok <==> GiveBack(old(View()), RunRelease(old(Record()), i)).Next?
      ensures ok ==> Next(View(), None) == GiveBack(old(View()), RunRelease(old(Record()), i))
      ensures old(Valid()) ==> ok && Valid()
    {
      hide GiveBack, Finalize, SysInv;
      RunReleaseCarries(config, View(), i);
      ghost var start := View();
      NothingReturned(start, Record());
      if !leases[i].releaseRequested { return true; }
      leases := leases[i := leases[i].(releaseRan := true)];
      ghost var ran := Record();
      assert View() == start.(books := ran);
      if leases[i].owners != 0 {
        deferredLeases := deferredLeases + {i};
        NothingReturned(start, Record());
        return true;
      }
      FinalizeNeverRefuses(ran, i);
      SameCounterReplies(start, ran, Finalize(ran, i));
      ok := FinalizeRequestMemory(i);
    }
  }

  /** Starting from books with the same counters changes no release. */
  lemma SameCounterReplies(s: Sys, b: Books, r: Reply)
    requires b.body == s.books.body && b.response == s.books.response
    ensures r.Done? ==> GiveBack(s.(books := b), r) == GiveBack(s, r)
    ensures r.Broken? ==> GiveBack(s.(books := b), r).Failed? && GiveBack(s, r).Failed?
  {
    if r.Done? { SameCounters(s, b, r.books); }
  }

  /** A last owner leaving after bytes have been returned is one release of both. */
  lemma FinishedAfterReturn(s: Sys, b: Books, i: nat)
    requires i < |b.leases| && b.body == s.books.body && b.response <= s.books.response
    ensures var r := FinishOwner(b, i);
            var t := GiveBack(s, Done(b));
            && (GiveBack(s, r).Next? <==> t.Next? && GiveBack(t.sys, r).Next?)
            && (GiveBack(s, r).Next? ==> GiveBack(s, r) == GiveBack(t.sys, r))
  {
    hide GiveBack, Finalize;
    var r := FinishOwner(b, i);
    FinishDrops(b, i);
    if r.Done? { GiveBackTwice(s, b, r.books); }
    BrokenIsFailure(s, r);
    if GiveBack(s, Done(b)).Next? { BrokenIsFailure(GiveBack(s, Done(b)).sys, r); }
  }

  lemma FinishDrops(b: Books, i: nat)
    requires i < |b.leases|
    ensures var r := FinishOwner(b, i);
            !r.Refused? && (r.Done? ==> r.books.body <= b.body && r.books.response <= b.response)
  {
    hide ReleaseSlot, FinalLease, AllocatedBytes;
    var left := SetLease(b, i, b.leases[i].(owners := b.leases[i].owners - 1));
    if left.leases[i].body <= left.body && left.leases[i].response <= left.response {
      SlotCounters(Emptied(left, i), OfLease(i));
    }
  }

  /** A step from a valid state answers its caller and leaves a valid state. */
  lemma StepCarries(c: Config, s: Sys, e: Event)
    ensures SysInv(c, s) && Allowed(s, e) ==> Apply(c, s, e).Next? && SysInv(c, Apply(c, s, e).sys)
  {
    hide SysInv, Apply, Allowed, StepOf;
    if SysInv(c, s) && Allowed(s, e) { ApplyOk(c, s, e); }
  }

  /** The same for the steps that ask for response bytes: they answer whatever the state is. */
  lemma AskCarries(c: Config, s: Sys, e: Event)
    requires Allowed(s, e)
    ensures e.AskDirect? && SysInv(c, s) ==> SysInv(c, TakeDirect(c, s, e.lease, e.additional, e.reading).sys)
    ensures e.AskTemporary? && SysInv(c, s) ==> SysInv(c, TakeTemporary(c, s, e.lease, e.additional, e.reading).sys)
    ensures e.AskGrowth? && SysInv(c, s) ==> SysInv(c, TakeGrowth(c, s, e.temp, e.additional, e.reading).sys)
  {
    hide SysInv, TakeDirect, TakeTemporary, TakeGrowth;
    StepCarries(c, s, e);
  }

  lemma ReleaseBodyCarries(c: Config, s: Sys, i: nat, released: nat)
    requires i < |s.books.leases|
    ensures var o := GiveBack(s, ReleaseStaged(s.books, i, released));
            SysInv(c, s) ==> o.Next? && SysInv(c, o.sys)
  {
    hide SysInv, GiveBack, ReleaseStaged;
    StepCarries(c, s, ReleaseBody(i, released));
  }

  lemma CommitTempCarries(c: Config, s: Sys, t: nat)
    requires t < |s.books.temps| && s.books.temps[t].lease < |s.books.leases|
    ensures var o := GiveBack(s, CommitTemp(s.books, t));
            SysInv(c, s) ==> o.Next? && SysInv(c, o.sys)
  {
    hide SysInv, GiveBack, CommitTemp;
    StepCarries(c, s, CommitTemporary(t));
  }

  lemma ReleaseTempCarries(c: Config, s: Sys, t: nat)
    requires t < |s.books.temps| && s.books.temps[t].lease < |s.books.leases|
    ensures var o := GiveBack(s, ReleaseTemp(s.books, t));
            SysInv(c, s) ==> o.Next? && SysInv(c, o.sys)
  {
    hide SysInv, GiveBack, ReleaseTemp;
    StepCarries(c, s, ReleaseTemporary(t));
  }

  lemma EndDeferralCarries(c: Config, s: Sys, d: nat)
    requires d < |s.books.deferrals| && s.books.deferrals[d].lease < |s.books.leases|
    ensures var o := GiveBack(s, ReleaseDeferral(s.books, d));
            SysInv(c, s) ==> o.Next? && SysInv(c, o.sys)
  {
    hide SysInv, GiveBack, ReleaseDeferral;
    StepCarries(c, s, EndDeferral(d));
  }

  lemma RunReleaseCarries(c: Config, s: Sys, i: nat)
    requires i < |s.books.leases|
    ensures var o := GiveBack(s, RunRelease(s.books, i));
            SysInv(c, s) ==> o.Next? && SysInv(c, o.sys)
  {
    hide SysInv, GiveBack, RunRelease;
    StepCarries(c, s, RunLeaseRelease(i));
  }

  lemma TransferCarries(c: Config, s: Sys, p: nat, i: nat)
    requires p < |s.books.pendings| && i < |s.books.leases|
    ensures var o := Adopt(s, Transfer(c, s.books, p, i));
            SysInv(c, s) && Unflagged(s.books, p) ==> o.Next? && SysInv(c, o.sys)
  {
    hide SysInv, Adopt, Transfer;
    StepCarries(c, s, TransferPending(p, i));
  }

  lemma DeferCarries(c: Config, s: Sys, i: nat)
    requires i < |s.books.leases|
    ensures var o := Adopt(s, Defer(s.books, i));
            SysInv(c, s) ==> o.Next? && SysInv(c, o.sys)
  {
    hide SysInv, Adopt, Defer;
    StepCarries(c, s, DeferRelease(i));
  }

  lemma RoundCarries(c: Config, s: Sys, o: Owner, additional: nat, r: G.Reading, tenant: string, expired: bool)
    requires Known(s.books, o)
    ensures var round := Ask(c, s, o, additional, r, tenant, expired);
            SysInv(c, s) ==> round.Next? && SysInv(c, round.sys)
  {
    hide SysInv, Ask;
    StepCarries(c, s, AskBody(o, additional, r, tenant, expired));
  }

  lemma TurnCommitCarries(c: Config, s: Sys, w: nat)
    requires w < |s.waits| && Known(s.books, s.waits[w].owner)
    ensures SysInv(c, s) && Allowed(s, CommitUnderTurn(w)) ==>
              TurnCommit(c, s, w).Next? && SysInv(c, TurnCommit(c, s, w).sys)
  {
    hide SysInv, TurnCommit;
    StepCarries(c, s, CommitUnderTurn(w));
  }

  /** The second check under a turn, case by case. */
  lemma TurnCommitCases(c: Config, s: Sys, w: nat)
    requires w < |s.waits| && Known(s.books, s.waits[w].owner)
    ensures var x := s.waits[w];
            var refusal := GrowthRefusal(c, s.books, x.owner, x.additional);
            var reply := CommitGrowth(c, s.books, x.owner, x.additional);
            && !reply.Refused?
            && (refusal.Some? ==>
                  && (TurnCommit(c, s, w).Next? <==> TurnGiveUp(s, w, None).Next?)
                  && (TurnGiveUp(s, w, None).Next? ==>
                        TurnCommit(c, s, w) == Next(TurnGiveUp(s, w, None).sys, refusal)))
            && (refusal.None? && reply.Broken? ==> !TurnCommit(c, s, w).Next?)
            && (refusal.None? && reply.Done? ==>
                  TurnCommit(c, s, w)
                  == EndTurn(s.(books := reply.books, waits := s.waits[w := x.(reserved := false)]), w, None))
  {
    hide TurnGiveUp, CommitGrowth, GrowthRefusal, EndTurn;
    var x := s.waits[w];
    GiveUpRefusal(s, w, None, GrowthRefusal(c, s.books, x.owner, x.additional));
    GrowthNeverRefuses(c, s.books, x.owner, x.additional);
  }

  /** Giving up a turn in its steps: the bytes taken under it, then the turn. */
  lemma GiveUpPath(s: Sys, w: nat)
    requires w < |s.waits|
    ensures var x := s.waits[w];
            var without := s.(waits := s.waits[w := x.(reserved := false)]);
            var t := ReturnParent(without, BODY, if x.reserved then x.additional else 0);
            && (!t.Next? ==> !TurnGiveUp(s, w, None).Next?)
            && (t.Next? ==> t.sys.waits == without.waits && TurnGiveUp(s, w, None) == EndTurn(t.sys, w, None))
  {
    hide ReturnParent, EndTurn;
    var x := s.waits[w];
    var without := s.(waits := s.waits[w := x.(reserved := false)]);
    ReturnFrame(without, without.books, BODY, if x.reserved then x.additional else 0);
  }

  lemma GiveUpCarries(c: Config, s: Sys, w: nat)
    requires w < |s.waits|
    ensures SysInv(c, s) && HasTurn(s, w) ==> TurnGiveUp(s, w, None).Next? && SysInv(c, TurnGiveUp(s, w, None).sys)
  {
    hide SysInv, TurnGiveUp;
    StepCarries(c, s, GiveUpTurn(w));
    GiveUpRefusal(s, w, None, Some(BudgetExhausted));
    GiveUpRefusal(s, w, Some(BudgetExhausted), None);
  }

  lemma DropCarries(c: Config, s: Sys, p: nat)
    requires p < |s.books.pendings| && Calls(s, p).called > 0
    ensures var o := GiveBack(SectionRuns(s, p), ReleasePending(s.books, p));
            SysInv(c, s) ==> o.Next? && SysInv(c, o.sys)
  {
    hide SysInv, GiveBack, ReleasePending, SectionRuns;
    StepCarries(c, s, DropPending(p));
  }

  lemma SectionKeeps(s: Sys, p: nat)
    requires Calls(s, p).called > 0
    ensures SectionRuns(s, p) == s.(releasing := SectionRuns(s, p).releasing)
  {
  }

  /** A controller over an empty ledger, sharing a parent in which its two categories are unused. */
  lemma StartsValid(c: Config, parent: Option<G.Gov>, waiterLimit: Option<nat>)
    requires parent.Some? ==> G.Amount(parent.value, BODY) == 0 && G.Amount(parent.value, RESPONSE) == 0
    ensures SysInv(c, Start(parent, waiterLimit))
  {
    hide Inv, Q.Inv;
    EmptyInv(c);
    Q.NewInv(waiterLimit);
    assert Flights([]) == [];
  }

  /** The release of a reservation in its steps: bytes, parent, slot. */
  lemma DropPath(s: Sys, p: nat)
    requires p < |s.books.pendings|
    ensures var b := s.books;
            var section := GiveBack(s, ReleasePending(b, p));
            if b.pendings[p].bytes > b.pendingBody || b.pendings[p].bytes > b.body then !section.Next?
            else
              var drained := DrainedPending(b, p);
              && p < |drained.pendings|
              && var t := ReturnParent(s.(books := drained), BODY, b.pendings[p].bytes);
                 var r := ReleaseSlot(drained, OfPending(p));
                 && (section.Next? <==> t.Next? && r.Done?)
                 && (t.Next? && r.Done? ==> section == Next(t.sys.(books := r.books), None))
  {
    hide ReturnParent, ReleaseSlot, GiveBack, DrainedPending;
    BrokenIsFailure(s, ReleasePending(s.books, p));
    if s.books.pendings[p].bytes <= s.books.pendingBody && s.books.pendings[p].bytes <= s.books.body {
      DrainedCounts(s.books, p);
      SlotAfterReturn(s, DrainedPending(s.books, p), OfPending(p));
    }
  }

  /** A staged release in its steps: bytes, parent, and the slot or its holder record. */
  lemma StagedPath(s: Sys, i: nat, bytes: nat)
    requires i < |s.books.leases|
    ensures var l := s.books.leases[i];
            var staged := GiveBack(s, ReleaseStaged(s.books, i, bytes));
            if bytes == 0 || l.releaseRequested then staged == Next(s, None)
            else if bytes > l.body then staged == Next(s, Some(StagedTooLarge))
            else if bytes > s.books.body then !staged.Next?
            else
              var shrunk := ShrunkBooks(s.books, i, bytes);
              && i < |shrunk.leases| && shrunk.leases[i].body == l.body - bytes
              && var t := ReturnParent(s.(books := shrunk), BODY, bytes);
                 var r := if l.body == bytes then ReleaseSlot(shrunk, OfLease(i))
                          else UpdateHolder(shrunk, OfLease(i), l.body - bytes);
                 && (staged.Next? <==> t.Next? && r.Done?)
                 && (t.Next? && r.Done? ==> staged == Next(t.sys.(books := r.books), None))
  {
    hide GiveBack, ReturnParent, ReleaseSlot, UpdateHolder, ShrunkBooks;
    var l, o := s.books.leases[i], OfLease(i);
    NothingReturned(s, s.books);
    BrokenIsFailure(s, ReleaseStaged(s.books, i, bytes));
    if bytes <= l.body && bytes <= s.books.body {
      ShrunkCounts(s.books, i, bytes);
      SlotAfterReturn(s, ShrunkBooks(s.books, i, bytes), o);
      HolderAfterReturn(s, ShrunkBooks(s.books, i, bytes), o, l.body - bytes);
    }
  }

  lemma DrainedCounts(b: Books, p: nat)
    requires p < |b.pendings| && b.pendings[p].bytes <= b.pendingBody && b.pendings[p].bytes <= b.body
    ensures var r := DrainedPending(b, p);
            r.body == b.body - b.pendings[p].bytes && r.response == b.response && |r.pendings| == |b.pendings|
  {
  }

  lemma FinalizeNeverRefuses(b: Books, i: nat)
    requires i < |b.leases|
    ensures !Finalize(b, i).Refused?
  {
    if b.leases[i].body <= b.body && b.leases[i].response <= b.response { SlotCounters(Emptied(b, i), OfLease(i)); }
  }

  lemma CommittedCounts(b: Books, t: nat)
    requires t < |b.temps| && b.temps[t].lease < |b.leases|
    ensures var r := BeforeCommitEnds(b, t);
            r.body == b.body && r.response == b.response && |r.leases| == |b.leases|
  {
  }

  lemma RolledBackCounts(b: Books, t: nat)
    requires t < |b.temps| && b.temps[t].lease < |b.leases|
    requires b.temps[t].size <= b.leases[b.temps[t].lease].response && b.temps[t].size <= b.response
    ensures var r := BeforeReleaseEnds(b, t);
            r.body == b.body && r.response == b.response - b.temps[t].size && |r.leases| == |b.leases|
  {
  }

  /** A lease without its body, and the counter with it. */
  ghost function WithoutBody(b: Books, i: nat): Books
    requires i < |b.leases| && b.leases[i].body <= b.body
  {
    SetLease(b, i, b.leases[i].(body := 0)).(body := b.body - b.leases[i].body)
  }

  /** A lease whose allocations have been released, closed. */
  ghost function Closed(b: Books, i: nat): Books
    requires i < |b.leases|
  {
    var l := b.leases[i];
    SetLease(b, i, l.(allocations := [], summaries := l.cycles - {UNATTRIBUTED}, cycles := map[], finalized := true))
      .(deferred := b.deferred - {i})
  }

  /** Giving up a slot after the parent has been told is the same as before. */
  lemma SlotAfterReturn(s: Sys, b: Books, o: Owner)
    requires Known(b, o) && b.body <= s.books.body && b.response == s.books.response
    ensures var t := ReturnParent(s.(books := b), BODY, s.books.body - b.body);
            var r := ReleaseSlot(b, o);
            && (GiveBack(s, r).Next? <==> t.Next? && r.Done?)
            && (t.Next? && r.Done? ==> GiveBack(s, r) == Next(t.sys.(books := r.books), None))
  {
    hide ReturnParent;
    var d := s.books.body - b.body;
    SlotCounters(b, o);
    ReturnFrame(s, b, BODY, d);
    if ReleaseSlot(b, o).Done? {
      var r := ReleaseSlot(b, o).books;
      ReturnFrame(s, r, BODY, d);
      Returns(s, r);
      if ReturnParent(s, BODY, d).Next? { NoReturn(ReturnParent(s.(books := r), BODY, d).sys, RESPONSE); }
    }
  }

  lemma ShrunkCounts(b: Books, i: nat, bytes: nat)
    requires i < |b.leases| && bytes <= b.leases[i].body && bytes <= b.body
    ensures var r := ShrunkBooks(b, i, bytes);
            && r.body == b.body - bytes && r.response == b.response
            && i < |r.leases| && r.leases[i].body == b.leases[i].body - bytes
  {
  }

  lemma MovedKnown(b: Books, p: nat, i: nat)
    requires p < |b.pendings| && i < |b.leases| && b.pendings[p].bytes <= b.pendingBody
    requires b.pendings[p].slot ==> b.pendings[p].claim.Some?
    ensures Known(MovedBooks(b, p, i), OfLease(i))
  {
  }

  lemma SettleNeverRefuses(c: Config, b: Books, o: Owner)
    requires Known(b, o)
    ensures !Settle(c, b, o).Refused?
  {
  }

  lemma NoReturn(s: Sys, k: G.Category)
    ensures ReturnParent(s, k, 0) == Next(s, None)
  {
  }

  lemma SlotCounters(b: Books, o: Owner)
    requires Known(b, o)
    ensures !ReleaseSlot(b, o).Refused?
    ensures ReleaseSlot(b, o).Done? ==>
              ReleaseSlot(b, o).books.body == b.body && ReleaseSlot(b, o).books.response == b.response
  {
  }

  lemma HolderAfterReturn(s: Sys, b: Books, o: Owner, bytes: nat)
    requires Known(b, o) && b.body <= s.books.body && b.response == s.books.response
    ensures var t := ReturnParent(s.(books := b), BODY, s.books.body - b.body);
            var r := UpdateHolder(b, o, bytes);
            && (GiveBack(s, r).Next? <==> t.Next? && r.Done?)
            && (t.Next? && r.Done? ==> GiveBack(s, r) == Next(t.sys.(books := r.books), None))
  {
    hide ReturnParent;
    var d := s.books.body - b.body;
    HolderCounters(b, o, bytes);
    ReturnFrame(s, b, BODY, d);
    if UpdateHolder(b, o, bytes).Done? {
      var r := UpdateHolder(b, o, bytes).books;
      ReturnFrame(s, r, BODY, d);
      Returns(s, r);
      if ReturnParent(s, BODY, d).Next? { NoReturn(ReturnParent(s.(books := r), BODY, d).sys, RESPONSE); }
    }
  }

  lemma HolderCounters(b: Books, o: Owner, bytes: nat)
    requires Known(b, o)
    ensures !UpdateHolder(b, o, bytes).Refused?
    ensures UpdateHolder(b, o, bytes).Done? ==>
              UpdateHolder(b, o, bytes).books.body == b.body && UpdateHolder(b, o, bytes).books.response == b.response
  {
  }

  lemma AskKeepsBooks(s: Sys, k: G.Category, size: nat, r: G.Reading)
    ensures AskParent(s, k, size, r).0 == s.(parent := AskParent(s, k, size, r).0.parent)
  {
  }

  lemma GrowthNeverRefuses(c: Config, b: Books, o: Owner, additional: nat)
    requires Known(b, o)
    ensures !CommitGrowth(c, b, o, additional).Refused?
  {
  }

  lemma GiveUpRefusal(s: Sys, w: nat, a: Option<Refusal>, b: Option<Refusal>)
    requires w < |s.waits|
    ensures TurnGiveUp(s, w, a).Next? <==> TurnGiveUp(s, w, b).Next?
    ensures TurnGiveUp(s, w, a).Next? ==> TurnGiveUp(s, w, b) == Next(TurnGiveUp(s, w, a).sys, b)
  {
  }

  /** A round of a reservation, case by case. */
  lemma AskCases(c: Config, s: Sys, o: Owner, additional: nat, r: G.Reading, tenant: string, expired: bool)
    requires Known(s.books, o)
    ensures var hard := HardRefusal(c, s.books, o, Bytes(s.books, o) + additional);
            var reason := MustWait(c, s, o, additional);
            var (asked, allowed) := AskParent(s, BODY, additional, r);
            var round := Ask(c, s, o, additional, r, tenant, expired);
            && asked.books == s.books && asked.queue == s.queue
            && (hard.Some? ==> round == Next(s, hard))
            && (hard.None? && reason.None? && allowed ==>
                  round == Adopt(asked, CommitGrowth(c, s.books, o, additional)))
            && (hard.None? && (reason.Some? || !allowed) ==>
                  var t := if reason.Some? then s else asked;
                  var x := if reason.Some? then reason.value else BudgetExhausted;
                  round == if expired || s.queue.limit == Some(0) then Next(t, Some(x))
                           else Enqueue(c, t, o, additional, x, tenant))
  {
    hide Enqueue, CommitGrowth, MustWait, HardRefusal;
  }

  lemma EnqueueCases(c: Config, s: Sys, o: Owner, additional: nat, reason: Refusal, tenant: string)
    requires Known(s.books, o)
    ensures var small := SmallLane(c, Bytes(s.books, o) + additional);
            var asleep := Sleep(c, s, o, additional, reason);
            match Q.Join(asleep, tenant, small)
            case None => Enqueue(c, s, o, additional, reason, tenant) == Next(s.(queue := asleep), Some(reason))
            case Some(q) =>
              Enqueue(c, s, o, additional, reason, tenant)
              == Next(s.(queue := q, waits := s.waits + [Wait(o, additional, small, false)]), None)
  {
    hide Q.Join, Sleep;
  }

  lemma AdmitKeeps(c: Config, s: Sys, i: nat, k: Key, additional: nat, r: G.Reading)
    requires i < |s.books.leases|
    ensures var (t, refusal) := AdmitResponse(c, s, i, k, additional, r);
            refusal.None? ==> t == s.(parent := t.parent)
  {
  }

  lemma PartlyLease(b: Books, i: nat, a: seq<Allocation>)
    requires i < |b.leases| && AllocatedBytes(a, None) <= b.leases[i].response && AllocatedBytes(a, None) <= b.response
    ensures var p := Partly(b, i, a);
            && i < |p.leases| && p.leases[i].response == b.leases[i].response - AllocatedBytes(a, None)
            && p.response == b.response - AllocatedBytes(a, None) && p.body == b.body
  {
  }

  lemma GiveBackRefusal(s: Sys, b: Books)
    ensures GiveBack(s, Done(b)).Next? ==> GiveBack(s, Done(b)).refusal == None && GiveBack(s, Done(b)).sys.books == b
  {
    hide ReturnParent;
    var d, e := Drop(s.books.body, b.body), Drop(s.books.response, b.response);
    var t := ReturnParent(s.(books := b), BODY, d);
    ReturnFrame(s.(books := b), b, BODY, d);
    if t.Next? { ReturnFrame(t.sys, b, RESPONSE, e); }
  }

  /** When some of the allocations cannot be returned to the parent, all of them cannot. */
  lemma FailsAtOnce(s: Sys, b: Books, i: nat, a: seq<Allocation>, j: nat)
    requires s.books == b && i < |b.leases| && j <= |a| && b.leases[i].response <= b.response
    requires AllocatedBytes(a[..j], None) <= b.leases[i].response
    requires !GiveBack(s, Done(Partly(b, i, a[..j]))).Next?
    ensures AllocatedBytes(a, None) <= b.leases[i].response ==> !GiveBack(s, Done(Partly(b, i, a))).Next?
  {
    hide GiveBack, Partly;
    AllocatedPrefix(a, j);
    if AllocatedBytes(a, None) <= b.leases[i].response {
      PartlyLease(b, i, a[..j]);
      PartlyLease(b, i, a);
      GiveBackTwice(s, Partly(b, i, a[..j]), Partly(b, i, a));
    }
  }

  /** One more allocation of a lease: too large for what is left, or released as the next of all of them. */
  lemma NextAllocation(s: Sys, t: Sys, i: nat, a: seq<Allocation>, j: nat)
    requires i < |s.books.leases| && j < |a|
    requires AllocatedBytes(a[..j], None) <= s.books.leases[i].response <= s.books.response
    requires GiveBack(s, Done(Partly(s.books, i, a[..j]))) == Next(t, None) && t.books == Partly(s.books, i, a[..j])
    ensures i < |t.books.leases| && t.books.leases[i].response <= t.books.response
    ensures a[j].bytes > t.books.leases[i].response ==> AllocatedBytes(a, None) > s.books.leases[i].response
    ensures a[j].bytes <= t.books.leases[i].response ==>
              var next := SetLease(t.books, i, ReleasedOne(t.books.leases[i], a[j]))
                            .(response := t.books.response - a[j].bytes);
              && AllocatedBytes(a[..j + 1], None) <= s.books.leases[i].response
              && next == Partly(s.books, i, a[..j + 1])
              && (GiveBack(t, Done(next)).Next? ==>
                    GiveBack(s, Done(next)) == Next(GiveBack(t, Done(next)).sys, None))
              && (!GiveBack(t, Done(next)).Next? && AllocatedBytes(a, None) <= s.books.leases[i].response ==>
                    !GiveBack(s, Done(Partly(s.books, i, a))).Next?)
  {
    hide GiveBack, Partly, ReleasedOne, AllocatedBytes;
    var b := s.books;
    AllocatedNext(a, j);
    PartlyLease(b, i, a[..j]);
    if a[j].bytes <= t.books.leases[i].response {
      PartlyNext(b, i, a, j);
      var next := Partly(b, i, a[..j + 1]);
      PartlyLease(b, i, a[..j + 1]);
      GiveBackTwice(s, t.books, next);
      GiveBackRefusal(s, next);
      if !GiveBack(t, Done(next)).Next? { FailsAtOnce(s, b, i, a, j + 1); }
    }
  }

  lemma WithoutBodyLease(b: Books, i: nat)
    requires i < |b.leases| && b.leases[i].body <= b.body
    ensures var w := WithoutBody(b, i);
            && i < |w.leases| && w.leases[i] == b.leases[i].(body := 0)
            && w.response == b.response && w.body == b.body - b.leases[i].body
  {
  }

  /** The allocations released at finalization add up to what the lease holds. */
  lemma FinalAllocationsAre(l: Lease, a: seq<Allocation>, total: nat)
    requires total == AllocatedBytes(l.allocations, None) <= l.response
    requires a == if total < l.response then l.allocations + [Allocation(Synthetic, CurrentKey(l), l.response - total)]
                  else l.allocations
    ensures a == FinalAllocations(l) && AllocatedBytes(a, None) == l.response
  {
    if total < l.response { assert a[..|a| - 1] == l.allocations; }
  }

  lemma FinalTotal(l: Lease)
    requires AllocatedBytes(l.allocations, None) <= l.response
    ensures AllocatedBytes(FinalAllocations(l), None) == l.response
  {
    var total := AllocatedBytes(l.allocations, None);
    FinalAllocationsAre(l, FinalAllocations(l), total);
  }

  /** Released allocation by allocation and closed, a lease is empty. */
  lemma EmptiedInSteps(b: Books, i: nat)
    requires i < |b.leases| && b.leases[i].body <= b.body && b.leases[i].response <= b.response
    requires AllocatedBytes(b.leases[i].allocations, None) <= b.leases[i].response
    ensures var l := b.leases[i];
            var w := WithoutBody(b, i);
            && i < |w.leases| && AllocatedBytes(FinalAllocations(l), None) == w.leases[i].response <= w.response
            && i < |Partly(w, i, FinalAllocations(l)).leases|
            && Closed(Partly(w, i, FinalAllocations(l)), i) == Emptied(b, i)
            && Partly(w, i, FinalAllocations(l)).body == Emptied(b, i).body
            && Partly(w, i, FinalAllocations(l)).response == Emptied(b, i).response
            && i < |Emptied(b, i).leases|
  {
    hide FinalAllocations, AllocatedBytes, ReleasedCycles;
    FinalTotal(b.leases[i]);
    var w := WithoutBody(b, i);
    var p := Partly(w, i, FinalAllocations(b.leases[i]));
    assert Closed(p, i).leases == Emptied(b, i).leases;
  }

  /** Books with the same counters are given back alike. */
  lemma SameDrops(s: Sys, p: Books, e: Books)
    requires p.body == e.body && p.response == e.response
    ensures GiveBack(s, Done(e)).Next? <==> GiveBack(s, Done(p)).Next?
    ensures GiveBack(s, Done(p)).Next? ==> GiveBack(s, Done(e)) == Next(GiveBack(s, Done(p)).sys.(books := e), None)
  {
    hide ReturnParent;
    var d, f := Drop(s.books.body, e.body), Drop(s.books.response, e.response);
    ReturnFrame(s.(books := p), e, BODY, d);
    var t := ReturnParent(s.(books := p), BODY, d);
    if t.Next? { ReturnFrame(t.sys, e, RESPONSE, f); ReturnFrame(t.sys.(books := e), p, RESPONSE, f); }
    assert s.(books := p).(books := e) == s.(books := e);
  }

  /** The checks made before anything is finalized. */
  lemma FinalizeGuards(s: Sys, i: nat)
    requires i < |s.books.leases|
    ensures var b, l := s.books, s.books.leases[i];
            && (l.finalized ==> GiveBack(s, Finalize(b, i)) == Next(s, None))
            && (!l.finalized && (l.body > b.body || l.response > b.response) ==> !GiveBack(s, Finalize(b, i)).Next?)
  {
    hide GiveBack;
    NothingReturned(s, s.books);
    BrokenIsFailure(s, Finalize(s.books, i));
  }

  /** A finalization in its steps: body, allocations, closing, slot. */
  lemma FinalizePath(s: Sys, b: Books, i: nat)
    requires s.books == b && i < |b.leases| && !b.leases[i].finalized
    requires b.leases[i].body <= b.body && b.leases[i].response <= b.response
    ensures var l := b.leases[i];
            var w := WithoutBody(b, i);
            var t := GiveBack(s, Done(w));
            && (!t.Next? || AllocatedBytes(l.allocations, None) > l.response ==> !GiveBack(s, Finalize(b, i)).Next?)
            && (t.Next? && AllocatedBytes(l.allocations, None) <= l.response ==>
                  && i < |w.leases| && AllocatedBytes(FinalAllocations(l), None) <= w.leases[i].response <= w.response
                  && var p := Partly(w, i, FinalAllocations(l));
                     var u := GiveBack(t.sys, Done(p));
                     && i < |p.leases| && Known(Closed(p, i), OfLease(i))
                     && var r := ReleaseSlot(Closed(p, i), OfLease(i));
                        && (GiveBack(s, Finalize(b, i)).Next? <==> u.Next? && r.Done?)
                        && (u.Next? && r.Done? ==> GiveBack(s, Finalize(b, i)) == Next(u.sys.(books := r.books), None)))
  {
    hide GiveBack, ReleaseSlot, Partly, WithoutBody, Closed, Emptied, FinalAllocations, AllocatedBytes;
    var l := b.leases[i];
    var w := WithoutBody(b, i);
    WithoutBodyLease(b, i);
    BrokenIsFailure(s, Finalize(b, i));
    if AllocatedBytes(l.allocations, None) <= l.response {
      EmptiedInSteps(b, i);
      var p := Partly(w, i, FinalAllocations(l));
      var e := Emptied(b, i);
      PartlyLease(w, i, FinalAllocations(l));
      GiveBackTwice(s, w, p);
      SameDrops(s, p, e);
      SlotCounters(e, OfLease(i));
      BrokenIsFailure(s, ReleaseSlot(e, OfLease(i)));
      if ReleaseSlot(e, OfLease(i)).Done? { SameDrops(s, p, ReleaseSlot(e, OfLease(i)).books); }
    }
  }
}
