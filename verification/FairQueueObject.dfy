/** The wait queue object: dictionaries, rotation deques and flags updated in place. */
module FairQueueObject {
  import opened Common
  import opened FairQueue

  /** Waiter `w` was handed the lane's turn and has not ended it. */
  predicate HoldsTurn(q: Queue, lane: bool, w: WaiterId) {
    w < |q.waiters| && q.waiters[w].small == lane && w in Get(q, lane).turns
  }

  class FairBodyMemoryWaitQueue {
    const limit: Option<nat>
    var queues: map<bool, map<Tenant, seq<WaiterId>>>
    var rotation: map<bool, seq<Tenant>>
    var activeTurn: map<bool, bool>
    var promotionEnabled: map<bool, bool>
    var count: int
    var waiters: seq<Waiter>
    ghost var turns: map<bool, set<WaiterId>>
    ghost var log: map<bool, seq<Tenant>>

    /** The two-entry dictionaries have both entries. */
    ghost predicate Ready()
      reads this
    {
      forall lane: bool ::
        lane in queues && lane in rotation && lane in activeTurn && lane in promotionEnabled
        && lane in turns && lane in log
    }

    /** Both lanes are settled and every waiter is in its place. */
    ghost predicate Valid()
      reads this
    {
      Ready() && Inv(View())
    }

    ghost function LaneView(lane: bool): Lane
      reads this
      requires Ready()
    {
      Lane(queues[lane], rotation[lane], activeTurn[lane], promotionEnabled[lane], turns[lane], log[lane])
    }

    ghost function View(): Queue
      reads this
      requires Ready()
    {
      Queue(limit, LaneView(true), LaneView(false), count, waiters)
    }

    constructor (limit: Option<nat>)
      ensures Valid() && View() == New(limit)
    {
      this.limit := limit;
      queues := map[true := map[], false := map[]];
      rotation := map[true := [], false := []];
      activeTurn := map[true := false, false := false];
      promotionEnabled := map[true := true, false := true];
      count, waiters := 0, [];
      turns := map[true := {}, false := {}];
      log := map[true := [], false := []];
      new;
      NewInv(limit);
    }

    /** True when the lane's turn is out or somebody is queued in it. */
    method HasWaiters(lane: bool) returns (some: bool)
      requires Ready()
      ensures some <==> FairQueue.HasWaiters(View(), lane)
    {
      some := activeTurn[lane] || exists t :: t in queues[lane] && queues[lane][t] != [];
    }

    /** Pops the front token, and with it the first waiter of its tenant when there is one. */
    method PopToken(lane: bool) returns (waiter: Option<WaiterId>)
      requires Ready() && rotation[lane] != []
      modifies this
      ensures Ready()
      ensures waiter == TakeToken(old(LaneView(lane))).1
      ensures View() == if waiter.None? then Put(old(View()), lane, TakeToken(old(LaneView(lane))).0)
                        else Taken(old(View()), lane)
    {
      var tenant := rotation[lane][0];
      var rest := rotation[lane][1..];
      var tenantQueues := queues[lane];
      if tenant !in tenantQueues || tenantQueues[tenant] == [] {
        tenantQueues := tenantQueues - {tenant};
        waiter := None;
      } else {
        var line := tenantQueues[tenant];
        waiter := Some(line[0]);
        count := count - 1;
        if |line| > 1 {
          tenantQueues := tenantQueues[tenant := line[1..]];
          rest := rest + [tenant];
        } else {
          tenantQueues := tenantQueues - {tenant};
        }
      }
      rotation := rotation[lane := rest];
      queues := queues[lane := tenantQueues];
    }

    method GrantTurn(lane: bool, waiter: WaiterId)
      requires Ready() && waiter < |waiters|
      modifies this
      ensures Ready() && View() == Grant(old(View()), lane, waiter)
    {
      log := log[lane := log[lane] + [waiters[waiter].tenant]];
      waiters := waiters[waiter := waiters[waiter].(state := Granted)];
      activeTurn := activeTurn[lane := true];
      turns := turns[lane := turns[lane] + {waiter}];
    }

    /** Hands the free turn to the next tenant in the rotation that still has a waiter. */
    method Promote(lane: bool)
      requires Ready()
      modifies this
      ensures Ready() && View() == FairQueue.Promote(old(View()), lane)
    {
      hide TakeToken, Grant, Backlog;
      if activeTurn[lane] || !promotionEnabled[lane] { return; }
      ghost var entry := View();
      while rotation[lane] != []
        invariant Ready()
        invariant Rotate(entry, lane) == Rotate(View(), lane)
        decreases Backlog(LaneView(lane)), |rotation[lane]|
      {
        ghost var here := View();
        TakeTokenShrinks(Get(here, lane));
        var waiter := PopToken(lane);
        if waiter.None? { continue; }
        if waiter.value >= |waiters| || waiters[waiter.value].state != Queued { continue; }
        GrantTurn(lane, waiter.value);
        return;
      }
    }

    /** Appends a new waiter to its tenant's line, giving the tenant a token if it has no line. */
    method Append(named: Tenant, lane: bool)
      requires Ready()
      modifies this
      ensures Ready() && View() == Joined(old(View()), named, lane)
    {
      var line := [];
      if named !in queues[lane] {
        rotation := rotation[lane := rotation[lane] + [named]];
      } else {
        line := queues[lane][named];
      }
      queues := queues[lane := queues[lane][named := line + [|waiters|]]];
      waiters := waiters + [Waiter(named, lane, Queued)];
      count := count + 1;
    }

    /** Joins the queue; None when it is full. */
    method Enqueue(tenant: string, lane: bool) returns (joined: Option<WaiterId>)
      requires Ready()
      modifies this
      ensures Ready()
      ensures joined.None? <==> Join(old(View()), tenant, lane).None?
      ensures joined.None? ==> View() == old(View())
      ensures joined.Some? ==>
                joined.value == |old(waiters)| && Some(View()) == Join(old(View()), tenant, lane)
      ensures old(Valid()) ==> Valid() && (joined.None? <==> limit.Some? && old(count) == limit.value)
    {
      hide Inv, FairQueue.Promote;
      if Valid() { JoinInv(View(), tenant, lane); }
      if limit.Some? && count >= limit.value { return None; }
      joined := Some(|waiters|);
      Append(Normalize(tenant), lane);
      Promote(lane);
    }

    /** Ends the lane's turn; `ok` is false for the underflow error. */
    method EndTurn(lane: bool, ghost holder: WaiterId) returns (ok: bool)
      requires Ready()
      modifies this
      ensures Ready()
      ensures ok <==> FinishTurn(old(View()), lane, holder).Some?
      ensures ok ==> Some(View()) == FinishTurn(old(View()), lane, holder)
      ensures !ok ==> View() == old(View())
      ensures old(Valid() && HoldsTurn(View(), lane, holder)) ==> ok && Valid()
    {
      hide Inv, FairQueue.Promote;
      if Valid() && HoldsTurn(View(), lane, holder) { FinishTurnInv(View(), holder); }
      if !activeTurn[lane] { return false; }
      ghost var entry := View();
      activeTurn := activeTurn[lane := false];
      turns := turns[lane := turns[lane] - {holder}];
      assert View() == Returned(entry, lane, holder);
      Promote(lane);
      ok := true;
    }

    method BlockUntilRelease(lane: bool)
      requires Ready()
      modifies this
      ensures Ready() && View() == Block(old(View()), lane)
      ensures old(Valid()) ==> Valid()
    {
      hide Inv;
      if Valid() { ApplyInv(View(), Event.BlockUntilRelease(lane)); }
      promotionEnabled := promotionEnabled[lane := false];
    }

    method NotifyMemoryReleased()
      requires Ready()
      modifies this
      ensures Ready() && View() == Notify(old(View()))
      ensures old(Valid()) ==> Valid()
    {
      hide Inv, FairQueue.Promote;
      if Valid() { NotifyInv(View()); }
      ghost var entry := View();
      promotionEnabled := promotionEnabled[true := true];
      assert View() == Put(entry, true, entry.small.(enabled := true));
      Promote(true);
      ghost var middle := View();
      promotionEnabled := promotionEnabled[false := true];
      assert View() == Put(middle, false, middle.large.(enabled := true));
      Promote(false);
    }

    /** Timeout or cancellation of a waiter; `ok` is false for the underflow error. */
    method Abandon(w: WaiterId) returns (ok: bool)
      requires Ready() && w < |waiters|
      modifies this
      ensures Ready()
      ensures ok <==> Remove(old(View()), w).Some?
      ensures ok ==> Some(View()) == Remove(old(View()), w)
      ensures old(Valid() && Allowed(View(), Event.Abandon(w))) ==> ok && Valid()
    {
      hide Inv, FairQueue.Promote;
      if Valid() && Allowed(View(), Event.Abandon(w)) { RemoveInv(View(), w); }
      var waiter := waiters[w];
      ghost var entry := View();
      if waiter.state == Granted {
        waiters := waiters[w := waiter.(state := Abandoned)];
        assert View() == entry.(waiters := waiters);
        ok := EndTurn(waiter.small, w);
        return;
      }
      if waiter.state != Queued { return true; }
      waiters := waiters[w := waiter.(state := Abandoned)];
      if waiter.tenant in queues[waiter.small] {
        var line := queues[waiter.small][waiter.tenant];
        if w in line {
          line := Without(line, w);
          count := count - 1;
        } else {
          WithoutAbsent(line, w);
        }
        queues := queues[waiter.small := Store(queues[waiter.small], waiter.tenant, line)];
      }
      ok := true;
    }
  }
}
