/**
 The request gate: a bounded number of active requests, a bounded FIFO of waiters, and
 grants that race with timeouts and cancellations.
 */
module RequestGate {
  import opened Common

  type RequestId = nat

  /**
   `Queued`, `Granted` and `Abandoned` are the waiter's own states; `Held` and `Released`
   say what became of a grant once its lease reached the caller.
   */
  datatype State = Queued | Granted | Held | Released | Abandoned

  /**
   Requests are numbered in order of admission or queueing. `log` is history: the requests
   granted so far, in order.
   */
  datatype Gate = Gate(
    capacity: nat, waiterLimit: nat, active: int,
    waiters: seq<RequestId>, states: seq<State>, log: seq<RequestId>)

  function New(capacity: nat, waiterLimit: nat): Gate { Gate(capacity, waiterLimit, 0, [], [], []) }

  function Weight(s: State): int { if s == Granted || s == Held then 1 else 0 }

  function Weights(states: seq<State>): seq<int> {
    seq(|states|, i requires 0 <= i < |states| => Weight(states[i]))
  }

  /** Leases in callers' hands plus grants not yet delivered. */
  function Occupancy(states: seq<State>): int { Total(Weights(states)) }

  lemma OccupancyUpdate(states: seq<State>, i: nat, s: State)
    requires i < |states|
    ensures Occupancy(states[i := s]) == Occupancy(states) - Weight(states[i]) + Weight(s)
  {
    assert Weights(states[i := s]) == Weights(states)[i := Weight(s)];
    TotalUpdate(Weights(states), i, Weight(s));
  }

  lemma OccupancyAppend(states: seq<State>, s: State)
    ensures Occupancy(states + [s]) == Occupancy(states) + Weight(s)
  {
    assert Weights(states + [s]) == Weights(states) + [Weight(s)];
    TotalAppend(Weights(states), Weight(s));
  }

  // ----- operations -----

  /** Hands free capacity to the head of the queue until one of the two runs out. */
  function Promote(g: Gate): Gate
    decreases |g.waiters|
  {
    if g.active < g.capacity && g.waiters != [] then
      var w := g.waiters[0];
      var rest := g.(waiters := g.waiters[1..]);
      if w >= |g.states| || g.states[w] != Queued then Promote(rest)
      else Promote(rest.(active := g.active + 1, states := g.states[w := Granted], log := g.log + [w]))
    else g
  }

  datatype Entry = Admitted(gate: Gate) | Waits(gate: Gate) | QueueFull

  function Admit(g: Gate, s: State): Gate {
    g.(active := g.active + 1, states := g.states + [s], log := g.log + [|g.states|])
  }

  /** Claims a slot or a waiter position. */
  function BeginAcquire(g: Gate): Entry {
    if g.active < g.capacity && g.waiters == [] then Admitted(Admit(g, Held))
    else if |g.waiters| >= g.waiterLimit then QueueFull
    else Waits(g.(waiters := g.waiters + [|g.states|], states := g.states + [Queued]))
  }

  function TryAcquire(g: Gate): Option<Gate> {
    if g.active >= g.capacity || g.waiters != [] then None else Some(Admit(g, Held))
  }

  datatype Outcome = Next(gate: Gate) | MissingWaiter | Underflow

  function Abandon(g: Gate, w: RequestId): Outcome
    requires w < |g.states|
  {
    var gone := g.(states := g.states[w := State.Abandoned]);
    match g.states[w]
    case Queued =>
      if w !in g.waiters then MissingWaiter else Next(Promote(gone.(waiters := Without(g.waiters, w))))
    case Granted => Next(Promote(gone.(active := g.active - 1)))
    case _ => Next(g)
  }

  /** Returning a held lease; releasing twice does nothing. */
  function Release(g: Gate, w: RequestId): Outcome
    requires w < |g.states|
  {
    if g.states[w] != Held then Next(g)
    else if g.active <= 0 then Underflow
    else Next(Promote(g.(active := g.active - 1, states := g.states[w := State.Released])))
  }

  // ----- invariant -----

  /** The queue holds exactly the queued requests, oldest first. */
  predicate QueueOk(g: Gate) {
    && Increasing(g.waiters)
    && (forall w :: w in g.waiters ==> w < |g.states| && g.states[w] == Queued)
    && (forall w :: 0 <= w < |g.states| && g.states[w] == Queued ==> w in g.waiters)
  }

  /** Grants so far: each once, in arrival order, and none past a request that still waits. */
  predicate Fifo(g: Gate) {
    && Increasing(g.log)
    && (forall i :: 0 <= i < |g.log| ==> g.log[i] < |g.states|)
    && (forall i, w :: 0 <= i < |g.log| && w in g.waiters ==> g.log[i] < w)
    && (forall w :: 0 <= w < |g.states| && g.states[w] in {Granted, Held, State.Released} ==> w in g.log)
  }

  ghost predicate Core(g: Gate) {
    && QueueOk(g) && Fifo(g)
    && g.active == Occupancy(g.states)
    && g.active <= g.capacity
    && |g.waiters| <= g.waiterLimit
  }

  /** A request waits only while the gate is full. */
  ghost predicate Inv(g: Gate) { Core(g) && (g.waiters != [] ==> g.active == g.capacity) }

  lemma GrantCore(g: Gate)
    requires Core(g) && g.active < g.capacity && g.waiters != []
    ensures var w := g.waiters[0];
            && w < |g.states| && g.states[w] == Queued
            && Core(g.(waiters := g.waiters[1..], active := g.active + 1,
                       states := g.states[w := Granted], log := g.log + [w]))
  {
    var w := g.waiters[0];
    assert w in g.waiters;
    var p := g.(waiters := g.waiters[1..], active := g.active + 1,
                states := g.states[w := Granted], log := g.log + [w]);
    OccupancyUpdate(g.states, w, Granted);
    assert QueueOk(p) by {
      assert forall v :: v in g.waiters <==> v == w || v in p.waiters;
      assert forall i :: 0 <= i < |p.waiters| ==> p.waiters[i] == g.waiters[i + 1] > w;
    }
    assert Fifo(p) by {
      assert forall v :: v in g.log ==> v in p.log;
      assert p.log[|g.log|] == w;
    }
  }

  /** Promotion ends with the gate full or the queue empty. */
  lemma {:induction false} PromoteInv(g: Gate)
    requires Core(g)
    ensures Inv(Promote(g)) && |Promote(g).states| == |g.states|
    ensures g.log <= Promote(g).log
    decreases |g.waiters|
  {
    if g.active < g.capacity && g.waiters != [] {
      GrantCore(g);
      var w := g.waiters[0];
      PromoteInv(g.(waiters := g.waiters[1..], active := g.active + 1,
                    states := g.states[w := Granted], log := g.log + [w]));
    }
  }

  lemma AdmitInv(g: Gate)
    requires Inv(g) && g.active < g.capacity && g.waiters == []
    ensures Inv(Admit(g, Held))
  {
    OccupancyAppend(g.states, Held);
    var p := Admit(g, Held);
    assert p.log[|g.log|] == |g.states|;
    assert forall v :: v in g.log ==> v in p.log;
  }

  /** Neither entry overtakes: both are admitted at once only past an empty queue. */
  lemma BeginAcquireInv(g: Gate)
    requires Inv(g)
    ensures var e := BeginAcquire(g);
            && (e.Admitted? <==> g.active < g.capacity && g.waiters == [])
            && (e.QueueFull? <==> !e.Admitted? && |g.waiters| == g.waiterLimit)
            && (!e.QueueFull? ==> Inv(e.gate))
  {
    match BeginAcquire(g)
    case Admitted(p) => AdmitInv(g);
    case Waits(p) =>
      OccupancyAppend(g.states, Queued);
      assert QueueOk(p) by {
        assert p.waiters[|g.waiters|] == |g.states|;
        assert forall i :: 0 <= i < |g.waiters| ==> g.waiters[i] in g.waiters;
        assert forall v :: v in p.waiters <==> v == |g.states| || v in g.waiters;
      }
      assert p.active == p.capacity;
    case QueueFull =>
  }

  lemma WithoutCore(g: Gate, w: RequestId)
    requires Core(g) && w < |g.states| && g.states[w] == Queued
    ensures Core(g.(states := g.states[w := State.Abandoned], waiters := Without(g.waiters, w)))
  {
    WithoutMembers(g.waiters, w);
    OccupancyUpdate(g.states, w, State.Abandoned);
  }

  lemma UndeliveredCore(g: Gate, w: RequestId)
    requires Core(g) && w < |g.states| && g.states[w] == Granted
    ensures Core(g.(states := g.states[w := State.Abandoned], active := g.active - 1))
  {
    OccupancyUpdate(g.states, w, State.Abandoned);
  }

  /** Timeout and cancellation keep the count exact whether or not the grant came first. */
  lemma AbandonInv(g: Gate, w: RequestId)
    requires Inv(g) && w < |g.states|
    ensures Abandon(g, w).Next? && Inv(Abandon(g, w).gate)
  {
    if g.states[w] == Queued {
      WithoutCore(g, w);
      PromoteInv(g.(states := g.states[w := State.Abandoned], waiters := Without(g.waiters, w)));
    } else if g.states[w] == Granted {
      UndeliveredCore(g, w);
      PromoteInv(g.(states := g.states[w := State.Abandoned], active := g.active - 1));
    }
  }

  lemma ReleaseInv(g: Gate, w: RequestId)
    requires Inv(g) && w < |g.states|
    ensures Release(g, w).Next? && Inv(Release(g, w).gate)
  {
    if g.states[w] == Held {
      OccupancyUpdate(g.states, w, State.Released);
      TotalBounds(Weights(g.states), w);
      PromoteInv(g.(active := g.active - 1, states := g.states[w := State.Released]));
    }
  }

  // ----- runs -----

  datatype Event =
    | Arrive
    | Try
    | Deliver(id: RequestId)
    | GiveUp(id: RequestId)
    | Return(id: RequestId)

  /** The gate after an event; a rejected arrival, or an event about a stranger, changes nothing. */
  function Apply(g: Gate, e: Event): Outcome {
    match e
    case Arrive => (match BeginAcquire(g) case QueueFull => Next(g) case r => Next(r.gate))
    case Try => (match TryAcquire(g) case Some(p) => Next(p) case None => Next(g))
    case Deliver(id) =>
      if id < |g.states| && g.states[id] == Granted then Next(g.(states := g.states[id := Held])) else Next(g)
    case GiveUp(id) => if id < |g.states| then Abandon(g, id) else Next(g)
    case Return(id) => if id < |g.states| then Release(g, id) else Next(g)
  }

  lemma ApplyInv(g: Gate, e: Event)
    requires Inv(g)
    ensures Apply(g, e).Next? && Inv(Apply(g, e).gate)
  {
    match e
    case Arrive => BeginAcquireInv(g);
    case Try => if TryAcquire(g).Some? { AdmitInv(g); }
    case Deliver(id) =>
      if id < |g.states| && g.states[id] == Granted { OccupancyUpdate(g.states, id, Held); }
    case GiveUp(id) => if id < |g.states| { AbandonInv(g, id); }
    case Return(id) => if id < |g.states| { ReleaseInv(g, id); }
  }

  function Run(g: Gate, events: seq<Event>): Outcome {
    if events == [] then Next(g) else
      match Run(g, events[..|events| - 1])
      case Next(p) => Apply(p, events[|events| - 1])
      case fault => fault
  }

  /**
   Over every interleaving of arrivals, deliveries, timeouts and releases: no error branch
   is reached, active equals leases held plus grants undelivered and never exceeds the
   capacity, waiters never exceed their limit and exist only when the gate is full, and
   grants follow arrival order with nobody overtaken while waiting.
   */
  lemma {:induction false} RunInv(capacity: nat, waiterLimit: nat, events: seq<Event>)
    ensures Run(New(capacity, waiterLimit), events).Next?
    ensures Inv(Run(New(capacity, waiterLimit), events).gate)
  {
    if events != [] {
      RunInv(capacity, waiterLimit, events[..|events| - 1]);
      ApplyInv(Run(New(capacity, waiterLimit), events[..|events| - 1]).gate, events[|events| - 1]);
    }
  }

  // ----- what becomes of each request -----

  /** Somebody is queued. */
  predicate SomebodyWaits(g: Gate) { exists w :: 0 <= w < |g.states| && g.states[w] == Queued }

  /** All requests but `but` are as they were, or have been handed a slot while they were queued. */
  predicate OthersGranted(before: seq<State>, after: seq<State>, but: RequestId) {
    && |before| <= |after|
    && forall w :: 0 <= w < |before| && w != but ==>
         after[w] == before[w] || (before[w] == Queued && after[w] == Granted)
  }

  lemma {:induction false} PromoteStates(g: Gate)
    ensures |Promote(g).states| == |g.states| && Promote(g).capacity == g.capacity
    ensures forall w :: 0 <= w < |g.states| ==>
              Promote(g).states[w] == g.states[w] || (g.states[w] == Queued && Promote(g).states[w] == Granted)
    decreases |g.waiters|
  {
    if g.active < g.capacity && g.waiters != [] {
      var w := g.waiters[0];
      var rest := g.(waiters := g.waiters[1..]);
      if w >= |g.states| || g.states[w] != Queued {
        PromoteStates(rest);
      } else {
        PromoteStates(rest.(active := g.active + 1, states := g.states[w := Granted], log := g.log + [w]));
      }
    }
  }

  /**
   What each event does, in the states of the requests. An arrival is admitted exactly past nobody
   and below capacity, else it is queued exactly while the queue has room; a trial never queues. A
   delivered grant is held; whoever gives up is abandoned for good; a lease is returned once. Nobody
   else changes, except that queued requests may be handed the slots that come free.
   */
  lemma EventExactly(g: Gate, e: Event)
    requires Inv(g)
    ensures Apply(g, e).Next?
    ensures var r, n := Apply(g, e).gate, |g.states|;
            var free := Occupancy(g.states) < g.capacity && !SomebodyWaits(g);
            match e
            case Arrive =>
              r.states == if free then g.states + [Held] else if |g.waiters| < g.waiterLimit then g.states + [Queued]
                          else g.states
            case Try => r.states == if free then g.states + [Held] else g.states
            case Deliver(id) =>
              r.states == if id < n && g.states[id] == Granted then g.states[id := Held] else g.states
            case GiveUp(id) =>
              if id < n && g.states[id] in {Queued, Granted}
              then |r.states| == n && r.states[id] == State.Abandoned && OthersGranted(g.states, r.states, id)
              else r == g
            case Return(id) =>
              if id < n && g.states[id] == Held
              then |r.states| == n && r.states[id] == State.Released && OthersGranted(g.states, r.states, id)
              else r == g
  {
    hide Inv, Promote, Occupancy, SomebodyWaits, OthersGranted;
    WaitingMeans(g);
    ApplyInv(g, e);
    match e
    case GiveUp(id) => if id < |g.states| { GiveUpStates(g, id); }
    case Return(id) => if id < |g.states| { ReturnStates(g, id); }
    case _ =>
  }

  lemma WaitingMeans(g: Gate)
    requires Inv(g)
    ensures (SomebodyWaits(g) <==> g.waiters != []) && g.active == Occupancy(g.states)
    ensures |g.waiters| <= g.waiterLimit
  {
    if g.waiters != [] { assert g.waiters[0] in g.waiters && g.states[g.waiters[0]] == Queued; }
  }

  lemma GiveUpStates(g: Gate, id: RequestId)
    requires Inv(g) && id < |g.states|
    ensures Abandon(g, id).Next?
    ensures var r := Abandon(g, id).gate;
            if g.states[id] in {Queued, Granted}
            then |r.states| == |g.states| && r.states[id] == State.Abandoned && OthersGranted(g.states, r.states, id)
            else r == g
  {
    hide Inv, Promote;
    AbandonInv(g, id);
    if g.states[id] == Queued {
      PromoteStates(g.(states := g.states[id := State.Abandoned], waiters := Without(g.waiters, id)));
    } else if g.states[id] == Granted {
      PromoteStates(g.(states := g.states[id := State.Abandoned], active := g.active - 1));
    }
  }

  lemma ReturnStates(g: Gate, id: RequestId)
    requires Inv(g) && id < |g.states|
    ensures Release(g, id).Next?
    ensures var r := Release(g, id).gate;
            if g.states[id] == Held
            then |r.states| == |g.states| && r.states[id] == State.Released && OthersGranted(g.states, r.states, id)
            else r == g
  {
    hide Inv, Promote;
    ReleaseInv(g, id);
    if g.states[id] == Held {
      PromoteStates(g.(active := g.active - 1, states := g.states[id := State.Released]));
    }
  }

  lemma FullWhileWaiting(g: Gate)
    requires Inv(g)
    ensures g.active <= g.capacity && (g.waiters != [] ==> g.active == g.capacity)
  {
  }

  // ----- the object -----

  class BoundedAdmissionGate {
    const capacity: nat
    const waiterLimit: nat
    var active: int
    var waiters: seq<RequestId>
    var states: seq<State>
    ghost var log: seq<RequestId>

    ghost function View(): Gate
      reads this
    {
      Gate(capacity, waiterLimit, active, waiters, states, log)
    }

    ghost predicate Valid()
      reads this
    {
      Inv(View())
    }

    constructor (capacity: nat, waiterLimit: nat)
      ensures Valid() && View() == New(capacity, waiterLimit)
    {
      this.capacity, this.waiterLimit := capacity, waiterLimit;
      active, waiters, states, log := 0, [], [], [];
      new;
      RunInv(capacity, waiterLimit, []);
    }

    method PromoteWaiters()
      modifies this
      ensures View() == Promote(old(View()))
    {
      ghost var entry := View();
      while active < capacity && waiters != []
        invariant Promote(entry) == Promote(View())
        decreases |waiters|
      {
        var waiter := waiters[0];
        waiters := waiters[1..];
        if waiter >= |states| || states[waiter] != Queued { continue; }
        states := states[waiter := Granted];
        active := active + 1;
        log := log + [waiter];
      }
    }

    method Begin() returns (id: Option<RequestId>)
      modifies this
      ensures match BeginAcquire(old(View()))
              case QueueFull => id == None && View() == old(View())
              case e => id == Some(|old(states)|) && View() == e.gate
      ensures old(Valid()) ==> Valid() && (id.None? <==> old(active == capacity && |waiters| == waiterLimit))
    {
      if Valid() { BeginAcquireInv(View()); }
      if active < capacity && waiters == [] {
        id := Some(|states|);
        active, log, states := active + 1, log + [|states|], states + [Held];
        return;
      }
      if |waiters| >= waiterLimit { return None; }
      id := Some(|states|);
      waiters, states := waiters + [|states|], states + [Queued];
    }

    method TryBegin() returns (id: Option<RequestId>)
      modifies this
      ensures id.Some? <==> TryAcquire(old(View())).Some?
      ensures View() == if id.Some? then TryAcquire(old(View())).value else old(View())
      ensures old(Valid()) ==> Valid() && (id.Some? <==> old(active < capacity))
    {
      hide Inv;
      if Valid() {
        ApplyInv(View(), Try);
        FullWhileWaiting(View());
      }
      if active >= capacity || waiters != [] { return None; }
      id := Some(|states|);
      active, log, states := active + 1, log + [|states|], states + [Held];
    }

    /** Timeout or cancellation of a waiter; `ok` is false when it is missing from the queue. */
    method AbandonWaiter(w: RequestId) returns (ok: bool)
      requires w < |states|
      modifies this
      ensures ok <==> Abandon(old(View()), w).Next?
      ensures ok ==> View() == Abandon(old(View()), w).gate
      ensures old(Valid()) ==> ok && Valid()
    {
      hide Inv;
      if Valid() { AbandonInv(View(), w); }
      if states[w] == Queued {
        states := states[w := State.Abandoned];
        if w !in waiters { return false; }
        waiters := Without(waiters, w);
      } else if states[w] == Granted {
        states := states[w := State.Abandoned];
        active := active - 1;
      } else {
        return true;
      }
      PromoteWaiters();
      ok := true;
    }

    /** Returns a lease; `ok` is false for the underflow error. */
    method ReleaseSlot(w: RequestId) returns (ok: bool)
      requires w < |states|
      modifies this
      ensures ok <==> Release(old(View()), w).Next?
      ensures ok ==> View() == Release(old(View()), w).gate
      ensures old(Valid()) ==> ok && Valid()
    {
      hide Inv;
      if Valid() { ReleaseInv(View(), w); }
      if states[w] != Held { return true; }
      if active <= 0 { return false; }
      active := active - 1;
      states := states[w := State.Released];
      PromoteWaiters();
      ok := true;
    }
  }
}
