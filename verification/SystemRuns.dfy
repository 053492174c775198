/** What every run of the admission system satisfies. */
module SystemRuns {
  import opened Common
  import opened Ledger
  import opened LedgerInvariant
  import opened LedgerLifetime
  import opened LedgerProgress
  import opened System
  import opened SystemInvariant
  import G = Governor
  import Q = FairQueue

  /** `trace` is a run from the start: each state follows from the one before by an allowed event. */
  ghost predicate IsRun(c: Config, trace: seq<Sys>, events: seq<Event>) {
    && |trace| == |events| + 1
    && (exists settings: Option<G.Settings>, limit: Option<nat> :: trace[0] == Opening(settings, limit))
    && forall i :: 0 <= i < |events| ==> Follows(c, trace[i], events[i], trace[i + 1])
  }

  function Opening(settings: Option<G.Settings>, limit: Option<nat>): Sys {
    Start(if settings.Some? then Some(G.New(settings.value)) else None, limit)
  }

  ghost predicate Follows(c: Config, s: Sys, e: Event, r: Sys) {
    Allowed(s, e) && Apply(c, s, e).Next? && Apply(c, s, e).sys == r
  }

  lemma RunLength(c: Config, trace: seq<Sys>, events: seq<Event>)
    requires IsRun(c, trace, events)
    ensures |trace| == |events| + 1
  {
  }

  lemma {:induction false} RunInv(c: Config, trace: seq<Sys>, events: seq<Event>, n: nat)
    requires IsRun(c, trace, events) && n < |trace|
    ensures SysInv(c, trace[n])
  {
    hide SysInv, StepOf, Apply, Start;
    if n == 0 {
      var settings: Option<G.Settings>, limit: Option<nat> :| trace[0] == Opening(settings, limit);
      StartInv(c, settings, limit);
    } else {
      RunInv(c, trace, events, n - 1);
      assert Follows(c, trace[n - 1], events[n - 1], trace[n]);
      ApplyOk(c, trace[n - 1], events[n - 1]);
    }
  }

  /** In any reachable state no allowed step can fail: there is no underflow and no ledger error. */
  lemma NothingFails(c: Config, trace: seq<Sys>, events: seq<Event>, n: nat, e: Event)
    requires IsRun(c, trace, events) && n < |trace| && Allowed(trace[n], e)
    ensures Apply(c, trace[n], e).Next?
  {
    hide SysInv, StepOf, Apply, IsRun;
    RunInv(c, trace, events, n);
    ApplyOk(c, trace[n], e);
  }

  // ----- conservation -----

  /** At most one task per lane holds parent bytes that are not in the books. */
  lemma OneFlightPerLane(s: Sys, v: nat, w: nat)
    requires WaitsOk(s) && Q.Inv(s.queue) && v < |s.waits| && w < |s.waits|
    requires s.waits[v].reserved && s.waits[w].reserved && s.waits[v].small == s.waits[w].small
    ensures v == w
  {
    assert WaitOk(s, v) && WaitOk(s, w);
  }

  /** The bytes a lane has in flight: those of its one reserved task, if any. */
  ghost function LaneFlight(s: Sys, small: bool): nat {
    if w :| 0 <= w < |s.waits| && s.waits[w].reserved && s.waits[w].small == small then s.waits[w].additional else 0
  }

  function LaneFlights(ws: seq<Wait>, small: bool): seq<int> {
    seq(|ws|, w requires 0 <= w < |ws| => if ws[w].small == small then Flight(ws[w]) else 0)
  }

  /** A sum with at most one non-zero term is that term. */
  lemma {:induction false} OneTerm(s: seq<int>, i: nat)
    requires i < |s| && forall k :: 0 <= k < |s| && k != i ==> s[k] == 0
    ensures Total(s) == s[i]
  {
    var n := |s| - 1;
    if i == n { TotalZero(s[..n]); } else { OneTerm(s[..n], i); }
  }

  lemma LaneTotal(s: Sys, small: bool)
    requires WaitsOk(s) && Q.Inv(s.queue)
    ensures Total(LaneFlights(s.waits, small)) == LaneFlight(s, small)
  {
    hide Q.Inv, WaitsOk;
    if w :| 0 <= w < |s.waits| && s.waits[w].reserved && s.waits[w].small == small {
      forall v | 0 <= v < |s.waits| && s.waits[v].reserved && s.waits[v].small == small ensures v == w {
        OneFlightPerLane(s, v, w);
      }
      OneTerm(LaneFlights(s.waits, small), w);
    } else {
      TotalZero(LaneFlights(s.waits, small));
    }
  }

  lemma {:induction false} FlightsByLane(ws: seq<Wait>)
    ensures InFlight(ws) == Total(LaneFlights(ws, true)) + Total(LaneFlights(ws, false))
  {
    if ws != [] {
      var n := |ws| - 1;
      FlightsByLane(ws[..n]);
      assert Flights(ws)[..n] == Flights(ws[..n]);
      assert LaneFlights(ws, true)[..n] == LaneFlights(ws[..n], true);
      assert LaneFlights(ws, false)[..n] == LaneFlights(ws[..n], false);
    }
  }

  /**
   Conservation in every reachable state. The body counter is the sum over all leases and all
   pending reservations, the pending counter the sum over the latter, the response counter the
   sum over all leases; the parent's response category is the response counter, and its body
   category is the body counter plus at most one reservation in flight per lane.
   */
  lemma Conservation(c: Config, trace: seq<Sys>, events: seq<Event>, n: nat)
    requires IsRun(c, trace, events) && n < |trace|
    ensures var s := trace[n];
            && s.books.pendingBody == Total(PendingBytes(s.books.pendings))
            && s.books.body == Total(Bodies(s.books.leases)) + Total(PendingBytes(s.books.pendings))
            && s.books.response == Total(Responses(s.books.leases))
            && (s.parent.Some? ==>
                  && G.Amount(s.parent.value, RESPONSE) == s.books.response
                  && G.Amount(s.parent.value, BODY) == s.books.body + LaneFlight(s, true) + LaneFlight(s, false))
  {
    hide IsRun, LeasesOk, DeferredOk, BudgetOk, SlotsExcept, WaitsOk, Q.Inv, LaneFlight;
    RunInv(c, trace, events, n);
    FlightsByLane(trace[n].waits);
    LaneTotal(trace[n], true);
    LaneTotal(trace[n], false);
  }

  // ----- budgets -----

  /** Budgets in every reachable state. */
  lemma BudgetSafety(c: Config, trace: seq<Sys>, events: seq<Event>, n: nat)
    requires IsRun(c, trace, events) && n < |trace|
    ensures var b := trace[n].books;
            && b.body + b.response <= c.budget
            && (forall i :: 0 <= i < |b.leases| ==> b.leases[i].response <= c.maxResponse)
            && (forall o :: Known(b, o) && !ResourceOnly(b, o) ==> Bytes(b, o) <= c.maxBody)
  {
    hide IsRun, LeasesOk, DeferredOk, Conserved, SlotsExcept, WaitsOk, Q.Inv, ParentOk;
    RunInv(c, trace, events, n);
  }

  /**
   Only a step that has passed every check makes a counter grow. A body growth leaves the
   small-lane reserve free, and any growth leaves its request within the retained limit.
   */
  lemma GrowthIsChecked(c: Config, trace: seq<Sys>, events: seq<Event>, n: nat)
    requires IsRun(c, trace, events) && n < |events|
    ensures var b, r := trace[n].books, trace[n + 1].books;
            && (r.body > b.body ==> exists o, additional: nat :: Known(b, o) && GrowsBody(c, b, r, o, additional))
            && (r.response > b.response ==>
                  exists i: nat, additional: nat :: i < |b.leases| && GrowsResponse(c, b, r, i, additional))
  {
    hide IsRun, SysInv, Apply, GrowsBody, GrowsResponse;
    RunLength(c, trace, events);
    Step(c, trace, events, n);
    var s, r := trace[n], trace[n + 1];
    match events[n]
    case AskBody(o, additional, _, _, _) => BodyGrowthCounters(c, s.books, r.books, o, additional);
    case CommitUnderTurn(w) => BodyGrowthCounters(c, s.books, r.books, s.waits[w].owner, s.waits[w].additional);
    case AskDirect(i, additional, _) => ResponseGrowthCounters(c, s.books, r.books, i, additional);
    case AskTemporary(i, additional, _) => ResponseGrowthCounters(c, s.books, r.books, i, additional);
    case AskGrowth(t, additional, _) => ResponseGrowthCounters(c, s.books, r.books, s.books.temps[t].lease, additional);
    case _ =>
  }

  /** A request that holds nothing yet never gets ahead of the waiters of its lane. */
  lemma NewcomersWait(c: Config, s: Sys, o: Owner, additional: nat, r: G.Reading, tenant: string, expired: bool)
    requires Known(s.books, o) && Bytes(s.books, o) == 0
    requires Q.HasWaiters(s.queue, SmallLane(c, additional))
    ensures Apply(c, s, AskBody(o, additional, r, tenant, expired)).Next?
    ensures Apply(c, s, AskBody(o, additional, r, tenant, expired)).sys.books == s.books
    ensures Apply(c, s, AskBody(o, additional, r, tenant, expired)).sys.parent == s.parent
  {
    hide Q.Join, CommitGrowth, HardRefusal, Unavailable, Q.HasWaiters;
  }

  lemma BodyGrowthCounters(c: Config, b: Books, r: Books, o: Owner, additional: nat)
    requires Known(b, o)
    ensures GrowsBody(c, b, r, o, additional) ==> r.response == b.response
  {
  }

  lemma ResponseGrowthCounters(c: Config, b: Books, r: Books, i: nat, additional: nat)
    requires i < |b.leases|
    ensures GrowsResponse(c, b, r, i, additional) ==> r.body == b.body
  {
  }

  /** One step of a run, with what it may have done. */
  lemma Step(c: Config, trace: seq<Sys>, events: seq<Event>, n: nat)
    requires IsRun(c, trace, events) && n < |events|
    ensures Allowed(trace[n], events[n])
    ensures Apply(c, trace[n], events[n]).Next? && Apply(c, trace[n], events[n]).sys == trace[n + 1]
    ensures StepOf(c, trace[n], events[n], trace[n + 1], Apply(c, trace[n], events[n]).refusal)
    ensures SysInv(c, trace[n]) && SysInv(c, trace[n + 1])
  {
    hide SysInv, Apply, StepOf, Allowed;
    RunInv(c, trace, events, n);
    assert Follows(c, trace[n], events[n], trace[n + 1]);
    ApplyOk(c, trace[n], events[n]);
  }

  // ----- large-body slots -----

  /**
   Slots in every reachable state: no more holders than the limit; claim ids and flagged
   owners are in bijection; a holder record shows its owner's current bytes; and every owner
   above the threshold holds a slot.
   */
  lemma SlotSafety(c: Config, trace: seq<Sys>, events: seq<Event>, n: nat)
    requires IsRun(c, trace, events) && n < |trace|
    ensures var b := trace[n].books;
            && |b.holders| <= c.largeLimit
            && (forall id :: id in b.holders ==>
                  && Known(b, b.holders[id].owner)
                  && HasSlot(b, b.holders[id].owner) && Claim(b, b.holders[id].owner) == Some(id)
                  && b.holders[id].bytes == Bytes(b, b.holders[id].owner))
            && (forall o :: Known(b, o) && HasSlot(b, o) ==>
                  Claim(b, o).Some? && Claim(b, o).value in b.holders && b.holders[Claim(b, o).value].owner == o)
            && (c.largeLimit != 0 ==> forall o :: Known(b, o) && Bytes(b, o) > c.largeThreshold ==> HasSlot(b, o))
            && (forall o :: Known(b, o) && HasSlot(b, o) ==> Bytes(b, o) > 0)
  {
    hide IsRun, LeasesOk, DeferredOk, Conserved, BudgetOk, WaitsOk, Q.Inv, ParentOk;
    RunInv(c, trace, events, n);
    SlotFacts(c, trace[n].books);
  }

  lemma SlotFacts(c: Config, b: Books)
    requires SlotsExcept(c, b, None)
    ensures forall id :: id in b.holders ==>
              && Known(b, b.holders[id].owner)
              && HasSlot(b, b.holders[id].owner) && Claim(b, b.holders[id].owner) == Some(id)
              && b.holders[id].bytes == Bytes(b, b.holders[id].owner)
    ensures forall o :: Known(b, o) && HasSlot(b, o) ==>
              Claim(b, o).Some? && Claim(b, o).value in b.holders && b.holders[Claim(b, o).value].owner == o
    ensures c.largeLimit != 0 ==> forall o :: Known(b, o) && Bytes(b, o) > c.largeThreshold ==> HasSlot(b, o)
    ensures forall o :: Known(b, o) && HasSlot(b, o) ==> Bytes(b, o) > 0
  {
    forall id | id in b.holders
      ensures Known(b, b.holders[id].owner)
      ensures HasSlot(b, b.holders[id].owner) && Claim(b, b.holders[id].owner) == Some(id)
      ensures b.holders[id].bytes == Bytes(b, b.holders[id].owner)
    {
      assert HolderOk(b, id);
      assert OwnerSlotOk(c, b, b.holders[id].owner, None);
    }
    forall o | Known(b, o)
      ensures HasSlot(b, o) ==>
                Claim(b, o).Some? && Claim(b, o).value in b.holders && b.holders[Claim(b, o).value].owner == o
      ensures c.largeLimit != 0 && Bytes(b, o) > c.largeThreshold ==> HasSlot(b, o)
      ensures HasSlot(b, o) ==> Bytes(b, o) > 0
    {
      assert OwnerSlotOk(c, b, o, None);
    }
  }

  // ----- finalization -----

  lemma StepContinues(c: Config, trace: seq<Sys>, events: seq<Event>, n: nat)
    requires IsRun(c, trace, events) && n < |events|
    ensures Continues(trace[n].books, trace[n + 1].books)
  {
    hide IsRun, SysInv, Apply, Continues;
    RunLength(c, trace, events);
    Step(c, trace, events, n);
    BooksSame(trace[n].books);
  }

  lemma BooksSame(b: Books)
    ensures Continues(b, b)
  {
  }

  lemma {:induction false} RunContinues(c: Config, trace: seq<Sys>, events: seq<Event>, m: nat, n: nat)
    requires IsRun(c, trace, events) && m <= n < |trace|
    ensures Continues(trace[m].books, trace[n].books)
  {
    hide IsRun, Continues;
    RunLength(c, trace, events);
    if m == n {
      BooksSame(trace[m].books);
    } else {
      RunContinues(c, trace, events, m, n - 1);
      StepContinues(c, trace, events, n - 1);
      ContinuesTransitive(trace[m].books, trace[n - 1].books, trace[n].books);
    }
  }

  /** Once finalized, a lease is finalized for good, without an owner and without a byte. */
  lemma FinalForever(c: Config, trace: seq<Sys>, events: seq<Event>, m: nat, n: nat, i: nat)
    requires IsRun(c, trace, events) && m <= n < |trace|
    requires i < |trace[m].books.leases| && trace[m].books.leases[i].finalized
    ensures i < |trace[n].books.leases|
    ensures var l := trace[n].books.leases[i];
            && l.finalized && l.releaseRequested && l.owners == 0
            && l.body == 0 && l.response == 0 && l.allocations == []
            && LiveCount(trace[n].books.temps, i, None) == 0 && DeferralCount(trace[n].books.deferrals, i) == 0
  {
    hide IsRun, CyclesOk, AllocationsOk, Conserved, DeferredOk, BudgetOk, SlotsExcept, WaitsOk, ParentOk, Q.Inv;
    RunContinues(c, trace, events, m, n);
    assert LeaseContinues(trace[m].books.leases[i], trace[n].books.leases[i]);
    RunInv(c, trace, events, n);
    var b := trace[n].books;
    assert LeaseOk(b.leases[i], i, b.temps, b.deferrals, Rest);
    CountsNonNegative(b.temps, b.deferrals, i);
  }

  /** The objects that keep a lease's memory alive. */
  predicate Unowned(b: Books, i: nat) {
    && (forall t :: 0 <= t < |b.temps| && b.temps[t].lease == i ==> !b.temps[t].Live())
    && (forall d :: 0 <= d < |b.deferrals| && b.deferrals[d].lease == i ==> b.deferrals[d].released)
  }

  lemma UnownedCounts(b: Books, i: nat)
    ensures Unowned(b, i) <==> LiveCount(b.temps, i, None) + DeferralCount(b.deferrals, i) == 0
  {
    CountsNonNegative(b.temps, b.deferrals, i);
    if Unowned(b, i) {
      TotalZero(Units(b.temps, i, None));
      TotalZero(Deferrals(b.deferrals, i));
    } else if t :| 0 <= t < |b.temps| && b.temps[t].lease == i && b.temps[t].Live() {
      TotalBounds(Units(b.temps, i, None), t);
    } else {
      var d :| 0 <= d < |b.deferrals| && b.deferrals[d].lease == i && !b.deferrals[d].released;
      TotalBounds(Deferrals(b.deferrals, i), d);
    }
  }

  /**
   A lease whose release has run is finalized exactly when its last temporary and its last
   deferral are gone; until then it is in the deferred set; and every attempt record published
   at finalization is settled.
   */
  lemma FinalizedExactly(c: Config, trace: seq<Sys>, events: seq<Event>, n: nat, i: nat)
    requires IsRun(c, trace, events) && n < |trace|
    requires i < |trace[n].books.leases| && trace[n].books.leases[i].releaseRan
    ensures var b := trace[n].books;
            && (b.leases[i].finalized <==> Unowned(b, i))
            && (i in b.deferred <==> !Unowned(b, i))
            && (forall k :: k in b.leases[i].summaries ==> Settled(b.leases[i].summaries[k]))
  {
    hide IsRun, CyclesOk, AllocationsOk, Conserved, BudgetOk, SlotsExcept, WaitsOk, ParentOk, Q.Inv, Unowned;
    RunInv(c, trace, events, n);
    var b := trace[n].books;
    assert LeaseOk(b.leases[i], i, b.temps, b.deferrals, Rest);
    UnownedCounts(b, i);
  }

  // ----- nothing leaks -----

  /** Every request has been released, every owner is gone, and no reservation holds bytes. */
  predicate Drained(s: Sys) {
    && (forall i :: 0 <= i < |s.books.leases| ==> s.books.leases[i].releaseRan)
    && (forall t :: 0 <= t < |s.books.temps| ==> !s.books.temps[t].Live())
    && (forall d :: 0 <= d < |s.books.deferrals| ==> s.books.deferrals[d].released)
    && (forall p :: 0 <= p < |s.books.pendings| ==> s.books.pendings[p].bytes == 0)
    && (forall w :: 0 <= w < |s.waits| ==> !s.waits[w].reserved)
  }

  lemma DrainedLease(c: Config, trace: seq<Sys>, events: seq<Event>, n: nat, i: nat)
    requires IsRun(c, trace, events) && n < |trace| && Drained(trace[n]) && i < |trace[n].books.leases|
    ensures var l := trace[n].books.leases[i];
            l.finalized && l.body == 0 && l.response == 0
  {
    hide IsRun;
    FinalizedExactly(c, trace, events, n, i);
    assert Unowned(trace[n].books, i);
    FinalForever(c, trace, events, n, n, i);
  }

  /** When everything is drained, not one byte is left anywhere: not in the books, not with the parent. */
  lemma NothingLeaks(c: Config, trace: seq<Sys>, events: seq<Event>, n: nat)
    requires IsRun(c, trace, events) && n < |trace| && Drained(trace[n])
    ensures var s := trace[n];
            && s.books.body == 0 && s.books.pendingBody == 0 && s.books.response == 0
            && s.books.holders == map[]
            && (s.parent.Some? ==> G.Amount(s.parent.value, BODY) == 0 && G.Amount(s.parent.value, RESPONSE) == 0)
  {
    hide IsRun;
    var s := trace[n];
    forall o | Known(s.books, o) ensures Bytes(s.books, o) == 0 {
      if o.OfLease? { DrainedLease(c, trace, events, n, o.index); }
    }
    forall i | 0 <= i < |s.books.leases| ensures s.books.leases[i].body == 0 && s.books.leases[i].response == 0 {
      DrainedLease(c, trace, events, n, i);
    }
    TotalZero(Bodies(s.books.leases));
    TotalZero(Responses(s.books.leases));
    TotalZero(PendingBytes(s.books.pendings));
    Conservation(c, trace, events, n);
    SlotSafety(c, trace, events, n);
    NoHolders(s.books);
  }

  lemma NoHolders(b: Books)
    requires forall id :: id in b.holders ==> Known(b, b.holders[id].owner) && HasSlot(b, b.holders[id].owner)
    requires forall o :: Known(b, o) ==> !HasSlot(b, o)
    ensures b.holders == map[]
  {
    forall id ensures id !in b.holders {
      if id in b.holders { assert false; }
    }
  }
}
