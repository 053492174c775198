/** What queue operations leave alone: outstanding turns, and the lane each waiter chose. */
module FairQueueTurns {
  import opened Common
  import opened FairQueue

  /** Nobody but `but` loses a turn, and every waiter keeps its lane. */
  ghost predicate TurnsKept(q: Queue, r: Queue, but: set<WaiterId>) {
    && |q.waiters| <= |r.waiters|
    && (forall w :: 0 <= w < |q.waiters| ==> r.waiters[w].small == q.waiters[w].small)
    && (forall lane, w :: w in Get(q, lane).turns && w !in but ==> w in Get(r, lane).turns)
  }

  lemma TurnKept(q: Queue, r: Queue, but: set<WaiterId>, lane: bool, w: WaiterId)
    requires TurnsKept(q, r, but) && w in Get(q, lane).turns && w !in but
    ensures w in Get(r, lane).turns
  {
  }

  lemma {:induction false} RotateKeeps(q: Queue, small: bool)
    ensures TurnsKept(q, Rotate(q, small), {})
    decreases Backlog(Get(q, small)), |Get(q, small).rotation|
  {
    var l := Get(q, small);
    if l.rotation != [] {
      TakeTokenShrinks(l);
      var (m, w) := TakeToken(l);
      var skipped := Put(q, small, m);
      assert TurnsKept(q, skipped, {});
      if w.None? {
        RotateKeeps(skipped, small);
      } else {
        var taken := skipped.(count := q.count - 1);
        assert TurnsKept(q, taken, {});
        if w.value >= |q.waiters| || q.waiters[w.value].state != Queued { RotateKeeps(taken, small); }
      }
    }
  }

  lemma PromoteKeeps(q: Queue, small: bool)
    ensures TurnsKept(q, Promote(q, small), {})
  {
    RotateKeeps(q, small);
  }

  lemma JoinKeeps(q: Queue, tenant: string, small: bool)
    requires Join(q, tenant, small).Some?
    ensures TurnsKept(q, Join(q, tenant, small).value, {})
  {
    hide Promote;
    PromoteKeeps(Joined(q, Normalize(tenant), small), small);
  }

  /** The newcomer stands in the lane it chose. */
  lemma JoinedLane(q: Queue, tenant: string, small: bool)
    requires Join(q, tenant, small).Some?
    ensures |q.waiters| < |Join(q, tenant, small).value.waiters|
    ensures Join(q, tenant, small).value.waiters[|q.waiters|].small == small
  {
    hide Promote;
    PromoteKeeps(Joined(q, Normalize(tenant), small), small);
  }

  lemma FinishTurnKeeps(q: Queue, small: bool, w: WaiterId)
    requires FinishTurn(q, small, w).Some?
    ensures TurnsKept(q, FinishTurn(q, small, w).value, {w})
  {
    hide Promote;
    PromoteKeeps(Returned(q, small, w), small);
  }

  lemma EnableKeeps(q: Queue, small: bool)
    ensures TurnsKept(q, Enable(q, small), {})
  {
    hide Promote;
    PromoteKeeps(Put(q, small, Get(q, small).(enabled := true)), small);
  }

  lemma NotifyKeeps(q: Queue)
    ensures TurnsKept(q, Notify(q), {})
  {
    hide Enable;
    EnableKeeps(q, true);
    EnableKeeps(Enable(q, true), false);
  }

  lemma RemoveKeeps(q: Queue, w: WaiterId)
    requires w < |q.waiters| && Remove(q, w).Some?
    ensures TurnsKept(q, Remove(q, w).value, {w})
  {
    hide Promote;
    var x := q.waiters[w];
    var gone := q.(waiters := q.waiters[w := x.(state := Abandoned)]);
    if x.state == Granted { FinishTurnKeeps(gone, x.small, w); }
  }

  // ----- a second notification in the same instant -----

  /** Promotion leaves its lane with a turn out or with nothing in its rotation. */
  predicate Exhausted(l: Lane) { l.enabled && (l.active || l.rotation == []) }

  lemma {:induction false} RotateExhausts(q: Queue, small: bool)
    requires Get(q, small).enabled
    ensures Exhausted(Get(Rotate(q, small), small))
    ensures Get(Rotate(q, small), !small) == Get(q, !small)
    decreases Backlog(Get(q, small)), |Get(q, small).rotation|
  {
    var l := Get(q, small);
    if l.rotation != [] {
      TakeTokenShrinks(l);
      var (m, w) := TakeToken(l);
      var skipped := Put(q, small, m);
      if w.None? {
        RotateExhausts(skipped, small);
      } else if w.value >= |q.waiters| || q.waiters[w.value].state != Queued {
        RotateExhausts(skipped.(count := q.count - 1), small);
      }
    }
  }

  lemma EnableExhausts(q: Queue, small: bool)
    ensures Exhausted(Get(Enable(q, small), small))
    ensures Get(Enable(q, small), !small) == Get(q, !small)
    ensures Exhausted(Get(q, small)) ==> Enable(q, small) == q
  {
    var p := Put(q, small, Get(q, small).(enabled := true));
    RotateExhausts(p, small);
  }

  /** Several releases in one critical section notify as one would. */
  lemma NotifyIdempotent(q: Queue)
    ensures Notify(Notify(q)) == Notify(q)
  {
    hide Enable;
    EnableExhausts(q, true);
    EnableExhausts(Enable(q, true), false);
    EnableExhausts(Notify(q), true);
    EnableExhausts(Notify(q), false);
  }

  // ----- order within a tenant -----

  /** Nobody of the same tenant and lane who came earlier is still in line. */
  predicate Oldest(ws: seq<Waiter>, w: WaiterId)
    requires w < |ws|
  {
    forall v :: 0 <= v < w && ws[v].tenant == ws[w].tenant && ws[v].small == ws[w].small ==> ws[v].state != Queued
  }

  /** Every grant between two states went to its tenant's oldest waiter. */
  predicate GrantsOldest(q: Queue, r: Queue) {
    |q.waiters| <= |r.waiters| &&
    forall w :: 0 <= w < |q.waiters| && q.waiters[w].state != Granted && r.waiters[w].state == Granted ==>
      q.waiters[w].state == Queued && Oldest(q.waiters, w)
  }

  lemma FrontIsOldest(ws: seq<Waiter>, small: bool, l: Lane, t: Tenant)
    requires LaneOk(ws, small, l) && Placed(ws, small, l) && t in l.queues
    ensures l.queues[t] != [] && l.queues[t][0] < |ws| && Oldest(ws, l.queues[t][0])
  {
    var line := l.queues[t];
    assert Line(ws, small, t, line);
    forall v | 0 <= v < line[0] && ws[v].tenant == t && ws[v].small == small ensures ws[v].state != Queued {
      assert ws[v].state == Queued ==> v in line;
    }
  }

  /** A tenant's turns go to its waiters in order of arrival. */
  lemma {:induction false} RotateOldest(q: Queue, small: bool)
    requires Core(q) && !Get(q, small).active
    ensures GrantsOldest(q, Rotate(q, small))
    decreases Backlog(Get(q, small)), |Get(q, small).rotation|
  {
    var l := Get(q, small);
    if l.rotation != [] {
      TakeTokenShrinks(l);
      var (m, w) := TakeToken(l);
      if w.None? {
        SkipCore(q, small);
        RotateOldest(Put(q, small, m), small);
      } else {
        GrantCore(q, small, w.value);
        FrontIsOldest(q.waiters, small, l, l.rotation[0]);
      }
    }
  }

  lemma PromoteOldest(q: Queue, small: bool)
    requires Core(q)
    ensures GrantsOldest(q, Promote(q, small))
  {
    if !Get(q, small).active && Get(q, small).enabled { RotateOldest(q, small); }
  }

  // ----- sleep and wake -----

  /** Until memory is released, a lane that was put to sleep hands out no turn. */
  lemma SleepingStep(q: Queue, e: Event, lane: bool)
    requires Allowed(q, e) && Apply(q, e).Some? && !Get(q, lane).enabled && e != MemoryReleased
    ensures var p := Apply(q, e).value;
            !Get(p, lane).enabled && Get(p, lane).log == Get(q, lane).log && Get(p, lane).turns <= Get(q, lane).turns
  {
    match e
    case Arrive(tenant, small) =>
      if Join(q, tenant, small).Some? { OtherPromotion(Joined(q, Normalize(tenant), small), small, lane); }
    case Finish(w) => OtherPromotion(Returned(q, q.waiters[w].small, w), q.waiters[w].small, lane);
    case Abandon(w) =>
      var gone := q.(waiters := q.waiters[w := q.waiters[w].(state := Abandoned)]);
      if q.waiters[w].state == Granted {
        OtherPromotion(Returned(gone, q.waiters[w].small, w), q.waiters[w].small, lane);
      }
    case BlockUntilRelease(small) =>
  }

  /** Promotion leaves a sleeping lane, and the other lane, as they are. */
  lemma OtherPromotion(q: Queue, small: bool, lane: bool)
    requires small != lane || !Get(q, lane).enabled
    ensures Get(Promote(q, small), lane) == Get(q, lane)
  {
    if small != lane && Get(q, small).enabled { RotateExhausts(q, small); }
  }

  lemma {:induction false} SleepingLane(trace: seq<Queue>, events: seq<Event>, lane: bool)
    requires IsRun(trace, events) && !Get(trace[0], lane).enabled && MemoryReleased !in events
    ensures !Get(trace[|events|], lane).enabled && Get(trace[|events|], lane).log == Get(trace[0], lane).log
  {
    if events != [] {
      var n := |events| - 1;
      assert IsRun(trace[..n + 1], events[..n]) by {
        forall i | 0 <= i < n ensures Allowed(trace[i], events[i]) && Apply(trace[i], events[i]) == Some(trace[i + 1]) {
        }
      }
      assert MemoryReleased !in events[..n];
      SleepingLane(trace[..n + 1], events[..n], lane);
      assert events[n] in events && |events[..n]| == n && trace[..n + 1][n] == trace[n];
      assert Allowed(trace[n], events[n]) && Apply(trace[n], events[n]) == Some(trace[n + 1]);
      SleepingStep(trace[n], events[n], lane);
    }
  }

  /** A release leaves no lane with a waiter and a free turn. */
  lemma ReleaseHandsOut(q: Queue, lane: bool)
    requires Inv(q)
    ensures Get(Notify(q), lane).active || Get(Notify(q), lane).queues == map[]
  {
    hide Enable;
    NotifyInv(q);
    EnableExhausts(q, true);
    EnableExhausts(Enable(q, true), false);
  }
}
