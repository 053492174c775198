/** Fairness over runs of the whole system: how often a waiting task can be overtaken in its lane. */
module SystemFairness {
  import opened Common
  import opened Ledger
  import opened LedgerInvariant
  import opened System
  import opened SystemInvariant
  import opened SystemRuns
  import opened FairQueueOrder
  import StepFrames
  import G = Governor
  import Q = FairQueue
  import FairQueueTurns

  // ----- every step of the system is a sequence of queue events -----

  lemma ReturnReaches(s: Sys, k: G.Category, size: nat)
    ensures ReturnParent(s, k, size).Next? ==> Quietly(s.queue, ReturnParent(s, k, size).sys.queue)
  {
    hide Q.Notify, Quietly;
    QuietlyItself(s.queue);
    QuietlyBy(s.queue, Q.MemoryReleased);
  }

  lemma GiveBackReaches(s: Sys, r: Reply)
    ensures GiveBack(s, r).Next? ==> Quietly(s.queue, GiveBack(s, r).sys.queue)
  {
    hide ReturnParent, Quietly;
    QuietlyItself(s.queue);
    if r.Done? {
      var t := s.(books := r.books);
      ReturnReaches(t, BODY, Drop(s.books.body, r.books.body));
      var u := ReturnParent(t, BODY, Drop(s.books.body, r.books.body));
      if u.Next? {
        ReturnReaches(u.sys, RESPONSE, Drop(s.books.response, r.books.response));
        if GiveBack(s, r).Next? { QuietlyTransitive(s.queue, u.sys.queue, GiveBack(s, r).sys.queue); }
      }
    }
  }

  lemma EnqueueReaches(
      c: Config, s: Sys, o: Owner, additional: nat, reason: Refusal, tenant: string)
    requires Known(s.books, o)
    ensures Enqueue(c, s, o, additional, reason, tenant).Next?
    ensures InOneSection(s.queue, Enqueue(c, s, o, additional, reason, tenant).sys.queue)
  {
    hide Quietly, InOneSection, Q.Join;
    var small := LaneOf(c, s.books, o, additional);
    var asleep := Sleep(c, s, o, additional, reason);
    QuietlyItself(s.queue);
    QuietlyBy(s.queue, Q.BlockUntilRelease(small));
    assert Quietly(s.queue, asleep);
    SectionBy(s.queue, asleep, Q.Arrive(tenant, small));
  }

  lemma AskReaches(c: Config, s: Sys, o: Owner, additional: nat, r: G.Reading, tenant: string, expired: bool)
    requires Known(s.books, o) && Ask(c, s, o, additional, r, tenant, expired).Next?
    ensures InOneSection(s.queue, Ask(c, s, o, additional, r, tenant, expired).sys.queue)
  {
    hide Quietly, InOneSection, Enqueue, CommitGrowth, HardRefusal, Unavailable, G.Reserve, Q.HasWaiters;
    QuietlyItself(s.queue);
    SectionQuiet(s.queue, s.queue);
    var asked := AskParent(s, BODY, additional, r).0;
    assert asked.queue == s.queue && asked.books == s.books;
    forall x
      ensures Enqueue(c, s, o, additional, x, tenant).Next?
              && InOneSection(s.queue, Enqueue(c, s, o, additional, x, tenant).sys.queue)
    {
      EnqueueReaches(c, s, o, additional, x, tenant);
    }
    forall x
      ensures Enqueue(c, asked, o, additional, x, tenant).Next?
              && InOneSection(s.queue, Enqueue(c, asked, o, additional, x, tenant).sys.queue)
    {
      EnqueueReaches(c, asked, o, additional, x, tenant);
    }
  }

  /** A task that holds a turn holds it in the lane the queue knows it in. */
  lemma TurnIsAllowed(s: Sys, w: nat)
    requires WaitsOk(s) && HasTurn(s, w)
    ensures Q.Allowed(s.queue, Q.Finish(w)) && s.queue.waiters[w].small == s.waits[w].small
  {
    assert WaitOk(s, w);
  }

  lemma EndReaches(s: Sys, w: nat, refusal: Option<Refusal>)
    requires WaitsOk(s) && HasTurn(s, w)
    ensures EndTurn(s, w, refusal).Next? ==>
              && Q.Allowed(s.queue, Q.Finish(w))
              && Q.Apply(s.queue, Q.Finish(w)) == Some(EndTurn(s, w, refusal).sys.queue)
              && Quietly(s.queue, EndTurn(s, w, refusal).sys.queue)
  {
    hide Q.FinishTurn, Quietly;
    TurnIsAllowed(s, w);
    if EndTurn(s, w, refusal).Next? { QuietlyBy(s.queue, Q.Finish(w)); }
  }

  lemma GiveUpReaches(s: Sys, w: nat, refusal: Option<Refusal>)
    requires WaitsOk(s) && Q.Inv(s.queue) && HasTurn(s, w)
    ensures TurnGiveUp(s, w, refusal).Next? ==> Quietly(s.queue, TurnGiveUp(s, w, refusal).sys.queue)
  {
    hide Q.Inv, Q.Notify, Quietly, EndTurn, WaitsOk;
    var x := s.waits[w];
    var without := s.(waits := s.waits[w := x.(reserved := false)]);
    var size := if x.reserved then x.additional else 0;
    WithoutFlight(s, w);
    ReturnReaches(without, BODY, size);
    var t := ReturnParent(without, BODY, size);
    if t.Next? {
      NotifyWaits(without);
      FairQueueTurns.NotifyKeeps(without.queue);
      FairQueueTurns.TurnKept(without.queue, Q.Notify(without.queue), {}, x.small, w);
      Q.NotifyInv(without.queue);
      assert t.sys.queue == without.queue || t.sys.queue == Q.Notify(without.queue);
      assert t.sys.waits == without.waits && t.sys.books == without.books;
      QueueWaits(without, t.sys);
      EndReaches(t.sys, w, refusal);
      if TurnGiveUp(s, w, refusal).Next? {
        QuietlyTransitive(s.queue, t.sys.queue, TurnGiveUp(s, w, refusal).sys.queue);
      }
    }
  }

  lemma QueueWaits(s: Sys, t: Sys)
    requires WaitsOk(s) && t.waits == s.waits && t.books == s.books && (s.parent.Some? ==> t.parent.Some?)
    requires FairQueueTurns.TurnsKept(s.queue, t.queue, {}) && |t.queue.waiters| == |s.queue.waiters|
    ensures WaitsOk(t)
  {
    forall w | 0 <= w < |t.waits| ensures WaitOk(t, w) {
      assert WaitOk(s, w);
      if s.waits[w].reserved { FairQueueTurns.TurnKept(s.queue, t.queue, {}, s.waits[w].small, w); }
    }
  }

  lemma WithoutFlight(s: Sys, w: nat)
    requires WaitsOk(s) && w < |s.waits|
    ensures WaitsOk(s.(waits := s.waits[w := s.waits[w].(reserved := false)]))
  {
    var t := s.(waits := s.waits[w := s.waits[w].(reserved := false)]);
    forall v | 0 <= v < |t.waits| ensures WaitOk(t, v) { assert WaitOk(s, v); }
  }

  lemma CommitReaches(c: Config, s: Sys, w: nat)
    requires WaitsOk(s) && Q.Inv(s.queue) && HasTurn(s, w) && Known(s.books, s.waits[w].owner)
    requires TurnCommit(c, s, w).Next?
    ensures Quietly(s.queue, TurnCommit(c, s, w).sys.queue)
    ensures TurnCommit(c, s, w).sys.books != s.books ==>
              Q.Apply(s.queue, Q.Finish(w)) == Some(TurnCommit(c, s, w).sys.queue)
  {
    hide Q.Inv, WaitsOk, Quietly, TurnGiveUp, CommitGrowth, GrowthRefusal, Q.FinishTurn;
    QuietlyItself(s.queue);
    var x := s.waits[w];
    match GrowthRefusal(c, s.books, x.owner, x.additional)
    case Some(refusal) =>
      GiveUpReaches(s, w, Some(refusal));
      StepFrames.TurnBooks(c, s, w, Some(refusal));
    case None =>
      TurnIsAllowed(s, w);
      FinishReaches(s.queue, w);
  }

  lemma FinishReaches(q: Q.Queue, w: nat)
    requires Q.Allowed(q, Q.Finish(w))
    ensures Q.FinishTurn(q, q.waiters[w].small, w).Some? ==>
              Quietly(q, Q.FinishTurn(q, q.waiters[w].small, w).value)
  {
    hide Q.FinishTurn, Quietly;
    if Q.FinishTurn(q, q.waiters[w].small, w).Some? { QuietlyBy(q, Q.Finish(w)); }
  }

  lemma StopReaches(s: Sys, w: nat)
    requires WaitsOk(s) && Allowed(s, StopWaiting(w)) && WaitAbandon(s, w).Next?
    ensures Quietly(s.queue, WaitAbandon(s, w).sys.queue)
  {
    hide Q.Remove, Quietly;
    if s.queue.waiters[w].state == Q.Granted { TurnIsAllowed(s, w); }
    QuietlyBy(s.queue, Q.Abandon(w));
  }

  lemma SysQueue(c: Config, s: Sys)
    requires SysInv(c, s)
    ensures Q.Inv(s.queue) && WaitsOk(s)
  {
    hide Inv, Q.Inv, WaitsOk, ParentOk;
  }

  /** What one step of the system does to the queue is a sequence of the queue's own events. */
  lemma StepReaches(c: Config, s: Sys, e: Event, r: Sys)
    requires SysInv(c, s) && Follows(c, s, e, r)
    ensures InOneSection(s.queue, r.queue)
  {
    hide Ask, TurnCommit, TurnGiveUp, GiveBack, WaitAbandon, SysInv, Q.Inv, WaitsOk, Quietly, InOneSection;
    hide ReleasePending, ReleaseStaged, CommitTemp, ReleaseTemp, ReleaseDeferral, RunRelease;
    SysQueue(c, s);
    if !e.AskBody? && Quietly(s.queue, r.queue) { SectionQuiet(s.queue, r.queue); }
    match e
    case AskBody(o, additional, reading, tenant, expired) => AskReaches(c, s, o, additional, reading, tenant, expired);
    case CommitUnderTurn(w) => CommitReaches(c, s, w);
    case GiveUpTurn(w) => GiveUpReaches(s, w, Some(BudgetExhausted));
    case StopWaiting(w) => StopReaches(s, w);
    case DropPending(p) => GiveBackReaches(SectionRuns(s, p), ReleasePending(s.books, p));
    case ReleaseBody(i, bytes) => GiveBackReaches(s, ReleaseStaged(s.books, i, bytes));
    case CommitTemporary(t) => GiveBackReaches(s, CommitTemp(s.books, t));
    case ReleaseTemporary(t) => GiveBackReaches(s, ReleaseTemp(s.books, t));
    case EndDeferral(d) => GiveBackReaches(s, ReleaseDeferral(s.books, d));
    case RunLeaseRelease(i) => GiveBackReaches(s, RunRelease(s.books, i));
    case _ =>
      QuietQueue(c, s, e);
      QuietlyItself(s.queue);
  }

  lemma QuietQueue(c: Config, s: Sys, e: Event)
    requires Allowed(s, e) && Apply(c, s, e).Next?
    requires !e.AskBody? && !e.CommitUnderTurn? && !e.GiveUpTurn? && !e.StopWaiting? && !e.DropPending?
    requires !e.ReleaseBody? && !e.CommitTemporary? && !e.ReleaseTemporary? && !e.EndDeferral? && !e.RunLeaseRelease?
    ensures Apply(c, s, e).sys.queue == s.queue
  {
    hide Transfer, Defer, G.Reserve, G.Release, ResponseRefusal;
  }

  /** The wait queue of a run of the system makes a run of its own events. */
  lemma {:induction false} QueueRefined(c: Config, trace: seq<Sys>, events: seq<Event>, m: nat, n: nat)
    requires IsRun(c, trace, events) && m <= n <= |events|
    ensures Reaches(trace[m].queue, trace[n].queue)
  {
    hide IsRun, SysInv, Apply, Reaches;
    RunLength(c, trace, events);
    if m == n {
      ReachesItself(trace[m].queue);
    } else {
      QueueRefined(c, trace, events, m, n - 1);
      Step(c, trace, events, n - 1);
      StepReaches(c, trace[n - 1], events[n - 1], trace[n]);
      SectionReaches(trace[n - 1].queue, trace[n].queue);
      ReachesTransitive(trace[m].queue, trace[n - 1].queue, trace[n].queue);
    }
  }

  // ----- a task in line -----

  /** Task `w` is in line in state `n` of a run. */
  predicate InLine(trace: seq<Sys>, n: nat, w: nat) {
    n < |trace| && w < |trace[n].queue.waiters| && trace[n].queue.waiters[w].state == Q.Queued
  }

  /** Who is in line at `m`, and still at `n`, was in line all the time, in one lane and for one tenant. */
  lemma InLineBetween(c: Config, trace: seq<Sys>, events: seq<Event>, m: nat, k: nat, n: nat, w: nat)
    requires IsRun(c, trace, events) && m <= k <= n <= |events|
    requires w < |trace[m].queue.waiters| && InLine(trace, n, w)
    ensures InLine(trace, k, w)
    ensures trace[k].queue.waiters[w] == trace[m].queue.waiters[w]
  {
    hide IsRun, Path, Q.Approaches;
    RunLength(c, trace, events);
    RunWaiters(c, trace, events, m, k);
    RunWaiters(c, trace, events, k, n);
  }

  lemma RunWaiters(c: Config, trace: seq<Sys>, events: seq<Event>, m: nat, n: nat)
    requires IsRun(c, trace, events) && m <= n <= |events|
    ensures WaitersKept(trace[m].queue.waiters, trace[n].queue.waiters)
  {
    hide IsRun, Path, Moves, WaitersKept, Inv, WaitsOk, ParentOk, Q.Inv;
    RunLength(c, trace, events);
    RunInv(c, trace, events, m);
    QueueRefined(c, trace, events, m, n);
    WaitersReach(trace[m].queue, trace[n].queue);
  }

  lemma WaitersReach(q: Q.Queue, r: Q.Queue)
    requires Q.Inv(q) && Reaches(q, r)
    ensures WaitersKept(q.waiters, r.waiters)
  {
    hide Q.Inv, Path, LineMoves, WaitersKept;
    var es :| Path(q, es, r);
    PathWaiters(q, es, r);
  }

  lemma {:induction false} PathWaiters(q: Q.Queue, es: seq<Q.Event>, r: Q.Queue)
    requires Q.Inv(q) && Path(q, es, r)
    ensures WaitersKept(q.waiters, r.waiters)
    decreases |es|
  {
    hide Q.Inv, LineMoves, Q.Apply;
    if q.waiters != [] {
      PathMoves(q, es, r, 0);
      LineMovesKept(q, r, 0);
    }
  }

  /** A round by an owner without bytes that commits in a lane. */
  ghost predicate NewcomerCommits(c: Config, s: Sys, e: Event, r: Sys, lane: bool) {
    && Allowed(s, e) && r.books != s.books
    && match e
       case AskBody(o, additional, _, _, _) => Bytes(s.books, o) == 0 && LaneOf(c, s.books, o, additional) == lane
       case CommitUnderTurn(w) => Bytes(s.books, s.waits[w].owner) == 0 && s.waits[w].small == lane
       case _ => false
  }

  /** While somebody is in line, a request that holds nothing commits in the lane only with a turn, which it ends. */
  lemma NewcomerNeedsTurn(c: Config, s: Sys, e: Event, r: Sys, w: nat)
    requires SysInv(c, s) && Follows(c, s, e, r)
    requires w < |s.queue.waiters| && s.queue.waiters[w].state == Q.Queued
    requires NewcomerCommits(c, s, e, r, s.queue.waiters[w].small)
    ensures e.CommitUnderTurn?
    ensures Ended(Q.Get(r.queue, s.queue.waiters[w].small)) > Ended(Q.Get(s.queue, s.queue.waiters[w].small))
  {
    hide Ask, TurnCommit, Inv, Q.Inv, WaitsOk, ParentOk, Reaches, Q.HasWaiters, Q.Apply;
    QueuedWaits(s.queue, w);
    match e
    case AskBody(o, additional, reading, tenant, expired) =>
      NewcomersWait(c, s, o, additional, reading, tenant, expired);
    case CommitUnderTurn(v) =>
      TurnIsAllowed(s, v);
      CommitReaches(c, s, v);
      ReturnMoves(s.queue, v, w);
  }

  /** The commits in a lane, between two states of a run, by owners that held nothing. */
  ghost function Overtakers(c: Config, trace: seq<Sys>, events: seq<Event>, m: nat, n: nat, lane: bool): nat
    requires m <= n <= |events| && |trace| == |events| + 1
  {
    if m == n then 0
    else
      Overtakers(c, trace, events, m, n - 1, lane)
      + if NewcomerCommits(c, trace[n - 1], events[n - 1], trace[n], lane) then 1 else 0
  }

  lemma LaneEnded(c: Config, s: Sys, e: Event, r: Sys, w: nat)
    requires SysInv(c, s) && Follows(c, s, e, r) && w < |s.queue.waiters|
    ensures Ended(Q.Get(s.queue, s.queue.waiters[w].small)) <= Ended(Q.Get(r.queue, s.queue.waiters[w].small))
  {
    hide Apply, Inv, Q.Inv, WaitsOk, ParentOk, Path, Q.Approaches, Ended;
    StepReaches(c, s, e, r);
    SectionReaches(s.queue, r.queue);
    var es :| Path(s.queue, es, r.queue);
    PathMoves(s.queue, es, r.queue, w);
    EndedMoves(s.queue, r.queue, w);
  }

  /** Each overtaker has ended a turn of the lane. */
  lemma {:induction false} OvertakersEndTurns(
      c: Config, trace: seq<Sys>, events: seq<Event>, m: nat, n: nat, w: nat)
    requires IsRun(c, trace, events) && m <= n <= |events|
    requires w < |trace[m].queue.waiters| && InLine(trace, n, w)
    ensures var lane := trace[m].queue.waiters[w].small;
            Overtakers(c, trace, events, m, n, lane)
            <= Ended(Q.Get(trace[n].queue, lane)) - Ended(Q.Get(trace[m].queue, lane))
  {
    hide IsRun, SysInv, Apply, Ended, NewcomerCommits;
    RunLength(c, trace, events);
    if m < n {
      var lane := trace[m].queue.waiters[w].small;
      InLineBetween(c, trace, events, m, n - 1, n, w);
      OvertakersEndTurns(c, trace, events, m, n - 1, w);
      Step(c, trace, events, n - 1);
      LaneEnded(c, trace[n - 1], events[n - 1], trace[n], w);
      if NewcomerCommits(c, trace[n - 1], events[n - 1], trace[n], lane) {
        NewcomerNeedsTurn(c, trace[n - 1], events[n - 1], trace[n], w);
      }
    }
  }

  // ----- fairness -----

  /**
   Fairness over runs. For a task in line at `m` and still in line at `n`: its own tenant was
   handed at most as many turns of the lane as it had waiters of that tenant before it; and if it
   was the first of them, at most as many turns went out in the lane as there were tokens before
   its tenant's, and at most one more request that held nothing committed there.
   */
  lemma Fairness(c: Config, trace: seq<Sys>, events: seq<Event>, m: nat, n: nat, w: nat)
    requires IsRun(c, trace, events) && m <= n <= |events|
    requires w < |trace[m].queue.waiters| && InLine(trace, n, w)
    ensures var q, x := trace[m].queue, trace[m].queue.waiters[w];
            var since := Q.NewGrants(Q.Get(q, x.small), Q.Get(trace[n].queue, x.small));
            var place := Q.FirstToken(Q.Get(q, x.small).rotation, x.tenant);
            && Count(since, x.tenant) <= |Ahead(q.waiters, w)|
            && (Ahead(q.waiters, w) == {} ==>
                  && |since| <= place < |Q.Get(q, x.small).rotation|
                  && Overtakers(c, trace, events, m, n, x.small) <= place + 1)
  {
    hide IsRun, Inv, Q.Inv, WaitsOk, ParentOk, Reaches, Ahead, Count, Q.FirstToken;
    RunLength(c, trace, events);
    RunInv(c, trace, events, m);
    QueueRefined(c, trace, events, m, n);
    StillInLine(trace[m].queue, trace[n].queue, w);
    OvertakersEndTurns(c, trace, events, m, n, w);
    var q, x := trace[m].queue, trace[m].queue.waiters[w];
    CountZero(Q.NewGrants(Q.Get(q, x.small), Q.Get(trace[n].queue, x.small)), x.tenant);
  }

  /** In the states `m` to `n` of a run no rotation of a lane has more than `longest` tokens. */
  predicate RotationsWithin(trace: seq<Sys>, m: nat, n: nat, lane: bool, longest: nat) {
    n < |trace| && forall k :: m <= k <= n ==> |Q.Get(trace[k].queue, lane).rotation| <= longest
  }

  lemma {:induction false} RunCloser(
      c: Config, trace: seq<Sys>, events: seq<Event>, m: nat, n: nat, w: nat, longest: nat)
    requires IsRun(c, trace, events) && m <= n <= |events|
    requires w < |trace[m].queue.waiters|
    requires RotationsWithin(trace, m, n, trace[m].queue.waiters[w].small, longest)
    ensures ComesCloser(trace[m].queue, trace[n].queue, w, longest)
  {
    hide IsRun, SysInv, Apply, Distance, InOneSection;
    RunLength(c, trace, events);
    if m == n {
      CloserItself(trace[m].queue, w, longest);
    } else {
      RunCloser(c, trace, events, m, n - 1, w, longest);
      Step(c, trace, events, n - 1);
      StepReaches(c, trace[n - 1], events[n - 1], trace[n]);
      SysQueue(c, trace[n - 1]);
      SectionCloser(trace[n - 1].queue, trace[n].queue, w, longest);
      CloserTransitive(trace[m].queue, trace[n - 1].queue, trace[n].queue, w, longest);
    }
  }

  /**
   The same for any task in line, whoever of its tenant is ahead of it. If its lane never has more
   than `longest` tokens, the turns handed out in the lane before its own number at most a round
   of `longest` for each of its predecessors, and the tokens before its tenant's; and at most one
   more request that held nothing commits in the lane.
   */
  lemma FairnessBehind(
      c: Config, trace: seq<Sys>, events: seq<Event>, m: nat, n: nat, w: nat, longest: nat)
    requires IsRun(c, trace, events) && m <= n <= |events|
    requires w < |trace[m].queue.waiters| && InLine(trace, n, w)
    requires RotationsWithin(trace, m, n, trace[m].queue.waiters[w].small, longest)
    ensures var q, x := trace[m].queue, trace[m].queue.waiters[w];
            var since := Q.NewGrants(Q.Get(q, x.small), Q.Get(trace[n].queue, x.small));
            var most := |Ahead(q.waiters, w)| * longest + Q.FirstToken(Q.Get(q, x.small).rotation, x.tenant);
            |since| <= most && Overtakers(c, trace, events, m, n, x.small) <= most + 1
  {
    hide IsRun, Inv, Q.Inv, WaitsOk, ParentOk, Reaches, Ahead, Count, Q.FirstToken;
    RunLength(c, trace, events);
    RunCloser(c, trace, events, m, n, w, longest);
    RunInv(c, trace, events, m);
    QueueRefined(c, trace, events, m, n);
    StillInLine(trace[m].queue, trace[n].queue, w);
    OvertakersEndTurns(c, trace, events, m, n, w);
  }

  /** Meanwhile no request that holds nothing gets ahead: a round of its own changes neither books nor parent. */
  lemma NoOvertaking(c: Config, trace: seq<Sys>, events: seq<Event>, m: nat, k: nat, n: nat, w: nat)
    requires IsRun(c, trace, events) && m <= k < n <= |events|
    requires w < |trace[m].queue.waiters| && InLine(trace, n, w)
    requires events[k].AskBody? && Known(trace[k].books, events[k].owner) && Bytes(trace[k].books, events[k].owner) == 0
    requires SmallLane(c, events[k].additional) == trace[m].queue.waiters[w].small
    ensures trace[k + 1].books == trace[k].books && trace[k + 1].parent == trace[k].parent
  {
    hide IsRun, Inv, Q.Inv, WaitsOk, ParentOk, Ask, Q.HasWaiters;
    RunLength(c, trace, events);
    InLineBetween(c, trace, events, m, k, n, w);
    Step(c, trace, events, k);
    QueuedWaits(trace[k].queue, w);
    var e := events[k];
    NewcomersWait(c, trace[k], e.owner, e.additional, e.reading, e.tenant, e.expired);
  }
}
