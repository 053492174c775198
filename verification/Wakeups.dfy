/**
 Sleep and wake over runs of the system: a lane sleeps exactly from a round that found no room
 until memory is given back, and whatever gives memory back leaves nobody in line unserved.
 */
module Wakeups {
  import opened Common
  import opened Ledger
  import opened LedgerBody
  import opened LedgerInvariant
  import opened StepFrames
  import opened System
  import opened SystemInvariant
  import opened SystemRuns
  import opened FairQueueEffects
  import opened SystemFigures
  import G = Governor
  import Q = FairQueue

  /** Memory is given back: a counter falls, or a turn is given up with parent bytes taken under it. */
  ghost predicate GaveBack(s: Sys, e: Event, r: Sys)
    requires Allowed(s, e)
  {
    || r.books.body < s.books.body || r.books.response < s.books.response
    || ((e.CommitUnderTurn? || e.GiveUpTurn?) && r.books == s.books
        && s.waits[e.waiter].reserved && s.waits[e.waiter].additional > 0)
  }

  /** A round that may wait and finds no room for its growth now. */
  predicate PutsToSleep(c: Config, s: Sys, e: Event, lane: bool)
    requires Allowed(s, e)
  {
    match e
    case AskBody(o, additional, _, _, expired) =>
      && MayGrow(s.books, o) && WithinLimits(c, s.books, o, Bytes(s.books, o) + additional)
      && lane == IsSmall(c, Bytes(s.books, o) + additional) && !RoomNow(c, s.books, o, additional)
      && !expired && s.queue.limit != Some(0)
    case _ => false
  }

  predicate Awake(s: Sys, lane: bool) { Q.Get(s.queue, lane).enabled }

  // ----- steps that return bytes -----

  lemma ReturnFlag(s: Sys, k: G.Category, size: nat)
    ensures ReturnParent(s, k, size).Next? ==>
              var r := ReturnParent(s, k, size).sys;
              r.books == s.books && forall lane :: Awake(r, lane) <==> Awake(s, lane) || size > 0
  {
    hide Q.Notify;
    NotifyEffects(s.queue);
    assert Q.Get(Q.Notify(s.queue), true).enabled && Q.Get(Q.Notify(s.queue), false).enabled;
  }

  lemma GiveBackFlag(s: Sys, r: Reply)
    ensures GiveBack(s, r).Next? ==>
              var t := GiveBack(s, r).sys;
              && t.books == (if r.Done? then r.books else s.books)
              && forall lane ::
                   Awake(t, lane) <==>
                     Awake(s, lane) || t.books.body < s.books.body || t.books.response < s.books.response
  {
    hide ReturnParent;
    if r.Done? {
      var t := s.(books := r.books);
      ReturnFlag(t, BODY, Drop(s.books.body, r.books.body));
      var u := ReturnParent(t, BODY, Drop(s.books.body, r.books.body));
      if u.Next? { ReturnFlag(u.sys, RESPONSE, Drop(s.books.response, r.books.response)); }
    }
  }

  predicate Releases(e: Event) {
    || e.DropPending? || e.ReleaseBody? || e.CommitTemporary? || e.ReleaseTemporary? || e.EndDeferral?
    || e.RunLeaseRelease?
  }

  lemma ReleaseFlag(c: Config, s: Sys, e: Event, r: Sys, lane: bool)
    requires Follows(c, s, e, r) && Releases(e)
    ensures Awake(r, lane) <==> Awake(s, lane) || r.books.body < s.books.body || r.books.response < s.books.response
  {
    hide GiveBack, ReleasePending, ReleaseStaged, CommitTemp, ReleaseTemp, ReleaseDeferral, RunRelease;
    match e
    case DropPending(p) => GiveBackFlag(SectionRuns(s, p), ReleasePending(s.books, p));
    case ReleaseBody(i, bytes) => GiveBackFlag(s, ReleaseStaged(s.books, i, bytes));
    case CommitTemporary(t) => GiveBackFlag(s, CommitTemp(s.books, t));
    case ReleaseTemporary(t) => GiveBackFlag(s, ReleaseTemp(s.books, t));
    case EndDeferral(d) => GiveBackFlag(s, ReleaseDeferral(s.books, d));
    case RunLeaseRelease(i) => GiveBackFlag(s, RunRelease(s.books, i));
    case _ =>
  }

  // ----- rounds and turns -----

  lemma RoundFlag(c: Config, s: Sys, e: Event, r: Sys, lane: bool)
    requires SysInv(c, s) && Follows(c, s, e, r) && e.AskBody?
    ensures Awake(r, lane) <==> Awake(s, lane) && !PutsToSleep(c, s, e, lane)
    ensures r.books.body >= s.books.body && r.books.response == s.books.response
  {
    hide SysInv, Apply, MayGrow, WithinLimits, RoomNow, InTurn, Consents, WithinShare, ParentSame, JoinedAs;
    RoundExactly(c, s, e.owner, e.additional, e.reading, e.tenant, e.expired);
  }

  lemma TurnFlag(c: Config, s: Sys, e: Event, r: Sys, lane: bool)
    requires SysInv(c, s) && Follows(c, s, e, r) && (e.CommitUnderTurn? || e.GiveUpTurn?)
    ensures Awake(r, lane) <==> GaveBack(s, e, r) || Awake(s, lane)
  {
    hide SysInv, TurnCommit, TurnGiveUp, TurnRefusal, TurnOver, ParentHoldsLess;
    if e.CommitUnderTurn? {
      TurnExactly(c, s, e.waiter);
    } else {
      GiveUpExactly(c, s, e.waiter, Some(BudgetExhausted));
    }
  }

  // ----- all other steps -----

  predicate Quiet(e: Event) {
    !e.AskBody? && !e.CommitUnderTurn? && !e.GiveUpTurn? && !e.StopWaiting? && !Releases(e)
  }

  lemma QuietFlag(c: Config, s: Sys, e: Event, r: Sys)
    requires SysInv(c, s) && Follows(c, s, e, r) && Quiet(e)
    ensures r.queue == s.queue && r.books.body >= s.books.body && r.books.response >= s.books.response
  {
    hide SysInv, AsksResponse;
    if e.AskDirect? || e.AskTemporary? || e.AskGrowth? {
      AskFlag(c, s, e, r);
    } else if e.TransferPending? {
      hide Transfer;
      TransferExactly(c, s, e.pending, e.lease);
    } else {
      QuietBooks(c, s, e);
    }
  }

  lemma AskFlag(c: Config, s: Sys, e: Event, r: Sys)
    requires Follows(c, s, e, r) && (e.AskDirect? || e.AskTemporary? || e.AskGrowth?)
    ensures r.queue == s.queue && r.books.body >= s.books.body && r.books.response >= s.books.response
  {
    hide AdmitResponse, ReserveDirect, ActivateTemp, GrowTemp, ResponseReason, ParentSame;
    ResponseExactly(c, s, e);
    var i := AskedLease(s, e);
    var k := if e.AskGrowth? then s.books.temps[e.temp].key else CurrentKey(s.books.leases[i]);
    AdmittedOnFigures(c, s, i, k, e.additional, e.reading);
  }

  lemma QuietBooks(c: Config, s: Sys, e: Event)
    requires Allowed(s, e) && Apply(c, s, e).Next? && Quiet(e)
    requires !e.AskDirect? && !e.AskTemporary? && !e.AskGrowth? && !e.TransferPending?
    ensures var r := Apply(c, s, e).sys;
            r.queue == s.queue && r.books.body == s.books.body && r.books.response == s.books.response
  {
    hide G.Reserve, G.Release;
  }

  // ----- the flag of a lane -----

  /** One step: a lane is awake if memory was given back, or if it was awake and nobody put it to sleep. */
  lemma FlagStep(c: Config, s: Sys, e: Event, r: Sys, lane: bool)
    requires SysInv(c, s) && Follows(c, s, e, r)
    ensures Awake(r, lane) <==> GaveBack(s, e, r) || (Awake(s, lane) && !PutsToSleep(c, s, e, lane))
  {
    hide SysInv, Apply, PutsToSleep, Awake;
    NoSleep(c, s, e, lane);
    if e.AskBody? {
      RoundFlag(c, s, e, r, lane);
    } else if e.CommitUnderTurn? || e.GiveUpTurn? {
      TurnFlag(c, s, e, r, lane);
    } else if e.StopWaiting? {
      StopFlag(c, s, e, r, lane);
    } else if Releases(e) {
      ReleaseFlag(c, s, e, r, lane);
    } else {
      QuietFlag(c, s, e, r);
      SameFlag(s, r, lane);
    }
  }

  lemma NoSleep(c: Config, s: Sys, e: Event, lane: bool)
    requires Allowed(s, e)
    ensures !e.AskBody? ==> !PutsToSleep(c, s, e, lane)
  {
  }

  lemma SameFlag(s: Sys, r: Sys, lane: bool)
    requires r.queue == s.queue
    ensures Awake(r, lane) <==> Awake(s, lane)
  {
  }

  lemma StopFlag(c: Config, s: Sys, e: Event, r: Sys, lane: bool)
    requires SysInv(c, s) && Follows(c, s, e, r) && e.StopWaiting?
    ensures (Awake(r, lane) <==> Awake(s, lane)) && r.books == s.books
  {
    hide SysInv, WaitAbandon;
    StopExactly(c, s, e.waiter);
  }

  /**
   Giving memory back wakes the queue: after any step of a reachable state by which a counter falls,
   or a turn is given up with parent bytes, both lanes are awake, and each has its turn out or
   nobody in line.
   */
  lemma ReleaseServes(c: Config, trace: seq<Sys>, events: seq<Event>, n: nat, lane: bool)
    requires IsRun(c, trace, events) && n < |events|
    ensures Allowed(trace[n], events[n])
    ensures GaveBack(trace[n], events[n], trace[n + 1]) ==> Serving(trace[n + 1].queue, lane)
  {
    hide IsRun, SysInv, Apply, PutsToSleep, Serving;
    RunLength(c, trace, events);
    Step(c, trace, events, n);
    FlagStep(c, trace[n], events[n], trace[n + 1], lane);
    SysParts(c, trace[n + 1]);
    if GaveBack(trace[n], events[n], trace[n + 1]) { AwakeServes(trace[n + 1].queue, lane); }
  }

  /** Step `m` of a run puts a lane to sleep, and nothing has been given back from there to `n`. */
  ghost predicate AsleepSince(c: Config, trace: seq<Sys>, events: seq<Event>, m: nat, n: nat, lane: bool) {
    && m < n <= |events| < |trace|
    && Allowed(trace[m], events[m]) && PutsToSleep(c, trace[m], events[m], lane)
    && forall k :: m < k < n ==> Allowed(trace[k], events[k]) && !GaveBack(trace[k], events[k], trace[k + 1])
  }

  /** Asleep since some step, one step further. */
  lemma SinceStep(c: Config, trace: seq<Sys>, events: seq<Event>, n: nat, next: nat, lane: bool)
    requires n + 1 == next <= |events| < |trace| && Allowed(trace[n], events[n])
    ensures (exists m :: AsleepSince(c, trace, events, m, next, lane)) <==>
              PutsToSleep(c, trace[n], events[n], lane)
              || (!GaveBack(trace[n], events[n], trace[n + 1]) && exists m :: AsleepSince(c, trace, events, m, n, lane))
  {
    hide Allowed, PutsToSleep, GaveBack;
    if PutsToSleep(c, trace[n], events[n], lane) {
      assert AsleepSince(c, trace, events, n, next, lane);
    } else if m: nat :| AsleepSince(c, trace, events, m, next, lane) {
      assert AsleepSince(c, trace, events, m, n, lane);
    }
    if !GaveBack(trace[n], events[n], trace[n + 1]) {
      if m: nat :| AsleepSince(c, trace, events, m, n, lane) {
        assert AsleepSince(c, trace, events, m, next, lane);
      }
    }
  }

  lemma AwakeLane(c: Config, s: Sys, lane: bool)
    requires SysInv(c, s) && Awake(s, lane)
    ensures Serving(s.queue, lane)
  {
    hide SysInv, Serving;
    SysParts(c, s);
    AwakeServes(s.queue, lane);
  }

  /**
   When a lane sleeps: in every state of every run, exactly if some earlier round found no room in
   it and no memory has been given back since. A lane that is awake has its turn out or nobody in line.
   */
  lemma {:induction false} SleepsExactly(c: Config, trace: seq<Sys>, events: seq<Event>, n: nat, lane: bool)
    requires IsRun(c, trace, events) && n <= |events|
    ensures n < |trace|
    ensures !Awake(trace[n], lane) <==> exists m :: AsleepSince(c, trace, events, m, n, lane)
    ensures Awake(trace[n], lane) ==> Serving(trace[n].queue, lane)
  {
    hide IsRun, SysInv, Apply, PutsToSleep, Serving, GaveBack, Follows, Awake, Allowed;
    RunLength(c, trace, events);
    RunInv(c, trace, events, n);
    if Awake(trace[n], lane) { AwakeLane(c, trace[n], lane); }
    if n == 0 {
      StartsAwake(c, trace, events, lane);
    } else {
      SleepsExactly(c, trace, events, n - 1, lane);
      Step(c, trace, events, n - 1);
      FollowsStep(c, trace, events, n - 1);
      FlagStep(c, trace[n - 1], events[n - 1], trace[n], lane);
      if PutsToSleep(c, trace[n - 1], events[n - 1], lane) {
        SleepNeverGives(c, trace[n - 1], events[n - 1], trace[n], lane);
      }
      SinceStep(c, trace, events, n - 1, n, lane);
    }
  }

  lemma FollowsStep(c: Config, trace: seq<Sys>, events: seq<Event>, n: nat)
    requires IsRun(c, trace, events) && n < |events|
    ensures n + 1 < |trace| && Follows(c, trace[n], events[n], trace[n + 1])
  {
    hide Follows;
  }

  lemma SleepNeverGives(c: Config, s: Sys, e: Event, r: Sys, lane: bool)
    requires SysInv(c, s) && Follows(c, s, e, r) && PutsToSleep(c, s, e, lane)
    ensures !GaveBack(s, e, r)
  {
    hide SysInv, Apply;
    RoundFlag(c, s, e, r, lane);
  }

  lemma StartsAwake(c: Config, trace: seq<Sys>, events: seq<Event>, lane: bool)
    requires IsRun(c, trace, events)
    ensures Awake(trace[0], lane)
  {
  }

  // ----- the reserve over runs -----

  /**
   The small-lane reserve over runs: whenever the body counter grows, some owner has grown, and either
   it is small, or the budget keeps the reserve free.
   */
  lemma ReserveKept(c: Config, trace: seq<Sys>, events: seq<Event>, n: nat)
    requires IsRun(c, trace, events) && n < |events| && trace[n + 1].books.body > trace[n].books.body
    ensures exists o :: && Known(trace[n].books, o) && Known(trace[n + 1].books, o)
                        && Bytes(trace[n + 1].books, o) - Bytes(trace[n].books, o)
                           == trace[n + 1].books.body - trace[n].books.body
                        && ((c.smallThreshold != 0 && Bytes(trace[n + 1].books, o) <= c.smallThreshold)
                            || trace[n + 1].books.body + trace[n + 1].books.response + c.smallReserve <= c.budget)
    ensures trace[n + 1].books.body + trace[n + 1].books.response <= c.budget
  {
    hide IsRun, SysInv, Known, Bytes;
    RunLength(c, trace, events);
    GrowthIsChecked(c, trace, events, n);
    BudgetSafety(c, trace, events, n + 1);
    var o, additional: nat :|
      Known(trace[n].books, o) && GrowsBody(c, trace[n].books, trace[n + 1].books, o, additional);
    assert Known(trace[n + 1].books, o);
  }
}
