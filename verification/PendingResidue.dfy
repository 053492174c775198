/**
 What a pending reservation can still hold after its release. The release critical section
 empties it, but the flag that refuses further growth is raised only afterwards.
 */
module PendingResidue {
  import opened Common
  import opened Ledger
  import opened LedgerBody
  import opened LedgerInvariant
  import opened StepFrames
  import opened System
  import opened SystemInvariant
  import opened SystemRuns
  import opened WaitRecords
  import G = Governor
  import Q = FairQueue

  /** Steps that can empty reservation `p`. */
  predicate Empties(e: Event, p: nat) {
    (e.TransferPending? && e.pending == p) || (e.DropPending? && e.pending == p)
  }

  /**
   Bytes a step is about to commit to reservation `p`, decided on the state before it: a round of
   its own that no limit, no waiter and no parent refuses, or a turn whose second check passes.
   */
  ghost function Granted(c: Config, s: Sys, e: Event, p: nat): nat
    requires Allowed(s, e)
  {
    match e
    case AskBody(o, additional, r, _, _) =>
      if o == OfPending(p) && Admits(c, s, o, additional, r) then additional else 0
    case CommitUnderTurn(w) =>
      var x := s.waits[w];
      if x.owner == OfPending(p) && GrowthRefusal(c, s.books, x.owner, x.additional) == None then x.additional else 0
    case _ => 0
  }

  ghost function GrantedOver(c: Config, trace: seq<Sys>, events: seq<Event>, m: nat, n: nat, p: nat): nat
    requires IsRun(c, trace, events) && m <= n <= |events|
  {
    if m == n then 0
    else
      assert Follows(c, trace[n - 1], events[n - 1], trace[n - 1 + 1]);
      GrantedOver(c, trace, events, m, n - 1, p) + Granted(c, trace[n - 1], events[n - 1], p)
  }

  /** A round for the reservation itself. */
  lemma AskGrants(c: Config, s: Sys, e: Event, p: nat)
    requires SysInv(c, s) && Allowed(s, e) && e.AskBody? && e.owner == OfPending(p) && Apply(c, s, e).Next?
    ensures p < |s.books.pendings| && p < |Apply(c, s, e).sys.books.pendings|
    ensures Apply(c, s, e).sys.books.pendings[p].bytes == s.books.pendings[p].bytes + Granted(c, s, e, p)
  {
    hide SysInv, Ask, CommitGrowth, HardRefusal, MustWait, AskParent;
    SysBooks(c, s);
    AskBooks(c, s, e.owner, e.additional, e.reading, e.tenant, e.expired);
    if Admits(c, s, e.owner, e.additional, e.reading) {
      AdmitsGrowth(c, s, e.owner, e.additional, e.reading);
      CommitGrowthOk(c, s.books, e.owner, e.additional);
    }
  }

  lemma AdmitsGrowth(c: Config, s: Sys, o: Owner, additional: nat, r: G.Reading)
    requires Known(s.books, o) && Admits(c, s, o, additional, r)
    ensures GrowthRefusal(c, s.books, o, additional) == None
  {
    hide HardRefusal, Unavailable;
  }

  /** A turn's second check for the reservation itself. */
  lemma TurnGrants(c: Config, s: Sys, w: nat, p: nat)
    requires SysInv(c, s) && Allowed(s, CommitUnderTurn(w)) && s.waits[w].owner == OfPending(p)
    requires TurnCommit(c, s, w).Next?
    ensures p < |s.books.pendings| && p < |TurnCommit(c, s, w).sys.books.pendings|
    ensures TurnCommit(c, s, w).sys.books.pendings[p].bytes
         == s.books.pendings[p].bytes + Granted(c, s, CommitUnderTurn(w), p)
  {
    hide SysInv, TurnGiveUp, CommitGrowth, GrowthRefusal, Q.FinishTurn;
    SysBooks(c, s);
    var x := s.waits[w];
    match GrowthRefusal(c, s.books, x.owner, x.additional)
    case Some(why) => GiveUpBooks(s, w, Some(why));
    case None => CommitGrowthOk(c, s.books, x.owner, x.additional);
  }

  lemma GiveUpBooks(s: Sys, w: nat, refusal: Option<Refusal>)
    requires w < |s.waits|
    ensures TurnGiveUp(s, w, refusal).Next? ==> TurnGiveUp(s, w, refusal).sys.books == s.books
  {
    hide ReturnParent, Q.FinishTurn;
    var x := s.waits[w];
    ReturnParentBooks(s.(waits := s.waits[w := x.(reserved := false)]), BODY, if x.reserved then x.additional else 0);
  }

  /** One step adds to a reservation exactly the bytes it is granted, unless it empties it. */
  lemma StepGains(c: Config, s: Sys, e: Event, r: Sys, p: nat)
    requires SysInv(c, s) && Follows(c, s, e, r) && p < |s.books.pendings| && !Empties(e, p)
    ensures p < |r.books.pendings|
    ensures r.books.pendings[p].bytes == s.books.pendings[p].bytes + Granted(c, s, e, p)
    ensures s.books.pendings[p].released ==> r.books.pendings[p].released
  {
    hide SysInv, Apply, Ask, TurnCommit;
    StepKept(c, s, e);
    assert PendingKept(s.books.pendings[p], r.books.pendings[p], OfPending(p) in Acted(s, e));
    if e.AskBody? && e.owner == OfPending(p) {
      AskGrants(c, s, e, p);
    } else if e.CommitUnderTurn? && s.waits[e.waiter].owner == OfPending(p) {
      CommitIsTurn(c, s, e);
      TurnGrants(c, s, e.waiter, p);
    } else {
      assert OfPending(p) !in Acted(s, e);
    }
  }

  lemma CommitIsTurn(c: Config, s: Sys, e: Event)
    requires Allowed(s, e) && e.CommitUnderTurn?
    ensures Apply(c, s, e) == TurnCommit(c, s, e.waiter)
  {
  }

  /** Up to the next transfer or release, a reservation's bytes are those it had plus those granted to it. */
  lemma {:induction false} RunGains(c: Config, trace: seq<Sys>, events: seq<Event>, m: nat, n: nat, p: nat)
    requires IsRun(c, trace, events) && m <= n <= |events| && p < |trace[m].books.pendings|
    requires forall k :: m <= k < n ==> !Empties(events[k], p)
    ensures p < |trace[n].books.pendings|
    ensures trace[n].books.pendings[p].bytes
         == trace[m].books.pendings[p].bytes + GrantedOver(c, trace, events, m, n, p)
    ensures trace[m].books.pendings[p].released ==> trace[n].books.pendings[p].released
  {
    hide SysInv, Follows, Granted;
    if m < n {
      RunGains(c, trace, events, m, n - 1, p);
      RunInv(c, trace, events, n - 1);
      assert Follows(c, trace[n - 1], events[n - 1], trace[n - 1 + 1]);
      StepGains(c, trace[n - 1], events[n - 1], trace[n], p);
    }
  }

  /** Step `k` of a run is about to grant bytes to reservation `p`. */
  ghost predicate GrantsAt(c: Config, trace: seq<Sys>, events: seq<Event>, k: nat, p: nat) {
    k < |events| && k < |trace| && Allowed(trace[k], events[k]) && Granted(c, trace[k], events[k], p) > 0
  }

  /**
   A reservation whose release section ran at step `m` holds bytes again at `n` if and only if a
   later round or turn of its own was granted some, as decided on the state before that step.
   */
  lemma ResidueExactly(c: Config, trace: seq<Sys>, events: seq<Event>, m: nat, n: nat, p: nat)
    requires IsRun(c, trace, events) && m < n <= |events| && events[m] == DropPending(p)
    requires forall k :: m < k < n ==> !Empties(events[k], p)
    ensures p < |trace[n].books.pendings|
    ensures trace[n].books.pendings[p].bytes > 0 <==> exists k :: m < k < n && GrantsAt(c, trace, events, k, p)
  {
    hide IsRun, Granted, GrantsAt, GrantedOver;
    RunLength(c, trace, events);
    Dropped(c, trace, events, m, p);
    RunGains(c, trace, events, m + 1, n, p);
    GrantedAny(c, trace, events, m + 1, n, p);
  }

  lemma {:induction false} GrantedAny(c: Config, trace: seq<Sys>, events: seq<Event>, m: nat, n: nat, p: nat)
    requires IsRun(c, trace, events) && m <= n <= |events|
    ensures GrantedOver(c, trace, events, m, n, p) > 0 <==> exists k :: m <= k < n && GrantsAt(c, trace, events, k, p)
  {
    hide Granted, Apply;
    if m < n {
      GrantedAny(c, trace, events, m, n - 1, p);
      assert Follows(c, trace[n - 1], events[n - 1], trace[n - 1 + 1]);
      assert GrantsAt(c, trace, events, n - 1, p) <==> Granted(c, trace[n - 1], events[n - 1], p) > 0;
    }
  }

  // ----- a residue stays -----

  /** Nothing is granted to a reservation once its flag is up. */
  lemma FlagRefuses(c: Config, s: Sys, e: Event, p: nat)
    requires Allowed(s, e) && p < |s.books.pendings| && s.books.pendings[p].released
    ensures Granted(c, s, e, p) == 0
  {
  }

  /**
   One step from a state in which reservation `p` is marked released and no release call on it is
   left to run: its bytes, its flag and the absence of such calls stay.
   */
  lemma ResidueStep(c: Config, s: Sys, e: Event, r: Sys, p: nat)
    requires SysInv(c, s) && Follows(c, s, e, r)
    requires p < |s.books.pendings| && s.books.pendings[p].released && Calls(s, p).called == 0
    ensures p < |r.books.pendings| && r.books.pendings[p].released && Calls(r, p).called == 0
    ensures r.books.pendings[p].bytes == s.books.pendings[p].bytes
  {
    hide SysInv, Apply, Granted;
    assert !Empties(e, p);
    StepGains(c, s, e, r, p);
    FlagRefuses(c, s, e, p);
    StepWaits(c, s, e, r);
    if e == MarkPending(p) { MarkKeepsCalled(c, s, p); }
  }

  lemma MarkKeepsCalled(c: Config, s: Sys, p: nat)
    requires Allowed(s, MarkPending(p))
    ensures Calls(Apply(c, s, MarkPending(p)).sys, p).called == Calls(s, p).called
  {
  }

  /**
   A residue is for ever. Whatever happens after a reservation has been marked released with no
   release call left to run, it keeps exactly the bytes it has.
   */
  lemma {:induction false} ResidueForever(c: Config, trace: seq<Sys>, events: seq<Event>, m: nat, n: nat, p: nat)
    requires IsRun(c, trace, events) && m <= n <= |events|
    requires p < |trace[m].books.pendings| && trace[m].books.pendings[p].released && Calls(trace[m], p).called == 0
    ensures p < |trace[n].books.pendings| && trace[n].books.pendings[p].released && Calls(trace[n], p).called == 0
    ensures trace[n].books.pendings[p].bytes == trace[m].books.pendings[p].bytes
  {
    hide SysInv, Follows;
    if m < n {
      ResidueForever(c, trace, events, m, n - 1, p);
      RunInv(c, trace, events, n - 1);
      assert Follows(c, trace[n - 1], events[n - 1], trace[n - 1 + 1]);
      ResidueStep(c, trace[n - 1], events[n - 1], trace[n], p);
    }
  }

  /**
   Exactly then: a reservation marked released that holds bytes can still change them if and only
   if another release call is left to run, and that call gives them all back.
   */
  lemma ResidueMovesExactly(c: Config, trace: seq<Sys>, events: seq<Event>, n: nat, p: nat)
    requires IsRun(c, trace, events) && n <= |events|
    requires p < |trace[n].books.pendings|
    requires trace[n].books.pendings[p].released && trace[n].books.pendings[p].bytes > 0
    ensures Calls(trace[n], p).called > 0 <==>
              exists e, r :: Follows(c, trace[n], e, r) && p < |r.books.pendings|
                             && r.books.pendings[p].bytes != trace[n].books.pendings[p].bytes
    ensures Calls(trace[n], p).called > 0 ==>
              exists r :: Follows(c, trace[n], DropPending(p), r)
                          && p < |r.books.pendings| && r.books.pendings[p].bytes == 0
  {
    hide SysInv, StepOf, Apply;
    var s := trace[n];
    RunInv(c, trace, events, n);
    if Calls(s, p).called > 0 {
      ApplyOk(c, s, DropPending(p));
      var r := Apply(c, s, DropPending(p)).sys;
      assert Follows(c, s, DropPending(p), r);
      DroppedStep(c, s, p);
    } else {
      forall e, r | Follows(c, s, e, r)
        ensures p < |r.books.pendings| && r.books.pendings[p].bytes == s.books.pendings[p].bytes
      {
        ResidueStep(c, s, e, r, p);
      }
    }
  }

  /** A residue is a leak: the body counter, and the parent with it, never fall below it again. */
  lemma ResidueLeaks(c: Config, trace: seq<Sys>, events: seq<Event>, m: nat, n: nat, p: nat)
    requires IsRun(c, trace, events) && m <= n <= |events|
    requires p < |trace[m].books.pendings| && trace[m].books.pendings[p].released && Calls(trace[m], p).called == 0
    ensures trace[n].books.body >= trace[m].books.pendings[p].bytes
    ensures trace[n].parent.Some? ==> G.Amount(trace[n].parent.value, BODY) >= trace[m].books.pendings[p].bytes
  {
    hide IsRun, LeasesOk, DeferredOk, BudgetOk, SlotsExcept, WaitsOk, Q.Inv;
    RunLength(c, trace, events);
    ResidueForever(c, trace, events, m, n, p);
    RunInv(c, trace, events, n);
    PendingWithin(trace[n].books, p);
    FlightNonNegative(trace[n].waits);
  }

  lemma DroppedStep(c: Config, s: Sys, p: nat)
    requires Allowed(s, DropPending(p)) && Apply(c, s, DropPending(p)).Next?
    ensures p < |Apply(c, s, DropPending(p)).sys.books.pendings|
    ensures Apply(c, s, DropPending(p)).sys.books.pendings[p].bytes == 0
  {
    hide ReleasePending, GiveBack;
    DropKept(s.books, p);
    GiveBackBooks(SectionRuns(s, p), ReleasePending(s.books, p));
    DropNeverRefuses(s.books, p);
    BrokenIsFailure(SectionRuns(s, p), ReleasePending(s.books, p));
  }

  lemma Dropped(c: Config, trace: seq<Sys>, events: seq<Event>, m: nat, p: nat)
    requires IsRun(c, trace, events) && m < |events| && events[m] == DropPending(p)
    ensures p < |trace[m + 1].books.pendings| && trace[m + 1].books.pendings[p].bytes == 0
  {
    hide Apply;
    assert Follows(c, trace[m], events[m], trace[m + 1]);
    DroppedStep(c, trace[m], p);
  }

  // ----- it does happen -----

  const ROOMY: Config := Config(8, 8, 0, 8, 0, 0, 0, 0)

  /** A system whose only owner is one reservation, with the release calls on it. */
  function Scene(bytes: nat, released: bool, called: nat, ran: nat): Sys {
    var b := EMPTY.(body := bytes, pendingBody := bytes,
                    pendings := [Pending(bytes, false, released, false, None, false)]);
    Opening(None, None).(books := b, releasing := map[0 := Releasing(called, ran)])
  }

  lemma Opened()
    ensures Follows(ROOMY, Opening(None, None), OpenPending(false), Scene(0, false, 0, 0).(releasing := map[]))
    ensures Follows(ROOMY, Scene(0, false, 0, 0).(releasing := map[]), CallRelease(0), Scene(0, false, 1, 0))
  {
  }

  lemma EmptyDropped()
    ensures Follows(ROOMY, Scene(0, false, 1, 0), DropPending(0), Scene(0, false, 0, 1))
  {
    hide Q.Notify;
    var b := Scene(0, false, 1, 0).books;
    assert DrainedPending(b, 0).pendings == b.pendings;
    assert ReleasePending(b, 0) == Done(b);
  }

  lemma GrownAfterwards()
    ensures Follows(ROOMY, Scene(0, false, 0, 1), AskBody(OfPending(0), 1, G.Cached, "", false), Scene(1, false, 0, 1))
  {
    hide Enqueue;
    var s := Scene(0, false, 0, 1);
    assert GrownBooks(s.books, OfPending(0), 1) == Scene(1, false, 0, 1).books;
    assert CommitGrowth(ROOMY, s.books, OfPending(0), 1) == Done(Scene(1, false, 0, 1).books);
    assert MustWait(ROOMY, s, OfPending(0), 1) == None;
  }

  lemma Marked()
    ensures Follows(ROOMY, Scene(1, false, 0, 1), MarkPending(0), Scene(1, true, 0, 0))
  {
  }

  /** The run in which a release is overtaken by a growth. */
  function Overtaken(p: nat): seq<Event> {
    [OpenPending(false), CallRelease(p), DropPending(p), AskBody(OfPending(p), 1, G.Cached, "", false), MarkPending(p)]
  }

  /**
   A growth that runs between the release section and the raising of the flag leaves a
   reservation that counts as released, holds its bytes, and has no release call left to run.
   */
  lemma ReleasedButHolding()
    ensures exists c: Config, trace: seq<Sys>, p: nat ::
              && IsRun(c, trace, Overtaken(p)) && p < |trace[5].books.pendings|
              && trace[5].books.pendings[p].released && trace[5].books.pendings[p].bytes > 0
              && Calls(trace[5], p).called == 0
  {
    hide Follows;
    Opened();
    EmptyDropped();
    GrownAfterwards();
    Marked();
    var trace := [Opening(None, None), Scene(0, false, 0, 0).(releasing := map[]), Scene(0, false, 1, 0),
                  Scene(0, false, 0, 1), Scene(1, false, 0, 1), Scene(1, true, 0, 0)];
    assert IsRun(ROOMY, trace, Overtaken(0));
  }
}
