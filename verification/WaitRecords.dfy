/**
 What tasks hold beside the books: the request behind each waiter, which never changes while it
 waits, and the release calls under way, which only the steps of those calls move on.
 */
module WaitRecords {
  import opened Common
  import opened Ledger
  import opened System
  import opened SystemInvariant
  import opened SystemRuns
  import G = Governor
  import Q = FairQueue

  /** The request behind a waiter; only whether it holds parent bytes may change. */
  predicate SameRequest(x: Wait, y: Wait) { y == x.(reserved := y.reserved) }

  predicate WaitsKept(ws: seq<Wait>, vs: seq<Wait>) {
    |ws| <= |vs| && forall w :: 0 <= w < |ws| ==> SameRequest(ws[w], vs[w])
  }

  lemma ReturnWaits(s: Sys, k: G.Category, size: nat)
    ensures ReturnParent(s, k, size).Next? ==>
              ReturnParent(s, k, size).sys.waits == s.waits && ReturnParent(s, k, size).sys.releasing == s.releasing
  {
  }

  lemma GiveBackWaits(s: Sys, r: Reply)
    ensures GiveBack(s, r).Next? ==> GiveBack(s, r).sys.waits == s.waits && GiveBack(s, r).sys.releasing == s.releasing
  {
    hide ReturnParent;
    if r.Done? {
      var t := s.(books := r.books);
      ReturnWaits(t, BODY, Drop(s.books.body, r.books.body));
      var u := ReturnParent(t, BODY, Drop(s.books.body, r.books.body));
      if u.Next? { ReturnWaits(u.sys, RESPONSE, Drop(s.books.response, r.books.response)); }
    }
  }

  lemma AskWaits(c: Config, s: Sys, o: Owner, additional: nat, r: G.Reading, tenant: string, expired: bool)
    requires Known(s.books, o) && Ask(c, s, o, additional, r, tenant, expired).Next?
    ensures var t := Ask(c, s, o, additional, r, tenant, expired).sys;
            && t.releasing == s.releasing
            && (|| t.waits == s.waits
                || t.waits == s.waits + [Wait(o, additional, LaneOf(c, s.books, o, additional), false)])
  {
    hide CommitGrowth, HardRefusal, MustWait, Q.Join;
  }

  lemma TurnWaits(c: Config, s: Sys, w: nat, refusal: Option<Refusal>)
    requires w < |s.waits|
    ensures TurnGiveUp(s, w, refusal).Next? ==>
              var t := TurnGiveUp(s, w, refusal).sys;
              WaitsKept(s.waits, t.waits) && |t.waits| == |s.waits| && t.releasing == s.releasing
  {
    hide ReturnParent, Q.FinishTurn;
    var x := s.waits[w];
    ReturnWaits(s.(waits := s.waits[w := x.(reserved := false)]), BODY, if x.reserved then x.additional else 0);
  }

  lemma CommitWaits(c: Config, s: Sys, w: nat)
    requires w < |s.waits| && Known(s.books, s.waits[w].owner)
    ensures TurnCommit(c, s, w).Next? ==>
              var t := TurnCommit(c, s, w).sys;
              WaitsKept(s.waits, t.waits) && |t.waits| == |s.waits| && t.releasing == s.releasing
  {
    hide TurnGiveUp, CommitGrowth, GrowthRefusal, Q.FinishTurn;
    match GrowthRefusal(c, s.books, s.waits[w].owner, s.waits[w].additional)
    case Some(x) => TurnWaits(c, s, w, Some(x));
    case None =>
  }

  /** Steps of a release of reservation `p`. */
  predicate OnRelease(e: Event, p: nat) { (e.CallRelease? || e.DropPending? || e.MarkPending?) && e.pending == p }

  lemma StepWaits(c: Config, s: Sys, e: Event, r: Sys)
    requires Follows(c, s, e, r)
    ensures WaitsKept(s.waits, r.waits)
    ensures |r.waits| > |s.waits| ==>
              && e.AskBody?
              && r.waits == s.waits + [Wait(e.owner, e.additional, LaneOf(c, s.books, e.owner, e.additional), false)]
    ensures forall p :: !OnRelease(e, p) ==> Calls(r, p) == Calls(s, p)
  {
    hide Ask, TurnCommit, TurnGiveUp, GiveBack, AskParent, Q.Remove;
    hide Transfer, ReleasePending, ReleaseStaged, CommitTemp, ReleaseTemp, ReleaseDeferral, RunRelease;
    match e
    case AskBody(o, additional, reading, tenant, expired) => AskWaits(c, s, o, additional, reading, tenant, expired);
    case CommitUnderTurn(w) => CommitWaits(c, s, w);
    case GiveUpTurn(w) => TurnWaits(c, s, w, Some(BudgetExhausted));
    case DropPending(p) => GiveBackWaits(SectionRuns(s, p), ReleasePending(s.books, p));
    case ReleaseBody(i, bytes) => GiveBackWaits(s, ReleaseStaged(s.books, i, bytes));
    case CommitTemporary(t) => GiveBackWaits(s, CommitTemp(s.books, t));
    case ReleaseTemporary(t) => GiveBackWaits(s, ReleaseTemp(s.books, t));
    case EndDeferral(d) => GiveBackWaits(s, ReleaseDeferral(s.books, d));
    case RunLeaseRelease(i) => GiveBackWaits(s, RunRelease(s.books, i));
    case _ => QuietWaits(c, s, e);
  }

  lemma QuietWaits(c: Config, s: Sys, e: Event)
    requires Allowed(s, e) && Apply(c, s, e).Next?
    requires !e.AskBody? && !e.CommitUnderTurn? && !e.GiveUpTurn? && !e.DropPending? && !e.ReleaseBody?
    requires !e.CommitTemporary? && !e.ReleaseTemporary? && !e.EndDeferral? && !e.RunLeaseRelease?
    ensures WaitsKept(s.waits, Apply(c, s, e).sys.waits) && |Apply(c, s, e).sys.waits| == |s.waits|
    ensures forall p :: !OnRelease(e, p) ==> Calls(Apply(c, s, e).sys, p) == Calls(s, p)
  {
    hide Transfer, Defer, Q.Remove, G.Reserve, G.Release, TakeDirect, TakeTemporary, TakeGrowth, WaitsKept;
    SameWaits(s.waits);
    match e
    case AskDirect(i, additional, r) => AsksKeepWaits(c, s, i, 0, additional, r);
    case AskTemporary(i, additional, r) => AsksKeepWaits(c, s, i, 0, additional, r);
    case AskGrowth(t, additional, r) => AsksKeepWaits(c, s, s.books.temps[t].lease, t, additional, r);
    case AskUnderTurn(w, r) => TurnAskWaits(s, w, r);
    case _ =>
  }

  lemma SameWaits(ws: seq<Wait>)
    ensures WaitsKept(ws, ws)
  {
  }

  lemma TurnAskWaits(s: Sys, w: nat, r: G.Reading)
    requires HasTurn(s, w)
    ensures var t := TurnAsk(s, w, r).sys;
            WaitsKept(s.waits, t.waits) && |t.waits| == |s.waits| && t.releasing == s.releasing
  {
    hide G.Reserve;
  }

  /** Asking for response bytes has nothing to do with the queue. */
  lemma AsksKeepWaits(c: Config, s: Sys, i: nat, t: nat, additional: nat, r: G.Reading)
    requires i < |s.books.leases|
    ensures var d, a := TakeDirect(c, s, i, additional, r).sys, TakeTemporary(c, s, i, additional, r).sys;
            d.waits == a.waits == s.waits && d.releasing == a.releasing == s.releasing
    ensures t < |s.books.temps| && s.books.temps[t].lease == i ==>
              var g := TakeGrowth(c, s, t, additional, r).sys;
              g.waits == s.waits && g.releasing == s.releasing
  {
    hide AdmitResponse, ReserveDirect, ActivateTemp, GrowTemp;
    AdmitKeepsWaits(c, s, i, CurrentKey(s.books.leases[i]), additional, r);
    if t < |s.books.temps| { AdmitKeepsWaits(c, s, i, s.books.temps[t].key, additional, r); }
  }

  lemma AdmitKeepsWaits(c: Config, s: Sys, i: nat, k: Key, additional: nat, r: G.Reading)
    requires i < |s.books.leases|
    ensures var t := AdmitResponse(c, s, i, k, additional, r).0;
            t.waits == s.waits && t.releasing == s.releasing && |t.books.leases| == |s.books.leases|
    ensures AdmitResponse(c, s, i, k, additional, r).0.books.temps == s.books.temps
  {
    hide G.Reserve, ResponseRefusal;
  }

  /** A waiter of state `n` asked at step `m` for what it is still waiting for. */
  ghost predicate AskedAt(c: Config, trace: seq<Sys>, events: seq<Event>, n: nat, w: nat, m: nat)
    requires |trace| == |events| + 1 && n < |trace| && w < |trace[n].waits|
  {
    && m < n && |trace[m].waits| == w
    && match events[m]
       case AskBody(o, additional, _, _, _) =>
         && Known(trace[m].books, o)
         && SameRequest(Wait(o, additional, LaneOf(c, trace[m].books, o, additional), false), trace[n].waits[w])
       case _ => false
  }

  /**
   Every waiter of every reachable state stands for exactly one earlier request: its owner, its
   bytes and the lane its size gave it are those of the step at which it joined.
   */
  lemma {:induction false} WaitersRemember(c: Config, trace: seq<Sys>, events: seq<Event>, n: nat, w: nat)
    requires IsRun(c, trace, events) && n < |trace| && w < |trace[n].waits|
    ensures exists m :: AskedAt(c, trace, events, n, w, m)
  {
    hide Apply, LaneOf;
    if n == 0 {
      StartsAlone(c, trace, events);
    } else {
      assert Follows(c, trace[n - 1], events[n - 1], trace[n - 1 + 1]);
      StepWaits(c, trace[n - 1], events[n - 1], trace[n]);
      if w < |trace[n - 1].waits| {
        WaitersRemember(c, trace, events, n - 1, w);
        var m :| AskedAt(c, trace, events, n - 1, w, m);
        assert SameRequest(trace[n - 1].waits[w], trace[n].waits[w]);
        assert AskedAt(c, trace, events, n, w, m);
      } else {
        assert AskedAt(c, trace, events, n, w, n - 1);
      }
    }
  }

  lemma StartsAlone(c: Config, trace: seq<Sys>, events: seq<Event>)
    requires IsRun(c, trace, events)
    ensures trace[0].waits == []
  {
  }
}
