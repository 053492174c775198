/** The three ledgers keep agreeing, whatever the interleaving. */
module SystemInvariant {
  import opened Common
  import opened Ledger
  import opened LedgerInvariant
  import opened LedgerSteps
  import opened LedgerBody
  import opened LedgerLifetime
  import opened LedgerProgress
  import opened System
  import FairQueueTurns
  import G = Governor
  import Q = FairQueue

  // ----- bytes in flight -----

  function Flight(x: Wait): nat { if x.reserved then x.additional else 0 }

  function Flights(ws: seq<Wait>): seq<int> { seq(|ws|, w requires 0 <= w < |ws| => Flight(ws[w])) }

  /** Parent bytes held by tasks that have not committed or given up their turn yet. */
  function InFlight(ws: seq<Wait>): int { Total(Flights(ws)) }

  lemma FlightUpdate(ws: seq<Wait>, w: nat, x: Wait)
    requires w < |ws|
    ensures InFlight(ws[w := x]) == InFlight(ws) - Flight(ws[w]) + Flight(x)
    ensures Flight(ws[w]) <= InFlight(ws)
  {
    assert Flights(ws[w := x]) == Flights(ws)[w := Flight(x)];
    TotalUpdate(Flights(ws), w, Flight(x));
    TotalBounds(Flights(ws), w);
  }

  lemma FlightAppend(ws: seq<Wait>, x: Wait)
    ensures InFlight(ws + [x]) == InFlight(ws) + Flight(x)
  {
    assert Flights(ws + [x]) == Flights(ws) + [Flight(x)];
    TotalAppend(Flights(ws), Flight(x));
  }

  lemma FlightNonNegative(ws: seq<Wait>)
    ensures InFlight(ws) >= 0
  {
    TotalNonNegative(Flights(ws));
  }

  // ----- the invariant -----

  /** A task holds parent bytes only while it holds its lane's turn. */
  predicate WaitOk(s: Sys, w: nat)
    requires w < |s.waits| && w < |s.queue.waiters|
  {
    var x := s.waits[w];
    && Known(s.books, x.owner)
    && s.queue.waiters[w].small == x.small
    && (x.reserved ==> s.parent.Some? && w in Q.Get(s.queue, x.small).turns)
  }

  predicate WaitsOk(s: Sys) {
    && |s.waits| == |s.queue.waiters|
    && forall w :: 0 <= w < |s.waits| ==> WaitOk(s, w)
  }

  /** The parent's two categories are the two global counters, plus the bytes in flight. */
  predicate ParentOk(s: Sys) {
    s.parent.Some? ==>
      && Held(s, BODY) == s.books.body + InFlight(s.waits)
      && Held(s, RESPONSE) == s.books.response
  }

  ghost predicate SysInv(c: Config, s: Sys) { Inv(c, s.books) && Q.Inv(s.queue) && WaitsOk(s) && ParentOk(s) }

  lemma StartInv(c: Config, settings: Option<G.Settings>, waiterLimit: Option<nat>)
    ensures var parent := if settings.Some? then Some(G.New(settings.value)) else None;
            SysInv(c, Start(parent, waiterLimit))
  {
    hide Inv, Q.Inv;
    EmptyInv(c);
    Q.NewInv(waiterLimit);
    assert Flights([]) == [];
  }

  /** Moving the queue on, while only `but` may lose its turn. */
  lemma QueueMoves(s: Sys, q: Q.Queue, but: set<nat>)
    requires WaitsOk(s) && FairQueueTurns.TurnsKept(s.queue, q, but) && |q.waiters| == |s.queue.waiters|
    requires forall w :: w in but && w < |s.waits| ==> !s.waits[w].reserved
    ensures WaitsOk(s.(queue := q))
  {
    hide Known;
    var r := s.(queue := q);
    forall w | 0 <= w < |r.waits| ensures WaitOk(r, w) { assert WaitOk(s, w); }
  }

  /** Books that still know every owner leave the waiting tasks alone. */
  lemma BooksMove(s: Sys, b: Books)
    requires WaitsOk(s) && |s.books.leases| <= |b.leases| && |s.books.pendings| <= |b.pendings|
    ensures WaitsOk(s.(books := b))
  {
    var r := s.(books := b);
    forall w | 0 <= w < |r.waits| ensures WaitOk(r, w) { assert WaitOk(s, w); }
  }

  lemma NotifyWaits(s: Sys)
    requires WaitsOk(s) && Q.Inv(s.queue)
    ensures WaitsOk(s.(queue := Q.Notify(s.queue))) && Q.Inv(Q.Notify(s.queue))
  {
    hide Q.Notify, Q.Inv, WaitsOk;
    Q.NotifyInv(s.queue);
    FairQueueTurns.NotifyKeeps(s.queue);
    QueueMoves(s, Q.Notify(s.queue), {});
  }

  // ----- the parent -----

  lemma BrokenIsFailure(s: Sys, r: Reply)
    ensures r.Broken? ==> GiveBack(s, r).Failed?
    ensures r.Refused? ==> GiveBack(s, r) == Next(s, Some(r.reason))
  {
  }

  lemma DropNeverRefuses(b: Books, p: nat)
    requires p < |b.pendings|
    ensures !ReleasePending(b, p).Refused?
  {
  }

  /** A system that differs at most in its parent and its queue, the parent holding `less` less of `k`. */
  ghost predicate Returned(s: Sys, r: Sys, k: G.Category, less: nat) {
    && r == s.(parent := r.parent, queue := r.queue)
    && r.queue.limit == s.queue.limit
    && (r.parent.Some? <==> s.parent.Some?)
    && (s.parent.Some? ==>
          && Held(r, k) == Held(s, k) - less
          && (forall j: G.Category :: j != k ==> Held(r, j) == Held(s, j)))
  }

  lemma ParentReleases(s: Sys, k: G.Category, size: nat)
    requires s.parent.Some? && size <= Held(s, k)
    ensures G.Release(s.parent.value, k, size).Some?
    ensures Returned(s, s.(parent := G.Release(s.parent.value, k, size)), k, size)
  {
    G.ReleaseSum(s.parent.value, k, size);
  }

  lemma ReturnParentOk(s: Sys, k: G.Category, size: nat)
    requires WaitsOk(s) && Q.Inv(s.queue)
    requires s.parent.Some? ==> size <= Held(s, k)
    ensures var r := ReturnParent(s, k, size);
            && r.Next? && r.refusal == None && Returned(s, r.sys, k, size)
            && WaitsOk(r.sys) && Q.Inv(r.sys.queue)
            && FairQueueTurns.TurnsKept(s.queue, r.sys.queue, {}) && |r.sys.queue.waiters| == |s.queue.waiters|
  {
    hide Q.Notify, Q.Inv, WaitOk, G.Release;
    NotifyWaits(s);
    Q.NotifyInv(s.queue);
    FairQueueTurns.NotifyKeeps(s.queue);
    if s.parent.Some? { ParentReleases(s, k, size); }
    if size != 0 {
      var r := ReturnParent(s, k, size).sys;
      forall w | 0 <= w < |r.waits| ensures WaitOk(r, w) { SameWait(s.(queue := r.queue), r, w); }
    }
  }

  lemma SameWait(s: Sys, r: Sys, w: nat)
    requires WaitsOk(s) && w < |s.waits| && r == s.(parent := r.parent) && (r.parent.Some? <==> s.parent.Some?)
    ensures WaitOk(r, w)
  {
    assert WaitOk(s, w);
  }

  lemma AskParentOk(s: Sys, k: G.Category, size: nat, r: G.Reading)
    requires WaitsOk(s)
    ensures var (a, allowed) := AskParent(s, k, size, r);
            && a == s.(parent := a.parent) && (a.parent.Some? <==> s.parent.Some?)
            && WaitsOk(a)
            && (s.parent.Some? ==>
                  && Held(a, k) == Held(s, k) + (if allowed then size else 0)
                  && (forall j: G.Category :: j != k ==> Held(a, j) == Held(s, j)))
  {
    var (a, allowed) := AskParent(s, k, size, r);
    if s.parent.Some? { G.AddSum(G.Refresh(s.parent.value, r), k, size); }
    forall w | 0 <= w < |a.waits| ensures WaitOk(a, w) { SameWait(s, a, w); }
  }

  // ----- giving back -----

  /** A release that the ledger carries out, and that the parent can follow. */
  lemma GiveBackOk(c: Config, s: Sys, b: Books)
    requires SysInv(c, s) && Inv(c, b) && Continues(s.books, b)
    requires b.body <= s.books.body && b.response <= s.books.response
    ensures var r := GiveBack(s, Done(b));
            r.Next? && SysInv(c, r.sys) && r.refusal == None && r.sys.books == b
  {
    hide Inv, Q.Inv, WaitsOk, Q.Notify;
    var t := s.(books := b);
    BooksMove(s, b);
    FlightNonNegative(s.waits);
    ReturnParentOk(t, BODY, Drop(s.books.body, b.body));
    var u := ReturnParent(t, BODY, Drop(s.books.body, b.body)).sys;
    ReturnParentOk(u, RESPONSE, Drop(s.books.response, b.response));
  }

  lemma ReplyOk(c: Config, s: Sys, r: Reply)
    requires SysInv(c, s) && !r.Broken?
    requires r.Done? ==>
               && Inv(c, r.books) && Continues(s.books, r.books)
               && r.books.body <= s.books.body && r.books.response <= s.books.response
    ensures GiveBack(s, r).Next? && SysInv(c, GiveBack(s, r).sys)
    ensures GiveBack(s, r).sys.books == if r.Done? then r.books else s.books
  {
    hide SysInv, Inv, Continues;
    if r.Done? { GiveBackOk(c, s, r.books); }
  }

  /** New books that leave both global counters alone. */
  lemma AdoptOk(c: Config, s: Sys, b: Books)
    requires SysInv(c, s) && Inv(c, b) && Continues(s.books, b)
    requires b.body == s.books.body && b.response == s.books.response
    ensures SysInv(c, s.(books := b))
  {
    hide Inv, Q.Inv, WaitsOk;
    BooksMove(s, b);
  }

  /** The release calls under way enter no facet. */
  lemma CallsOk(c: Config, s: Sys, p: nat, x: Releasing)
    requires SysInv(c, s)
    ensures SysInv(c, SetCalls(s, p, x))
  {
    hide Inv, Q.Inv;
    var r := SetCalls(s, p, x);
    forall w | 0 <= w < |r.waits| ensures WaitOk(r, w) { assert WaitOk(s, w); }
  }

  /** The books go on from where they were, and no global counter grows. */
  predicate Settles(b: Books, r: Books) {
    Continues(b, r) && r.body <= b.body && r.response <= b.response
  }

  lemma SettlesSame(b: Books)
    ensures Settles(b, b) && Continues(b, b)
  {
  }

  lemma ReleasesOk(c: Config, s: Sys, e: Event)
    requires SysInv(c, s) && Allowed(s, e)
    requires e.DropPending? || e.ReleaseBody? || e.CommitTemporary? || e.ReleaseTemporary? || e.EndDeferral?
             || e.RunLeaseRelease?
    ensures Apply(c, s, e).Next? && SysInv(c, Apply(c, s, e).sys) && Settles(s.books, Apply(c, s, e).sys.books)
  {
    SettlesSame(s.books);
    hide Inv, GiveBack, Q.Inv, WaitsOk, ParentOk, Continues;
    hide ReleasePending, ReleaseStaged, CommitTemp, ReleaseTemp, ReleaseDeferral, RunRelease;
    match e
    case DropPending(p) =>
      ReleasePendingOk(c, s.books, p);
      ReleasePendingContinues(s.books, p);
      CallsOk(c, s, p, Releasing(Calls(s, p).called - 1, Calls(s, p).ran + 1));
      ReplyOk(c, SectionRuns(s, p), ReleasePending(s.books, p));
    case ReleaseBody(i, n) =>
      ReleaseStagedOk(c, s.books, i, n);
      ReleaseStagedContinues(s.books, i, n);
      ReplyOk(c, s, ReleaseStaged(s.books, i, n));
    case CommitTemporary(t) =>
      CommitTempOk(c, s.books, t);
      TempsContinue(s.books, t);
      ReplyOk(c, s, CommitTemp(s.books, t));
    case ReleaseTemporary(t) =>
      ReleaseTempOk(c, s.books, t);
      TempsContinue(s.books, t);
      ReplyOk(c, s, ReleaseTemp(s.books, t));
    case EndDeferral(d) =>
      ReleaseDeferralOk(c, s.books, d);
      ReleaseDeferralContinues(s.books, d);
      ReplyOk(c, s, ReleaseDeferral(s.books, d));
    case RunLeaseRelease(i) =>
      RunReleaseOk(c, s.books, i);
      RunReleaseContinues(s.books, i);
      ReplyOk(c, s, RunRelease(s.books, i));
  }

  lemma OpensOk(c: Config, s: Sys, e: Event)
    requires SysInv(c, s) && Allowed(s, e)
    requires e.OpenLease? || e.OpenPending? || e.CallRelease? || e.MarkPending? || e.TransferPending?
    ensures Apply(c, s, e).Next? && SysInv(c, Apply(c, s, e).sys) && Settles(s.books, Apply(c, s, e).sys.books)
  {
    SettlesSame(s.books);
    hide Inv, Q.Inv, WaitsOk, ParentOk, Continues, SysInv;
    hide Transfer;
    SysBooks(c, s);
    match e
    case OpenLease(resourceOnly) =>
      AddLeaseOk(c, s.books, resourceOnly);
      OpensContinue(s.books, resourceOnly);
      AdoptOk(c, s, AddLease(s.books, resourceOnly));
    case OpenPending(resourceOnly) =>
      AddPendingOk(c, s.books, resourceOnly);
      OpensContinue(s.books, resourceOnly);
      AdoptOk(c, s, AddPending(s.books, resourceOnly));
    case CallRelease(p) => CallsOk(c, s, p, Releasing(Calls(s, p).called + 1, Calls(s, p).ran));
    case MarkPending(p) =>
      MarkPendingReleasedOk(c, s.books, p);
      MarkPendingContinues(s.books, p);
      CallsOk(c, s, p, Releasing(Calls(s, p).called, Calls(s, p).ran - 1));
      AdoptOk(c, SetCalls(s, p, Releasing(Calls(s, p).called, Calls(s, p).ran - 1)), MarkPendingReleased(s.books, p));
    case TransferPending(p, i) =>
      TransferOk(c, s.books, p, i);
      TransferContinues(c, s.books, p, i);
      if Transfer(c, s.books, p, i).Done? { AdoptOk(c, s, Transfer(c, s.books, p, i).books); }
  }

  /** Books that move no byte are adopted as they are. */
  lemma MarkedOk(c: Config, s: Sys, b: Books)
    requires SysInv(c, s) && Inv(c, b) && Continues(s.books, b)
    requires b.body == s.books.body && b.response == s.books.response
    ensures SysInv(c, s.(books := b)) && Settles(s.books, b)
  {
    hide Inv, Continues, SysInv;
    AdoptOk(c, s, b);
  }

  lemma DeferralOk(c: Config, s: Sys, i: nat)
    requires SysInv(c, s) && i < |s.books.leases|
    ensures var o := Adopt(s, Defer(s.books, i));
            o.Next? && SysInv(c, o.sys) && Settles(s.books, o.sys.books)
  {
    hide Inv, Continues, SysInv;
    SettlesSame(s.books);
    SysBooks(c, s);
    DeferOk(c, s.books, i);
    MarksContinue(s.books, i, "", 0);
    if Defer(s.books, i).Done? { AdoptOk(c, s, Defer(s.books, i).books); }
  }

  lemma MarksOk(c: Config, s: Sys, e: Event)
    requires SysInv(c, s) && Allowed(s, e)
    requires e.DeferRelease? || e.RequestLeaseRelease? || e.BeginRouting? || e.EndRouting?
    ensures Apply(c, s, e).Next? && SysInv(c, Apply(c, s, e).sys) && Settles(s.books, Apply(c, s, e).sys.books)
  {
    SettlesSame(s.books);
    hide Inv, Q.Inv, WaitsOk, ParentOk, Continues, SysInv, Settles;
    SysBooks(c, s);
    match e
    case DeferRelease(i) => DeferralOk(c, s, i);
    case RequestLeaseRelease(i) =>
      RequestReleaseOk(c, s.books, i);
      MarksContinue(s.books, i, "", 0);
      MarkedOk(c, s, RequestRelease(s.books, i));
    case BeginRouting(i, k) =>
      BeginAttemptOk(c, s.books, i, k);
      MarksContinue(s.books, i, k, 0);
      MarkedOk(c, s, BeginAttempt(s.books, i, k));
    case EndRouting(i) =>
      EndAttemptOk(c, s.books, i);
      MarksContinue(s.books, i, "", 0);
      MarkedOk(c, s, EndAttempt(s.books, i));
  }

  lemma SysBooks(c: Config, s: Sys)
    requires SysInv(c, s)
    ensures Inv(c, s.books)
  {
  }

  // ----- growth of responses -----

  /** The parent has granted exactly what the books are about to gain. */
  lemma ResponseGrowth(c: Config, s: Sys, r: G.Reading, b: Books, additional: nat)
    requires SysInv(c, s) && AskParent(s, RESPONSE, additional, r).1
    requires Inv(c, b) && Continues(s.books, b)
    requires b.body == s.books.body && b.response == s.books.response + additional
    ensures SysInv(c, AskParent(s, RESPONSE, additional, r).0.(books := b))
  {
    hide Inv, Q.Inv, WaitsOk, AskParent;
    AskParentOk(s, RESPONSE, additional, r);
    BooksMove(AskParent(s, RESPONSE, additional, r).0, b);
  }

  /** A refused request leaves the parent as it was, but for a newer sample. */
  lemma RefusedGrowth(c: Config, s: Sys, k: G.Category, additional: nat, r: G.Reading, b: Books)
    requires SysInv(c, s) && !AskParent(s, k, additional, r).1
    requires Inv(c, b) && Continues(s.books, b) && b.body == s.books.body && b.response == s.books.response
    ensures SysInv(c, AskParent(s, k, additional, r).0.(books := b))
  {
    hide Inv, Q.Inv, WaitsOk, AskParent;
    AskParentOk(s, k, additional, r);
    BooksMove(AskParent(s, k, additional, r).0, b);
  }

  /**
   A response growth that is admitted adds exactly its bytes to one lease and keeps the
   lease, its request and the whole system within their limits.
   */
  predicate GrowsResponse(c: Config, b: Books, r: Books, i: nat, additional: nat)
    requires i < |b.leases|
  {
    && Continues(b, r) && r.body == b.body && r.response == b.response + additional
    && i < |r.leases| && r.leases[i].response == b.leases[i].response + additional
    && r.leases[i].response <= c.maxResponse
    && r.leases[i].body + r.leases[i].response <= c.maxRetained
    && r.body + r.response <= c.budget
  }

  lemma RejectionOk(c: Config, s: Sys, i: nat, k: Key, additional: nat, r: G.Reading)
    requires SysInv(c, s) && i < |s.books.leases| && AdmitResponse(c, s, i, k, additional, r).1.Some?
    ensures SysInv(c, AdmitResponse(c, s, i, k, additional, r).0)
    ensures Settles(s.books, AdmitResponse(c, s, i, k, additional, r).0.books)
  {
    hide Inv, AskParent, SysInv, Continues, ResponseRefusal;
    AskParentKeepsBooks(s, RESPONSE, additional, r);
    RejectionCounters(s.books, i, k, additional);
    SysBooks(c, s);
    RecordRejectionOk(c, s.books, i, k, additional);
    MarksContinue(s.books, i, k, additional);
    if ResponseRefusal(c, s.books, i, additional).Some? {
      AdoptOk(c, s, RecordRejection(s.books, i, k, additional));
    } else {
      RefusedGrowth(c, s, RESPONSE, additional, r, RecordRejection(s.books, i, k, additional));
    }
  }

  lemma AskParentKeepsBooks(s: Sys, k: G.Category, size: nat, r: G.Reading)
    ensures AskParent(s, k, size, r).0.books == s.books
  {
  }

  lemma RejectionCounters(b: Books, i: nat, k: Key, additional: nat)
    requires i < |b.leases|
    ensures RecordRejection(b, i, k, additional).body == b.body
    ensures RecordRejection(b, i, k, additional).response == b.response
  {
  }

  /** An admitted growth has passed the ledger's limits, and the parent has granted it. */
  lemma AdmittedWithin(c: Config, s: Sys, i: nat, k: Key, additional: nat, r: G.Reading)
    requires i < |s.books.leases| && AdmitResponse(c, s, i, k, additional, r).1.None?
    ensures ResponseRefusal(c, s.books, i, additional) == None && AskParent(s, RESPONSE, additional, r).1
    ensures AdmitResponse(c, s, i, k, additional, r).0 == AskParent(s, RESPONSE, additional, r).0
    ensures AskParent(s, RESPONSE, additional, r).0.books == s.books
  {
    hide ResponseRefusal;
    AskParentKeepsBooks(s, RESPONSE, additional, r);
  }

  /** The books of an admitted growth, beside what the parent has granted. */
  lemma AdmittedGrowth(c: Config, s: Sys, i: nat, additional: nat, r: G.Reading, b: Books)
    requires SysInv(c, s) && i < |s.books.leases|
    requires ResponseRefusal(c, s.books, i, additional) == None && AskParent(s, RESPONSE, additional, r).1
    requires Inv(c, b) && Continues(s.books, b)
    requires b.body == s.books.body && b.response == s.books.response + additional
    requires i < |b.leases| && b.leases[i].body == s.books.leases[i].body
    requires b.leases[i].response == s.books.leases[i].response + additional
    ensures SysInv(c, AskParent(s, RESPONSE, additional, r).0.(books := b))
    ensures GrowsResponse(c, s.books, b, i, additional)
  {
    hide Inv, SysInv, Continues, AskParent;
    ResponseGrowth(c, s, r, b, additional);
  }

  lemma DirectOk(c: Config, s: Sys, i: nat, additional: nat, r: G.Reading)
    requires SysInv(c, s) && i < |s.books.leases|
    ensures var o := TakeDirect(c, s, i, additional, r);
            && o.Next? && SysInv(c, o.sys)
            && (o.refusal.Some? ==> Settles(s.books, o.sys.books))
            && (o.refusal.None? ==> GrowsResponse(c, s.books, o.sys.books, i, additional))
  {
    SettlesSame(s.books);
    hide Inv, SysInv, Continues, AdmitResponse, AskParent, GrowsResponse, Settles, ResponseRefusal;
    hide PutAllocation, EntryBytes;
    SysBooks(c, s);
    var k := CurrentKey(s.books.leases[i]);
    if !s.books.leases[i].releaseRequested {
      var (asked, refusal) := AdmitResponse(c, s, i, k, additional, r);
      if refusal.Some? {
        RejectionOk(c, s, i, k, additional, r);
      } else {
        AdmittedWithin(c, s, i, k, additional, r);
        ReserveDirectOk(c, s.books, i, additional);
        ResponsesContinue(s.books, i, additional);
        AdmittedGrowth(c, s, i, additional, r, ReserveDirect(s.books, i, additional));
      }
    }
  }

  lemma ActivateOk(c: Config, s: Sys, i: nat, additional: nat, r: G.Reading)
    requires SysInv(c, s) && i < |s.books.leases|
    ensures var o := TakeTemporary(c, s, i, additional, r);
            && o.Next? && SysInv(c, o.sys)
            && (o.refusal.Some? ==> Settles(s.books, o.sys.books))
            && (o.refusal.None? ==> GrowsResponse(c, s.books, o.sys.books, i, additional))
  {
    SettlesSame(s.books);
    hide Inv, SysInv, Continues, AdmitResponse, AskParent, GrowsResponse, Settles, ResponseRefusal;
    hide PutAllocation, EntryBytes;
    SysBooks(c, s);
    var k := CurrentKey(s.books.leases[i]);
    if !s.books.leases[i].releaseRequested {
      var (asked, refusal) := AdmitResponse(c, s, i, k, additional, r);
      if refusal.Some? {
        RejectionOk(c, s, i, k, additional, r);
      } else {
        AdmittedWithin(c, s, i, k, additional, r);
        ActivateTempOk(c, s.books, i, additional);
        ResponsesContinue(s.books, i, additional);
        AdmittedGrowth(c, s, i, additional, r, ActivateTemp(s.books, i, additional));
      }
    }
  }

  lemma GrowOk(c: Config, s: Sys, t: nat, additional: nat, r: G.Reading)
    requires SysInv(c, s) && t < |s.books.temps| && s.books.temps[t].lease < |s.books.leases|
    ensures var o := TakeGrowth(c, s, t, additional, r);
            && o.Next? && SysInv(c, o.sys)
            && (o.refusal.Some? ==> Settles(s.books, o.sys.books))
            && (o.refusal.None? ==> GrowsResponse(c, s.books, o.sys.books, s.books.temps[t].lease, additional))
  {
    SettlesSame(s.books);
    hide Inv, SysInv, Continues, AdmitResponse, AskParent, GrowsResponse, Settles, ResponseRefusal;
    hide PutAllocation, EntryBytes;
    SysBooks(c, s);
    var x := s.books.temps[t];
    if x.Live() {
      var (asked, refusal) := AdmitResponse(c, s, x.lease, x.key, additional, r);
      if refusal.Some? {
        RejectionOk(c, s, x.lease, x.key, additional, r);
      } else {
        AdmittedWithin(c, s, x.lease, x.key, additional, r);
        GrowTempOk(c, s.books, t, additional);
        GrowTempContinues(s.books, t, additional);
        AdmittedGrowth(c, s, x.lease, additional, r, GrowTemp(s.books, t, additional));
      }
    }
  }

  // ----- growth of bodies -----

  /** The parent has granted exactly what the books gain, or holds it in flight already. */
  lemma BodyGrowth(c: Config, s: Sys, r: G.Reading, b: Books, additional: nat)
    requires SysInv(c, s) && AskParent(s, BODY, additional, r).1
    requires Inv(c, b) && Continues(s.books, b)
    requires b.body == s.books.body + additional && b.response == s.books.response
    ensures SysInv(c, AskParent(s, BODY, additional, r).0.(books := b))
  {
    hide Inv, Q.Inv, WaitsOk, AskParent;
    AskParentOk(s, BODY, additional, r);
    BooksMove(AskParent(s, BODY, additional, r).0, b);
  }

  /**
   A body growth that is committed adds exactly its bytes to one owner, leaves the reserve of
   the small lane alone, and keeps the request within its retained limit.
   */
  predicate GrowsBody(c: Config, b: Books, r: Books, o: Owner, additional: nat)
    requires Known(b, o)
  {
    && Continues(b, r) && Known(r, o) && r.body == b.body + additional && r.response == b.response
    && Bytes(r, o) == Bytes(b, o) + additional
    && WithinShare(c, Bytes(r, o), r.body + r.response)
    && (o.OfLease? && !ResourceOnly(b, o) ==> r.leases[o.index].body + r.leases[o.index].response <= c.maxRetained)
  }

  /** A step on behalf of an owner grows it, or settles for nothing. */
  ghost predicate AsksBody(c: Config, s: Sys, r: Sys, o: Owner, additional: nat)
    requires Known(s.books, o)
  {
    r.books == s.books || GrowsBody(c, s.books, r.books, o, additional)
  }

  lemma BlockOk(c: Config, s: Sys, small: bool)
    requires SysInv(c, s)
    ensures SysInv(c, s.(queue := Q.Block(s.queue, small)))
  {
    hide Inv, WaitOk;
    var r := s.(queue := Q.Block(s.queue, small));
    forall w | 0 <= w < |r.waits| ensures WaitOk(r, w) { BlockWait(s, small, w); }
  }

  lemma BlockWait(s: Sys, small: bool, w: nat)
    requires WaitsOk(s) && w < |s.waits|
    ensures WaitOk(s.(queue := Q.Block(s.queue, small)), w)
  {
    assert WaitOk(s, w);
  }

  lemma JoinOk(c: Config, s: Sys, o: Owner, additional: nat, tenant: string, small: bool)
    requires SysInv(c, s) && Known(s.books, o) && Q.Join(s.queue, tenant, small).Some?
    ensures SysInv(c, s.(queue := Q.Join(s.queue, tenant, small).value,
                         waits := s.waits + [Wait(o, additional, small, false)]))
  {
    hide Inv, Q.Inv, Q.Join, Known;
    var q := Q.Join(s.queue, tenant, small).value;
    var x := Wait(o, additional, small, false);
    Q.JoinInv(s.queue, tenant, small);
    FairQueueTurns.JoinKeeps(s.queue, tenant, small);
    FairQueueTurns.JoinedLane(s.queue, tenant, small);
    FlightAppend(s.waits, x);
    var r := s.(queue := q, waits := s.waits + [x]);
    forall w | 0 <= w < |r.waits| ensures WaitOk(r, w) { JoinWait(s, r, w); }
  }

  lemma JoinWait(s: Sys, r: Sys, w: nat)
    requires WaitsOk(s) && FairQueueTurns.TurnsKept(s.queue, r.queue, {})
    requires |r.queue.waiters| == |r.waits| == |s.waits| + 1
    requires r == s.(queue := r.queue, waits := s.waits + [r.waits[|s.waits|]]) && w < |r.waits|
    requires var x := r.waits[|s.waits|];
             !x.reserved && Known(s.books, x.owner) && r.queue.waiters[|s.waits|].small == x.small
    ensures WaitOk(r, w)
  {
    if w < |s.waits| {
      assert WaitOk(s, w) && r.waits[w] == s.waits[w];
      if s.waits[w].reserved { FairQueueTurns.TurnKept(s.queue, r.queue, {}, s.waits[w].small, w); }
    }
  }

  lemma EnqueueOk(c: Config, s: Sys, o: Owner, additional: nat, reason: Refusal, tenant: string)
    requires SysInv(c, s) && Known(s.books, o)
    ensures Enqueue(c, s, o, additional, reason, tenant).Next?
    ensures SysInv(c, Enqueue(c, s, o, additional, reason, tenant).sys)
    ensures Enqueue(c, s, o, additional, reason, tenant).sys.books == s.books
  {
    hide SysInv, Q.Join;
    var small := LaneOf(c, s.books, o, additional);
    var asleep := s.(queue := Sleep(c, s, o, additional, reason));
    BlockOk(c, s, small);
    assert SysInv(c, asleep);
    if Q.Join(asleep.queue, tenant, small).Some? { JoinOk(c, asleep, o, additional, tenant, small); }
  }

  lemma AskOk(c: Config, s: Sys, o: Owner, additional: nat, r: G.Reading, tenant: string, expired: bool)
    requires SysInv(c, s) && Known(s.books, o)
    ensures Ask(c, s, o, additional, r, tenant, expired).Next?
    ensures SysInv(c, Ask(c, s, o, additional, r, tenant, expired).sys)
    ensures AsksBody(c, s, Ask(c, s, o, additional, r, tenant, expired).sys, o, additional)
  {
    hide SysInv, Inv, Enqueue, AskParent, CommitGrowth, Continues, Q.HasWaiters, HardRefusal, Unavailable;
    if HardRefusal(c, s.books, o, Bytes(s.books, o) + additional).None? {
      var reason := MustWait(c, s, o, additional);
      if reason.Some? {
        EnqueueOk(c, s, o, additional, reason.value, tenant);
      } else {
        AskedOk(c, s, o, additional, r, tenant);
      }
    }
  }

  lemma AskedOk(c: Config, s: Sys, o: Owner, additional: nat, r: G.Reading, tenant: string)
    requires SysInv(c, s) && Known(s.books, o) && GrowthRefusal(c, s.books, o, additional) == None
    ensures var (asked, allowed) := AskParent(s, BODY, additional, r);
            && asked.books == s.books
            && (!allowed ==>
                  && SysInv(c, asked)
                  && Enqueue(c, asked, o, additional, BudgetExhausted, tenant).Next?
                  && SysInv(c, Enqueue(c, asked, o, additional, BudgetExhausted, tenant).sys)
                  && Enqueue(c, asked, o, additional, BudgetExhausted, tenant).sys.books == s.books)
            && (allowed ==>
                  && Adopt(asked, CommitGrowth(c, s.books, o, additional)).Next?
                  && SysInv(c, Adopt(asked, CommitGrowth(c, s.books, o, additional)).sys)
                  && GrowsBody(c, s.books, Adopt(asked, CommitGrowth(c, s.books, o, additional)).sys.books,
                               o, additional))
  {
    hide SysInv, Inv, Enqueue, CommitGrowth, Continues, GrowthRefusal, Known;
    SysBooks(c, s);
    var (asked, allowed) := AskParent(s, BODY, additional, r);
    if allowed {
      CommitGrowthOk(c, s.books, o, additional);
      CommitGrowthContinues(c, s.books, o, additional);
      BodyGrowth(c, s, r, CommitGrowth(c, s.books, o, additional).books, additional);
    } else {
      SettlesSame(s.books);
      RefusedGrowth(c, s, BODY, additional, r, s.books);
      assert asked == asked.(books := s.books);
      EnqueueOk(c, asked, o, additional, BudgetExhausted, tenant);
    }
  }

  // ----- under a turn -----

  lemma TurnAskOk(c: Config, s: Sys, w: nat, r: G.Reading)
    requires SysInv(c, s) && HasTurn(s, w) && !s.waits[w].reserved && s.parent.Some?
    ensures TurnAsk(s, w, r).Next? && SysInv(c, TurnAsk(s, w, r).sys) && TurnAsk(s, w, r).sys.books == s.books
  {
    hide Inv, Q.Inv, AskParent, Known;
    var x := s.waits[w];
    AskParentOk(s, BODY, x.additional, r);
    FlightUpdate(s.waits, w, x.(reserved := true));
    var t := TurnAsk(s, w, r).sys;
    forall v | 0 <= v < |t.waits| ensures WaitOk(t, v) { assert WaitOk(s, v); }
  }

  lemma EndTurnOk(c: Config, s: Sys, w: nat, refusal: Option<Refusal>)
    requires SysInv(c, s) && HasTurn(s, w) && !s.waits[w].reserved
    ensures EndTurn(s, w, refusal).Next? && SysInv(c, EndTurn(s, w, refusal).sys)
    ensures EndTurn(s, w, refusal).sys.books == s.books
  {
    hide Inv, Q.Inv, WaitsOk, Q.FinishTurn;
    assert WaitOk(s, w) by { WaitAt(s, w); }
    Q.FinishTurnInv(s.queue, w);
    FairQueueTurns.FinishTurnKeeps(s.queue, s.waits[w].small, w);
    QueueMoves(s, EndTurn(s, w, refusal).sys.queue, {w});
  }

  lemma WaitAt(s: Sys, w: nat)
    requires WaitsOk(s) && w < |s.waits|
    ensures w < |s.queue.waiters| && WaitOk(s, w)
  {
  }

  /** The bytes in flight of one task, taken off the record before they are returned. */
  lemma LandedOk(s: Sys, w: nat, b: Books)
    requires WaitsOk(s) && w < |s.waits| && Continues(s.books, b)
    ensures WaitsOk(s.(books := b, waits := s.waits[w := s.waits[w].(reserved := false)]))
  {
    var r := s.(books := b, waits := s.waits[w := s.waits[w].(reserved := false)]);
    forall v | 0 <= v < |r.waits| ensures WaitOk(r, v) { assert WaitOk(s, v); }
  }

  lemma TurnGiveUpOk(c: Config, s: Sys, w: nat, refusal: Option<Refusal>)
    requires SysInv(c, s) && HasTurn(s, w)
    ensures TurnGiveUp(s, w, refusal).Next? && SysInv(c, TurnGiveUp(s, w, refusal).sys)
    ensures TurnGiveUp(s, w, refusal).sys.books == s.books
  {
    hide Inv, Q.Inv, WaitsOk, ReturnParent, EndTurn, Continues;
    var x := s.waits[w];
    var bytes := if x.reserved then x.additional else 0;
    var without := s.(waits := s.waits[w := x.(reserved := false)]);
    SettlesSame(s.books);
    LandedOk(s, w, s.books);
    FlightUpdate(s.waits, w, x.(reserved := false));
    FlightNonNegative(without.waits);
    ReturnParentOk(without, BODY, bytes);
    var t := ReturnParent(without, BODY, bytes).sys;
    assert SysInv(c, t);
    FairQueueTurns.TurnKept(without.queue, t.queue, {}, x.small, w);
    EndTurnOk(c, t, w, refusal);
  }

  lemma TurnCommitOk(c: Config, s: Sys, w: nat)
    requires SysInv(c, s) && HasTurn(s, w) && Known(s.books, s.waits[w].owner)
    requires s.parent.Some? ==> s.waits[w].reserved
    ensures TurnCommit(c, s, w).Next? && SysInv(c, TurnCommit(c, s, w).sys)
    ensures AsksBody(c, s, TurnCommit(c, s, w).sys, s.waits[w].owner, s.waits[w].additional)
  {
    hide Inv, Q.Inv, WaitsOk, TurnGiveUp, EndTurn, Continues, CommitGrowth, GrowthRefusal;
    var x := s.waits[w];
    if GrowthRefusal(c, s.books, x.owner, x.additional).Some? {
      TurnGiveUpOk(c, s, w, Some(GrowthRefusal(c, s.books, x.owner, x.additional).value));
    } else {
      CommitGrowthOk(c, s.books, x.owner, x.additional);
      CommitGrowthContinues(c, s.books, x.owner, x.additional);
      var b := CommitGrowth(c, s.books, x.owner, x.additional).books;
      LandedOk(s, w, b);
      FlightUpdate(s.waits, w, x.(reserved := false));
      EndTurnOk(c, s.(books := b, waits := s.waits[w := x.(reserved := false)]), w, None);
    }
  }

  lemma WaitAbandonOk(c: Config, s: Sys, w: nat)
    requires SysInv(c, s) && Allowed(s, StopWaiting(w))
    ensures WaitAbandon(s, w).Next? && SysInv(c, WaitAbandon(s, w).sys) && WaitAbandon(s, w).sys.books == s.books
  {
    hide Inv, Q.Inv, WaitsOk, Q.Remove;
    WaitAt(s, w);
    Q.RemoveInv(s.queue, w);
    FairQueueTurns.RemoveKeeps(s.queue, w);
    QueuedHasNoTurn(s, w);
    QueueMoves(s, Q.Remove(s.queue, w).value, {w});
  }

  /** A waiter that still stands in line, or has left, holds no turn and no parent bytes. */
  lemma QueuedHasNoTurn(s: Sys, w: nat)
    requires WaitsOk(s) && Q.Inv(s.queue) && w < |s.waits| && w < |s.queue.waiters|
    ensures s.queue.waiters[w].state != Q.Granted ==> !s.waits[w].reserved
  {
    assert WaitOk(s, w);
  }

  // ----- foreign users of the parent -----

  lemma ForeignOk(c: Config, s: Sys, e: Event)
    requires SysInv(c, s) && Allowed(s, e) && (e.ForeignAsk? || e.ForeignReturn?)
    ensures Apply(c, s, e).Next? && SysInv(c, Apply(c, s, e).sys) && Apply(c, s, e).sys.books == s.books
  {
    hide Inv, Q.Inv, WaitsOk, AskParent, G.Release;
    match e
    case ForeignAsk(k, size, r) => AskParentOk(s, k, size, r);
    case ForeignReturn(k, size) =>
      if s.parent.Some? && G.Release(s.parent.value, k, size).Some? {
        G.ReleaseSum(s.parent.value, k, size);
        ParentReleases(s, k, size);
        var t := Apply(c, s, e).sys;
        assert WaitsOk(t) by { SameWaits(s, t); }
      }
  }

  lemma SameWaits(s: Sys, r: Sys)
    requires WaitsOk(s) && r == s.(parent := r.parent) && (r.parent.Some? <==> s.parent.Some?)
    ensures WaitsOk(r)
  {
    forall w | 0 <= w < |r.waits| ensures WaitOk(r, w) { SameWait(s, r, w); }
  }

  // ----- every step -----

  /** What a step may do to the books: grow one owner under every check, or only give back. */
  ghost predicate StepOf(c: Config, s: Sys, e: Event, r: Sys, refusal: Option<Refusal>)
    requires Allowed(s, e)
  {
    match e
    case AskBody(o, additional, _, _, _) => AsksBody(c, s, r, o, additional)
    case CommitUnderTurn(w) => AsksBody(c, s, r, s.waits[w].owner, s.waits[w].additional)
    case AskDirect(i, additional, _) =>
      if refusal.None? then GrowsResponse(c, s.books, r.books, i, additional) else Settles(s.books, r.books)
    case AskTemporary(i, additional, _) =>
      if refusal.None? then GrowsResponse(c, s.books, r.books, i, additional) else Settles(s.books, r.books)
    case AskGrowth(t, additional, _) =>
      if refusal.None? then GrowsResponse(c, s.books, r.books, s.books.temps[t].lease, additional)
      else Settles(s.books, r.books)
    case _ => Settles(s.books, r.books)
  }

  /**
   No step fails; every step keeps the three ledgers in agreement; and only a step that has
   passed every limit makes anything grow.
   */
  lemma ApplyOk(c: Config, s: Sys, e: Event)
    requires SysInv(c, s) && Allowed(s, e)
    ensures var o := Apply(c, s, e);
            o.Next? && SysInv(c, o.sys) && StepOf(c, s, e, o.sys, o.refusal)
  {
    hide SysInv, Ask, TurnAsk, TurnCommit, TurnGiveUp, WaitAbandon;
    hide TakeDirect, TakeTemporary, TakeGrowth, GiveBack, Adopt, AskParent;
    hide AsksBody, GrowsResponse, Settles;
    SettlesSame(s.books);
    match e
    case AskBody(o, additional, r, tenant, expired) => AskOk(c, s, o, additional, r, tenant, expired);
    case AskUnderTurn(w, r) => TurnAskOk(c, s, w, r);
    case CommitUnderTurn(w) => TurnCommitOk(c, s, w);
    case GiveUpTurn(w) => TurnGiveUpOk(c, s, w, Some(BudgetExhausted));
    case StopWaiting(w) => WaitAbandonOk(c, s, w);
    case AskDirect(i, additional, r) => DirectOk(c, s, i, additional, r);
    case AskTemporary(i, additional, r) => ActivateOk(c, s, i, additional, r);
    case AskGrowth(t, additional, r) => GrowOk(c, s, t, additional, r);
    case ForeignAsk(_, _, _) => ForeignOk(c, s, e);
    case ForeignReturn(_, _) => ForeignOk(c, s, e);
    case OpenLease(_) => OpensOk(c, s, e);
    case OpenPending(_) => OpensOk(c, s, e);
    case CallRelease(_) => OpensOk(c, s, e);
    case MarkPending(_) => OpensOk(c, s, e);
    case TransferPending(_, _) => OpensOk(c, s, e);
    case DeferRelease(_) => MarksOk(c, s, e);
    case RequestLeaseRelease(_) => MarksOk(c, s, e);
    case BeginRouting(_, _) => MarksOk(c, s, e);
    case EndRouting(_) => MarksOk(c, s, e);
    case _ => ReleasesOk(c, s, e);
  }
}
