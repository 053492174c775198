/**
 The retained limit of a request. Growth is checked against it, a transfer is not, so it is
 not an invariant; it holds over a run exactly when every transfer happens to respect it.
 */
module RetainedLimit {
  import opened Common
  import opened Ledger
  import opened LedgerInvariant
  import opened LedgerLifetime
  import opened StepFrames
  import opened System
  import opened SystemInvariant
  import opened SystemRuns
  import G = Governor

  /** What a request retains, bodies and responses together. */
  function Retained(l: Lease): nat { l.body + l.response }

  predicate Within(c: Config, b: Books) {
    forall i :: 0 <= i < |b.leases| && !b.leases[i].resourceOnly ==> Retained(b.leases[i]) <= c.maxRetained
  }

  /** A check a caller could make before a transfer; the transfer itself does not make it. */
  predicate Fits(c: Config, s: Sys, e: Event)
    requires Allowed(s, e)
  {
    e.TransferPending? && !s.books.leases[e.lease].resourceOnly && Transfer(c, s.books, e.pending, e.lease).Done? ==>
      Retained(s.books.leases[e.lease]) + s.books.pendings[e.pending].bytes <= c.maxRetained
  }

  lemma TransferRetains(c: Config, b: Books, p: nat, i: nat)
    requires Inv(c, b) && p < |b.pendings| && i < |b.leases| && Transfer(c, b, p, i).Done?
    ensures var r := Transfer(c, b, p, i).books;
            i < |r.leases| && Retained(r.leases[i]) == Retained(b.leases[i]) + b.pendings[p].bytes
  {
    hide Inv, Transfer;
    TransferOk(c, b, p, i);
    TransferResponses(c, b, p, i);
  }

  lemma TransferResponses(c: Config, b: Books, p: nat, i: nat)
    requires p < |b.pendings| && i < |b.leases| && Transfer(c, b, p, i).Done?
    ensures i < |Transfer(c, b, p, i).books.leases|
    ensures Transfer(c, b, p, i).books.leases[i].response == b.leases[i].response
  {
  }

  /** A step leaves one request within its limit, unless it is a transfer that does not fit. */
  lemma LeaseStays(c: Config, s: Sys, e: Event, r: Sys, i: nat)
    requires SysInv(c, s) && Follows(c, s, e, r) && Within(c, s.books) && i < |r.books.leases|
    requires Fits(c, s, e) && !r.books.leases[i].resourceOnly
    ensures Retained(r.books.leases[i]) <= c.maxRetained
  {
    hide SysInv, Apply, Kept, Settles, Transfer;
    ApplyOk(c, s, e);
    StepKept(c, s, e);
    KeptLease(s.books, r.books, Acted(s, e), Growing(s, e), i);
    if i < |s.books.leases| && OfLease(i) in Growing(s, e) {
      if e.TransferPending? {
        SysBooks(c, s);
        TransferBooks(c, s, e);
        if Transfer(c, s.books, e.pending, e.lease).Done? { TransferRetains(c, s.books, e.pending, e.lease); }
      } else {
        KeptOrGrown(c, s, e, r, Apply(c, s, e).refusal, i);
      }
    }
  }

  lemma TransferBooks(c: Config, s: Sys, e: Event)
    requires Allowed(s, e) && e.TransferPending?
    ensures var t := Transfer(c, s.books, e.pending, e.lease);
            Apply(c, s, e).Next? ==> Apply(c, s, e).sys.books == if t.Done? then t.books else s.books
  {
  }

  lemma KeptLease(b: Books, r: Books, but: set<Owner>, grown: set<Owner>, i: nat)
    requires Kept(b, r, but, grown) && i < |r.leases|
    ensures i < |b.leases| ==> r.leases[i].resourceOnly == b.leases[i].resourceOnly
    ensures i < |b.leases| && OfLease(i) !in grown ==> Retained(r.leases[i]) <= Retained(b.leases[i])
    ensures i >= |b.leases| ==> Retained(r.leases[i]) == 0
  {
  }

  /** A growth is checked; a refused growth of responses only charges the attempt. */
  lemma KeptOrGrown(c: Config, s: Sys, e: Event, r: Sys, refusal: Option<Refusal>, i: nat)
    requires Follows(c, s, e, r) && StepOf(c, s, e, r, refusal) && refusal == Apply(c, s, e).refusal
    requires Within(c, s.books) && i < |s.books.leases| && i < |r.books.leases|
    requires OfLease(i) in Growing(s, e) && !e.TransferPending? && !s.books.leases[i].resourceOnly
    ensures Retained(r.books.leases[i]) <= c.maxRetained
  {
    hide Apply, Settles;
    if (e.AskDirect? || e.AskTemporary? || e.AskGrowth?) && refusal.Some? {
      RefusedKept(c, s, e);
      KeptLease(s.books, r.books, {}, {}, i);
    }
  }

  lemma RefusedKept(c: Config, s: Sys, e: Event)
    requires Allowed(s, e) && (e.AskDirect? || e.AskTemporary? || e.AskGrowth?)
    requires Apply(c, s, e).refusal.Some?
    ensures Kept(s.books, Apply(c, s, e).sys.books, {}, {})
  {
    hide Kept, AdmitResponse;
    var i := if e.AskGrowth? then s.books.temps[e.temp].lease else e.lease;
    var k := if e.AskGrowth? then s.books.temps[e.temp].key else CurrentKey(s.books.leases[i]);
    KeptSame(s.books, {}, {});
    AdmitKept(c, s, i, k, e.additional, e.reading);
  }

  lemma StepStays(c: Config, s: Sys, e: Event, r: Sys)
    requires SysInv(c, s) && Follows(c, s, e, r) && Within(c, s.books)
    ensures Within(c, r.books) <==> Fits(c, s, e)
  {
    hide SysInv, Apply, Transfer;
    if Fits(c, s, e) {
      forall i | 0 <= i < |r.books.leases| && !r.books.leases[i].resourceOnly
        ensures Retained(r.books.leases[i]) <= c.maxRetained
      {
        LeaseStays(c, s, e, r, i);
      }
    } else {
      SysBooks(c, s);
      TransferBooks(c, s, e);
      TransferRetains(c, s.books, e.pending, e.lease);
      StepKept(c, s, e);
      KeptLease(s.books, r.books, Acted(s, e), Growing(s, e), e.lease);
    }
  }

  /** No transfer before state `n` overfills its request. */
  ghost predicate FittingUpTo(c: Config, trace: seq<Sys>, events: seq<Event>, n: nat)
    requires IsRun(c, trace, events) && n <= |events|
  {
    forall k :: 0 <= k < n ==> Follows(c, trace[k], events[k], trace[k + 1]) && Fits(c, trace[k], events[k])
  }

  /**
   The retained limit holds in every state up to `n`, for every request not in resource-only
   mode, if and only if every transfer up to then leaves its request within the limit.
   */
  lemma {:induction false} RetainedExactly(c: Config, trace: seq<Sys>, events: seq<Event>, n: nat)
    requires IsRun(c, trace, events) && n <= |events|
    ensures (forall k :: 0 <= k <= n ==> Within(c, trace[k].books)) <==> FittingUpTo(c, trace, events, n)
  {
    hide Within, Fits, Follows, SysInv;
    if n == 0 {
      StartWithin(c, trace, events);
    } else {
      RetainedExactly(c, trace, events, n - 1);
      RunInv(c, trace, events, n - 1);
      assert Follows(c, trace[n - 1], events[n - 1], trace[n]);
      if Within(c, trace[n - 1].books) { StepStays(c, trace[n - 1], events[n - 1], trace[n]); }
      if forall k :: 0 <= k <= n ==> Within(c, trace[k].books) {
        assert forall k :: 0 <= k <= n - 1 ==> Within(c, trace[k].books);
      }
    }
  }

  lemma StartWithin(c: Config, trace: seq<Sys>, events: seq<Event>)
    requires IsRun(c, trace, events)
    ensures Within(c, trace[0].books)
  {
  }

  // ----- a transfer that does not fit -----

  /** One byte per body and one per response, and the retained limit that follows by default. */
  const TIGHT: Config := Config(1, 8, 1, 1, 0, 0, 0, 0)

  /** One lease and one reservation. */
  function Scene(body: nat, pendingBody: nat, lease: Lease, pendings: seq<Pending>): Sys {
    Opening(None, None)
      .(books := EMPTY.(
          body := body, pendingBody := pendingBody, response := lease.response,
          leases := [lease], pendings := pendings))
  }

  const IDLE: Pending := Pending(0, false, false, false, None, false)

  function Answering(): Lease { Directed(NewLease(false), 1) }

  lemma Opens()
    ensures Follows(TIGHT, Opening(None, None), OpenLease(false), Scene(0, 0, NewLease(false), []))
  {
  }

  lemma Answers()
    ensures Answering().response == 1 && Answering().body == 0 && !Answering().releaseRequested && !Answering().slot
    ensures !Answering().resourceOnly
    ensures Follows(TIGHT, Scene(0, 0, NewLease(false), []), AskDirect(0, 1, G.Cached), Scene(0, 0, Answering(), []))
  {
    hide Directed;
    DirectedShape();
    var s := Scene(0, 0, NewLease(false), []);
    assert ReserveDirect(s.books, 0, 1) == Scene(0, 0, Answering(), []).books;
  }

  lemma DirectedShape()
    ensures var l := Directed(NewLease(false), 1);
            l.response == 1 && l.body == 0 && !l.releaseRequested && !l.slot && !l.resourceOnly
  {
  }

  lemma Reserves(l: Lease)
    requires l.response == 1 && l.body == 0
    ensures Follows(TIGHT, Scene(0, 0, l, []), OpenPending(false), Scene(0, 0, l, [IDLE]))
    ensures Follows(TIGHT, Scene(0, 0, l, [IDLE]), AskBody(OfPending(0), 1, G.Cached, "", false),
                    Scene(1, 1, l, [IDLE.(bytes := 1)]))
  {
    hide Enqueue;
    var s := Scene(0, 0, l, [IDLE]);
    assert GrownBooks(s.books, OfPending(0), 1) == Scene(1, 1, l, [IDLE.(bytes := 1)]).books;
    assert MustWait(TIGHT, s, OfPending(0), 1) == None;
  }

  lemma Transfers(l: Lease)
    requires l.response == 1 && l.body == 0 && !l.releaseRequested && !l.slot && !l.resourceOnly
    ensures Follows(TIGHT, Scene(1, 1, l, [IDLE.(bytes := 1)]), TransferPending(0, 0),
                    Scene(1, 0, l.(body := 1), [IDLE.(transferred := true)]))
  {
    var s := Scene(1, 1, l, [IDLE.(bytes := 1)]);
    assert MovedBooks(s.books, 0, 0) == Scene(1, 0, l.(body := 1), [IDLE.(transferred := true)]).books;
  }

  /** The retained limit is not an invariant: a transfer can take a request past it. */
  lemma RetainedCanBeExceeded()
    ensures exists c: Config, trace: seq<Sys>, events: seq<Event> ::
              && IsRun(c, trace, events) && c.maxRetained == Max(c.maxBody, c.maxResponse)
              && !Within(c, trace[|events|].books)
  {
    hide Follows, Directed;
    Opens();
    Answers();
    var l := Answering();
    Reserves(l);
    Transfers(l);
    var trace := [Opening(None, None), Scene(0, 0, NewLease(false), []), Scene(0, 0, l, []), Scene(0, 0, l, [IDLE]),
                  Scene(1, 1, l, [IDLE.(bytes := 1)]), Scene(1, 0, l.(body := 1), [IDLE.(transferred := true)])];
    var events := [OpenLease(false), AskDirect(0, 1, G.Cached), OpenPending(false),
                   AskBody(OfPending(0), 1, G.Cached, "", false), TransferPending(0, 0)];
    assert IsRun(TIGHT, trace, events);
    assert Retained(trace[5].books.leases[0]) == 2;
  }
}
