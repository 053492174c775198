/**
 Releases in pieces. The controller returns bytes to the parent one allocation at a time and
 notifies the queue each time; the outcome is that of one release of the whole.
 */
module ReleaseOrder {
  import opened Common
  import opened Ledger
  import opened LedgerInvariant
  import opened System
  import FairQueueTurns
  import G = Governor
  import Q = FairQueue

  // ----- the parent -----

  lemma ReleaseTwice(g: G.Gov, k: G.Category, a: nat, b: nat)
    ensures G.Release(g, k, a + b).Some? <==>
              G.Release(g, k, a).Some? && G.Release(G.Release(g, k, a).value, k, b).Some?
    ensures G.Release(g, k, a + b).Some? ==> G.Release(g, k, a + b) == G.Release(G.Release(g, k, a).value, k, b)
  {
    if 0 < a && 0 < b && a + b <= G.Amount(g, k) {
      var h := G.Release(g, k, a).value;
      assert h.reserved == g.reserved[k := G.Amount(g, k) - a];
      var rest := G.Amount(g, k) - a - b;
      assert h.reserved - {k} == g.reserved - {k} && h.reserved[k := rest] == g.reserved[k := rest];
    }
  }

  lemma ReleaseCommutes(g: G.Gov, k: G.Category, a: nat, j: G.Category, b: nat)
    requires k != j && G.Release(g, k, a).Some?
    ensures G.Release(G.Release(g, k, a).value, j, b).Some? <==> G.Release(g, j, b).Some?
    ensures G.Release(g, j, b).Some? ==>
              && G.Release(G.Release(g, j, b).value, k, a).Some?
              && G.Release(G.Release(g, k, a).value, j, b) == G.Release(G.Release(g, j, b).value, k, a)
  {
    if 0 < a && 0 < b && b <= G.Amount(g, j) {
      var x, y := G.Release(g, k, a).value, G.Release(g, j, b).value;
      assert G.Amount(x, j) == G.Amount(g, j) && G.Amount(y, k) == G.Amount(g, k);
      assert G.Release(x, j, b).value.reserved == G.Release(y, k, a).value.reserved;
    }
  }

  /** Two returns to one category amount to one return of the sum. */
  lemma ReturnTwice(s: Sys, k: G.Category, a: nat, b: nat)
    ensures ReturnParent(s, k, a + b).Next? <==>
              ReturnParent(s, k, a).Next? && ReturnParent(ReturnParent(s, k, a).sys, k, b).Next?
    ensures ReturnParent(s, k, a + b).Next? ==>
              ReturnParent(s, k, a + b) == ReturnParent(ReturnParent(s, k, a).sys, k, b)
  {
    hide Q.Notify, G.Release;
    FairQueueTurns.NotifyIdempotent(s.queue);
    if s.parent.Some? { ReleaseTwice(s.parent.value, k, a, b); }
  }

  /** Returns to different categories may be made in either order. */
  lemma ReturnCommutes(s: Sys, k: G.Category, a: nat, j: G.Category, b: nat)
    requires k != j && ReturnParent(s, k, a).Next?
    ensures ReturnParent(ReturnParent(s, k, a).sys, j, b).Next? <==> ReturnParent(s, j, b).Next?
    ensures ReturnParent(s, j, b).Next? ==>
              && ReturnParent(ReturnParent(s, j, b).sys, k, a).Next?
              && ReturnParent(ReturnParent(s, k, a).sys, j, b) == ReturnParent(ReturnParent(s, j, b).sys, k, a)
  {
    hide Q.Notify, G.Release;
    FairQueueTurns.NotifyIdempotent(s.queue);
    if s.parent.Some? && a != 0 && b != 0 { ReleaseCommutes(s.parent.value, k, a, j, b); }
  }

  /** The books take no part in a return. */
  lemma ReturnFrame(s: Sys, b: Books, k: G.Category, size: nat)
    ensures ReturnParent(s.(books := b), k, size).Next? <==> ReturnParent(s, k, size).Next?
    ensures ReturnParent(s, k, size).Next? ==>
              ReturnParent(s.(books := b), k, size).sys == ReturnParent(s, k, size).sys.(books := b)
    ensures ReturnParent(s, k, size).Next? ==>
              ReturnParent(s, k, size).refusal == None && ReturnParent(s, k, size).sys.books == s.books
              && ReturnParent(s, k, size).sys.waits == s.waits
  {
  }

  /** A release as two returns; the books are set apart from it. */
  function TwoReturns(s: Sys, body: nat, response: nat): Outcome {
    match ReturnParent(s, BODY, body)
    case Next(t, _) => ReturnParent(t, RESPONSE, response)
    case failed => failed
  }

  lemma TwoReturnsTwice(s: Sys, d1: nat, e1: nat, d2: nat, e2: nat)
    ensures TwoReturns(s, d1 + d2, e1 + e2).Next? <==>
              TwoReturns(s, d1, e1).Next? && TwoReturns(TwoReturns(s, d1, e1).sys, d2, e2).Next?
    ensures TwoReturns(s, d1 + d2, e1 + e2).Next? ==>
              TwoReturns(s, d1 + d2, e1 + e2) == TwoReturns(TwoReturns(s, d1, e1).sys, d2, e2)
  {
    hide ReturnParent;
    ReturnTwice(s, BODY, d1, d2);
    if ReturnParent(s, BODY, d1).Next? {
      var u := ReturnParent(s, BODY, d1).sys;
      if ReturnParent(u, RESPONSE, e1).Next? { ReturnCommutes(u, RESPONSE, e1, BODY, d2); }
      if ReturnParent(u, BODY, d2).Next? {
        ReturnCommutes(u, BODY, d2, RESPONSE, e1);
        ReturnTwice(ReturnParent(u, BODY, d2).sys, RESPONSE, e1, e2);
      }
    }
  }

  lemma TwoReturnsFrame(s: Sys, b: Books, body: nat, response: nat)
    ensures TwoReturns(s.(books := b), body, response).Next? <==> TwoReturns(s, body, response).Next?
    ensures TwoReturns(s, body, response).Next? ==>
              && TwoReturns(s.(books := b), body, response).sys == TwoReturns(s, body, response).sys.(books := b)
              && TwoReturns(s, body, response).refusal == None
              && TwoReturns(s.(books := b), body, response).refusal == None
              && TwoReturns(s, body, response).sys.books == s.books
              && TwoReturns(s, body, response).sys.waits == s.waits
  {
    hide ReturnParent;
    ReturnFrame(s, b, BODY, body);
    if ReturnParent(s, BODY, body).Next? {
      var t := ReturnParent(s, BODY, body).sys;
      ReturnFrame(t, b, RESPONSE, response);
      ReturnFrame(t.(books := b), s.books, RESPONSE, response);
      assert t.(books := b).(books := s.books) == t;
    }
  }

  lemma Returns(s: Sys, b: Books)
    requires b.body <= s.books.body && b.response <= s.books.response
    ensures GiveBack(s, Done(b)) == TwoReturns(s.(books := b), s.books.body - b.body, s.books.response - b.response)
  {
    hide ReturnParent;
  }

  /** Two releases in a row give back what one release of both would. */
  lemma GiveBackTwice(s: Sys, b: Books, r: Books)
    requires b.body <= s.books.body && b.response <= s.books.response && r.body <= b.body && r.response <= b.response
    ensures GiveBack(s, Done(r)).Next? <==>
              GiveBack(s, Done(b)).Next? && GiveBack(GiveBack(s, Done(b)).sys, Done(r)).Next?
    ensures GiveBack(s, Done(r)).Next? ==> GiveBack(s, Done(r)) == GiveBack(GiveBack(s, Done(b)).sys, Done(r))
  {
    hide TwoReturns, GiveBack;
    var d1, d2 := s.books.body - b.body, b.body - r.body;
    var e1, e2 := s.books.response - b.response, b.response - r.response;
    Returns(s, b);
    Returns(s, r);
    TwoReturnsTwice(s.(books := r), d1, e1, d2, e2);
    TwoReturnsFrame(s.(books := b), r, d1, e1);
    assert s.(books := b).(books := r) == s.(books := r);
    if GiveBack(s, Done(b)).Next? {
      Returns(GiveBack(s, Done(b)).sys, r);
    }
  }

  // ----- allocations one at a time -----

  /** The books after the allocations `a` of a lease have been released. */
  function Partly(b: Books, i: nat, a: seq<Allocation>): Books
    requires i < |b.leases| && AllocatedBytes(a, None) <= b.leases[i].response && AllocatedBytes(a, None) <= b.response
  {
    var l := b.leases[i];
    var n := AllocatedBytes(a, None);
    SetLease(b, i, l.(response := l.response - n, cycles := ReleasedCycles(l.cycles, a))).(response := b.response - n)
  }

  /** One allocation's bytes leave its lease and are credited to its attempt. */
  function ReleasedOne(l: Lease, x: Allocation): Lease
    requires x.bytes <= l.response
  {
    var y := Cycle(l, x.key);
    SetCycle(l, x.key, y.(releases := y.releases + 1, released := y.released + x.bytes))
      .(response := l.response - x.bytes)
  }

  lemma {:induction false} AllocatedPrefix(a: seq<Allocation>, j: nat)
    requires j <= |a|
    ensures AllocatedBytes(a[..j], None) <= AllocatedBytes(a, None)
  {
    if j == |a| {
      assert a[..j] == a;
    } else {
      AllocatedPrefix(a[..|a| - 1], j);
      assert a[..|a| - 1][..j] == a[..j];
    }
  }

  lemma AllocatedNext(a: seq<Allocation>, j: nat)
    requires j < |a|
    ensures AllocatedBytes(a[..j + 1], None) == AllocatedBytes(a[..j], None) + a[j].bytes
    ensures AllocatedBytes(a[..j + 1], None) <= AllocatedBytes(a, None)
  {
    assert a[..j + 1][..j] == a[..j];
    AllocatedPrefix(a, j + 1);
  }

  lemma PartlyNext(b: Books, i: nat, a: seq<Allocation>, j: nat)
    requires j < |a| && i < |b.leases|
    requires AllocatedBytes(a[..j + 1], None) <= b.leases[i].response <= b.response
    ensures AllocatedBytes(a[..j], None) <= b.leases[i].response
    ensures var p := Partly(b, i, a[..j]);
            && i < |p.leases| && a[j].bytes <= p.leases[i].response && a[j].bytes <= p.response
            && Partly(b, i, a[..j + 1])
               == SetLease(p, i, ReleasedOne(p.leases[i], a[j])).(response := p.response - a[j].bytes)
  {
    AllocatedNext(a, j);
    assert a[..j + 1][..j] == a[..j];
  }

  lemma PartlyStart(b: Books, i: nat)
    requires i < |b.leases|
    ensures AllocatedBytes([], None) == 0 && Partly(b, i, []) == b
  {
    assert b.leases[i := b.leases[i]] == b.leases;
  }

  /** A release of responses alone, as the one return it makes. */
  lemma ResponseReturn(s: Sys, b: Books)
    requires b.body == s.books.body && b.response <= s.books.response
    ensures GiveBack(s, Done(b)) == ReturnParent(s.(books := b), RESPONSE, s.books.response - b.response)
  {
  }

  /** A release of bodies alone. */
  lemma BodyReturn(s: Sys, b: Books)
    requires b.body <= s.books.body && b.response == s.books.response
    ensures GiveBack(s, Done(b)) == ReturnParent(s.(books := b), BODY, s.books.body - b.body)
  {
    hide Q.Notify, G.Release;
  }

  /** With the counters already there, only the books are replaced. */
  lemma NothingReturned(s: Sys, b: Books)
    requires b.body == s.books.body && b.response == s.books.response
    ensures GiveBack(s, Done(b)) == Next(s.(books := b), None)
  {
  }

  /** Starting from books with the same counters changes nothing. */
  lemma SameCounters(s: Sys, b: Books, r: Books)
    requires b.body == s.books.body && b.response == s.books.response
    ensures GiveBack(s.(books := b), Done(r)) == GiveBack(s, Done(r))
  {
    hide ReturnParent;
    assert s.(books := b).(books := r) == s.(books := r);
  }
}
