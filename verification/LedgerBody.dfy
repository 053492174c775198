/** Steps on body bytes and large-body slots keep every facet and reach no fault. */
module LedgerBody {
  import opened Common
  import opened Ledger
  import opened LedgerInvariant
  import opened LedgerSteps

  // ----- slots -----

  /** Two states that differ at most in slots, claims and holder records. */
  predicate SameButSlots(b: Books, r: Books) {
    && |r.leases| == |b.leases| && |r.pendings| == |b.pendings|
    && r == b.(leases := r.leases, pendings := r.pendings, holders := r.holders, claims := r.claims)
    && (forall i :: 0 <= i < |b.leases| ==>
          r.leases[i] == b.leases[i].(slot := r.leases[i].slot, claim := r.leases[i].claim))
    && (forall p :: 0 <= p < |b.pendings| ==>
          r.pendings[p] == b.pendings[p].(slot := r.pendings[p].slot, claim := r.pendings[p].claim))
  }

  lemma LeaseSlotFrame(l: Lease, l': Lease, i: nat, ts: seq<Temp>, ds: seq<Deferral>, s: Stage)
    requires LeaseOk(l, i, ts, ds, s) && l' == l.(slot := l'.slot, claim := l'.claim)
    ensures LeaseOk(l', i, ts, ds, s)
  {
    SameRecords(l, l', i, ts);
  }

  lemma AccountsFrame(c: Config, b: Books, r: Books, s: Stage)
    requires Accounts(c, b, s) && SameButSlots(b, r)
    ensures Accounts(c, r, s)
  {
    assert Bodies(r.leases) == Bodies(b.leases) && Responses(r.leases) == Responses(b.leases);
    assert PendingBytes(r.pendings) == PendingBytes(b.pendings);
    forall i | 0 <= i < |r.leases| ensures LeaseOk(r.leases[i], i, r.temps, r.deferrals, s) {
      LeaseSlotFrame(b.leases[i], r.leases[i], i, b.temps, b.deferrals, s);
    }
  }

  /** Claiming a free slot for an owner past the threshold. */
  lemma ClaimSlotOk(c: Config, b: Books, o: Owner, next: nat)
    requires Known(b, o) && SlotsExcept(c, b, Some(o)) && next == Bytes(b, o)
    requires NeedsSlot(c, b, o, next) ==> |b.holders| < c.largeLimit
    ensures var r := ClaimSlot(c, b, o, next);
            && r.Done? && SameButSlots(b, r.books) && SlotsExcept(c, r.books, Some(o))
            && Known(r.books, o) && Bytes(r.books, o) == next
            && (HasSlot(r.books, o) <==> HasSlot(b, o) || (c.largeLimit != 0 && next > c.largeThreshold))
  {
    if NeedsSlot(c, b, o, next) {
      var r := ClaimSlot(c, b, o, next).books;
      assert b.claims !in b.holders;
      forall p | Known(r, p) ensures OwnerSlotOk(c, r, p, Some(o)) {
        assert OwnerSlotOk(c, b, p, Some(o));
      }
      forall id | id in r.holders ensures HolderOk(r, id) {
        if id != b.claims {
          assert HolderOk(b, id) && OwnerSlotOk(c, b, o, Some(o));
        }
      }
    }
  }

  /** Bringing an owner's holder record up to date. */
  lemma UpdateHolderOk(c: Config, b: Books, o: Owner)
    requires Known(b, o) && SlotsExcept(c, b, Some(o))
    requires c.largeLimit != 0 && Bytes(b, o) > c.largeThreshold ==> HasSlot(b, o)
    requires HasSlot(b, o) ==> Bytes(b, o) > 0
    ensures var r := UpdateHolder(b, o, Bytes(b, o));
            && r.Done? && SameButSlots(b, r.books) && SlotsExcept(c, r.books, None)
            && Known(r.books, o) && HasSlot(r.books, o) == HasSlot(b, o)
  {
    hide HolderOk;
    assert OwnerSlotOk(c, b, o, Some(o));
    UpdatedHolders(c, b, o);
    var r := UpdateHolder(b, o, Bytes(b, o)).books;
    forall p | Known(r, p) ensures OwnerSlotOk(c, r, p, None) {
      assert OwnerSlotOk(c, b, p, Some(o));
    }
  }

  lemma UpdatedHolders(c: Config, b: Books, o: Owner)
    requires Known(b, o) && SlotsExcept(c, b, Some(o))
    ensures var r := UpdateHolder(b, o, Bytes(b, o));
            r.Done? && |r.books.holders| == |b.holders|
            && forall id :: id in r.books.holders ==> HolderOk(r.books, id)
  {
    assert OwnerSlotOk(c, b, o, Some(o));
    var r := UpdateHolder(b, o, Bytes(b, o)).books;
    if HasSlot(b, o) {
      assert r.holders.Keys == b.holders.Keys;
      assert |r.holders| == |r.holders.Keys| == |b.holders.Keys| == |b.holders|;
    }
    forall id | id in r.holders ensures HolderOk(r, id) { assert HolderOk(b, id); }
  }

  /** Giving up the slot of an owner that is left with nothing. */
  lemma ReleaseSlotOk(c: Config, b: Books, o: Owner)
    requires Known(b, o) && SlotsExcept(c, b, Some(o)) && Bytes(b, o) == 0
    ensures var r := ReleaseSlot(b, o);
            r.Done? && SameButSlots(b, r.books) && SlotsExcept(c, r.books, None)
  {
    hide HolderOk;
    assert OwnerSlotOk(c, b, o, Some(o));
    ReleasedHolders(c, b, o);
    var r := ReleaseSlot(b, o).books;
    forall p | Known(r, p) ensures OwnerSlotOk(c, r, p, None) {
      assert OwnerSlotOk(c, b, p, Some(o));
    }
  }

  lemma ReleasedHolders(c: Config, b: Books, o: Owner)
    requires Known(b, o) && SlotsExcept(c, b, Some(o))
    ensures var r := ReleaseSlot(b, o);
            r.Done? && |r.books.holders| <= |b.holders|
            && forall id :: id in r.books.holders ==> HolderOk(r.books, id)
  {
    assert OwnerSlotOk(c, b, o, Some(o));
    var r := ReleaseSlot(b, o).books;
    if HasSlot(b, o) {
      assert r.holders.Keys == b.holders.Keys - {Claim(b, o).value};
      assert |r.holders| == |r.holders.Keys|;
      assert |b.holders| == |b.holders.Keys|;
    }
    forall id | id in r.holders ensures HolderOk(r, id) { assert HolderOk(b, id); }
  }

  /** Changing the bytes of one owner puts its slot facts in flux. */
  ghost predicate BytesMoved(b: Books, b': Books, o: Owner) {
    && b'.holders == b.holders && b'.claims == b.claims
    && |b.leases| == |b'.leases| && |b.pendings| == |b'.pendings|
    && (forall p :: Known(b, p) ==> HasSlot(b', p) == HasSlot(b, p) && Claim(b', p) == Claim(b, p))
    && (forall p :: Known(b, p) && p != o ==> Bytes(b', p) == Bytes(b, p))
  }

  lemma FluxFrame(c: Config, b: Books, b': Books, o: Owner)
    requires SlotsExcept(c, b, None) && BytesMoved(b, b', o)
    ensures SlotsExcept(c, b', Some(o))
  {
    forall p | Known(b', p) ensures OwnerSlotOk(c, b', p, Some(o)) {
      assert OwnerSlotOk(c, b, p, None);
    }
    forall id | id in b'.holders ensures HolderOk(b', id) { assert HolderOk(b, id); }
  }

  /** Setting the bytes of one owner and moving the counters along. */
  lemma SetBytesFlux(c: Config, b: Books, b': Books, o: Owner, bytes: nat)
    requires SlotsExcept(c, b, None) && Known(b, o)
    requires b' == SetBytes(b, o, bytes).(body := b'.body, pendingBody := b'.pendingBody)
    ensures SlotsExcept(c, b', Some(o)) && Known(b', o) && Bytes(b', o) == bytes
    ensures HasSlot(b', o) == HasSlot(b, o)
  {
    FluxFrame(c, b, b', o);
  }

  // ----- settling the slot of an owner in flux -----

  lemma SettleOk(c: Config, b: Books, o: Owner)
    requires Accounts(c, b, Rest) && Known(b, o) && SlotsExcept(c, b, Some(o))
    requires NeedsSlot(c, b, o, Bytes(b, o)) ==> |b.holders| < c.largeLimit
    requires HasSlot(b, o) ==> Bytes(b, o) > 0
    ensures Settle(c, b, o).Done? && SameButSlots(b, Settle(c, b, o).books) && Inv(c, Settle(c, b, o).books)
    ensures Known(Settle(c, b, o).books, o)
    ensures HasSlot(Settle(c, b, o).books, o) <==>
              HasSlot(b, o) || (c.largeLimit != 0 && Bytes(b, o) > c.largeThreshold)
  {
    hide LeaseOk, OwnerSlotOk, HolderOk, Conserved, DeferredOk, BudgetOk, UpdateHolder, ClaimSlot;
    ClaimSlotOk(c, b, o, Bytes(b, o));
    var claimed := ClaimSlot(c, b, o, Bytes(b, o)).books;
    AccountsFrame(c, b, claimed, Rest);
    UpdateAndSettle(c, claimed, o);
  }

  lemma UpdateAndSettle(c: Config, b: Books, o: Owner)
    requires Accounts(c, b, Rest) && Known(b, o) && SlotsExcept(c, b, Some(o))
    requires c.largeLimit != 0 && Bytes(b, o) > c.largeThreshold ==> HasSlot(b, o)
    requires HasSlot(b, o) ==> Bytes(b, o) > 0
    ensures var r := UpdateHolder(b, o, Bytes(b, o));
            && r.Done? && SameButSlots(b, r.books) && Inv(c, r.books)
            && Known(r.books, o) && HasSlot(r.books, o) == HasSlot(b, o)
  {
    hide LeaseOk, OwnerSlotOk, HolderOk, Conserved, DeferredOk, BudgetOk, UpdateHolder;
    UpdateHolderOk(c, b, o);
    AccountsFrame(c, b, UpdateHolder(b, o, Bytes(b, o)).books, Rest);
  }

  lemma ReleaseAndSettle(c: Config, b: Books, o: Owner)
    requires Accounts(c, b, Rest) && Known(b, o) && SlotsExcept(c, b, Some(o)) && Bytes(b, o) == 0
    ensures var r := ReleaseSlot(b, o);
            r.Done? && SameButSlots(b, r.books) && Inv(c, r.books)
  {
    hide LeaseOk, OwnerSlotOk, HolderOk, Conserved, DeferredOk, BudgetOk, ReleaseSlot;
    ReleaseSlotOk(c, b, o);
    AccountsFrame(c, b, ReleaseSlot(b, o).books, Rest);
  }

  // ----- growth -----

  /** A lease that is not finalized may change its body bytes. */
  lemma BodyLeaseOk(l: Lease, body: nat, i: nat, ts: seq<Temp>, ds: seq<Deferral>)
    requires LeaseOk(l, i, ts, ds, Rest) && !l.releaseRequested
    ensures LeaseOk(l.(body := body), i, ts, ds, Rest)
  {
    SameRecords(l, l.(body := body), i, ts);
  }

  lemma BodyLeasesOk(b: Books, b': Books, i: nat, body: nat)
    requires LeasesOk(b, Rest) && i < |b.leases| && !b.leases[i].releaseRequested
    requires b'.leases == b.leases[i := b.leases[i].(body := body)]
    requires b'.temps == b.temps && b'.deferrals == b.deferrals
    ensures LeasesOk(b', Rest)
  {
    forall j | 0 <= j < |b'.leases| ensures LeaseOk(b'.leases[j], j, b'.temps, b'.deferrals, Rest) {
      assert LeaseOk(b.leases[j], j, b.temps, b.deferrals, Rest);
      if j == i { BodyLeaseOk(b.leases[i], body, i, b.temps, b.deferrals); }
    }
  }

  /** Moving the body bytes of an active lease, and the global counter with them. */
  lemma LeaseBodyAccounts(c: Config, b: Books, b': Books, i: nat, body: nat)
    requires Accounts(c, b, Rest) && i < |b.leases| && !b.leases[i].releaseRequested
    requires b' == SetBytes(b, OfLease(i), body).(body := b'.body) && b'.body == b.body - b.leases[i].body + body
    requires b'.body + b'.response <= c.budget && (!b.leases[i].resourceOnly ==> body <= c.maxBody)
    ensures Accounts(c, b', Rest)
  {
    hide LeaseOk;
    LeaseTotals(b.leases, i, b'.leases[i]);
    BodyLeasesOk(b, b', i, body);
  }

  /** Moving the bytes of a pending reservation, and both counters with them. */
  lemma PendingBodyAccounts(c: Config, b: Books, b': Books, p: nat, bytes: nat)
    requires Accounts(c, b, Rest) && p < |b.pendings|
    requires b' == SetBytes(b, OfPending(p), bytes).(body := b'.body, pendingBody := b'.pendingBody)
    requires b'.body == b.body - b.pendings[p].bytes + bytes
    requires b'.pendingBody == b.pendingBody - b.pendings[p].bytes + bytes
    requires b'.body + b'.response <= c.budget && (!b.pendings[p].resourceOnly ==> bytes <= c.maxBody)
    ensures Accounts(c, b', Rest)
  {
    PendingTotals(b.pendings, p, b'.pendings[p]);
  }

  lemma GrownAccounts(c: Config, b: Books, o: Owner, additional: nat)
    requires Inv(c, b) && Known(b, o) && GrowthRefusal(c, b, o, additional) == None
    ensures Accounts(c, GrownBooks(b, o, additional), Rest)
  {
    hide LeaseOk, OwnerSlotOk, HolderOk, Conserved, DeferredOk;
    match o
    case OfLease(i) => LeaseBodyAccounts(c, b, GrownBooks(b, o, additional), i, Bytes(b, o) + additional);
    case OfPending(p) => PendingBodyAccounts(c, b, GrownBooks(b, o, additional), p, Bytes(b, o) + additional);
  }

  /** A growth, once its bytes are in: claimed, recorded and balanced. */
  lemma CommitGrowthKeeps(c: Config, b: Books, o: Owner, additional: nat)
    requires Inv(c, b) && Known(b, o) && GrowthRefusal(c, b, o, additional) == None
    ensures var r := CommitGrowth(c, b, o, additional);
            && r.Done? && Inv(c, r.books) && SameButSlots(GrownBooks(b, o, additional), r.books)
            && Known(r.books, o)
            && (HasSlot(r.books, o) <==>
                  HasSlot(b, o) || (c.largeLimit != 0 && Bytes(b, o) + additional > c.largeThreshold))
  {
    hide LeaseOk, OwnerSlotOk, HolderOk, Refs, Conserved, DeferredOk, Settle, UpdateHolder, ClaimSlot;
    var g := GrownBooks(b, o, additional);
    SlotHasBytes(c, b, o);
    GrownAccounts(c, b, o, additional);
    SetBytesFlux(c, b, g, o, Bytes(b, o) + additional);
    SettleOk(c, g, o);
  }

  lemma SlotHasBytes(c: Config, b: Books, o: Owner)
    requires SlotsExcept(c, b, None) && Known(b, o)
    ensures HasSlot(b, o) ==> Bytes(b, o) > 0
  {
    assert OwnerSlotOk(c, b, o, None);
  }

  /** The part of the budget open to a request of that size: all to a small one, all but the reserve to others. */
  predicate WithinShare(c: Config, size: nat, total: nat) {
    if c.smallThreshold != 0 && size <= c.smallThreshold then total <= c.budget else total + c.smallReserve <= c.budget
  }

  /**
   A body growth that no check refuses is carried out in full: it reaches no fault, keeps
   every facet, adds its bytes to its owner, leaves the small-lane reserve free and the request
   within its retained limit, and claims a slot exactly when the owner is above the threshold.
   */
  lemma CommitGrowthOk(c: Config, b: Books, o: Owner, additional: nat)
    requires Inv(c, b) && Known(b, o) && GrowthRefusal(c, b, o, additional) == None
    ensures var r := CommitGrowth(c, b, o, additional);
            && r.Done? && Inv(c, r.books) && Known(r.books, o)
            && Bytes(r.books, o) == Bytes(b, o) + additional
            && r.books.body == b.body + additional && r.books.response == b.response
            && WithinShare(c, Bytes(r.books, o), r.books.body + r.books.response)
            && (HasSlot(r.books, o) <==>
                  HasSlot(b, o) || (c.largeLimit != 0 && Bytes(r.books, o) > c.largeThreshold))
            && (o.OfLease? && !ResourceOnly(b, o) ==>
                  r.books.leases[o.index].body + r.books.leases[o.index].response <= c.maxRetained)
  {
    CommitGrowthKeeps(c, b, o, additional);
  }

  // ----- release -----

  lemma ReleasePendingOk(c: Config, b: Books, p: nat)
    requires Inv(c, b) && p < |b.pendings|
    ensures var r := ReleasePending(b, p);
            && r.Done? && Inv(c, r.books)
            && r.books.body == b.body - b.pendings[p].bytes && r.books.response == b.response
            && r.books.pendingBody == b.pendingBody - b.pendings[p].bytes
            && |r.books.leases| == |b.leases| && |r.books.pendings| == |b.pendings|
            && r.books.pendings[p].bytes == 0 && !r.books.pendings[p].slot
  {
    hide LeaseOk, OwnerSlotOk, HolderOk, DeferredOk, ReleaseSlot;
    var o := OfPending(p);
    PendingWithin(b, p);
    PendingBodyAccounts(c, b, DrainedPending(b, p), p, 0);
    SetBytesFlux(c, b, DrainedPending(b, p), o, 0);
    ReleaseAndSettle(c, DrainedPending(b, p), o);
    SlotGivenUp(DrainedPending(b, p), o);
  }

  lemma SlotGivenUp(b: Books, o: Owner)
    requires Known(b, o)
    ensures ReleaseSlot(b, o).Done? ==> Known(ReleaseSlot(b, o).books, o) && !HasSlot(ReleaseSlot(b, o).books, o)
  {
  }

  lemma PendingWithin(b: Books, p: nat)
    requires Conserved(b) && p < |b.pendings|
    ensures b.pendings[p].bytes <= b.pendingBody <= b.body
  {
    TotalNonNegative(Bodies(b.leases));
    PendingTotals(b.pendings, p, b.pendings[p]);
  }

  lemma MarkPendingReleasedOk(c: Config, b: Books, p: nat)
    requires Inv(c, b) && p < |b.pendings|
    ensures Inv(c, MarkPendingReleased(b, p))
  {
    hide LeaseOk, OwnerSlotOk, HolderOk;
    var r := MarkPendingReleased(b, p);
    PendingTotals(b.pendings, p, r.pendings[p]);
    assert Accounts(c, r, Rest);
    SlotsFrame(c, b, r);
  }

  /** The bytes a staged release gives back: those asked for, unless the request has been released. */
  function StagedBytes(b: Books, i: nat, bytes: nat): nat
    requires i < |b.leases|
  {
    if b.leases[i].releaseRequested then 0 else bytes
  }

  lemma ReleaseStagedOk(c: Config, b: Books, i: nat, bytes: nat)
    requires Inv(c, b) && i < |b.leases|
    ensures var r := ReleaseStaged(b, i, bytes);
            && !r.Broken?
            && (r.Refused? <==> !b.leases[i].releaseRequested && bytes > b.leases[i].body)
            && (r.Done? ==>
                  && Inv(c, r.books) && r.books.response == b.response
                  && r.books.body == b.body - StagedBytes(b, i, bytes)
                  && |r.books.leases| == |b.leases|
                  && r.books.leases[i].body == b.leases[i].body - StagedBytes(b, i, bytes)
                  && (r.books.leases[i].slot <==> b.leases[i].slot && r.books.leases[i].body > 0))
  {
    SlotHasBytes(c, b, OfLease(i));
    var l := b.leases[i];
    LeaseTotals(b.leases, i, l);
    TotalNonNegative(PendingBytes(b.pendings));
    if 0 < bytes <= l.body && !l.releaseRequested {
      StagedOk(c, b, i, bytes);
    }
  }

  lemma StagedOk(c: Config, b: Books, i: nat, bytes: nat)
    requires Inv(c, b) && i < |b.leases| && !b.leases[i].releaseRequested
    requires 0 < bytes <= b.leases[i].body && bytes <= b.body
    ensures var r := ReleaseStaged(b, i, bytes);
            && r.Done? && Inv(c, r.books) && r.books.response == b.response && r.books.body == b.body - bytes
            && |r.books.leases| == |b.leases| && r.books.leases[i].body == b.leases[i].body - bytes
            && (r.books.leases[i].slot <==> b.leases[i].slot && r.books.leases[i].body > 0)
  {
    hide LeaseOk, HolderOk, DeferredOk, ReleaseSlot, UpdateHolder;
    var o := OfLease(i);
    var s := ShrunkBooks(b, i, bytes);
    LeaseBodyAccounts(c, b, s, i, b.leases[i].body - bytes);
    SetBytesFlux(c, b, s, o, b.leases[i].body - bytes);
    if b.leases[i].body == bytes {
      ReleaseAndSettle(c, s, o);
      SlotGivenUp(s, o);
    } else {
      assert OwnerSlotOk(c, b, o, None);
      UpdateAndSettle(c, s, o);
    }
  }
}
