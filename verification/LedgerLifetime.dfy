/** Transfers, owners leaving, and the one finalization of each lease. */
module LedgerLifetime {
  import opened Common
  import opened Ledger
  import opened LedgerInvariant
  import opened LedgerSteps
  import opened LedgerBody

  // ----- new owners -----

  lemma EmptyTotals()
    ensures Conserved(EMPTY)
  {
    assert Bodies([]) == [] && Responses([]) == [] && PendingBytes([]) == [];
  }

  lemma EmptySlots(c: Config)
    ensures SlotsExcept(c, EMPTY, None)
  {
    hide OwnerSlotOk, HolderOk;
    assert forall o :: !Known(EMPTY, o);
  }

  lemma EmptyInv(c: Config)
    ensures Inv(c, EMPTY)
  {
    hide LeaseOk, Conserved, SlotsExcept;
    EmptyTotals();
    EmptySlots(c);
  }

  lemma NewLeaseOk(b: Books, resourceOnly: bool)
    requires Refs(b)
    ensures LeaseOk(NewLease(resourceOnly), |b.leases|, b.temps, b.deferrals, Rest)
  {
    NoTempsYet(b.temps, b.deferrals, |b.leases|);
    var l := NewLease(resourceOnly);
    forall k: Key ensures BalancedAt(l, |b.leases|, b.temps, k) {
      assert LiveCount(b.temps, |b.leases|, Some(k)) == 0 && LiveBytes(b.temps, |b.leases|, Some(k)) == 0;
    }
    assert LiveCount(b.temps, |b.leases|, None) == 0 && LiveBytes(b.temps, |b.leases|, None) == 0;
  }

  lemma AddLeaseOk(c: Config, b: Books, resourceOnly: bool)
    requires Inv(c, b)
    ensures Inv(c, AddLease(b, resourceOnly))
  {
    hide LeaseOk, OwnerSlotOk, HolderOk;
    var r := AddLease(b, resourceOnly);
    NewLeaseOk(b, resourceOnly);
    assert Bodies(r.leases) == Bodies(b.leases) + [0];
    assert Responses(r.leases) == Responses(b.leases) + [0];
    TotalAppend(Bodies(b.leases), 0);
    TotalAppend(Responses(b.leases), 0);
    SlotsFrame(c, b, r);
  }

  lemma AddPendingOk(c: Config, b: Books, resourceOnly: bool)
    requires Inv(c, b)
    ensures Inv(c, AddPending(b, resourceOnly))
  {
    hide Accounts, OwnerSlotOk, HolderOk;
    AddPendingAccounts(c, b, resourceOnly);
    SlotsFrame(c, b, AddPending(b, resourceOnly));
  }

  lemma AddPendingAccounts(c: Config, b: Books, resourceOnly: bool)
    requires Accounts(c, b, Rest)
    ensures Accounts(c, AddPending(b, resourceOnly), Rest)
  {
    hide LeaseOk;
    assert PendingBytes(AddPending(b, resourceOnly).pendings) == PendingBytes(b.pendings) + [0];
    TotalAppend(PendingBytes(b.pendings), 0);
  }

  // ----- transfer -----

  lemma MovedAccounts(c: Config, b: Books, p: nat, i: nat)
    requires Accounts(c, b, Rest) && p < |b.pendings| && i < |b.leases| && !b.leases[i].releaseRequested
    requires b.pendings[p].bytes <= b.pendingBody && (b.pendings[p].slot ==> b.pendings[p].claim.Some?)
    requires !b.leases[i].resourceOnly ==> b.leases[i].body + b.pendings[p].bytes <= c.maxBody
    ensures Accounts(c, MovedBooks(b, p, i), Rest)
  {
    hide LeasesOk, DeferredOk, Conserved, Refs, MovedBooks, SameButSlots;
    var next := b.leases[i].body + b.pendings[p].bytes;
    PendingWithin(b, p);
    MovedSame(b, p, i);
    var emptied := DrainedPending(b, p);
    PendingBodyAccounts(c, b, emptied, p, 0);
    var filled := SetBytes(emptied, OfLease(i), next).(body := b.body);
    LeaseBodyAccounts(c, emptied, filled, i, next);
    MarkedAccounts(c, filled, MovedBooks(b, p, i), p);
  }

  /** A move is a drain and a fill, but for flags and slots. */
  lemma MovedSame(b: Books, p: nat, i: nat)
    requires p < |b.pendings| && i < |b.leases| && b.pendings[p].bytes <= b.pendingBody <= b.body
    requires b.pendings[p].slot ==> b.pendings[p].claim.Some?
    ensures var next := b.leases[i].body + b.pendings[p].bytes;
            var filled := SetBytes(DrainedPending(b, p), OfLease(i), next).(body := b.body);
            && |filled.pendings| == |b.pendings|
            && SameButSlots(filled.(pendings := filled.pendings[p := filled.pendings[p].(transferred := true)]),
                            MovedBooks(b, p, i))
  {
  }

  /** Flags, slots and claims do not enter the accounts. */
  lemma MarkedAccounts(c: Config, b: Books, r: Books, p: nat)
    requires Accounts(c, b, Rest) && p < |b.pendings|
    requires SameButSlots(b.(pendings := b.pendings[p := b.pendings[p].(transferred := true)]), r)
    ensures Accounts(c, r, Rest)
  {
    hide LeaseOk;
    var marked := b.(pendings := b.pendings[p := b.pendings[p].(transferred := true)]);
    assert PendingBytes(marked.pendings) == PendingBytes(b.pendings);
    AccountsFrame(c, marked, r, Rest);
  }

  /** The slot of a reservation, if any, now belongs to the lease and nobody else. */
  lemma MovedSlots(c: Config, b: Books, p: nat, i: nat)
    requires SlotsExcept(c, b, None) && p < |b.pendings| && i < |b.leases|
    requires b.pendings[p].bytes <= b.pendingBody && !(b.pendings[p].slot && b.leases[i].slot)
    ensures b.pendings[p].slot ==> b.pendings[p].claim.Some? && b.pendings[p].claim.value in b.holders
    ensures SlotsExcept(c, MovedBooks(b, p, i), Some(OfLease(i)))
  {
    hide HolderOk;
    assert OwnerSlotOk(c, b, OfPending(p), None);
    assert OwnerSlotOk(c, b, OfLease(i), None);
    MovedHolders(c, b, p, i);
    var m := MovedBooks(b, p, i);
    forall o | Known(m, o) ensures OwnerSlotOk(c, m, o, Some(OfLease(i))) {
      assert Known(b, o) && OwnerSlotOk(c, b, o, None);
    }
  }

  lemma MovedHolders(c: Config, b: Books, p: nat, i: nat)
    requires SlotsExcept(c, b, None) && p < |b.pendings| && i < |b.leases|
    requires b.pendings[p].bytes <= b.pendingBody && !(b.pendings[p].slot && b.leases[i].slot)
    requires b.pendings[p].slot ==> b.pendings[p].claim.Some? && b.pendings[p].claim.value in b.holders
    ensures var m := MovedBooks(b, p, i);
            |m.holders| == |b.holders| && forall id :: id in m.holders ==> HolderOk(m, id)
  {
    assert OwnerSlotOk(c, b, OfPending(p), None);
    assert OwnerSlotOk(c, b, OfLease(i), None);
    var m := MovedBooks(b, p, i);
    if b.pendings[p].slot {
      assert m.holders.Keys == b.holders.Keys;
      assert |m.holders| == |m.holders.Keys| == |b.holders.Keys| == |b.holders|;
    }
    forall id | id in m.holders ensures HolderOk(m, id) { assert HolderOk(b, id); }
  }

  /** When nothing refuses a transfer, its last part is settling the lease's slot. */
  predicate Transferable(c: Config, b: Books, p: nat, i: nat)
    requires p < |b.pendings| && i < |b.leases|
  {
    var from, to := b.pendings[p], b.leases[i];
    var next := to.body + from.bytes;
    && !to.releaseRequested && (to.resourceOnly || next <= c.maxBody) && from.resourceOnly == to.resourceOnly
    && !(from.slot && to.slot)
    && (from.slot || !NeedsSlot(c, b, OfLease(i), next) || |b.holders| < c.largeLimit)
  }

  lemma TransferableOk(c: Config, b: Books, p: nat, i: nat)
    requires Inv(c, b) && p < |b.pendings| && i < |b.leases| && Transferable(c, b, p, i)
    ensures b.pendings[p].bytes <= b.pendingBody
    ensures b.pendings[p].slot ==> b.pendings[p].claim.Some? && b.pendings[p].claim.value in b.holders
    ensures var r := Settle(c, MovedBooks(b, p, i), OfLease(i));
            && r.Done? && Inv(c, r.books) && SameButSlots(MovedBooks(b, p, i), r.books)
            && (r.books.leases[i].slot <==>
                  || b.leases[i].slot || b.pendings[p].slot
                  || (c.largeLimit != 0 && b.leases[i].body + b.pendings[p].bytes > c.largeThreshold))
            && (b.pendings[p].slot ==>
                  r.books.leases == MovedBooks(b, p, i).leases && r.books.pendings == MovedBooks(b, p, i).pendings)
  {
    hide LeaseOk, OwnerSlotOk, HolderOk, DeferredOk, Settle, Conserved, BudgetOk, Refs;
    PendingWithin(b, p);
    SlotHasBytes(c, b, OfPending(p));
    SlotHasBytes(c, b, OfLease(i));
    MovedSlots(c, b, p, i);
    MovedAccounts(c, b, p, i);
    SettleOk(c, MovedBooks(b, p, i), OfLease(i));
    if b.pendings[p].slot { SettleWithSlot(c, MovedBooks(b, p, i), i); }
  }

  /** A lease that has a slot keeps it when settled. */
  lemma SettleWithSlot(c: Config, b: Books, i: nat)
    requires i < |b.leases| && Settle(c, b, OfLease(i)).Done? && b.leases[i].slot
    ensures var r := Settle(c, b, OfLease(i)).books;
            r.leases == b.leases && r.pendings == b.pendings
  {
  }

  /**
   A transfer is refused or moves all the bytes of the reservation, and its slot, to the
   lease. Neither global counter moves; only the pending one drops.
   */
  lemma TransferOk(c: Config, b: Books, p: nat, i: nat)
    requires Inv(c, b) && p < |b.pendings| && i < |b.leases|
    ensures !Transfer(c, b, p, i).Broken?
    ensures Transfer(c, b, p, i).Done? <==> Transferable(c, b, p, i)
    ensures Transfer(c, b, p, i).Done? ==>
              var r := Transfer(c, b, p, i).books;
              && Inv(c, r) && r.body == b.body && r.response == b.response
              && r.pendingBody == b.pendingBody - b.pendings[p].bytes
              && |r.leases| == |b.leases| && |r.pendings| == |b.pendings|
              && r.leases[i].body == b.leases[i].body + b.pendings[p].bytes
              && r.pendings[p].bytes == 0 && r.pendings[p].transferred
              && (b.pendings[p].slot ==> r.leases[i].claim == b.pendings[p].claim)
              && !r.pendings[p].slot
              && (r.leases[i].slot <==>
                    || b.leases[i].slot || b.pendings[p].slot
                    || (c.largeLimit != 0 && r.leases[i].body > c.largeThreshold))
  {
    hide LeaseOk, OwnerSlotOk, HolderOk, DeferredOk, Settle, Conserved, BudgetOk, Refs;
    PendingWithin(b, p);
    if Transferable(c, b, p, i) {
      TransferableOk(c, b, p, i);
      SlotHasBytes(c, Transfer(c, b, p, i).books, OfPending(p));
    } else {
      SlotHeld(c, b, p);
    }
  }

  lemma SlotHeld(c: Config, b: Books, p: nat)
    requires SlotsExcept(c, b, None) && p < |b.pendings|
    ensures b.pendings[p].slot ==> b.pendings[p].claim.Some? && b.pendings[p].claim.value in b.holders
  {
    assert OwnerSlotOk(c, b, OfPending(p), None);
  }

  // ----- finalization -----

  /** With no owner left, everything a lease still holds is in its committed allocations. */
  lemma NothingElseHeld(l: Lease, i: nat, ts: seq<Temp>, ds: seq<Deferral>)
    requires LeaseOk(l, i, ts, ds, Due(i))
    ensures AllocatedBytes(l.allocations, None) == l.response
    ensures FinalAllocations(l) == l.allocations
    ensures forall only :: LiveBytes(ts, i, only) == 0 && LiveCount(ts, i, only) == 0
  {
    CountsNonNegative(ts, ds, i);
    NoneLive(ts, i);
    assert LiveBytes(ts, i, None) == 0;
  }

  /** Every record published at finalization is settled. */
  lemma RecordsSettled(l: Lease, i: nat, ts: seq<Temp>, ds: seq<Deferral>, k: Key)
    requires LeaseOk(l, i, ts, ds, Due(i))
    ensures var after := ReleasedCycles(l.cycles, FinalAllocations(l));
            k in after ==> Settled(after[k])
  {
    hide ReleasedCycles, FinalAllocations, AllocatedBytes;
    NothingElseHeld(l, i, ts, ds);
    ReleasedCycleAt(l, l.allocations, k);
    RecordBefore(l, i, ts, ds, k);
  }

  lemma RecordBefore(l: Lease, i: nat, ts: seq<Temp>, ds: seq<Deferral>, k: Key)
    requires LeaseOk(l, i, ts, ds, Due(i))
    ensures Balanced(Cycle(l, k), 0, 0, AllocatedBytes(l.allocations, Some(k)))
  {
    hide FinalOk, AllocationsOk;
    NoLive(l, i, ts, ds, Some(k));
    assert BalancedAt(l, i, ts, k);
  }

  lemma NoLive(l: Lease, i: nat, ts: seq<Temp>, ds: seq<Deferral>, only: Option<Key>)
    requires LeaseOk(l, i, ts, ds, Due(i))
    ensures LiveBytes(ts, i, only) == 0 && LiveCount(ts, i, only) == 0
  {
    hide CyclesOk, AllocationsOk;
    CountsNonNegative(ts, ds, i);
    NoneLive(ts, i);
  }

  lemma {:induction false} ReleasedKeys(cycles: map<Key, Lifecycle>, a: seq<Allocation>)
    ensures cycles.Keys <= ReleasedCycles(cycles, a).Keys
  {
    if a != [] { ReleasedKeys(cycles, a[..|a| - 1]); }
  }

  /**
   Finalization publishes the record of every attempt: as it stood, with everything it had
   committed now released. Preprocessing outside any attempt is not published.
   */
  lemma PublishedExactly(l: Lease, i: nat, ts: seq<Temp>, ds: seq<Deferral>, k: Key)
    requires LeaseOk(l, i, ts, ds, Due(i)) && k in l.cycles
    ensures k in FinalLease(l).summaries <==> k != UNATTRIBUTED
    ensures k != UNATTRIBUTED ==>
              var y := FinalLease(l).summaries[k];
              y == l.cycles[k].(released := l.cycles[k].committed, releases := y.releases) && Settled(y)
  {
    hide ReleasedCycles, AllocatedBytes;
    NothingElseHeld(l, i, ts, ds);
    ReleasedKeys(l.cycles, l.allocations);
    ReleasedCycleAt(l, l.allocations, k);
    RecordBefore(l, i, ts, ds, k);
  }

  lemma FinalLeaseOk(l: Lease, i: nat, ts: seq<Temp>, ds: seq<Deferral>)
    requires LeaseOk(l, i, ts, ds, Due(i))
    ensures LeaseOk(FinalLease(l), i, ts, ds, Rest)
  {
    NothingElseHeld(l, i, ts, ds);
    var f := FinalLease(l);
    forall k: Key ensures BalancedAt(f, i, ts, k) {
      assert LiveBytes(ts, i, Some(k)) == 0 && LiveCount(ts, i, Some(k)) == 0;
    }
    assert LiveBytes(ts, i, None) == 0;
    forall k | k in f.summaries ensures Settled(f.summaries[k]) { RecordsSettled(l, i, ts, ds, k); }
  }

  lemma EmptiedLeases(b: Books, r: Books, i: nat)
    requires LeasesOk(b, Due(i)) && i < |b.leases| && r.leases == b.leases[i := FinalLease(b.leases[i])]
    requires r.temps == b.temps && r.deferrals == b.deferrals
    ensures LeasesOk(r, Rest)
  {
    hide LeaseOk;
    forall j | 0 <= j < |r.leases| ensures LeaseOk(r.leases[j], j, r.temps, r.deferrals, Rest) {
      if j == i {
        FinalLeaseOk(b.leases[i], i, b.temps, b.deferrals);
      } else {
        LeaseFrame(b.leases[j], j, b, r, Due(i), Rest);
      }
    }
  }

  lemma LeaseWithin(b: Books, i: nat)
    requires Conserved(b) && i < |b.leases|
    ensures b.leases[i].body <= b.body && b.leases[i].response <= b.response
  {
    LeaseTotals(b.leases, i, b.leases[i]);
    TotalNonNegative(PendingBytes(b.pendings));
  }

  lemma EmptiedAccounts(c: Config, b: Books, i: nat)
    requires Accounts(c, b, Due(i)) && i < |b.leases|
    ensures b.leases[i].body <= b.body && b.leases[i].response <= b.response
    ensures Accounts(c, Emptied(b, i), Rest)
  {
    hide LeaseOk, FinalAllocations, ReleasedCycles;
    LeaseWithin(b, i);
    LeaseTotals(b.leases, i, FinalLease(b.leases[i]));
    EmptiedLeases(b, Emptied(b, i), i);
  }

  lemma EmptiedSlots(c: Config, b: Books, i: nat)
    requires SlotsExcept(c, b, None) && i < |b.leases|
    requires b.leases[i].body <= b.body && b.leases[i].response <= b.response
    ensures SlotsExcept(c, Emptied(b, i), Some(OfLease(i))) && Bytes(Emptied(b, i), OfLease(i)) == 0
  {
    hide OwnerSlotOk, HolderOk, FinalAllocations, ReleasedCycles;
    FluxFrame(c, b, Emptied(b, i), OfLease(i));
  }

  /** Finalization, when it is due, gives back everything and reaches no fault. */
  lemma FinalizeOk(c: Config, b: Books, i: nat)
    requires Accounts(c, b, Due(i)) && SlotsExcept(c, b, None) && i < |b.leases|
    ensures var r := Finalize(b, i);
            && r.Done? && Inv(c, r.books) && |r.books.leases| == |b.leases|
            && r.books.leases[i].finalized
            && r.books.body == b.body - b.leases[i].body
            && r.books.response == b.response - b.leases[i].response
  {
    hide Accounts, SlotsExcept, Emptied, ReleaseSlot, AllocatedBytes, SameButSlots;
    if b.leases[i].finalized {
      AlreadyFinal(c, b, i);
    } else {
      DueHolds(c, b, i);
      EmptiedAccounts(c, b, i);
      EmptiedSlots(c, b, i);
      EmptiedCounts(b, i);
      ReleaseAndSettle(c, Emptied(b, i), OfLease(i));
      SlotsFinal(Emptied(b, i), ReleaseSlot(Emptied(b, i), OfLease(i)).books, i);
    }
  }

  /** A lease due for finalization holds exactly its allocations. */
  lemma DueHolds(c: Config, b: Books, i: nat)
    requires Accounts(c, b, Due(i)) && i < |b.leases|
    ensures AllocatedBytes(b.leases[i].allocations, None) == b.leases[i].response
  {
    hide LeaseOk, Conserved, DeferredOk, BudgetOk, Refs;
    assert LeaseOk(b.leases[i], i, b.temps, b.deferrals, Due(i));
    NothingElseHeld(b.leases[i], i, b.temps, b.deferrals);
  }

  lemma EmptiedCounts(b: Books, i: nat)
    requires i < |b.leases| && b.leases[i].body <= b.body && b.leases[i].response <= b.response
    ensures var e := Emptied(b, i);
            && |e.leases| == |b.leases| && e.leases[i].finalized
            && e.body == b.body - b.leases[i].body && e.response == b.response - b.leases[i].response
  {
    hide FinalAllocations, ReleasedCycles;
  }

  lemma SlotsFinal(b: Books, r: Books, i: nat)
    requires SameButSlots(b, r) && i < |b.leases| && b.leases[i].finalized
    ensures |r.leases| == |b.leases| && r.leases[i].finalized && r.body == b.body && r.response == b.response
  {
  }

  lemma AlreadyFinal(c: Config, b: Books, i: nat)
    requires Accounts(c, b, Due(i)) && SlotsExcept(c, b, None) && i < |b.leases| && b.leases[i].finalized
    ensures Inv(c, b) && b.leases[i].body == 0 && b.leases[i].response == 0
  {
    hide OwnerSlotOk, HolderOk, CyclesOk, AllocationsOk;
    forall j | 0 <= j < |b.leases| ensures LeaseOk(b.leases[j], j, b.temps, b.deferrals, Rest) {
      assert LeaseOk(b.leases[j], j, b.temps, b.deferrals, Due(i));
    }
  }

  /** The state after an owner has left, before any finalization. */
  function Left(b: Books, i: nat): Books
    requires i < |b.leases|
  {
    SetLease(b, i, b.leases[i].(owners := b.leases[i].owners - 1))
  }

  lemma LeftLease(l: Lease, i: nat, ts: seq<Temp>, ds: seq<Deferral>)
    requires LeaseOk(l, i, ts, ds, Leaving(i))
    ensures l.owners >= 1
    ensures LeaseOk(l.(owners := l.owners - 1), i, ts, ds, if l.releaseRequested && l.owners == 1 then Due(i) else Rest)
  {
    CountsNonNegative(ts, ds, i);
    SameRecords(l, l.(owners := l.owners - 1), i, ts);
  }

  lemma LeftOk(c: Config, b: Books, i: nat)
    requires Accounts(c, b, Leaving(i)) && SlotsExcept(c, b, None) && i < |b.leases|
    ensures b.leases[i].owners >= 1
    ensures var due := b.leases[i].releaseRequested && b.leases[i].owners == 1;
            Accounts(c, Left(b, i), if due then Due(i) else Rest) && SlotsExcept(c, Left(b, i), None)
  {
    hide LeaseOk, OwnerSlotOk, HolderOk, Conserved;
    LeftLease(b.leases[i], i, b.temps, b.deferrals);
    var due := b.leases[i].releaseRequested && b.leases[i].owners == 1;
    Touched(c, b, Left(b, i), i, Leaving(i), if due then Due(i) else Rest);
  }

  /** The last owner to leave a released lease finalizes it; any other owner just leaves. */
  lemma FinishOwnerOk(c: Config, b: Books, i: nat)
    requires Accounts(c, b, Leaving(i)) && SlotsExcept(c, b, None) && i < |b.leases|
    ensures var r := FinishOwner(b, i);
            var last := b.leases[i].releaseRequested && b.leases[i].owners == 1;
            && r.Done? && Inv(c, r.books) && |r.books.leases| == |b.leases|
            && r.books.leases[i].finalized == last
            && r.books.body == b.body - (if last then b.leases[i].body else 0)
            && r.books.response == b.response - (if last then b.leases[i].response else 0)
  {
    hide OwnerSlotOk, HolderOk, Finalize, Conserved, DeferredOk, BudgetOk, Refs;
    assert LeaseOk(b.leases[i], i, b.temps, b.deferrals, Leaving(i));
    CountsNonNegative(b.temps, b.deferrals, i);
    LeftOk(c, b, i);
    if b.leases[i].releaseRequested && b.leases[i].owners == 1 { FinalizeOk(c, Left(b, i), i); }
  }

  /** What the step that ends one owner of lease `i` gives back: all of the lease if that owner was the last. */
  predicate GivesBack(b: Books, r: Books, i: nat, response: nat)
    requires i < |b.leases|
  {
    var last := b.leases[i].releaseRequested && b.leases[i].owners == 1;
    && r.body == b.body - (if last then b.leases[i].body else 0)
    && r.response == b.response - (if last then b.leases[i].response else response)
    && i < |r.leases| && r.leases[i].finalized == last
  }

  lemma CommitTempOk(c: Config, b: Books, t: nat)
    requires Inv(c, b) && t < |b.temps|
    ensures !CommitTemp(b, t).Broken? && (CommitTemp(b, t).Refused? <==> b.temps[t].released)
    ensures CommitTemp(b, t).Done? ==> Inv(c, CommitTemp(b, t).books)
    ensures b.temps[t].Live() ==> GivesBack(b, CommitTemp(b, t).books, b.temps[t].lease, 0)
    ensures b.temps[t].committed && !b.temps[t].released ==> CommitTemp(b, t).books == b
  {
    hide LeaseOk, OwnerSlotOk, HolderOk, FinishOwner, BeforeCommitEnds, Conserved, DeferredOk, BudgetOk;
    if b.temps[t].Live() {
      BeforeCommitEndsOk(c, b, t);
      BeforeCommitShape(b, t);
      FinishOwnerOk(c, BeforeCommitEnds(b, t), b.temps[t].lease);
    }
  }

  lemma BeforeCommitShape(b: Books, t: nat)
    requires t < |b.temps| && b.temps[t].lease < |b.leases|
    ensures var r := BeforeCommitEnds(b, t);
            var l, m := b.leases[b.temps[t].lease], r.leases[b.temps[t].lease];
            && |r.leases| == |b.leases| && r.body == b.body && r.response == b.response
            && m.owners == l.owners && m.releaseRequested == l.releaseRequested
            && m.body == l.body && m.response == l.response
  {
  }

  lemma ReleaseTempOk(c: Config, b: Books, t: nat)
    requires Inv(c, b) && t < |b.temps|
    ensures ReleaseTemp(b, t).Done? && Inv(c, ReleaseTemp(b, t).books)
    ensures b.temps[t].Live() ==> GivesBack(b, ReleaseTemp(b, t).books, b.temps[t].lease, b.temps[t].size)
    ensures !b.temps[t].Live() ==> ReleaseTemp(b, t).books == b
  {
    hide LeaseOk, OwnerSlotOk, HolderOk, FinishOwner, Conserved, DeferredOk, BudgetOk;
    if b.temps[t].Live() {
      BeforeReleaseEndsOk(c, b, t);
      FinishOwnerOk(c, BeforeReleaseEnds(b, t), b.temps[t].lease);
    }
  }

  lemma ReleaseDeferralOk(c: Config, b: Books, d: nat)
    requires Inv(c, b) && d < |b.deferrals|
    ensures ReleaseDeferral(b, d).Done? && Inv(c, ReleaseDeferral(b, d).books)
    ensures !b.deferrals[d].released ==> GivesBack(b, ReleaseDeferral(b, d).books, b.deferrals[d].lease, 0)
    ensures b.deferrals[d].released ==> ReleaseDeferral(b, d).books == b
  {
    hide LeaseOk, OwnerSlotOk, HolderOk, FinishOwner, Conserved, DeferredOk, BudgetOk;
    if !b.deferrals[d].released {
      BeforeDeferralEndsOk(c, b, d);
      FinishOwnerOk(c, b.(deferrals := b.deferrals[d := b.deferrals[d].(released := true)]), b.deferrals[d].lease);
    }
  }

  function Ran(b: Books, i: nat): Books
    requires i < |b.leases|
  {
    SetLease(b, i, b.leases[i].(releaseRan := true))
  }

  lemma RanOk(c: Config, b: Books, i: nat)
    requires Inv(c, b) && i < |b.leases| && b.leases[i].releaseRequested
    ensures b.leases[i].owners == 0 ==> Accounts(c, Ran(b, i), Due(i)) && SlotsExcept(c, Ran(b, i), None)
    ensures b.leases[i].owners != 0 ==> Inv(c, Ran(b, i).(deferred := b.deferred + {i}))
  {
    hide OwnerSlotOk, HolderOk, Conserved;
    var l := b.leases[i];
    SameRecords(l, l.(releaseRan := true), i, b.temps);
    if l.owners == 0 {
      Touched(c, b, Ran(b, i), i, Rest, Due(i));
    } else {
      Touched(c, b, Ran(b, i).(deferred := b.deferred + {i}), i, Rest, Rest);
    }
  }

  /** Releasing a lease finalizes it unless an owner is left, in which case it is deferred. */
  lemma RunReleaseOk(c: Config, b: Books, i: nat)
    requires Inv(c, b) && i < |b.leases|
    ensures RunRelease(b, i).Done? && Inv(c, RunRelease(b, i).books)
    ensures !b.leases[i].releaseRequested ==> RunRelease(b, i).books == b
    ensures b.leases[i].releaseRequested ==>
              var r := RunRelease(b, i).books;
              && |r.leases| == |b.leases|
              && (r.leases[i].finalized <==> b.leases[i].owners == 0)
              && (i in r.deferred <==> b.leases[i].owners != 0)
              && r.body == b.body - (if b.leases[i].owners == 0 then b.leases[i].body else 0)
              && r.response == b.response - (if b.leases[i].owners == 0 then b.leases[i].response else 0)
  {
    hide OwnerSlotOk, HolderOk, Finalize, Conserved, BudgetOk, Refs;
    if b.leases[i].releaseRequested {
      RanOk(c, b, i);
      assert LeaseOk(b.leases[i], i, b.temps, b.deferrals, Rest);
      if b.leases[i].owners == 0 {
        FinalizeOk(c, Ran(b, i), i);
      }
    }
  }
}
