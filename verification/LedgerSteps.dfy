/** Every critical section keeps every facet and reaches no fault. */
module LedgerSteps {
  import opened Common
  import opened Ledger
  import opened LedgerInvariant

  // ----- frames -----

  /** The totals of one lease are the same in two states. */
  ghost predicate SameTotals(b: Books, b': Books, j: nat) {
    && (forall only :: LiveBytes(b'.temps, j, only) == LiveBytes(b.temps, j, only))
    && (forall only :: LiveCount(b'.temps, j, only) == LiveCount(b.temps, j, only))
    && DeferralCount(b'.deferrals, j) == DeferralCount(b.deferrals, j)
  }

  /** Committed temporaries stay committed. */
  predicate CommitsKept(ts: seq<Temp>, ts': seq<Temp>) {
    |ts| <= |ts'| && forall t :: 0 <= t < |ts| && ts[t].committed ==> ts'[t].committed
  }

  predicate StageOf(s: Stage, i: nat) { s == Rest || s == Leaving(i) || s == Due(i) }

  lemma LeaseFrame(l: Lease, j: nat, b: Books, b': Books, s: Stage, s': Stage)
    requires LeaseOk(l, j, b.temps, b.deferrals, s) && SameTotals(b, b', j) && CommitsKept(b.temps, b'.temps)
    requires (s == Leaving(j) <==> s' == Leaving(j)) && (s == Due(j) <==> s' == Due(j))
    ensures LeaseOk(l, j, b'.temps, b'.deferrals, s')
  {
    forall k: Key
      ensures BalancedAt(l, j, b'.temps, k)
    {
      assert BalancedAt(l, j, b.temps, k);
      assert LiveCount(b'.temps, j, Some(k)) == LiveCount(b.temps, j, Some(k));
      assert LiveBytes(b'.temps, j, Some(k)) == LiveBytes(b.temps, j, Some(k));
    }
    assert LiveBytes(b'.temps, j, None) == LiveBytes(b.temps, j, None);
    assert LiveCount(b'.temps, j, None) == LiveCount(b.temps, j, None);
  }

  /** A step that replaces lease `i` and may touch temporaries and deferrals. */
  predicate Touches(b: Books, b': Books, i: nat) {
    && i < |b.leases| == |b'.leases|
    && b' == b.(leases := b.leases[i := b'.leases[i]], temps := b'.temps, deferrals := b'.deferrals,
                response := b'.response, deferred := b'.deferred)
    && b'.leases[i].body == b.leases[i].body
    && b'.leases[i].slot == b.leases[i].slot
    && b'.leases[i].claim == b.leases[i].claim
    && b'.leases[i].resourceOnly == b.leases[i].resourceOnly
    && b'.response == b.response - b.leases[i].response + b'.leases[i].response
  }

  lemma TouchedLeases(b: Books, b': Books, i: nat, s: Stage, s': Stage)
    requires LeasesOk(b, s) && Touches(b, b', i) && StageOf(s, i) && StageOf(s', i)
    requires CommitsKept(b.temps, b'.temps)
    requires forall j :: 0 <= j < |b.leases| && j != i ==> SameTotals(b, b', j)
    requires LeaseOk(b'.leases[i], i, b'.temps, b'.deferrals, s')
    ensures LeasesOk(b', s')
  {
    forall j | 0 <= j < |b'.leases|
      ensures LeaseOk(b'.leases[j], j, b'.temps, b'.deferrals, s')
    {
      if j != i { LeaseFrame(b.leases[j], j, b, b', s, s'); }
    }
  }

  lemma TouchedTotals(c: Config, b: Books, b': Books, i: nat)
    requires Conserved(b) && BudgetOk(c, b) && Touches(b, b', i)
    requires b'.body + b'.response <= c.budget && b'.leases[i].response <= c.maxResponse
    ensures Conserved(b') && BudgetOk(c, b')
  {
    LeaseTotals(b.leases, i, b'.leases[i]);
  }

  /** Owners with the same bytes, slots and claims keep the slot facet. */
  ghost predicate SameSlots(b: Books, b': Books) {
    && b'.holders == b.holders && b'.claims == b.claims
    && |b.leases| <= |b'.leases| && |b.pendings| <= |b'.pendings|
    && (forall o :: Known(b, o) ==>
          Bytes(b', o) == Bytes(b, o) && HasSlot(b', o) == HasSlot(b, o) && Claim(b', o) == Claim(b, o))
    && (forall o :: Known(b', o) && !Known(b, o) ==> Bytes(b', o) == 0 && !HasSlot(b', o) && Claim(b', o) == None)
  }

  lemma SlotsFrame(c: Config, b: Books, b': Books)
    requires SlotsExcept(c, b, None) && SameSlots(b, b')
    ensures SlotsExcept(c, b', None)
  {
    forall o | Known(b', o) ensures OwnerSlotOk(c, b', o, None) {
      if Known(b, o) { assert OwnerSlotOk(c, b, o, None); }
    }
    forall id | id in b'.holders ensures HolderOk(b', id) { assert HolderOk(b, id); }
  }

  lemma TouchedSlots(c: Config, b: Books, b': Books, i: nat)
    requires SlotsExcept(c, b, None) && Touches(b, b', i)
    ensures SlotsExcept(c, b', None)
  {
    SlotsFrame(c, b, b');
  }

  /** The common shape of a step on one lease's response bytes, owners and records. */
  lemma Touched(c: Config, b: Books, b': Books, i: nat, s: Stage, s': Stage)
    requires Accounts(c, b, s) && SlotsExcept(c, b, None) && Touches(b, b', i)
    requires StageOf(s, i) && StageOf(s', i) && CommitsKept(b.temps, b'.temps) && Refs(b')
    requires forall j :: 0 <= j < |b.leases| && j != i ==> SameTotals(b, b', j)
    requires LeaseOk(b'.leases[i], i, b'.temps, b'.deferrals, s')
    requires DeferredOk(b', s')
    requires b'.body + b'.response <= c.budget && b'.leases[i].response <= c.maxResponse
    ensures Accounts(c, b', s') && SlotsExcept(c, b', None)
  {
    TouchedLeases(b, b', i, s, s');
    TouchedTotals(c, b, b', i);
    TouchedSlots(c, b, b', i);
  }

  // ----- one lease at a time -----

  /** One attempt has the same temporaries, allocations and record on both sides of a step. */
  predicate SameAt(l: Lease, l': Lease, i: nat, ts: seq<Temp>, ts': seq<Temp>, k: Key) {
    && LiveCount(ts', i, Some(k)) == LiveCount(ts, i, Some(k))
    && LiveBytes(ts', i, Some(k)) == LiveBytes(ts, i, Some(k))
    && AllocatedBytes(l'.allocations, Some(k)) == AllocatedBytes(l.allocations, Some(k))
    && Cycle(l', k) == Cycle(l, k)
  }

  /** A step on the record of one attempt leaves the other attempts balanced. */
  lemma CyclesStep(l: Lease, l': Lease, i: nat, ts: seq<Temp>, ts': seq<Temp>, k: Key)
    requires CyclesOk(l, i, ts) && BalancedAt(l', i, ts', k)
    requires forall m :: m != k ==> SameAt(l, l', i, ts, ts', m)
    ensures CyclesOk(l', i, ts')
  {
    forall m: Key ensures BalancedAt(l', i, ts', m) {
      if m != k { assert SameAt(l, l', i, ts, ts', m) && BalancedAt(l, i, ts, m); }
    }
  }

  lemma RejectedOk(l: Lease, i: nat, ts: seq<Temp>, ds: seq<Deferral>, k: Key, additional: nat)
    requires LeaseOk(l, i, ts, ds, Rest)
    ensures LeaseOk(Rejected(l, k, additional), i, ts, ds, Rest)
  {
    assert BalancedAt(l, i, ts, k);
    CyclesStep(l, Rejected(l, k, additional), i, ts, ts, k);
  }

  lemma PutAllocationsOk(l: Lease, l': Lease, x: Allocation, ts: seq<Temp>)
    requires AllocationsOk(l, ts) && AllocationOk(x, ts) && l'.allocations == PutAllocation(l.allocations, x)
    ensures AllocationsOk(l', ts)
  {
  }

  /** The entry a direct reservation adds to belongs to the same attempt. */
  lemma DirectEntryKey(l: Lease, k: Key, ts: seq<Temp>)
    requires AllocationsOk(l, ts)
    ensures var at := IndexOf(l.allocations, Direct(k));
            at < |l.allocations| ==> l.allocations[at].key == k
  {
    var at := IndexOf(l.allocations, Direct(k));
    assert at < |l.allocations| ==> AllocationOk(l.allocations[at], ts);
  }

  /** The entry written by a direct reservation. */
  function DirectEntry(l: Lease, additional: nat): Allocation {
    Allocation(Direct(CurrentKey(l)), CurrentKey(l), EntryBytes(l.allocations, Direct(CurrentKey(l))) + additional)
  }

  lemma DirectedBytes(l: Lease, ts: seq<Temp>, additional: nat, only: Option<Key>)
    requires AllocationsOk(l, ts)
    ensures AllocatedBytes(Directed(l, additional).allocations, only)
         == AllocatedBytes(l.allocations, only) + if only.None? || only.value == CurrentKey(l) then additional else 0
  {
    DirectEntryKey(l, CurrentKey(l), ts);
    PutBytes(l.allocations, DirectEntry(l, additional), only);
  }

  lemma DirectedBalanced(l: Lease, i: nat, ts: seq<Temp>, additional: nat, m: Key)
    requires AllocationsOk(l, ts) && BalancedAt(l, i, ts, m)
    ensures BalancedAt(Directed(l, additional), i, ts, m)
  {
    hide AllocatedBytes, PutAllocation, EntryBytes, AllocationsOk, LiveCount, LiveBytes;
    DirectedBytes(l, ts, additional, Some(m));
  }

  lemma DirectedCycles(l: Lease, i: nat, ts: seq<Temp>, additional: nat)
    requires CyclesOk(l, i, ts) && AllocationsOk(l, ts)
    ensures CyclesOk(Directed(l, additional), i, ts)
  {
    forall m: Key ensures BalancedAt(Directed(l, additional), i, ts, m) { DirectedBalanced(l, i, ts, additional, m); }
  }

  lemma DirectedOk(l: Lease, i: nat, ts: seq<Temp>, ds: seq<Deferral>, additional: nat)
    requires LeaseOk(l, i, ts, ds, Rest) && !l.releaseRequested
    ensures LeaseOk(Directed(l, additional), i, ts, ds, Rest)
  {
    DirectedCycles(l, i, ts, additional);
    DirectedBytes(l, ts, additional, None);
    PutAllocationsOk(l, Directed(l, additional), DirectEntry(l, additional), ts);
  }

  lemma ActivatedOk(l: Lease, i: nat, ts: seq<Temp>, ds: seq<Deferral>, additional: nat)
    requires LeaseOk(l, i, ts, ds, Rest) && !l.releaseRequested
    ensures LeaseOk(Activated(l, additional), i, ts + [Temp(i, CurrentKey(l), additional, false, false)], ds, Rest)
  {
    var k := CurrentKey(l);
    var x := Temp(i, k, additional, false, false);
    var l' := Activated(l, additional);
    TempAppend(ts, x);
    assert BalancedAt(l, i, ts, k);
    CyclesStep(l, l', i, ts, ts + [x], k);
  }

  lemma GrownSame(l: Lease, ts: seq<Temp>, ts': seq<Temp>, t: nat, additional: nat, m: Key)
    requires t < |ts| && ts' == ts[t := ts[t].(size := ts[t].size + additional)] && m != ts[t].key
    ensures SameAt(l, Grown(l, ts[t].key, additional), ts[t].lease, ts, ts', m)
  {
    TempUpdateAt(ts, t, ts[t].(size := ts[t].size + additional), ts[t].lease, Some(m));
  }

  lemma GrownBalanced(l: Lease, ts: seq<Temp>, ts': seq<Temp>, t: nat, additional: nat)
    requires t < |ts| && ts[t].Live() && ts' == ts[t := ts[t].(size := ts[t].size + additional)]
    requires BalancedAt(l, ts[t].lease, ts, ts[t].key)
    ensures BalancedAt(Grown(l, ts[t].key, additional), ts[t].lease, ts', ts[t].key)
  {
    TempUpdateAt(ts, t, ts[t].(size := ts[t].size + additional), ts[t].lease, Some(ts[t].key));
  }

  lemma GrownCycles(l: Lease, ts: seq<Temp>, t: nat, additional: nat)
    requires t < |ts| && ts[t].Live() && CyclesOk(l, ts[t].lease, ts)
    ensures CyclesOk(Grown(l, ts[t].key, additional), ts[t].lease, ts[t := ts[t].(size := ts[t].size + additional)])
  {
    var x := ts[t];
    var ts' := ts[t := x.(size := x.size + additional)];
    var l' := Grown(l, x.key, additional);
    forall m | m != x.key ensures SameAt(l, l', x.lease, ts, ts', m) { GrownSame(l, ts, ts', t, additional, m); }
    GrownBalanced(l, ts, ts', t, additional);
    CyclesStep(l, l', x.lease, ts, ts', x.key);
  }

  lemma GrownOk(l: Lease, ts: seq<Temp>, t: nat, ds: seq<Deferral>, additional: nat)
    requires t < |ts| && ts[t].Live() && LeaseOk(l, ts[t].lease, ts, ds, Rest)
    ensures LeaseOk(Grown(l, ts[t].key, additional), ts[t].lease,
                    ts[t := ts[t].(size := ts[t].size + additional)], ds, Rest)
  {
    var x := ts[t];
    GrownCycles(l, ts, t, additional);
    TempUpdateAt(ts, t, x.(size := x.size + additional), x.lease, None);
    LiveBounds(ts, t);
    CountsNonNegative(ts, ds, x.lease);
  }

  /** Updating a temporary in place concerns its own lease only. */
  lemma OtherLeasesSame(b: Books, b': Books, t: nat, x: Temp)
    requires t < |b.temps| && x.lease == b.temps[t].lease
    requires b'.temps == b.temps[t := x] && b'.deferrals == b.deferrals
    ensures forall j :: 0 <= j < |b.leases| && j != x.lease ==> SameTotals(b, b', j)
  {
    TempUpdate(b.temps, t, x);
  }

  /** A live temporary has no ledger entry yet. */
  lemma NotYetCommitted(l: Lease, ts: seq<Temp>, t: nat)
    requires AllocationsOk(l, ts) && t < |ts| && ts[t].Live()
    ensures IndexOf(l.allocations, FromTemporary(t)) == |l.allocations|
  {
    var at := IndexOf(l.allocations, FromTemporary(t));
    assert at < |l.allocations| ==> AllocationOk(l.allocations[at], ts);
  }

  lemma CommittedCycles(l: Lease, ts: seq<Temp>, t: nat)
    requires t < |ts| && ts[t].Live() && CyclesOk(l, ts[t].lease, ts) && AllocationsOk(l, ts)
    ensures CyclesOk(Committed(l, t, ts[t]), ts[t].lease, ts[t := ts[t].(committed := true)])
    ensures AllocatedBytes(Committed(l, t, ts[t]).allocations, None) == AllocatedBytes(l.allocations, None) + ts[t].size
  {
    var x := ts[t];
    var x' := x.(committed := true);
    var ts' := ts[t := x'];
    var l' := Committed(l, t, x);
    var entry := Allocation(FromTemporary(t), x.key, x.size);
    NotYetCommitted(l, ts, t);
    PutBytes(l.allocations, entry, None);
    PutBytes(l.allocations, entry, Some(x.key));
    TempUpdateAt(ts, t, x', x.lease, Some(x.key));
    forall m | m != x.key ensures SameAt(l, l', x.lease, ts, ts', m) {
      PutBytes(l.allocations, entry, Some(m));
      TempUpdateAt(ts, t, x', x.lease, Some(m));
    }
    assert BalancedAt(l, x.lease, ts, x.key);
    CyclesStep(l, l', x.lease, ts, ts', x.key);
  }

  lemma CommittedOk(l: Lease, ts: seq<Temp>, t: nat, ds: seq<Deferral>)
    requires t < |ts| && ts[t].Live() && LeaseOk(l, ts[t].lease, ts, ds, Rest)
    ensures LeaseOk(Committed(l, t, ts[t]), ts[t].lease, ts[t := ts[t].(committed := true)], ds, Leaving(ts[t].lease))
  {
    var x := ts[t];
    CommittedCycles(l, ts, t);
    TempUpdateAt(ts, t, x.(committed := true), x.lease, None);
    LiveBounds(ts, t);
    CountsNonNegative(ts, ds, x.lease);
  }

  lemma RolledBackOk(l: Lease, ts: seq<Temp>, t: nat, ds: seq<Deferral>)
    requires t < |ts| && ts[t].Live() && LeaseOk(l, ts[t].lease, ts, ds, Rest)
    ensures ts[t].size <= l.response
    ensures LeaseOk(RolledBack(l, ts[t]), ts[t].lease, ts[t := ts[t].(released := true)], ds, Leaving(ts[t].lease))
  {
    var x := ts[t];
    var x' := x.(released := true);
    var ts' := ts[t := x'];
    LiveBounds(ts, t);
    CountsNonNegative(ts, ds, x.lease);
    var l' := RolledBack(l, x);
    TempUpdateAt(ts, t, x', x.lease, None);
    TempUpdateAt(ts, t, x', x.lease, Some(x.key));
    forall m | m != x.key ensures SameAt(l, l', x.lease, ts, ts', m) {
      TempUpdateAt(ts, t, x', x.lease, Some(m));
    }
    assert BalancedAt(l, x.lease, ts, x.key);
    CyclesStep(l, l', x.lease, ts, ts', x.key);
  }

  /** Changing anything but the response side of a lease keeps its records. */
  lemma SameRecords(l: Lease, l': Lease, i: nat, ts: seq<Temp>)
    requires CyclesOk(l, i, ts) && l'.cycles == l.cycles && l'.allocations == l.allocations
    ensures CyclesOk(l', i, ts)
  {
    forall k: Key ensures BalancedAt(l', i, ts, k) { assert BalancedAt(l, i, ts, k); }
  }

  // ----- steps on response bytes, owners and records -----

  lemma RecordRejectionOk(c: Config, b: Books, i: nat, k: Key, additional: nat)
    requires Inv(c, b) && i < |b.leases|
    ensures Inv(c, RecordRejection(b, i, k, additional))
  {
    RejectedOk(b.leases[i], i, b.temps, b.deferrals, k, additional);
    Touched(c, b, RecordRejection(b, i, k, additional), i, Rest, Rest);
  }

  lemma BeginAttemptOk(c: Config, b: Books, i: nat, k: Key)
    requires Inv(c, b) && i < |b.leases|
    ensures Inv(c, BeginAttempt(b, i, k))
  {
    var b' := BeginAttempt(b, i, k);
    var l := b.leases[i];
    if !l.releaseRequested {
      assert LeaseOk(l, i, b.temps, b.deferrals, Rest);
      assert BalancedAt(l, i, b.temps, k);
      CyclesStep(l, b'.leases[i], i, b.temps, b.temps, k);
      Touched(c, b, b', i, Rest, Rest);
    }
  }

  lemma EndAttemptOk(c: Config, b: Books, i: nat)
    requires Inv(c, b) && i < |b.leases|
    ensures Inv(c, EndAttempt(b, i))
  {
    SameRecords(b.leases[i], EndAttempt(b, i).leases[i], i, b.temps);
    Touched(c, b, EndAttempt(b, i), i, Rest, Rest);
  }

  lemma RequestReleaseOk(c: Config, b: Books, i: nat)
    requires Inv(c, b) && i < |b.leases|
    ensures Inv(c, RequestRelease(b, i))
  {
    SameRecords(b.leases[i], RequestRelease(b, i).leases[i], i, b.temps);
    Touched(c, b, RequestRelease(b, i), i, Rest, Rest);
  }

  lemma ReserveDirectOk(c: Config, b: Books, i: nat, additional: nat)
    requires Inv(c, b) && i < |b.leases| && !b.leases[i].releaseRequested
    requires ResponseRefusal(c, b, i, additional) == None
    ensures Inv(c, ReserveDirect(b, i, additional))
  {
    DirectedOk(b.leases[i], i, b.temps, b.deferrals, additional);
    Touched(c, b, ReserveDirect(b, i, additional), i, Rest, Rest);
  }

  lemma ActivateTempOk(c: Config, b: Books, i: nat, additional: nat)
    requires Inv(c, b) && i < |b.leases| && !b.leases[i].releaseRequested
    requires ResponseRefusal(c, b, i, additional) == None
    ensures Inv(c, ActivateTemp(b, i, additional))
    ensures var r := ActivateTemp(b, i, additional);
            && r.leases[i].owners == b.leases[i].owners + 1
            && |r.temps| == |b.temps| + 1 && r.temps[|b.temps|].Live() && r.temps[|b.temps|].lease == i
            && r.temps[|b.temps|].size == additional && r.response == b.response + additional
  {
    ActivatedOk(b.leases[i], i, b.temps, b.deferrals, additional);
    TempAppend(b.temps, Temp(i, CurrentKey(b.leases[i]), additional, false, false));
    Touched(c, b, ActivateTemp(b, i, additional), i, Rest, Rest);
  }

  lemma GrowTempOk(c: Config, b: Books, t: nat, additional: nat)
    requires Inv(c, b) && t < |b.temps| && b.temps[t].Live()
    requires ResponseRefusal(c, b, b.temps[t].lease, additional) == None
    ensures Inv(c, GrowTemp(b, t, additional))
  {
    var x := b.temps[t];
    GrownOk(b.leases[x.lease], b.temps, t, b.deferrals, additional);
    OtherLeasesSame(b, GrowTemp(b, t, additional), t, x.(size := x.size + additional));
    Touched(c, b, GrowTemp(b, t, additional), x.lease, Rest, Rest);
  }

  lemma BeforeCommitEndsOk(c: Config, b: Books, t: nat)
    requires Inv(c, b) && t < |b.temps| && b.temps[t].Live()
    ensures Accounts(c, BeforeCommitEnds(b, t), Leaving(b.temps[t].lease))
    ensures SlotsExcept(c, BeforeCommitEnds(b, t), None)
  {
    var x := b.temps[t];
    CommittedOk(b.leases[x.lease], b.temps, t, b.deferrals);
    OtherLeasesSame(b, BeforeCommitEnds(b, t), t, x.(committed := true));
    Touched(c, b, BeforeCommitEnds(b, t), x.lease, Rest, Leaving(x.lease));
  }

  lemma LiveWithinTotals(b: Books, t: nat)
    requires Refs(b) && Conserved(b) && LeasesOk(b, Rest) && t < |b.temps| && b.temps[t].Live()
    ensures b.temps[t].size <= b.leases[b.temps[t].lease].response <= b.response
  {
    var i := b.temps[t].lease;
    assert LeaseOk(b.leases[i], i, b.temps, b.deferrals, Rest);
    LiveBounds(b.temps, t);
    LeaseTotals(b.leases, i, b.leases[i]);
  }

  lemma BeforeReleaseEndsOk(c: Config, b: Books, t: nat)
    requires Inv(c, b) && t < |b.temps| && b.temps[t].Live()
    ensures b.temps[t].size <= b.leases[b.temps[t].lease].response && b.temps[t].size <= b.response
    ensures Accounts(c, BeforeReleaseEnds(b, t), Leaving(b.temps[t].lease))
    ensures SlotsExcept(c, BeforeReleaseEnds(b, t), None)
  {
    var x := b.temps[t];
    LiveWithinTotals(b, t);
    RolledBackOk(b.leases[x.lease], b.temps, t, b.deferrals);
    OtherLeasesSame(b, BeforeReleaseEnds(b, t), t, x.(released := true));
    Touched(c, b, BeforeReleaseEnds(b, t), x.lease, Rest, Leaving(x.lease));
  }

  lemma DeferOk(c: Config, b: Books, i: nat)
    requires Inv(c, b) && i < |b.leases|
    ensures Defer(b, i).Done? ==>
              var r := Defer(b, i).books;
              && Inv(c, r) && |r.leases| == |b.leases| && r.leases[i].owners == b.leases[i].owners + 1
              && |r.deferrals| == |b.deferrals| + 1 && r.deferrals[|b.deferrals|] == Deferral(i, false)
    ensures !Defer(b, i).Broken? && (Defer(b, i).Refused? <==> b.leases[i].releaseRequested)
  {
    if Defer(b, i).Done? {
      var b' := Defer(b, i).books;
      SameRecords(b.leases[i], b'.leases[i], i, b.temps);
      DeferralAppend(b.deferrals, i);
      Touched(c, b, b', i, Rest, Rest);
    }
  }

  lemma BeforeDeferralEndsOk(c: Config, b: Books, d: nat)
    requires Inv(c, b) && d < |b.deferrals| && !b.deferrals[d].released
    ensures var b' := b.(deferrals := b.deferrals[d := b.deferrals[d].(released := true)]);
            Accounts(c, b', Leaving(b.deferrals[d].lease)) && SlotsExcept(c, b', None)
  {
    var x := b.deferrals[d];
    var b' := b.(deferrals := b.deferrals[d := x.(released := true)]);
    DeferralUpdate(b.deferrals, d, x.(released := true));
    SameRecords(b.leases[x.lease], b'.leases[x.lease], x.lease, b.temps);
    assert b.leases[x.lease := b'.leases[x.lease]] == b.leases;
    Touched(c, b, b', x.lease, Rest, Leaving(x.lease));
  }
}
