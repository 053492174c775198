/** What every reachable state of the ledger satisfies, facet by facet. */
module LedgerInvariant {
  import opened Common
  import opened Ledger

  // ----- totals -----

  function Bodies(ls: seq<Lease>): seq<int> { seq(|ls|, i requires 0 <= i < |ls| => ls[i].body) }

  function Responses(ls: seq<Lease>): seq<int> { seq(|ls|, i requires 0 <= i < |ls| => ls[i].response) }

  function PendingBytes(ps: seq<Pending>): seq<int> { seq(|ps|, i requires 0 <= i < |ps| => ps[i].bytes) }

  predicate Selects(x: Temp, i: nat, only: Option<Key>) {
    x.Live() && x.lease == i && (only.None? || only.value == x.key)
  }

  function Sizes(ts: seq<Temp>, i: nat, only: Option<Key>): seq<int> {
    seq(|ts|, t requires 0 <= t < |ts| => if Selects(ts[t], i, only) then ts[t].size else 0)
  }

  function Units(ts: seq<Temp>, i: nat, only: Option<Key>): seq<int> {
    seq(|ts|, t requires 0 <= t < |ts| => if Selects(ts[t], i, only) then 1 else 0)
  }

  /** Bytes in live temporaries of a lease, of one attempt or of all. */
  function LiveBytes(ts: seq<Temp>, i: nat, only: Option<Key>): int { Total(Sizes(ts, i, only)) }

  function LiveCount(ts: seq<Temp>, i: nat, only: Option<Key>): int { Total(Units(ts, i, only)) }

  function Deferrals(ds: seq<Deferral>, i: nat): seq<int> {
    seq(|ds|, d requires 0 <= d < |ds| => if ds[d].lease == i && !ds[d].released then 1 else 0)
  }

  function DeferralCount(ds: seq<Deferral>, i: nat): int { Total(Deferrals(ds, i)) }

  // ----- facets -----

  /** Where an operation stands between its steps: one owner of a lease is leaving, or its finalization is due. */
  datatype Stage = Rest | Leaving(lease: nat) | Due(lease: nat)

  /** An attempt's record against the temporaries and allocations it still has. */
  predicate Balanced(y: Lifecycle, liveCount: int, liveBytes: int, entries: int) {
    && y.started == y.commits + y.rollbacks + liveCount
    && y.requested == y.committed + y.rolledBack + y.rejectedBytes + liveBytes
    && y.committed == y.released + entries
  }

  /** Everything started has ended and everything committed has been released. */
  predicate Settled(y: Lifecycle) { Balanced(y, 0, 0, 0) }

  predicate OwnersOk(l: Lease, i: nat, ts: seq<Temp>, ds: seq<Deferral>, leaving: int) {
    && l.response == LiveBytes(ts, i, None) + AllocatedBytes(l.allocations, None)
    && l.owners == LiveCount(ts, i, None) + DeferralCount(ds, i) + leaving
  }

  predicate BalancedAt(l: Lease, i: nat, ts: seq<Temp>, k: Key) {
    Balanced(Cycle(l, k), LiveCount(ts, i, Some(k)), LiveBytes(ts, i, Some(k)), AllocatedBytes(l.allocations, Some(k)))
  }

  ghost predicate CyclesOk(l: Lease, i: nat, ts: seq<Temp>) { forall k: Key :: BalancedAt(l, i, ts, k) }

  predicate AllocationOk(x: Allocation, ts: seq<Temp>) {
    match x.id
    case Direct(k) => k == x.key
    case FromTemporary(t) => t < |ts| && ts[t].committed
    case Synthetic => false
  }

  predicate AllocationsOk(l: Lease, ts: seq<Temp>) {
    forall j :: 0 <= j < |l.allocations| ==> AllocationOk(l.allocations[j], ts)
  }

  /** A finalized lease owns nothing, and only a released lease without owners is finalized. */
  predicate FinalOk(l: Lease, due: bool) {
    && (l.finalized ==> l.releaseRequested && l.owners == 0 && l.body == 0 && l.response == 0 && l.allocations == [])
    && (l.releaseRan ==> l.releaseRequested)
    && (l.releaseRan && l.owners == 0 && !due ==> l.finalized)
    && (due ==> l.releaseRequested && l.owners == 0)
    && (forall k :: k in l.summaries ==> Settled(l.summaries[k]))
  }

  ghost predicate LeaseOk(l: Lease, i: nat, ts: seq<Temp>, ds: seq<Deferral>, s: Stage) {
    && OwnersOk(l, i, ts, ds, if s == Leaving(i) then 1 else 0)
    && CyclesOk(l, i, ts)
    && AllocationsOk(l, ts)
    && FinalOk(l, s == Due(i))
  }

  predicate Refs(b: Books) {
    && (forall t :: 0 <= t < |b.temps| ==> b.temps[t].lease < |b.leases|)
    && (forall d :: 0 <= d < |b.deferrals| ==> b.deferrals[d].lease < |b.leases|)
  }

  /** The three global counters are the sums over every owner object, live or not. */
  predicate Conserved(b: Books) {
    && b.pendingBody == Total(PendingBytes(b.pendings))
    && b.body == Total(Bodies(b.leases)) + b.pendingBody
    && b.response == Total(Responses(b.leases))
  }

  ghost predicate LeasesOk(b: Books, s: Stage) {
    forall i :: 0 <= i < |b.leases| ==> LeaseOk(b.leases[i], i, b.temps, b.deferrals, s)
  }

  /** Exactly the leases that were released but wait for their last owner are deferred. */
  predicate DeferredOk(b: Books, s: Stage) {
    && (forall i :: i in b.deferred ==> i < |b.leases|)
    && (forall i :: 0 <= i < |b.leases| ==>
          if s == Due(i) then i in b.deferred ==> !b.leases[i].finalized
          else i in b.deferred <==> b.leases[i].releaseRan && !b.leases[i].finalized)
  }

  predicate BudgetOk(c: Config, b: Books) {
    && b.body + b.response <= c.budget
    && (forall i :: 0 <= i < |b.leases| ==>
          b.leases[i].response <= c.maxResponse && (!b.leases[i].resourceOnly ==> b.leases[i].body <= c.maxBody))
    && (forall p :: 0 <= p < |b.pendings| ==> !b.pendings[p].resourceOnly ==> b.pendings[p].bytes <= c.maxBody)
  }

  ghost predicate Accounts(c: Config, b: Books, s: Stage) {
    Refs(b) && Conserved(b) && LeasesOk(b, s) && DeferredOk(b, s) && BudgetOk(c, b)
  }

  /** An owner's slot, claim and holder record agree; the bytes of `but` are in flux. */
  predicate OwnerSlotOk(c: Config, b: Books, o: Owner, but: Option<Owner>)
    requires Known(b, o)
  {
    && (HasSlot(b, o) <==> Claim(b, o).Some?)
    && (HasSlot(b, o) ==>
          && Claim(b, o).value in b.holders
          && b.holders[Claim(b, o).value].owner == o
          && (but != Some(o) ==> b.holders[Claim(b, o).value].bytes == Bytes(b, o)))
    && (but != Some(o) && c.largeLimit != 0 && Bytes(b, o) > c.largeThreshold ==> HasSlot(b, o))
    && (but != Some(o) && HasSlot(b, o) ==> Bytes(b, o) > 0)
  }

  /** A holder record points back at an owner with that claim. */
  predicate HolderOk(b: Books, id: nat)
    requires id in b.holders
  {
    id < b.claims && Known(b, b.holders[id].owner) && Claim(b, b.holders[id].owner) == Some(id)
  }

  /** Claims and holder records are in bijection, and never more than the limit. */
  ghost predicate SlotsExcept(c: Config, b: Books, but: Option<Owner>) {
    && |b.holders| <= c.largeLimit
    && (forall id :: id in b.holders ==> HolderOk(b, id))
    && (forall o :: Known(b, o) ==> OwnerSlotOk(c, b, o, but))
  }

  ghost predicate Inv(c: Config, b: Books) { Accounts(c, b, Rest) && SlotsExcept(c, b, None) }

  // ----- totals under updates -----

  lemma LeaseTotals(ls: seq<Lease>, i: nat, l: Lease)
    requires i < |ls|
    ensures Total(Bodies(ls[i := l])) == Total(Bodies(ls)) - ls[i].body + l.body
    ensures Total(Responses(ls[i := l])) == Total(Responses(ls)) - ls[i].response + l.response
    ensures ls[i].body <= Total(Bodies(ls)) && ls[i].response <= Total(Responses(ls))
  {
    assert Bodies(ls[i := l]) == Bodies(ls)[i := l.body];
    assert Responses(ls[i := l]) == Responses(ls)[i := l.response];
    TotalUpdate(Bodies(ls), i, l.body);
    TotalUpdate(Responses(ls), i, l.response);
    TotalBounds(Bodies(ls), i);
    TotalBounds(Responses(ls), i);
  }

  lemma PendingTotals(ps: seq<Pending>, p: nat, x: Pending)
    requires p < |ps|
    ensures Total(PendingBytes(ps[p := x])) == Total(PendingBytes(ps)) - ps[p].bytes + x.bytes
    ensures ps[p].bytes <= Total(PendingBytes(ps))
  {
    assert PendingBytes(ps[p := x]) == PendingBytes(ps)[p := x.bytes];
    TotalUpdate(PendingBytes(ps), p, x.bytes);
    TotalBounds(PendingBytes(ps), p);
  }

  function SizeOf(x: Temp, i: nat, only: Option<Key>): int { if Selects(x, i, only) then x.size else 0 }

  function UnitOf(x: Temp, i: nat, only: Option<Key>): int { if Selects(x, i, only) then 1 else 0 }

  lemma TempUpdateAt(ts: seq<Temp>, t: nat, x: Temp, i: nat, only: Option<Key>)
    requires t < |ts|
    ensures LiveBytes(ts[t := x], i, only) == LiveBytes(ts, i, only) - SizeOf(ts[t], i, only) + SizeOf(x, i, only)
    ensures LiveCount(ts[t := x], i, only) == LiveCount(ts, i, only) - UnitOf(ts[t], i, only) + UnitOf(x, i, only)
  {
    assert Sizes(ts[t := x], i, only) == Sizes(ts, i, only)[t := SizeOf(x, i, only)];
    assert Units(ts[t := x], i, only) == Units(ts, i, only)[t := UnitOf(x, i, only)];
    TotalUpdate(Sizes(ts, i, only), t, SizeOf(x, i, only));
    TotalUpdate(Units(ts, i, only), t, UnitOf(x, i, only));
  }

  /** Changing one temporary changes only the totals that select it. */
  lemma TempUpdate(ts: seq<Temp>, t: nat, x: Temp)
    requires t < |ts|
    ensures forall i, only ::
              LiveBytes(ts[t := x], i, only) == LiveBytes(ts, i, only) - SizeOf(ts[t], i, only) + SizeOf(x, i, only)
    ensures forall i, only ::
              LiveCount(ts[t := x], i, only) == LiveCount(ts, i, only) - UnitOf(ts[t], i, only) + UnitOf(x, i, only)
  {
    forall i: nat, only: Option<Key>
      ensures LiveBytes(ts[t := x], i, only) == LiveBytes(ts, i, only) - SizeOf(ts[t], i, only) + SizeOf(x, i, only)
      ensures LiveCount(ts[t := x], i, only) == LiveCount(ts, i, only) - UnitOf(ts[t], i, only) + UnitOf(x, i, only)
    {
      TempUpdateAt(ts, t, x, i, only);
    }
  }

  lemma TempAppend(ts: seq<Temp>, x: Temp)
    ensures forall i, only :: LiveBytes(ts + [x], i, only) == LiveBytes(ts, i, only) + SizeOf(x, i, only)
    ensures forall i, only :: LiveCount(ts + [x], i, only) == LiveCount(ts, i, only) + UnitOf(x, i, only)
  {
    forall i: nat, only: Option<Key>
      ensures LiveBytes(ts + [x], i, only) == LiveBytes(ts, i, only) + SizeOf(x, i, only)
      ensures LiveCount(ts + [x], i, only) == LiveCount(ts, i, only) + UnitOf(x, i, only)
    {
      assert Sizes(ts + [x], i, only) == Sizes(ts, i, only) + [SizeOf(x, i, only)];
      assert Units(ts + [x], i, only) == Units(ts, i, only) + [UnitOf(x, i, only)];
      TotalAppend(Sizes(ts, i, only), SizeOf(x, i, only));
      TotalAppend(Units(ts, i, only), UnitOf(x, i, only));
    }
  }

  /** A live temporary is within its lease's totals. */
  lemma LiveBounds(ts: seq<Temp>, t: nat)
    requires t < |ts| && ts[t].Live()
    ensures ts[t].size <= LiveBytes(ts, ts[t].lease, None)
    ensures 1 <= LiveCount(ts, ts[t].lease, None)
  {
    TotalBounds(Sizes(ts, ts[t].lease, None), t);
    TotalBounds(Units(ts, ts[t].lease, None), t);
  }

  lemma CountsNonNegative(ts: seq<Temp>, ds: seq<Deferral>, i: nat)
    ensures LiveCount(ts, i, None) >= 0 && DeferralCount(ds, i) >= 0
  {
    TotalNonNegative(Units(ts, i, None));
    TotalNonNegative(Deferrals(ds, i));
  }

  /** Without a live temporary, a lease has none under any attempt. */
  lemma NoneLive(ts: seq<Temp>, i: nat)
    requires LiveCount(ts, i, None) == 0
    ensures forall only :: LiveBytes(ts, i, only) == 0 && LiveCount(ts, i, only) == 0
  {
    forall t | 0 <= t < |ts| ensures !(ts[t].Live() && ts[t].lease == i) {
      TotalBounds(Units(ts, i, None), t);
    }
    forall only: Option<Key> ensures LiveBytes(ts, i, only) == 0 && LiveCount(ts, i, only) == 0 {
      TotalZero(Sizes(ts, i, only));
      TotalZero(Units(ts, i, only));
    }
  }

  lemma NoTempsYet(ts: seq<Temp>, ds: seq<Deferral>, i: nat)
    requires forall t :: 0 <= t < |ts| ==> ts[t].lease != i
    requires forall d :: 0 <= d < |ds| ==> ds[d].lease != i
    ensures forall only :: LiveBytes(ts, i, only) == 0 && LiveCount(ts, i, only) == 0
    ensures DeferralCount(ds, i) == 0
  {
    TotalZero(Units(ts, i, None));
    NoneLive(ts, i);
    TotalZero(Deferrals(ds, i));
  }

  lemma DeferralUpdate(ds: seq<Deferral>, d: nat, x: Deferral)
    requires d < |ds| && !ds[d].released && x == ds[d].(released := true)
    ensures forall i :: DeferralCount(ds[d := x], i) == DeferralCount(ds, i) - if ds[d].lease == i then 1 else 0
  {
    forall i: nat
      ensures DeferralCount(ds[d := x], i) == DeferralCount(ds, i) - if ds[d].lease == i then 1 else 0
    {
      assert Deferrals(ds[d := x], i) == Deferrals(ds, i)[d := 0];
      TotalUpdate(Deferrals(ds, i), d, 0);
    }
  }

  lemma DeferralAppend(ds: seq<Deferral>, i: nat)
    ensures forall j :: DeferralCount(ds + [Deferral(i, false)], j) == DeferralCount(ds, j) + if i == j then 1 else 0
  {
    forall j: nat
      ensures DeferralCount(ds + [Deferral(i, false)], j) == DeferralCount(ds, j) + if i == j then 1 else 0
    {
      var unit := if i == j then 1 else 0;
      assert Deferrals(ds + [Deferral(i, false)], j) == Deferrals(ds, j) + [unit];
      TotalAppend(Deferrals(ds, j), unit);
    }
  }

  lemma {:induction false} AllocationUpdate(a: seq<Allocation>, j: nat, x: Allocation, only: Option<Key>)
    requires j < |a| && a[j].key == x.key
    ensures AllocatedBytes(a[j := x], only)
         == AllocatedBytes(a, only) + if only.None? || only.value == x.key then x.bytes - a[j].bytes else 0
  {
    var n := |a| - 1;
    if j == n {
      assert a[j := x][..n] == a[..n];
    } else {
      assert a[j := x][..n] == a[..n][j := x];
      AllocationUpdate(a[..n], j, x, only);
    }
  }

  /** Assigning a ledger entry adds its new bytes and drops its old ones. */
  lemma PutBytes(a: seq<Allocation>, x: Allocation, only: Option<Key>)
    requires IndexOf(a, x.id) < |a| ==> a[IndexOf(a, x.id)].key == x.key
    ensures AllocatedBytes(PutAllocation(a, x), only) == AllocatedBytes(a, only)
              + if only.None? || only.value == x.key then x.bytes - EntryBytes(a, x.id) else 0
  {
    if IndexOf(a, x.id) < |a| {
      AllocationUpdate(a, IndexOf(a, x.id), x, only);
    } else {
      assert (a + [x])[..|a|] == a;
    }
  }

  /** Releasing every allocation credits each attempt with exactly its own. */
  lemma {:induction false} ReleasedCycleAt(l: Lease, a: seq<Allocation>, k: Key)
    ensures var after := ReleasedCycles(l.cycles, a);
            var y := if k in after then after[k] else BLANK;
            && y.released == Cycle(l, k).released + AllocatedBytes(a, Some(k))
            && y == Cycle(l, k).(released := y.released, releases := y.releases)
  {
    if a != [] { ReleasedCycleAt(l, a[..|a| - 1], k); }
  }
}
