/** What no step of the ledger ever undoes. */
module LedgerProgress {
  import opened Common
  import opened Ledger

  predicate LeaseContinues(l: Lease, m: Lease) {
    (l.releaseRequested ==> m.releaseRequested) && (l.finalized ==> m.finalized)
  }

  /** Objects stay known, a closed temporary or deferral stays as it is, a finalized lease stays finalized. */
  predicate Continues(b: Books, r: Books) {
    && |b.leases| <= |r.leases| && |b.pendings| <= |r.pendings|
    && |b.temps| <= |r.temps| && |b.deferrals| <= |r.deferrals|
    && (forall i :: 0 <= i < |b.leases| ==> LeaseContinues(b.leases[i], r.leases[i]))
    && (forall t :: 0 <= t < |b.temps| ==>
          && r.temps[t].lease == b.temps[t].lease && r.temps[t].key == b.temps[t].key
          && (!b.temps[t].Live() ==> r.temps[t] == b.temps[t]))
    && (forall d :: 0 <= d < |b.deferrals| ==> b.deferrals[d].released ==> r.deferrals[d] == b.deferrals[d])
  }

  lemma ContinuesTransitive(a: Books, b: Books, r: Books)
    requires Continues(a, b) && Continues(b, r)
    ensures Continues(a, r)
  {
    forall i | 0 <= i < |a.leases| ensures LeaseContinues(a.leases[i], r.leases[i]) {
      assert LeaseContinues(a.leases[i], b.leases[i]) && LeaseContinues(b.leases[i], r.leases[i]);
    }
  }

  predicate ReplyContinues(b: Books, r: Reply) { r.Done? ==> Continues(b, r.books) }

  lemma ClaimContinues(c: Config, b: Books, o: Owner, bytes: nat)
    requires Known(b, o)
    ensures ReplyContinues(b, ClaimSlot(c, b, o, bytes))
  {
  }

  lemma HolderContinues(b: Books, o: Owner, bytes: nat)
    requires Known(b, o)
    ensures ReplyContinues(b, UpdateHolder(b, o, bytes))
    ensures ReplyContinues(b, ReleaseSlot(b, o))
  {
  }

  lemma ClaimKeepsOwner(c: Config, b: Books, o: Owner)
    requires Known(b, o) && ClaimSlot(c, b, o, Bytes(b, o)).Done?
    ensures Known(ClaimSlot(c, b, o, Bytes(b, o)).books, o)
  {
  }

  lemma SettleContinues(c: Config, b: Books, o: Owner)
    requires Known(b, o)
    ensures ReplyContinues(b, Settle(c, b, o))
  {
    hide ClaimSlot, UpdateHolder, LeaseContinues;
    ClaimContinues(c, b, o, Bytes(b, o));
    if ClaimSlot(c, b, o, Bytes(b, o)).Done? {
      ClaimKeepsOwner(c, b, o);
      var claimed := ClaimSlot(c, b, o, Bytes(b, o)).books;
      HolderContinues(claimed, o, Bytes(b, o));
      if UpdateHolder(claimed, o, Bytes(b, o)).Done? {
        ContinuesTransitive(b, claimed, UpdateHolder(claimed, o, Bytes(b, o)).books);
      }
    }
  }

  lemma CommitGrowthContinues(c: Config, b: Books, o: Owner, additional: nat)
    requires Known(b, o)
    ensures ReplyContinues(b, CommitGrowth(c, b, o, additional))
  {
    hide Settle;
    var g := GrownBooks(b, o, additional);
    SettleContinues(c, g, o);
    assert Continues(b, g);
    if Settle(c, g, o).Done? { ContinuesTransitive(b, g, Settle(c, g, o).books); }
  }

  lemma MovedContinues(b: Books, p: nat, i: nat)
    requires p < |b.pendings| && i < |b.leases| && b.pendings[p].bytes <= b.pendingBody
    requires b.pendings[p].slot ==> b.pendings[p].claim.Some?
    ensures Continues(b, MovedBooks(b, p, i))
  {
  }

  lemma TransferContinues(c: Config, b: Books, p: nat, i: nat)
    requires p < |b.pendings| && i < |b.leases|
    ensures ReplyContinues(b, Transfer(c, b, p, i))
  {
    hide Settle, MovedBooks, Continues;
    if Transfer(c, b, p, i).Done? {
      MovedContinues(b, p, i);
      var m := MovedBooks(b, p, i);
      MovedKnows(b, p, i);
      SettleContinues(c, m, OfLease(i));
      ContinuesTransitive(b, m, Transfer(c, b, p, i).books);
    }
  }

  lemma MovedKnows(b: Books, p: nat, i: nat)
    requires p < |b.pendings| && i < |b.leases| && b.pendings[p].bytes <= b.pendingBody
    requires b.pendings[p].slot ==> b.pendings[p].claim.Some?
    ensures Known(MovedBooks(b, p, i), OfLease(i))
  {
  }

  lemma ReleasePendingContinues(b: Books, p: nat)
    requires p < |b.pendings|
    ensures ReplyContinues(b, ReleasePending(b, p))
  {
    hide ReleaseSlot;
    if b.pendings[p].bytes <= b.pendingBody && b.pendings[p].bytes <= b.body {
      var d := DrainedPending(b, p);
      assert Continues(b, d);
      HolderContinues(d, OfPending(p), 0);
      if ReleaseSlot(d, OfPending(p)).Done? { ContinuesTransitive(b, d, ReleaseSlot(d, OfPending(p)).books); }
    }
  }

  lemma ReleaseStagedContinues(b: Books, i: nat, bytes: nat)
    requires i < |b.leases|
    ensures ReplyContinues(b, ReleaseStaged(b, i, bytes))
  {
    hide ReleaseSlot, UpdateHolder;
    var r := ReleaseStaged(b, i, bytes);
    if bytes <= b.leases[i].body && bytes <= b.body {
      var s := ShrunkBooks(b, i, bytes);
      assert Continues(b, s);
      HolderContinues(s, OfLease(i), b.leases[i].body - bytes);
      if r.Done? && r.books != b { ContinuesTransitive(b, s, r.books); }
    }
  }

  lemma EmptiedContinues(b: Books, i: nat)
    requires i < |b.leases| && b.leases[i].body <= b.body && b.leases[i].response <= b.response
    ensures Continues(b, Emptied(b, i)) && i < |Emptied(b, i).leases| && Emptied(b, i).leases[i].finalized
  {
    hide ReleasedCycles, FinalAllocations;
  }

  lemma FinalizeContinues(b: Books, i: nat)
    requires i < |b.leases|
    ensures ReplyContinues(b, Finalize(b, i))
    ensures Finalize(b, i).Done? ==> i < |Finalize(b, i).books.leases| && Finalize(b, i).books.leases[i].finalized
  {
    hide Emptied, AllocatedBytes, ReleaseSlot;
    if !b.leases[i].finalized && Finalize(b, i).Done? {
      EmptiedContinues(b, i);
      var e := Emptied(b, i);
      HolderContinues(e, OfLease(i), 0);
      ContinuesTransitive(b, e, Finalize(b, i).books);
      assert LeaseContinues(e.leases[i], Finalize(b, i).books.leases[i]);
    }
  }

  lemma FinishOwnerContinues(b: Books, i: nat)
    requires i < |b.leases|
    ensures ReplyContinues(b, FinishOwner(b, i))
  {
    hide Finalize;
    var left := SetLease(b, i, b.leases[i].(owners := b.leases[i].owners - 1));
    assert Continues(b, left);
    FinalizeContinues(left, i);
    if Finalize(left, i).Done? { ContinuesTransitive(b, left, Finalize(left, i).books); }
  }

  lemma EndingContinues(b: Books, e: Books, i: nat)
    requires Continues(b, e) && i < |e.leases|
    ensures ReplyContinues(b, FinishOwner(e, i))
  {
    hide FinishOwner, Continues;
    FinishOwnerContinues(e, i);
    if FinishOwner(e, i).Done? { ContinuesTransitive(b, e, FinishOwner(e, i).books); }
  }

  lemma TempsContinue(b: Books, t: nat)
    requires t < |b.temps| && b.temps[t].lease < |b.leases|
    ensures ReplyContinues(b, CommitTemp(b, t)) && ReplyContinues(b, ReleaseTemp(b, t))
  {
    hide FinishOwner;
    if b.temps[t].Live() {
      EndingContinues(b, BeforeCommitEnds(b, t), b.temps[t].lease);
      if b.temps[t].size <= b.leases[b.temps[t].lease].response && b.temps[t].size <= b.response {
        EndingContinues(b, BeforeReleaseEnds(b, t), b.temps[t].lease);
      }
    }
  }

  lemma ReleaseDeferralContinues(b: Books, d: nat)
    requires d < |b.deferrals| && b.deferrals[d].lease < |b.leases|
    ensures ReplyContinues(b, ReleaseDeferral(b, d))
  {
    hide FinishOwner;
    if !b.deferrals[d].released {
      EndingContinues(b, b.(deferrals := b.deferrals[d := b.deferrals[d].(released := true)]), b.deferrals[d].lease);
    }
  }

  lemma RunReleaseContinues(b: Books, i: nat)
    requires i < |b.leases|
    ensures ReplyContinues(b, RunRelease(b, i))
  {
    hide Finalize;
    var ran := SetLease(b, i, b.leases[i].(releaseRan := true));
    assert Continues(b, ran);
    FinalizeContinues(ran, i);
    if Finalize(ran, i).Done? { ContinuesTransitive(b, ran, Finalize(ran, i).books); }
  }

  /** Steps that only open, mark or charge something. */
  lemma MarksContinue(b: Books, i: nat, k: Key, additional: nat)
    requires i < |b.leases|
    ensures Continues(b, RequestRelease(b, i)) && Continues(b, BeginAttempt(b, i, k)) && Continues(b, EndAttempt(b, i))
    ensures ReplyContinues(b, Defer(b, i))
    ensures Continues(b, RecordRejection(b, i, k, additional))
  {
  }

  lemma OpensContinue(b: Books, resourceOnly: bool)
    ensures Continues(b, AddLease(b, resourceOnly)) && Continues(b, AddPending(b, resourceOnly))
  {
  }

  lemma MarkPendingContinues(b: Books, p: nat)
    requires p < |b.pendings|
    ensures Continues(b, MarkPendingReleased(b, p))
  {
  }

  lemma ResponsesContinue(b: Books, i: nat, additional: nat)
    requires i < |b.leases|
    ensures Continues(b, ReserveDirect(b, i, additional)) && Continues(b, ActivateTemp(b, i, additional))
  {
  }

  lemma GrowTempContinues(b: Books, t: nat, additional: nat)
    requires t < |b.temps| && b.temps[t].lease < |b.leases| && b.temps[t].Live()
    ensures Continues(b, GrowTemp(b, t, additional))
  {
  }
}
