/** Which owners a step of the system leaves alone. */
module StepFrames {
  import opened Common
  import opened Ledger
  import opened System
  import G = Governor
  import Q = FairQueue

  /**
   Every owner but those in `but` has exactly the bytes it had, no lease but those in `grown`
   retains more than before, and a new owner has nothing.
   */
  predicate Kept(b: Books, r: Books, but: set<Owner>, grown: set<Owner>) {
    && |b.pendings| <= |r.pendings| && |b.leases| <= |r.leases|
    && (forall p :: 0 <= p < |b.pendings| ==> PendingKept(b.pendings[p], r.pendings[p], OfPending(p) in but))
    && (forall i :: 0 <= i < |b.leases| ==> LeaseKept(b.leases[i], r.leases[i], OfLease(i) in but, OfLease(i) in grown))
    && (forall p :: |b.pendings| <= p < |r.pendings| ==> r.pendings[p].bytes == 0)
    && (forall i :: |b.leases| <= i < |r.leases| ==> r.leases[i].body + r.leases[i].response == 0)
  }

  /** A flag once raised stays up. */
  predicate PendingKept(x: Pending, y: Pending, acted: bool) {
    (acted || y.bytes == x.bytes) && (x.released ==> y.released) && (x.transferred ==> y.transferred)
  }

  predicate LeaseKept(l: Lease, m: Lease, acted: bool, grown: bool) {
    && m.resourceOnly == l.resourceOnly
    && (acted || (m.body == l.body && m.response == l.response))
    && (grown || m.body + m.response <= l.body + l.response)
  }

  predicate ReplyKept(b: Books, r: Reply, but: set<Owner>, grown: set<Owner>) {
    r.Done? ==> Kept(b, r.books, but, grown)
  }

  lemma KeptSame(b: Books, but: set<Owner>, grown: set<Owner>)
    ensures Kept(b, b, but, grown)
  {
  }

  lemma ClaimSlotKept(c: Config, b: Books, o: Owner, bytes: nat)
    requires Known(b, o)
    ensures ReplyKept(b, ClaimSlot(c, b, o, bytes), {}, {})
    ensures ClaimSlot(c, b, o, bytes).Done? ==> Known(ClaimSlot(c, b, o, bytes).books, o)
  {
  }

  lemma UpdateHolderKept(b: Books, o: Owner, bytes: nat)
    requires Known(b, o)
    ensures ReplyKept(b, UpdateHolder(b, o, bytes), {}, {})
  {
  }

  lemma ReleaseSlotKept(b: Books, o: Owner)
    requires Known(b, o)
    ensures ReplyKept(b, ReleaseSlot(b, o), {}, {})
  {
  }

  lemma SettleKept(c: Config, b: Books, o: Owner)
    requires Known(b, o)
    ensures ReplyKept(b, Settle(c, b, o), {}, {})
  {
    hide ClaimSlot, UpdateHolder;
    ClaimSlotKept(c, b, o, Bytes(b, o));
    if ClaimSlot(c, b, o, Bytes(b, o)).Done? {
      UpdateHolderKept(ClaimSlot(c, b, o, Bytes(b, o)).books, o, Bytes(b, o));
    }
  }

  lemma CommitGrowthKept(c: Config, b: Books, o: Owner, additional: nat)
    requires Known(b, o)
    ensures ReplyKept(b, CommitGrowth(c, b, o, additional), {o}, {o})
  {
    hide Settle;
    SettleKept(c, GrownBooks(b, o, additional), o);
  }

  lemma TransferKept(c: Config, b: Books, p: nat, i: nat)
    requires p < |b.pendings| && i < |b.leases|
    ensures ReplyKept(b, Transfer(c, b, p, i), {OfPending(p), OfLease(i)}, {OfLease(i)})
  {
    hide Settle;
    if b.pendings[p].bytes <= b.pendingBody && (b.pendings[p].slot ==> b.pendings[p].claim.Some?) {
      SettleKept(c, MovedBooks(b, p, i), OfLease(i));
    }
  }

  /** Two steps that act on the same leases and let none of them grow. */
  lemma KeptTransitive(a: Books, b: Books, r: Reply, but: set<Owner>)
    requires forall o :: o in but ==> o.OfLease?
    requires Kept(a, b, but, {}) && ReplyKept(b, r, but, {})
    ensures ReplyKept(a, r, but, {})
  {
    if r.Done? {
      forall p | 0 <= p < |a.pendings|
        ensures PendingKept(a.pendings[p], r.books.pendings[p], OfPending(p) in but)
      {
        assert PendingKept(a.pendings[p], b.pendings[p], OfPending(p) in but);
        assert PendingKept(b.pendings[p], r.books.pendings[p], OfPending(p) in but);
      }
      forall i | 0 <= i < |a.leases|
        ensures LeaseKept(a.leases[i], r.books.leases[i], OfLease(i) in but, false)
      {
        assert LeaseKept(a.leases[i], b.leases[i], OfLease(i) in but, false);
        assert LeaseKept(b.leases[i], r.books.leases[i], OfLease(i) in but, false);
      }
      forall i | |a.leases| <= i < |r.books.leases| ensures r.books.leases[i].body + r.books.leases[i].response == 0 {
        if i < |b.leases| { assert LeaseKept(b.leases[i], r.books.leases[i], OfLease(i) in but, false); }
      }
    }
  }

  lemma KeptWider(b: Books, r: Books, but: set<Owner>, grown: set<Owner>)
    requires Kept(b, r, {}, {})
    ensures Kept(b, r, but, grown)
  {
    forall p | 0 <= p < |b.pendings| ensures PendingKept(b.pendings[p], r.pendings[p], OfPending(p) in but) {
      assert PendingKept(b.pendings[p], r.pendings[p], false);
    }
    forall i | 0 <= i < |b.leases|
      ensures LeaseKept(b.leases[i], r.leases[i], OfLease(i) in but, OfLease(i) in grown)
    {
      assert LeaseKept(b.leases[i], r.leases[i], false, false);
    }
  }

  lemma SetLeaseKept(b: Books, i: nat, l: Lease)
    requires i < |b.leases| && l.resourceOnly == b.leases[i].resourceOnly
    requires l.body + l.response <= b.leases[i].body + b.leases[i].response
    ensures Kept(b, SetLease(b, i, l), {OfLease(i)}, {})
  {
  }

  lemma EmptiedKept(b: Books, i: nat)
    requires i < |b.leases| && b.leases[i].body <= b.body && b.leases[i].response <= b.response
    ensures Kept(b, Emptied(b, i), {OfLease(i)}, {}) && i < |Emptied(b, i).leases|
  {
    hide ReleasedCycles, FinalAllocations;
  }

  lemma FinalizeKept(b: Books, i: nat)
    requires i < |b.leases|
    ensures ReplyKept(b, Finalize(b, i), {OfLease(i)}, {})
  {
    hide ReleaseSlot, AllocatedBytes, Emptied, Kept;
    if b.leases[i].finalized {
      KeptSame(b, {OfLease(i)}, {});
    } else if b.leases[i].body <= b.body && b.leases[i].response <= b.response {
      EmptiedKept(b, i);
      SlotLeft(Emptied(b, i), OfLease(i), {OfLease(i)});
      KeptTransitive(b, Emptied(b, i), ReleaseSlot(Emptied(b, i), OfLease(i)), {OfLease(i)});
    }
  }

  lemma SlotLeft(b: Books, o: Owner, but: set<Owner>)
    requires Known(b, o)
    ensures ReplyKept(b, ReleaseSlot(b, o), but, {})
  {
    hide Kept, ReleaseSlot;
    ReleaseSlotKept(b, o);
    if ReleaseSlot(b, o).Done? { KeptWider(b, ReleaseSlot(b, o).books, but, {}); }
  }

  lemma HolderLeft(b: Books, o: Owner, bytes: nat, but: set<Owner>)
    requires Known(b, o)
    ensures ReplyKept(b, UpdateHolder(b, o, bytes), but, {})
  {
    hide Kept, UpdateHolder;
    UpdateHolderKept(b, o, bytes);
    if UpdateHolder(b, o, bytes).Done? { KeptWider(b, UpdateHolder(b, o, bytes).books, but, {}); }
  }

  lemma FinishOwnerKept(b: Books, i: nat)
    requires i < |b.leases|
    ensures ReplyKept(b, FinishOwner(b, i), {OfLease(i)}, {})
  {
    hide Finalize, Kept;
    var left := SetLease(b, i, b.leases[i].(owners := b.leases[i].owners - 1));
    SetLeaseKept(b, i, left.leases[i]);
    FinalizeKept(left, i);
    KeptTransitive(b, left, Finalize(left, i), {OfLease(i)});
  }

  /** An owner's last act on its lease's books, and its leaving. */
  lemma EndingKept(b: Books, e: Books, i: nat)
    requires Kept(b, e, {OfLease(i)}, {}) && i < |e.leases|
    ensures ReplyKept(b, FinishOwner(e, i), {OfLease(i)}, {})
  {
    hide Kept, FinishOwner;
    FinishOwnerKept(e, i);
    KeptTransitive(b, e, FinishOwner(e, i), {OfLease(i)});
  }

  lemma BeforeCommitKept(b: Books, t: nat)
    requires t < |b.temps| && b.temps[t].lease < |b.leases|
    ensures Kept(b, BeforeCommitEnds(b, t), {OfLease(b.temps[t].lease)}, {})
    ensures |BeforeCommitEnds(b, t).leases| == |b.leases|
  {
  }

  lemma BeforeReleaseKept(b: Books, t: nat)
    requires t < |b.temps| && b.temps[t].lease < |b.leases|
    requires b.temps[t].size <= b.leases[b.temps[t].lease].response && b.temps[t].size <= b.response
    ensures Kept(b, BeforeReleaseEnds(b, t), {OfLease(b.temps[t].lease)}, {})
    ensures |BeforeReleaseEnds(b, t).leases| == |b.leases|
  {
  }

  lemma TempsKept(b: Books, t: nat)
    requires t < |b.temps| && b.temps[t].lease < |b.leases|
    ensures ReplyKept(b, CommitTemp(b, t), {OfLease(b.temps[t].lease)}, {})
    ensures ReplyKept(b, ReleaseTemp(b, t), {OfLease(b.temps[t].lease)}, {})
  {
    hide FinishOwner, Kept, BeforeCommitEnds, BeforeReleaseEnds;
    var i := b.temps[t].lease;
    KeptSame(b, {OfLease(i)}, {});
    BeforeCommitKept(b, t);
    EndingKept(b, BeforeCommitEnds(b, t), i);
    if b.temps[t].size <= b.leases[i].response && b.temps[t].size <= b.response {
      BeforeReleaseKept(b, t);
      EndingKept(b, BeforeReleaseEnds(b, t), i);
    }
  }

  lemma DeferralKept(b: Books, d: nat)
    requires d < |b.deferrals| && b.deferrals[d].lease < |b.leases|
    ensures ReplyKept(b, ReleaseDeferral(b, d), {OfLease(b.deferrals[d].lease)}, {})
  {
    hide FinishOwner;
    EndingKept(b, b.(deferrals := b.deferrals[d := b.deferrals[d].(released := true)]), b.deferrals[d].lease);
  }

  lemma RunReleaseKept(b: Books, i: nat)
    requires i < |b.leases|
    ensures ReplyKept(b, RunRelease(b, i), {OfLease(i)}, {})
  {
    hide Finalize;
    var ran := SetLease(b, i, b.leases[i].(releaseRan := true));
    SetLeaseKept(b, i, ran.leases[i]);
    FinalizeKept(ran, i);
    KeptTransitive(b, ran, Finalize(ran, i), {OfLease(i)});
  }

  lemma ShrunkKept(b: Books, i: nat, bytes: nat)
    requires i < |b.leases| && bytes <= b.leases[i].body && bytes <= b.body
    ensures Kept(b, ShrunkBooks(b, i, bytes), {OfLease(i)}, {}) && i < |ShrunkBooks(b, i, bytes).leases|
  {
  }

  lemma ReleaseStagedKept(b: Books, i: nat, bytes: nat)
    requires i < |b.leases|
    ensures ReplyKept(b, ReleaseStaged(b, i, bytes), {OfLease(i)}, {})
  {
    hide ReleaseSlot, UpdateHolder, Kept, ShrunkBooks;
    KeptSame(b, {OfLease(i)}, {});
    if bytes <= b.leases[i].body && bytes <= b.body {
      var s := ShrunkBooks(b, i, bytes);
      ShrunkKept(b, i, bytes);
      HolderLeft(s, OfLease(i), b.leases[i].body - bytes, {OfLease(i)});
      SlotLeft(s, OfLease(i), {OfLease(i)});
      KeptTransitive(b, s, UpdateHolder(s, OfLease(i), b.leases[i].body - bytes), {OfLease(i)});
      KeptTransitive(b, s, ReleaseSlot(s, OfLease(i)), {OfLease(i)});
    }
  }

  lemma DropKept(b: Books, p: nat)
    requires p < |b.pendings|
    ensures ReplyKept(b, ReleasePending(b, p), {OfPending(p)}, {})
    ensures ReleasePending(b, p).Done? ==>
              p < |ReleasePending(b, p).books.pendings| && ReleasePending(b, p).books.pendings[p].bytes == 0
  {
  }

  /** The books after a step on behalf of an owner: untouched, or those of the committed growth. */
  predicate Commits(c: Config, b: Books, r: Books, o: Owner, additional: nat)
    requires Known(b, o)
  {
    r == b || CommitGrowth(c, b, o, additional) == Done(r)
  }

  /** Whether a round of a body reservation commits, decided before anything is changed. */
  ghost predicate Admits(c: Config, s: Sys, o: Owner, additional: nat, r: G.Reading)
    requires Known(s.books, o)
  {
    && HardRefusal(c, s.books, o, Bytes(s.books, o) + additional) == None
    && MustWait(c, s, o, additional) == None
    && AskParent(s, BODY, additional, r).1
  }

  /** A round either commits the growth or leaves the books alone. */
  lemma AskBooks(c: Config, s: Sys, o: Owner, additional: nat, r: G.Reading, tenant: string, expired: bool)
    requires Known(s.books, o) && Ask(c, s, o, additional, r, tenant, expired).Next?
    ensures var b := Ask(c, s, o, additional, r, tenant, expired).sys.books;
            if Admits(c, s, o, additional, r) then
              || CommitGrowth(c, s.books, o, additional) == Done(b)
              || (CommitGrowth(c, s.books, o, additional).Refused? && b == s.books)
            else b == s.books
  {
    hide CommitGrowth, HardRefusal, MustWait;
  }

  lemma AskCommits(c: Config, s: Sys, o: Owner, additional: nat, r: G.Reading, tenant: string, expired: bool)
    requires Known(s.books, o) && Ask(c, s, o, additional, r, tenant, expired).Next?
    ensures Commits(c, s.books, Ask(c, s, o, additional, r, tenant, expired).sys.books, o, additional)
  {
    hide Ask, CommitGrowth, Admits;
    AskBooks(c, s, o, additional, r, tenant, expired);
  }

  lemma ReturnParentBooks(s: Sys, k: G.Category, size: nat)
    ensures ReturnParent(s, k, size).Next? ==> ReturnParent(s, k, size).sys.books == s.books
  {
  }

  lemma TurnBooks(c: Config, s: Sys, w: nat, refusal: Option<Refusal>)
    requires w < |s.waits|
    ensures TurnGiveUp(s, w, refusal).Next? ==> TurnGiveUp(s, w, refusal).sys.books == s.books
    ensures Known(s.books, s.waits[w].owner) && TurnCommit(c, s, w).Next? ==>
              Commits(c, s.books, TurnCommit(c, s, w).sys.books, s.waits[w].owner, s.waits[w].additional)
  {
    hide CommitGrowth, GrowthRefusal, ReturnParent;
    var x := s.waits[w];
    ReturnParentBooks(s.(waits := s.waits[w := x.(reserved := false)]), BODY, if x.reserved then x.additional else 0);
    if Known(s.books, x.owner) && GrowthRefusal(c, s.books, x.owner, x.additional).Some? {
      var why := Some(GrowthRefusal(c, s.books, x.owner, x.additional).value);
      assert TurnGiveUp(s, w, why).Next? ==> TurnGiveUp(s, w, why).sys.books == s.books;
    }
  }

  lemma GiveBackBooks(s: Sys, r: Reply)
    ensures GiveBack(s, r).Next? ==> GiveBack(s, r).sys.books == if r.Done? then r.books else s.books
  {
    hide ReturnParent;
    if r.Done? {
      var t := s.(books := r.books);
      ReturnParentBooks(t, BODY, Drop(s.books.body, r.books.body));
      var u := ReturnParent(t, BODY, Drop(s.books.body, r.books.body));
      if u.Next? { ReturnParentBooks(u.sys, RESPONSE, Drop(s.books.response, r.books.response)); }
    }
  }

  // ----- whole steps -----

  /** The owners a step acts on. */
  function Acted(s: Sys, e: Event): set<Owner>
    requires Allowed(s, e)
  {
    match e
    case AskBody(o, _, _, _, _) => {o}
    case CommitUnderTurn(w) => {s.waits[w].owner}
    case TransferPending(p, i) => {OfPending(p), OfLease(i)}
    case DropPending(p) => {OfPending(p)}
    case AskDirect(i, _, _) => {OfLease(i)}
    case AskTemporary(i, _, _) => {OfLease(i)}
    case AskGrowth(t, _, _) => {OfLease(s.books.temps[t].lease)}
    case ReleaseBody(i, _) => {OfLease(i)}
    case CommitTemporary(t) => {OfLease(s.books.temps[t].lease)}
    case ReleaseTemporary(t) => {OfLease(s.books.temps[t].lease)}
    case EndDeferral(d) => {OfLease(s.books.deferrals[d].lease)}
    case RunLeaseRelease(i) => {OfLease(i)}
    case _ => {}
  }

  /** The leases that a step may let retain more. */
  function Growing(s: Sys, e: Event): set<Owner>
    requires Allowed(s, e)
  {
    match e
    case AskBody(o, _, _, _, _) => {o}
    case CommitUnderTurn(w) => {s.waits[w].owner}
    case TransferPending(_, i) => {OfLease(i)}
    case AskDirect(i, _, _) => {OfLease(i)}
    case AskTemporary(i, _, _) => {OfLease(i)}
    case AskGrowth(t, _, _) => {OfLease(s.books.temps[t].lease)}
    case _ => {}
  }

  lemma RejectionKept(b: Books, i: nat, k: Key, additional: nat)
    requires i < |b.leases|
    ensures Kept(b, RecordRejection(b, i, k, additional), {}, {})
  {
  }

  lemma AdmitKept(c: Config, s: Sys, i: nat, k: Key, additional: nat, r: G.Reading)
    requires i < |s.books.leases|
    ensures var (t, refusal) := AdmitResponse(c, s, i, k, additional, r);
            && (refusal.None? ==> t.books == s.books)
            && (refusal.Some? ==> Kept(s.books, t.books, {}, {}))
  {
    hide Kept, RecordRejection;
    RejectionKept(s.books, i, k, additional);
  }

  lemma GrowthKept(b: Books, i: nat, t: nat, additional: nat)
    requires i < |b.leases|
    ensures Kept(b, ReserveDirect(b, i, additional), {OfLease(i)}, {OfLease(i)})
    ensures Kept(b, ActivateTemp(b, i, additional), {OfLease(i)}, {OfLease(i)})
    ensures t < |b.temps| && b.temps[t].lease == i ==> Kept(b, GrowTemp(b, t, additional), {OfLease(i)}, {OfLease(i)})
  {
  }

  lemma ResponsesKept(c: Config, s: Sys, e: Event)
    requires Allowed(s, e) && (e.AskDirect? || e.AskTemporary? || e.AskGrowth?)
    ensures Kept(s.books, Apply(c, s, e).sys.books, Acted(s, e), Growing(s, e))
  {
    hide Kept, AdmitResponse, ReserveDirect, ActivateTemp, GrowTemp;
    var i := if e.AskGrowth? then s.books.temps[e.temp].lease else e.lease;
    var k := if e.AskGrowth? then s.books.temps[e.temp].key else CurrentKey(s.books.leases[i]);
    KeptSame(s.books, {OfLease(i)}, {OfLease(i)});
    AdmitKept(c, s, i, k, e.additional, e.reading);
    var (t, refusal) := AdmitResponse(c, s, i, k, e.additional, e.reading);
    if refusal.Some? {
      KeptWider(s.books, t.books, {OfLease(i)}, {OfLease(i)});
    } else {
      GrowthKept(s.books, i, if e.AskGrowth? then e.temp else 0, e.additional);
    }
  }

  lemma OpensKept(c: Config, s: Sys, e: Event)
    requires Allowed(s, e)
    requires e.OpenLease? || e.OpenPending? || e.CallRelease? || e.MarkPending? || e.DeferRelease?
             || e.RequestLeaseRelease? || e.BeginRouting? || e.EndRouting? || e.ForeignAsk? || e.ForeignReturn?
             || e.AskUnderTurn? || e.StopWaiting?
    ensures Apply(c, s, e).Next? ==> Kept(s.books, Apply(c, s, e).sys.books, {}, {})
  {
    hide Q.Remove, G.Reserve, G.Release, Kept;
    SameOwners(s.books);
    if e.OpenLease? || e.OpenPending? { OpenedKept(s.books, e.resourceOnly); }
    if e.MarkPending? {
      FlagKept(s.books, e.pending);
    } else if e.DeferRelease? || e.RequestLeaseRelease? || e.EndRouting? {
      MarksKept(s.books, e.lease, "");
    } else if e.BeginRouting? {
      MarksKept(s.books, e.lease, e.key);
    }
  }

  lemma SameOwners(b: Books)
    ensures forall r: Books :: r.leases == b.leases && r.pendings == b.pendings ==> Kept(b, r, {}, {})
  {
  }

  lemma OpenedKept(b: Books, resourceOnly: bool)
    ensures Kept(b, AddLease(b, resourceOnly), {}, {}) && Kept(b, AddPending(b, resourceOnly), {}, {})
  {
  }

  lemma FlagKept(b: Books, p: nat)
    requires p < |b.pendings|
    ensures Kept(b, MarkPendingReleased(b, p), {}, {})
  {
  }

  lemma MarksKept(b: Books, i: nat, k: Key)
    requires i < |b.leases|
    ensures ReplyKept(b, Defer(b, i), {}, {}) && Kept(b, RequestRelease(b, i), {}, {})
    ensures Kept(b, BeginAttempt(b, i, k), {}, {}) && Kept(b, EndAttempt(b, i), {}, {})
  {
  }

  lemma CommitsKept(c: Config, b: Books, r: Books, o: Owner, additional: nat)
    requires Known(b, o) && Commits(c, b, r, o, additional)
    ensures Kept(b, r, {o}, {o})
  {
    hide CommitGrowth, Kept;
    KeptSame(b, {o}, {o});
    CommitGrowthKept(c, b, o, additional);
  }

  /** A step leaves every owner it does not act on with exactly its bytes, and lets no other lease retain more. */
  lemma StepKept(c: Config, s: Sys, e: Event)
    requires Allowed(s, e) && Apply(c, s, e).Next?
    ensures Kept(s.books, Apply(c, s, e).sys.books, Acted(s, e), Growing(s, e))
  {
    hide Ask, TurnCommit, TurnGiveUp, GiveBack, AskParent, Commits, Kept;
    hide Transfer, ReleasePending, ReleaseStaged, CommitTemp, ReleaseTemp, ReleaseDeferral, RunRelease;
    hide TakeDirect, TakeTemporary, TakeGrowth;
    KeptSame(s.books, Acted(s, e), Growing(s, e));
    match e
    case AskBody(o, additional, reading, tenant, expired) =>
      AskCommits(c, s, o, additional, reading, tenant, expired);
      CommitsKept(c, s.books, Apply(c, s, e).sys.books, o, additional);
    case CommitUnderTurn(w) =>
      TurnBooks(c, s, w, None);
      CommitsKept(c, s.books, Apply(c, s, e).sys.books, s.waits[w].owner, s.waits[w].additional);
    case GiveUpTurn(w) => TurnBooks(c, s, w, Some(BudgetExhausted));
    case TransferPending(q, i) => TransferKept(c, s.books, q, i);
    case DropPending(q) =>
      GiveBackBooks(SectionRuns(s, q), ReleasePending(s.books, q));
      DropKept(s.books, q);
    case ReleaseBody(i, bytes) =>
      GiveBackBooks(s, ReleaseStaged(s.books, i, bytes));
      ReleaseStagedKept(s.books, i, bytes);
    case CommitTemporary(t) =>
      GiveBackBooks(s, CommitTemp(s.books, t));
      TempsKept(s.books, t);
    case ReleaseTemporary(t) =>
      GiveBackBooks(s, ReleaseTemp(s.books, t));
      TempsKept(s.books, t);
    case EndDeferral(d) =>
      GiveBackBooks(s, ReleaseDeferral(s.books, d));
      DeferralKept(s.books, d);
    case RunLeaseRelease(i) =>
      GiveBackBooks(s, RunRelease(s.books, i));
      RunReleaseKept(s.books, i);
    case AskDirect(_, _, _) => ResponsesKept(c, s, e);
    case AskTemporary(_, _, _) => ResponsesKept(c, s, e);
    case AskGrowth(_, _, _) => ResponsesKept(c, s, e);
    case _ => OpensKept(c, s, e);
  }
}
