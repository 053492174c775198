/**
 What each attempt is charged with over a run, read off the events: the bytes asked for in its
 name, the reservations started, the refusals, the commits and the rollbacks.
 */
module AttemptAccounting {
  import opened Common
  import opened Ledger
  import opened LedgerInvariant
  import opened LedgerProgress
  import opened System
  import opened SystemInvariant
  import opened SystemRuns
  import opened StepFrames
  import G = Governor
  import Q = FairQueue

  /** Everything an attempt's record holds but the releases made at finalization. */
  datatype Tally = Tally(
    requested: nat, started: nat, rejections: nat, rejectedBytes: nat,
    commits: nat, committed: nat, rollbacks: nat, rolledBack: nat)

  const NOTHING := Tally(0, 0, 0, 0, 0, 0, 0, 0)

  function Shown(y: Lifecycle): Tally {
    Tally(y.requested, y.started, y.rejections, y.rejectedBytes, y.commits, y.committed, y.rollbacks, y.rolledBack)
  }

  /** An attempt's record: kept while the lease lives, published when it is finalized. */
  function Recorded(l: Lease, k: Key): Lifecycle {
    if !l.finalized then Cycle(l, k) else if k in l.summaries then l.summaries[k] else BLANK
  }

  function TallyOf(l: Lease, k: Key): Tally { Shown(Recorded(l, k)) }

  /** The attempt bound to a lease and the tallies of all its attempts are as before. */
  ghost predicate LeaseUncharged(l: Lease, m: Lease) {
    m.attempt == l.attempt && forall k: Key :: k != UNATTRIBUTED ==> TallyOf(m, k) == TallyOf(l, k)
  }

  /** Only leases in `but` are charged; a new lease starts with nothing. */
  ghost predicate Uncharged(b: Books, r: Books, but: set<nat>) {
    && |b.leases| <= |r.leases|
    && (forall i :: 0 <= i < |b.leases| ==> i in but || LeaseUncharged(b.leases[i], r.leases[i]))
    && (forall i :: |b.leases| <= i < |r.leases| ==>
          r.leases[i].attempt == None && r.leases[i].cycles == map[] && !r.leases[i].finalized)
  }

  ghost predicate ReplyUncharged(b: Books, r: Reply, but: set<nat>) { r.Done? ==> Uncharged(b, r.books, but) }

  lemma UnchargedSame(b: Books, but: set<nat>)
    ensures Uncharged(b, b, but)
  {
  }

  lemma UnchargedTransitive(a: Books, b: Books, r: Reply, but: set<nat>)
    requires Uncharged(a, b, but) && ReplyUncharged(b, r, {}) && |a.leases| == |b.leases|
    ensures ReplyUncharged(a, r, but)
  {
    if r.Done? {
      forall i | 0 <= i < |a.leases| && i !in but ensures LeaseUncharged(a.leases[i], r.books.leases[i]) {
        assert LeaseUncharged(a.leases[i], b.leases[i]) && LeaseUncharged(b.leases[i], r.books.leases[i]);
      }
    }
  }

  /** Books whose leases keep their binding and their records. */
  predicate RecordsKept(b: Books, r: Books) {
    && |r.leases| == |b.leases|
    && forall i :: 0 <= i < |b.leases| ==>
         && r.leases[i].attempt == b.leases[i].attempt && r.leases[i].cycles == b.leases[i].cycles
         && r.leases[i].finalized == b.leases[i].finalized && r.leases[i].summaries == b.leases[i].summaries
  }

  predicate ReplyRecordsKept(b: Books, r: Reply) { r.Done? ==> RecordsKept(b, r.books) }

  lemma KeptIsUncharged(b: Books, r: Books)
    requires RecordsKept(b, r)
    ensures Uncharged(b, r, {})
  {
    forall i | 0 <= i < |b.leases| ensures LeaseUncharged(b.leases[i], r.leases[i]) {
      forall k: Key ensures TallyOf(r.leases[i], k) == TallyOf(b.leases[i], k) {
      }
    }
  }

  lemma SlotsKeepRecords(c: Config, b: Books, o: Owner, bytes: nat)
    requires Known(b, o)
    ensures ReplyRecordsKept(b, ClaimSlot(c, b, o, bytes))
    ensures ReplyRecordsKept(b, UpdateHolder(b, o, bytes))
    ensures ReplyRecordsKept(b, ReleaseSlot(b, o))
    ensures ClaimSlot(c, b, o, bytes).Done? ==> Known(ClaimSlot(c, b, o, bytes).books, o)
  {
  }

  lemma SettleKeepsRecords(c: Config, b: Books, o: Owner)
    requires Known(b, o)
    ensures ReplyRecordsKept(b, Settle(c, b, o))
  {
    hide ClaimSlot, UpdateHolder;
    SlotsKeepRecords(c, b, o, Bytes(b, o));
    if ClaimSlot(c, b, o, Bytes(b, o)).Done? {
      SlotsKeepRecords(c, ClaimSlot(c, b, o, Bytes(b, o)).books, o, Bytes(b, o));
    }
  }

  lemma GrowthKeepsRecords(c: Config, b: Books, o: Owner, additional: nat)
    requires Known(b, o)
    ensures ReplyRecordsKept(b, CommitGrowth(c, b, o, additional))
  {
    hide Settle;
    SettleKeepsRecords(c, GrownBooks(b, o, additional), o);
  }

  lemma TransferKeepsRecords(c: Config, b: Books, p: nat, i: nat)
    requires p < |b.pendings| && i < |b.leases|
    ensures ReplyRecordsKept(b, Transfer(c, b, p, i))
  {
    hide Settle;
    if b.pendings[p].bytes <= b.pendingBody && (b.pendings[p].slot ==> b.pendings[p].claim.Some?) {
      SettleKeepsRecords(c, MovedBooks(b, p, i), OfLease(i));
    }
  }

  lemma ReleasesKeepRecords(c: Config, b: Books, p: nat, i: nat, bytes: nat)
    ensures p < |b.pendings| ==> ReplyRecordsKept(b, ReleasePending(b, p))
    ensures i < |b.leases| ==> ReplyRecordsKept(b, ReleaseStaged(b, i, bytes))
  {
    hide ReleaseSlot, UpdateHolder;
    if p < |b.pendings| && b.pendings[p].bytes <= b.pendingBody && b.pendings[p].bytes <= b.body {
      SlotsKeepRecords(c, DrainedPending(b, p), OfPending(p), 0);
    }
    if i < |b.leases| && bytes <= b.leases[i].body && bytes <= b.body {
      SlotsKeepRecords(c, ShrunkBooks(b, i, bytes), OfLease(i), b.leases[i].body - bytes);
    }
  }

  /** A published record has the tally of the record it was published from. */
  lemma PublishedTally(l: Lease, k: Key)
    requires !l.finalized && k != UNATTRIBUTED
    ensures TallyOf(FinalLease(l), k) == TallyOf(l, k)
  {
    hide ReleasedCycles, FinalAllocations;
    ReleasedCycleAt(l, FinalAllocations(l), k);
  }

  lemma EmptiedUncharged(b: Books, i: nat)
    requires i < |b.leases| && !b.leases[i].finalized
    requires b.leases[i].body <= b.body && b.leases[i].response <= b.response
    ensures Uncharged(b, Emptied(b, i), {}) && |Emptied(b, i).leases| == |b.leases|
  {
    hide FinalLease, TallyOf;
    FinalAttempt(b.leases[i]);
    forall j | 0 <= j < |b.leases| ensures LeaseUncharged(b.leases[j], Emptied(b, i).leases[j]) {
      if j == i {
        forall k: Key | k != UNATTRIBUTED ensures TallyOf(FinalLease(b.leases[i]), k) == TallyOf(b.leases[i], k) {
          PublishedTally(b.leases[i], k);
        }
      }
    }
  }

  lemma FinalAttempt(l: Lease)
    ensures FinalLease(l).attempt == l.attempt
  {
  }

  lemma FinalizeUncharged(c: Config, b: Books, i: nat)
    requires i < |b.leases|
    ensures ReplyUncharged(b, Finalize(b, i), {})
  {
    hide ReleaseSlot, AllocatedBytes, Emptied, Uncharged;
    UnchargedSame(b, {});
    if !b.leases[i].finalized && b.leases[i].body <= b.body && b.leases[i].response <= b.response {
      var e := Emptied(b, i);
      EmptiedUncharged(b, i);
      SlotsKeepRecords(c, e, OfLease(i), 0);
      if ReleaseSlot(e, OfLease(i)).Done? {
        KeptIsUncharged(e, ReleaseSlot(e, OfLease(i)).books);
        UnchargedTransitive(b, e, ReleaseSlot(e, OfLease(i)), {});
      }
    }
  }

  /** A step on one lease's owners and marks, before anything is finalized. */
  lemma LeaseStepUncharged(b: Books, i: nat, l: Lease)
    requires i < |b.leases| && l.attempt == b.leases[i].attempt
    requires forall k: Key :: k != UNATTRIBUTED ==> TallyOf(l, k) == TallyOf(b.leases[i], k)
    ensures Uncharged(b, SetLease(b, i, l), {})
  {
    forall j | 0 <= j < |b.leases| ensures LeaseUncharged(b.leases[j], SetLease(b, i, l).leases[j]) {
    }
  }

  lemma FinishOwnerUncharged(c: Config, b: Books, i: nat)
    requires i < |b.leases|
    ensures ReplyUncharged(b, FinishOwner(b, i), {})
  {
    hide Finalize, Uncharged;
    var left := SetLease(b, i, b.leases[i].(owners := b.leases[i].owners - 1));
    LeaseStepUncharged(b, i, left.leases[i]);
    FinalizeUncharged(c, left, i);
    UnchargedTransitive(b, left, Finalize(left, i), {});
  }

  lemma EndingUncharged(c: Config, b: Books, e: Books, i: nat, but: set<nat>)
    requires Uncharged(b, e, but) && |e.leases| == |b.leases| && i < |e.leases|
    ensures ReplyUncharged(b, FinishOwner(e, i), but)
  {
    hide FinishOwner, Uncharged;
    FinishOwnerUncharged(c, e, i);
    UnchargedTransitive(b, e, FinishOwner(e, i), but);
  }

  /** Only the lease of the temporary is charged when a temporary ends. */
  lemma TempsUncharged(c: Config, b: Books, t: nat)
    requires t < |b.temps| && b.temps[t].lease < |b.leases|
    ensures ReplyUncharged(b, CommitTemp(b, t), {b.temps[t].lease})
    ensures ReplyUncharged(b, ReleaseTemp(b, t), {b.temps[t].lease})
  {
    hide FinishOwner, Uncharged, Committed, RolledBack;
    var x := b.temps[t];
    UnchargedSame(b, {x.lease});
    if x.Live() {
      OtherLeases(b, BeforeCommitEnds(b, t), x.lease);
      EndingUncharged(c, b, BeforeCommitEnds(b, t), x.lease, {x.lease});
      if x.size <= b.leases[x.lease].response && x.size <= b.response {
        OtherLeases(b, BeforeReleaseEnds(b, t), x.lease);
        EndingUncharged(c, b, BeforeReleaseEnds(b, t), x.lease, {x.lease});
      }
    }
  }

  lemma DeferralUncharged(c: Config, b: Books, d: nat)
    requires d < |b.deferrals| && b.deferrals[d].lease < |b.leases|
    ensures ReplyUncharged(b, ReleaseDeferral(b, d), {})
  {
    hide FinishOwner, Uncharged;
    UnchargedSame(b, {});
    var e := b.(deferrals := b.deferrals[d := b.deferrals[d].(released := true)]);
    KeptIsUncharged(b, e);
    EndingUncharged(c, b, e, b.deferrals[d].lease, {});
  }

  lemma RunReleaseUncharged(c: Config, b: Books, i: nat)
    requires i < |b.leases|
    ensures ReplyUncharged(b, RunRelease(b, i), {})
  {
    hide Finalize, Uncharged;
    UnchargedSame(b, {});
    var ran := SetLease(b, i, b.leases[i].(releaseRan := true));
    LeaseStepUncharged(b, i, ran.leases[i]);
    KeptIsUncharged(b, ran.(deferred := b.deferred + {i}));
    FinalizeUncharged(c, ran, i);
    UnchargedTransitive(b, ran, Finalize(ran, i), {});
  }

  // ----- whole steps -----

  /** The lease whose attempts a step may charge or bind. */
  function Charged(s: Sys, e: Event): set<nat>
    requires Allowed(s, e)
  {
    match e
    case AskDirect(i, _, _) => {i}
    case AskTemporary(i, _, _) => {i}
    case AskGrowth(t, _, _) => {s.books.temps[t].lease}
    case CommitTemporary(t) => {s.books.temps[t].lease}
    case ReleaseTemporary(t) => {s.books.temps[t].lease}
    case BeginRouting(i, _) => {i}
    case EndRouting(i) => {i}
    case _ => {}
  }

  /** What admission leaves in the books: nothing new, or the refusal charged to the attempt. */
  lemma AdmitBooks(c: Config, s: Sys, i: nat, k: Key, additional: nat, r: G.Reading)
    requires i < |s.books.leases|
    ensures var (t, refusal) := AdmitResponse(c, s, i, k, additional, r);
            && refusal != Some(Inactive)
            && t.books == if refusal.None? then s.books else RecordRejection(s.books, i, k, additional)
  {
  }

  lemma OtherLeases(b: Books, r: Books, i: nat)
    requires i < |b.leases| == |r.leases| && r.leases == b.leases[i := r.leases[i]]
    ensures Uncharged(b, r, {i})
  {
    forall j | 0 <= j < |b.leases| && j != i ensures LeaseUncharged(b.leases[j], r.leases[j]) {
    }
  }

  lemma AskUncharged(c: Config, s: Sys, e: Event)
    requires Allowed(s, e) && Apply(c, s, e).Next? && Charged(s, e) != {}
    ensures Uncharged(s.books, Apply(c, s, e).sys.books, Charged(s, e))
  {
    hide AdmitResponse, Rejected, Directed, Activated, Grown, Uncharged, GiveBack, CommitTemp, ReleaseTemp;
    UnchargedSame(s.books, Charged(s, e));
    if e.CommitTemporary? || e.ReleaseTemporary? {
      TempsUncharged(c, s.books, e.temp);
      GiveBackBooks(s, CommitTemp(s.books, e.temp));
      GiveBackBooks(s, ReleaseTemp(s.books, e.temp));
    } else if e.BeginRouting? || e.EndRouting? {
      assert s.books.leases[e.lease := s.books.leases[e.lease]] == s.books.leases;
      OtherLeases(s.books, Apply(c, s, e).sys.books, e.lease);
    } else {
      var i := if e.AskGrowth? then s.books.temps[e.temp].lease else e.lease;
      var k := if e.AskGrowth? then s.books.temps[e.temp].key else CurrentKey(s.books.leases[i]);
      AdmitBooks(c, s, i, k, e.additional, e.reading);
      assert s.books.leases[i := s.books.leases[i]] == s.books.leases;
      OtherLeases(s.books, Apply(c, s, e).sys.books, i);
    }
  }

  lemma OpensUncharged(c: Config, s: Sys, e: Event)
    requires Allowed(s, e)
    requires e.OpenLease? || e.OpenPending? || e.CallRelease? || e.MarkPending? || e.DeferRelease?
             || e.RequestLeaseRelease?
             || e.ForeignAsk? || e.ForeignReturn? || e.AskUnderTurn? || e.StopWaiting?
    ensures Apply(c, s, e).Next? ==> Uncharged(s.books, Apply(c, s, e).sys.books, {})
  {
    hide Q.Remove, G.Reserve, G.Release, Uncharged;
    if Apply(c, s, e).Next? {
      if e.OpenLease? {
        NewUncharged(s.books, e.resourceOnly);
      } else {
        OpensKeepRecords(c, s, e);
        KeptIsUncharged(s.books, Apply(c, s, e).sys.books);
      }
    }
  }

  lemma NewUncharged(b: Books, resourceOnly: bool)
    ensures Uncharged(b, AddLease(b, resourceOnly), {})
  {
    forall j | 0 <= j < |b.leases| ensures LeaseUncharged(b.leases[j], AddLease(b, resourceOnly).leases[j]) {
    }
  }

  lemma OpensKeepRecords(c: Config, s: Sys, e: Event)
    requires Allowed(s, e) && Apply(c, s, e).Next?
    requires e.OpenPending? || e.CallRelease? || e.MarkPending? || e.DeferRelease? || e.RequestLeaseRelease?
             || e.ForeignAsk? || e.ForeignReturn? || e.AskUnderTurn? || e.StopWaiting?
    ensures RecordsKept(s.books, Apply(c, s, e).sys.books)
  {
    hide Q.Remove, G.Reserve, G.Release, RecordsKept;
    RecordsSame(s.books);
    if e.DeferRelease? || e.RequestLeaseRelease? { MarksKeepRecords(s.books, e.lease); }
  }

  lemma RecordsSame(b: Books)
    ensures forall r: Books :: r.leases == b.leases ==> RecordsKept(b, r)
  {
  }

  lemma MarksKeepRecords(b: Books, i: nat)
    requires i < |b.leases|
    ensures Defer(b, i).Done? ==> RecordsKept(b, Defer(b, i).books)
    ensures RecordsKept(b, RequestRelease(b, i))
  {
  }

  lemma CommitsUncharged(c: Config, b: Books, r: Books, o: Owner, additional: nat)
    requires Known(b, o) && Commits(c, b, r, o, additional)
    ensures Uncharged(b, r, {})
  {
    hide CommitGrowth, Uncharged;
    UnchargedSame(b, {});
    GrowthKeepsRecords(c, b, o, additional);
    if r != b { KeptIsUncharged(b, r); }
  }

  /** No other step charges or binds an attempt. */
  lemma StepUncharged(c: Config, s: Sys, e: Event)
    requires Allowed(s, e) && Apply(c, s, e).Next? && Charged(s, e) == {}
    ensures Uncharged(s.books, Apply(c, s, e).sys.books, {})
  {
    hide Ask, TurnCommit, TurnGiveUp, GiveBack, AskParent, Commits, Uncharged;
    hide Transfer, ReleasePending, ReleaseStaged, CommitTemp, ReleaseTemp, ReleaseDeferral, RunRelease;
    UnchargedSame(s.books, {});
    match e
    case AskBody(o, additional, reading, tenant, expired) =>
      AskCommits(c, s, o, additional, reading, tenant, expired);
      CommitsUncharged(c, s.books, Apply(c, s, e).sys.books, o, additional);
    case CommitUnderTurn(w) =>
      TurnBooks(c, s, w, None);
      CommitsUncharged(c, s.books, Apply(c, s, e).sys.books, s.waits[w].owner, s.waits[w].additional);
    case GiveUpTurn(w) => TurnBooks(c, s, w, Some(BudgetExhausted));
    case TransferPending(p, i) =>
      TransferKeepsRecords(c, s.books, p, i);
      if Transfer(c, s.books, p, i).Done? { KeptIsUncharged(s.books, Transfer(c, s.books, p, i).books); }
    case DropPending(p) =>
      GiveBackBooks(SectionRuns(s, p), ReleasePending(s.books, p));
      ReleasesKeepRecords(c, s.books, p, 0, 0);
      if ReleasePending(s.books, p).Done? { KeptIsUncharged(s.books, ReleasePending(s.books, p).books); }
    case ReleaseBody(i, bytes) =>
      GiveBackBooks(s, ReleaseStaged(s.books, i, bytes));
      ReleasesKeepRecords(c, s.books, |s.books.pendings|, i, bytes);
      if ReleaseStaged(s.books, i, bytes).Done? { KeptIsUncharged(s.books, ReleaseStaged(s.books, i, bytes).books); }
    case EndDeferral(d) =>
      GiveBackBooks(s, ReleaseDeferral(s.books, d));
      DeferralUncharged(c, s.books, d);
    case RunLeaseRelease(i) =>
      GiveBackBooks(s, RunRelease(s.books, i));
      RunReleaseUncharged(c, s.books, i);
    case _ => OpensUncharged(c, s, e);
  }

  // ----- charges -----

  function Plus(a: Tally, b: Tally): Tally {
    Tally(a.requested + b.requested, a.started + b.started,
          a.rejections + b.rejections, a.rejectedBytes + b.rejectedBytes,
          a.commits + b.commits, a.committed + b.committed,
          a.rollbacks + b.rollbacks, a.rolledBack + b.rolledBack)
  }

  predicate Asks(e: Event) { e.AskDirect? || e.AskTemporary? || e.AskGrowth? }

  /** The steps that charge an attempt. */
  predicate Accounts(e: Event) { Asks(e) || e.CommitTemporary? || e.ReleaseTemporary? }

  function AccountedLease(s: Sys, e: Event): nat
    requires Accounts(e) && Allowed(s, e)
  {
    if e.AskDirect? || e.AskTemporary? then e.lease else s.books.temps[e.temp].lease
  }

  /** The attempt bound to a lease, or the collective key outside any attempt. */
  function BoundKey(attempt: Option<Key>): Key {
    match attempt
    case Some(k) => k
    case None => UNATTRIBUTED
  }

  lemma CurrentIsBound(l: Lease)
    ensures CurrentKey(l) == BoundKey(l.attempt)
  {
  }

  /** The attempt a step is charged to: the bound one, or the one its temporary was made for. */
  function AccountedKey(s: Sys, e: Event): Key
    requires Accounts(e) && Allowed(s, e)
  {
    if e.AskDirect? || e.AskTemporary? then BoundKey(s.books.leases[e.lease].attempt) else s.books.temps[e.temp].key
  }

  /** What one step charges: an ask that is answered at all is charged its bytes, an ending only once. */
  ghost function Amount(c: Config, s: Sys, e: Event): Tally
    requires Accounts(e) && Allowed(s, e)
  {
    var o := Apply(c, s, e);
    if !o.Next? then NOTHING
    else if Asks(e) then
      if o.refusal == Some(Inactive) then NOTHING
      else if o.refusal.Some? then
        NOTHING.(requested := e.additional, rejections := 1, rejectedBytes := e.additional)
      else if e.AskDirect? then
        NOTHING.(requested := e.additional, started := 1, commits := 1, committed := e.additional)
      else if e.AskTemporary? then NOTHING.(requested := e.additional, started := 1)
      else NOTHING.(requested := e.additional)
    else
      var x := s.books.temps[e.temp];
      if !x.Live() then NOTHING
      else if e.CommitTemporary? then NOTHING.(commits := 1, committed := x.size)
      else NOTHING.(rollbacks := 1, rolledBack := x.size)
  }

  ghost function Charge(c: Config, s: Sys, e: Event, i: nat, k: Key): Tally
    requires Allowed(s, e)
  {
    if Accounts(e) && AccountedLease(s, e) == i && AccountedKey(s, e) == k then Amount(c, s, e) else NOTHING
  }

  /** Replacing the record of one attempt leaves the other tallies alone. */
  lemma CycleTally(l: Lease, l': Lease, m: Key, y: Lifecycle, k: Key)
    requires !l.finalized && !l'.finalized && l'.cycles == l.cycles[m := y]
    ensures k == m ==> TallyOf(l', k) == Shown(y)
    ensures k != m ==> TallyOf(l', k) == TallyOf(l, k)
  {
  }

  /** The tally after `more` has been charged to attempt `m`. */
  predicate Adds(l: Lease, l': Lease, m: Key, more: Tally, k: Key) {
    && (k == m ==> TallyOf(l', k) == Plus(TallyOf(l, k), more))
    && (k != m ==> TallyOf(l', k) == TallyOf(l, k))
  }

  lemma RejectedTally(l: Lease, m: Key, additional: nat, k: Key)
    requires !l.finalized
    ensures Adds(l, Rejected(l, m, additional), m,
                 NOTHING.(requested := additional, rejections := 1, rejectedBytes := additional), k)
  {
    var l' := Rejected(l, m, additional);
    CycleTally(l, l', m, l'.cycles[m], k);
  }

  lemma DirectedTally(l: Lease, additional: nat, k: Key)
    requires !l.finalized
    ensures Adds(l, Directed(l, additional), CurrentKey(l),
                 NOTHING.(requested := additional, started := 1, commits := 1, committed := additional), k)
  {
    hide PutAllocation, EntryBytes, CurrentKey;
    var l' := Directed(l, additional);
    CycleTally(l, l', CurrentKey(l), l'.cycles[CurrentKey(l)], k);
  }

  lemma ActivatedTally(l: Lease, additional: nat, k: Key)
    requires !l.finalized
    ensures Adds(l, Activated(l, additional), CurrentKey(l), NOTHING.(requested := additional, started := 1), k)
  {
    hide CurrentKey;
    var l' := Activated(l, additional);
    CycleTally(l, l', CurrentKey(l), l'.cycles[CurrentKey(l)], k);
  }

  lemma GrownTally(l: Lease, m: Key, additional: nat, k: Key)
    requires !l.finalized
    ensures Adds(l, Grown(l, m, additional), m, NOTHING.(requested := additional), k)
  {
    var l' := Grown(l, m, additional);
    CycleTally(l, l', m, l'.cycles[m], k);
  }

  lemma AskAttempts(l: Lease, m: Key, additional: nat)
    ensures Rejected(l, m, additional).attempt == l.attempt && Directed(l, additional).attempt == l.attempt
    ensures Activated(l, additional).attempt == l.attempt && Grown(l, m, additional).attempt == l.attempt
  {
  }

  /** The accounting of a step on a lease: its attempt stays bound, and its record gains the step's charge. */
  ghost predicate Accounted(c: Config, s: Sys, e: Event, k: Key)
    requires Accounts(e) && Allowed(s, e)
  {
    var i, o := AccountedLease(s, e), Apply(c, s, e);
    o.Next? ==>
      && i < |s.books.leases| <= |o.sys.books.leases|
      && o.sys.books.leases[i].attempt == s.books.leases[i].attempt
      && TallyOf(o.sys.books.leases[i], k) == Plus(TallyOf(s.books.leases[i], k), Charge(c, s, e, i, k))
  }

  /** The step is carried out without a refusal. */
  ghost predicate Admitted(c: Config, s: Sys, e: Event)
    requires Allowed(s, e)
  {
    Apply(c, s, e).Next? && Apply(c, s, e).refusal.None?
  }

  /** The step answers its caller with a refusal. */
  ghost predicate TurnedDown(c: Config, s: Sys, e: Event)
    requires Allowed(s, e)
  {
    Apply(c, s, e).Next? && Apply(c, s, e).refusal.Some?
  }

  /** A refused ask, and one that comes too late. */
  lemma RefusedCharges(c: Config, s: Sys, e: Event, k: Key)
    requires SysInv(c, s) && Allowed(s, e) && Asks(e) && TurnedDown(c, s, e)
    ensures Accounted(c, s, e, k)
  {
    hide SysInv, Apply, TallyOf, Rejected, CurrentKey, Plus;
    var i, l := AccountedLease(s, e), s.books.leases[AccountedLease(s, e)];
    var asked := AccountedKey(s, e);
    CurrentIsBound(l);
    RefusedBooks(c, s, e);
    PlusNothing(TallyOf(l, k));
    AskAttempts(l, asked, e.additional);
    LiveIsOpen(c, s, i);
    if Apply(c, s, e).refusal != Some(Inactive) { RejectedTally(l, asked, e.additional, k); }
  }

  /** What a refused ask leaves in the books: nothing new, or the refusal charged to a lease still open. */
  lemma RefusedBooks(c: Config, s: Sys, e: Event)
    requires SysInv(c, s) && Allowed(s, e) && Asks(e) && TurnedDown(c, s, e)
    ensures var i, r := AccountedLease(s, e), Apply(c, s, e).sys.books;
            && i < |s.books.leases|
            && r == if Apply(c, s, e).refusal == Some(Inactive) then s.books
                    else RecordRejection(s.books, i, AccountedKey(s, e), e.additional)
    ensures Apply(c, s, e).refusal != Some(Inactive) ==> !s.books.leases[AccountedLease(s, e)].finalized
  {
    hide SysInv, CurrentKey, AdmitResponse, ReserveDirect, ActivateTemp, GrowTemp, RecordRejection;
    CurrentIsBound(s.books.leases[AccountedLease(s, e)]);
    LiveIsOpen(c, s, AccountedLease(s, e));
    AdmitBooks(c, s, AccountedLease(s, e), AccountedKey(s, e), e.additional, e.reading);
  }

  /** What an admitted ask leaves in the books, of a lease still open. */
  lemma TakenBooks(c: Config, s: Sys, e: Event)
    requires SysInv(c, s) && Allowed(s, e) && Asks(e) && Admitted(c, s, e)
    ensures e.AskDirect? ==> Apply(c, s, e).sys.books == ReserveDirect(s.books, e.lease, e.additional)
    ensures e.AskTemporary? ==> Apply(c, s, e).sys.books == ActivateTemp(s.books, e.lease, e.additional)
    ensures e.AskGrowth? ==> Apply(c, s, e).sys.books == GrowTemp(s.books, e.temp, e.additional)
    ensures AccountedLease(s, e) < |s.books.leases| && !s.books.leases[AccountedLease(s, e)].finalized
  {
    hide SysInv, CurrentKey, AdmitResponse, ReserveDirect, ActivateTemp, GrowTemp, RecordRejection;
    CurrentIsBound(s.books.leases[AccountedLease(s, e)]);
    LiveIsOpen(c, s, AccountedLease(s, e));
    AdmitBooks(c, s, AccountedLease(s, e), AccountedKey(s, e), e.additional, e.reading);
  }

  lemma TakenAmount(c: Config, s: Sys, e: Event)
    requires Allowed(s, e) && Asks(e) && Admitted(c, s, e)
    ensures Amount(c, s, e) ==
              if e.AskDirect? then
                NOTHING.(requested := e.additional, started := 1, commits := 1, committed := e.additional)
              else NOTHING.(requested := e.additional, started := if e.AskTemporary? then 1 else 0)
  {
    hide Apply;
  }

  /** A lease whose record gains the step's amount is accounted for. */
  lemma AddsAmount(c: Config, s: Sys, e: Event, k: Key)
    requires Allowed(s, e) && Accounts(e) && Apply(c, s, e).Next?
    requires var i, r := AccountedLease(s, e), Apply(c, s, e).sys.books;
             && i < |s.books.leases| <= |r.leases|
             && r.leases[i].attempt == s.books.leases[i].attempt
             && Adds(s.books.leases[i], r.leases[i], AccountedKey(s, e), Amount(c, s, e), k)
    ensures Accounted(c, s, e, k)
  {
    hide Apply, TallyOf, Amount, Plus;
    PlusNothing(TallyOf(s.books.leases[AccountedLease(s, e)], k));
  }

  lemma TakenCharges(c: Config, s: Sys, e: Event, k: Key)
    requires SysInv(c, s) && Allowed(s, e) && Asks(e) && Admitted(c, s, e)
    ensures Accounted(c, s, e, k)
  {
    hide SysInv, Apply, Directed, Activated, Grown, CurrentKey, Amount, Adds, Accounted;
    var l := s.books.leases[AccountedLease(s, e)];
    CurrentIsBound(l);
    TakenBooks(c, s, e);
    TakenAmount(c, s, e);
    AskAttempts(l, AccountedKey(s, e), e.additional);
    if e.AskDirect? {
      DirectedTally(l, e.additional, k);
    } else if e.AskTemporary? {
      ActivatedTally(l, e.additional, k);
    } else {
      GrownTally(l, AccountedKey(s, e), e.additional, k);
    }
    AddsAmount(c, s, e, k);
  }

  lemma AskAnswers(c: Config, s: Sys, e: Event)
    requires Allowed(s, e) && Asks(e)
    ensures Apply(c, s, e).Next?
  {
    hide AdmitResponse, ReserveDirect, ActivateTemp, GrowTemp;
  }

  lemma AskCharges(c: Config, s: Sys, e: Event, k: Key)
    requires SysInv(c, s) && Allowed(s, e) && Asks(e)
    ensures Accounted(c, s, e, k)
  {
    hide SysInv, Apply, Accounted;
    AskAnswers(c, s, e);
    if Apply(c, s, e).refusal.Some? { RefusedCharges(c, s, e, k); } else { TakenCharges(c, s, e, k); }
  }

  lemma CommittedTally(l: Lease, t: nat, x: Temp, k: Key)
    requires !l.finalized
    ensures Adds(l, Committed(l, t, x), x.key, NOTHING.(commits := 1, committed := x.size), k)
    ensures Committed(l, t, x).attempt == l.attempt
  {
    hide PutAllocation;
    var l' := Committed(l, t, x);
    CycleTally(l, l', x.key, l'.cycles[x.key], k);
  }

  lemma RolledBackTally(l: Lease, x: Temp, k: Key)
    requires !l.finalized && x.size <= l.response
    ensures Adds(l, RolledBack(l, x), x.key, NOTHING.(rollbacks := 1, rolledBack := x.size), k)
    ensures RolledBack(l, x).attempt == l.attempt
  {
    var l' := RolledBack(l, x);
    CycleTally(l, l', x.key, l'.cycles[x.key], k);
  }

  /** An owner that leaves is not refused. */
  lemma LeavingAnswers(s: Sys, b: Books, i: nat)
    requires i < |b.leases| && GiveBack(s, FinishOwner(b, i)).Next?
    ensures FinishOwner(b, i).Done?
  {
    hide ReturnParent, FinalLease, AllocatedBytes;
  }

  /** An ended temporary of a lease that is still there, and the leaving of its owner. */
  lemma LeavingKeepsTally(c: Config, s: Sys, ended: Books, i: nat, k: Key)
    requires i < |ended.leases| && k != UNATTRIBUTED && GiveBack(s, FinishOwner(ended, i)).Next?
    ensures var r := GiveBack(s, FinishOwner(ended, i)).sys.books;
            && |ended.leases| <= |r.leases|
            && r.leases[i].attempt == ended.leases[i].attempt && TallyOf(r.leases[i], k) == TallyOf(ended.leases[i], k)
  {
    hide GiveBack, FinishOwner, TallyOf;
    LeavingAnswers(s, ended, i);
    GiveBackBooks(s, FinishOwner(ended, i));
    FinishOwnerUncharged(c, ended, i);
    assert LeaseUncharged(ended.leases[i], GiveBack(s, FinishOwner(ended, i)).sys.books.leases[i]);
  }

  lemma CommitCharges(c: Config, s: Sys, e: Event, k: Key)
    requires SysInv(c, s) && Allowed(s, e) && e.CommitTemporary? && k != UNATTRIBUTED
    ensures Accounted(c, s, e, k)
  {
    hide SysInv, TallyOf, Committed, GiveBack, FinishOwner;
    var b, t, x := s.books, e.temp, s.books.temps[e.temp];
    LiveIsOpen(c, s, x.lease);
    GiveBackBooks(s, CommitTemp(b, t));
    if x.Live() && Apply(c, s, e).Next? {
      CommittedTally(b.leases[x.lease], t, x, k);
      LeavingKeepsTally(c, s, BeforeCommitEnds(b, t), x.lease, k);
    }
  }

  lemma ReleaseCharges(c: Config, s: Sys, e: Event, k: Key)
    requires SysInv(c, s) && Allowed(s, e) && e.ReleaseTemporary? && k != UNATTRIBUTED
    ensures Accounted(c, s, e, k)
  {
    hide SysInv, TallyOf, RolledBack, GiveBack, FinishOwner;
    var b, t, x := s.books, e.temp, s.books.temps[e.temp];
    LiveIsOpen(c, s, x.lease);
    GiveBackBooks(s, ReleaseTemp(b, t));
    BrokenIsFailure(s, ReleaseTemp(b, t));
    if x.Live() && Apply(c, s, e).Next? {
      RolledBackTally(b.leases[x.lease], x, k);
      LeavingKeepsTally(c, s, BeforeReleaseEnds(b, t), x.lease, k);
    }
  }

  /** Every step that charges an attempt charges the one it is made for, even if it finalizes the lease. */
  lemma AccountsCharge(c: Config, s: Sys, e: Event, k: Key)
    requires SysInv(c, s) && Allowed(s, e) && Accounts(e) && k != UNATTRIBUTED
    ensures Accounted(c, s, e, k)
  {
    hide SysInv, Apply, Accounted;
    if Asks(e) {
      AskCharges(c, s, e, k);
    } else if e.CommitTemporary? {
      CommitCharges(c, s, e, k);
    } else {
      ReleaseCharges(c, s, e, k);
    }
  }

  /** A lease that is still asked for is not finalized. */
  lemma LiveIsOpen(c: Config, s: Sys, i: nat)
    requires SysInv(c, s) && i < |s.books.leases|
    ensures s.books.leases[i].finalized ==> s.books.leases[i].releaseRequested
    ensures forall t :: 0 <= t < |s.books.temps| && s.books.temps[t].lease == i && s.books.temps[t].Live() ==>
              !s.books.leases[i].finalized
  {
    hide Q.Inv, WaitsOk, ParentOk, SlotsExcept, CyclesOk, AllocationsOk, Conserved, DeferredOk, BudgetOk;
    var b := s.books;
    assert LeaseOk(b.leases[i], i, b.temps, b.deferrals, Rest);
    CountsNonNegative(b.temps, b.deferrals, i);
    forall t | 0 <= t < |b.temps| && b.temps[t].lease == i && b.temps[t].Live() ensures !b.leases[i].finalized {
      LiveBounds(b.temps, t);
    }
  }

  lemma BindingCharges(c: Config, s: Sys, e: Event, k: Key)
    requires Allowed(s, e) && (e.BeginRouting? || e.EndRouting?)
    requires (s.books.leases[e.lease].finalized ==> s.books.leases[e.lease].releaseRequested)
    ensures var r := Apply(c, s, e).sys.books;
            e.lease < |r.leases| && TallyOf(r.leases[e.lease], k) == TallyOf(s.books.leases[e.lease], k)
  {
  }

  lemma ChargedLease(c: Config, s: Sys, e: Event, i: nat, k: Key)
    requires Allowed(s, e) && !(Accounts(e) && AccountedLease(s, e) == i)
    ensures Charge(c, s, e, i, k) == NOTHING
    ensures Charged(s, e) == {} || i !in Charged(s, e) || e.BeginRouting? || e.EndRouting?
  {
    hide Apply, Amount;
  }

  lemma PlusNothing(a: Tally)
    ensures Plus(a, NOTHING) == a
  {
  }

  /** One step charges an attempt with exactly what was asked, committed or rolled back in its name. */
  lemma StepCharges(c: Config, s: Sys, e: Event, r: Sys, i: nat, k: Key)
    requires SysInv(c, s) && Follows(c, s, e, r) && i < |s.books.leases| && k != UNATTRIBUTED
    ensures i < |r.books.leases|
    ensures TallyOf(r.books.leases[i], k) == Plus(TallyOf(s.books.leases[i], k), Charge(c, s, e, i, k))
  {
    hide SysInv, Apply, TallyOf, Charge, Plus, Charged;
    if Accounts(e) && AccountedLease(s, e) == i {
      AccountsCharge(c, s, e, k);
    } else {
      ChargedLease(c, s, e, i, k);
      PlusNothing(TallyOf(s.books.leases[i], k));
      if Charged(s, e) == {} {
        StepUncharged(c, s, e);
        assert LeaseUncharged(s.books.leases[i], r.books.leases[i]);
      } else if i !in Charged(s, e) {
        AskUncharged(c, s, e);
        assert LeaseUncharged(s.books.leases[i], r.books.leases[i]);
      } else {
        BindsOnly(s, e, i);
        LiveIsOpen(c, s, i);
        BindingCharges(c, s, e, k);
      }
    }
  }

  lemma BindsOnly(s: Sys, e: Event, i: nat)
    requires Allowed(s, e) && (e.BeginRouting? || e.EndRouting?)
    ensures i in Charged(s, e) <==> i == e.lease
  {
  }

  /** A lease opened by a step starts with an empty record. */
  lemma OpenedBlank(c: Config, s: Sys, e: Event, r: Sys, i: nat, k: Key)
    requires Follows(c, s, e, r) && |s.books.leases| <= i < |r.books.leases|
    ensures TallyOf(r.books.leases[i], k) == NOTHING && r.books.leases[i].attempt == None
  {
    hide Apply;
    if Charged(s, e) == {} { StepUncharged(c, s, e); } else { AskUncharged(c, s, e); }
  }

  /** The charges of a run up to state `n`, step by step. */
  ghost function Charges(c: Config, trace: seq<Sys>, events: seq<Event>, n: nat, i: nat, k: Key): Tally
    requires IsRun(c, trace, events) && n <= |events|
  {
    if n == 0 then NOTHING
    else
      assert Follows(c, trace[n - 1], events[n - 1], trace[n - 1 + 1]);
      Plus(Charges(c, trace, events, n - 1, i, k), Charge(c, trace[n - 1], events[n - 1], i, k))
  }

  /** One step of a run, and the charges up to it. */
  lemma ChargesStep(c: Config, trace: seq<Sys>, events: seq<Event>, n: nat, i: nat, k: Key)
    requires IsRun(c, trace, events) && n < |events|
    ensures |trace| == |events| + 1 && Follows(c, trace[n], events[n], trace[n + 1])
    ensures Charges(c, trace, events, n + 1, i, k)
         == Plus(Charges(c, trace, events, n, i, k), Charge(c, trace[n], events[n], i, k))
  {
    hide Apply, Charge;
  }

  lemma ChargesStart(c: Config, trace: seq<Sys>, events: seq<Event>, i: nat, k: Key)
    requires IsRun(c, trace, events)
    ensures |trace| == |events| + 1 && trace[0].books.leases == []
    ensures Charges(c, trace, events, 0, i, k) == NOTHING
  {
    hide Apply;
  }

  lemma StepLeases(c: Config, s: Sys, e: Event, r: Sys)
    requires Follows(c, s, e, r)
    ensures |s.books.leases| <= |r.books.leases|
    ensures Accounts(e) ==> AccountedLease(s, e) < |s.books.leases|
  {
    hide Apply;
    if Charged(s, e) == {} { StepUncharged(c, s, e); } else { AskUncharged(c, s, e); }
  }

  lemma NoChargeFor(c: Config, s: Sys, e: Event, r: Sys, i: nat, k: Key)
    requires Follows(c, s, e, r) && i >= |s.books.leases|
    ensures Charge(c, s, e, i, k) == NOTHING
  {
    hide Apply;
    StepLeases(c, s, e, r);
  }

  lemma {:induction false} NoChargesYet(c: Config, trace: seq<Sys>, events: seq<Event>, n: nat, i: nat, k: Key)
    requires IsRun(c, trace, events) && n <= |events| && i >= |trace[n].books.leases|
    ensures Charges(c, trace, events, n, i, k) == NOTHING
  {
    hide Charges, IsRun, Follows, Allowed, Apply, Charge, Plus;
    PlusNothing(NOTHING);
    ChargesStart(c, trace, events, i, k);
    if n > 0 {
      ChargesStep(c, trace, events, n - 1, i, k);
      StepLeases(c, trace[n - 1], events[n - 1], trace[n]);
      NoChargesYet(c, trace, events, n - 1, i, k);
      NoChargeFor(c, trace[n - 1], events[n - 1], trace[n], i, k);
    }
  }

  /**
   In every reachable state, finalized or not, the record of an attempt shows exactly what was
   done in its name over the run: every byte asked for, every reservation started, every refusal
   with its bytes, every commit and every rollback with theirs.
   */
  lemma {:induction false} RecordsShowCharges(c: Config, trace: seq<Sys>, events: seq<Event>, n: nat, i: nat, k: Key)
    requires IsRun(c, trace, events) && n <= |events| && i < |trace[n].books.leases| && k != UNATTRIBUTED
    ensures TallyOf(trace[n].books.leases[i], k) == Charges(c, trace, events, n, i, k)
  {
    hide Charges, IsRun, Follows, Allowed, Apply, SysInv, TallyOf, Charge, Plus;
    PlusNothing(NOTHING);
    ChargesStart(c, trace, events, i, k);
    if n > 0 {
      ChargesStep(c, trace, events, n - 1, i, k);
      RunInv(c, trace, events, n - 1);
      if i < |trace[n - 1].books.leases| {
        RecordsShowCharges(c, trace, events, n - 1, i, k);
        StepCharges(c, trace[n - 1], events[n - 1], trace[n], i, k);
      } else {
        NoChargesYet(c, trace, events, n - 1, i, k);
        OpenedBlank(c, trace[n - 1], events[n - 1], trace[n], i, k);
        NoChargeFor(c, trace[n - 1], events[n - 1], trace[n], i, k);
      }
    }
  }

  lemma StartsEmpty(c: Config, trace: seq<Sys>, events: seq<Event>)
    requires IsRun(c, trace, events)
    ensures trace[0].books.leases == []
  {
  }

  // ----- the bound attempt -----

  /** The attempt bound to a lease, read off the events: the last one begun and not ended. */
  function Bound(trace: seq<Sys>, events: seq<Event>, n: nat, i: nat): Option<Key>
    requires n <= |events| && |trace| == |events| + 1
  {
    if n == 0 then None
    else match events[n - 1]
      case BeginRouting(j, k) =>
        if j == i && i < |trace[n - 1].books.leases| && !trace[n - 1].books.leases[i].releaseRequested then Some(k)
        else Bound(trace, events, n - 1, i)
      case EndRouting(j) => if j == i then None else Bound(trace, events, n - 1, i)
      case _ => Bound(trace, events, n - 1, i)
  }

  lemma BindingStep(c: Config, s: Sys, e: Event)
    requires Allowed(s, e) && (e.BeginRouting? || e.EndRouting?)
    ensures var r := Apply(c, s, e).sys.books;
            && e.lease < |r.leases|
            && r.leases[e.lease].attempt ==
                 if e.EndRouting? then None
                 else if s.books.leases[e.lease].releaseRequested then s.books.leases[e.lease].attempt else Some(e.key)
  {
  }

  lemma StepBinds(c: Config, s: Sys, e: Event, r: Sys, i: nat)
    requires SysInv(c, s) && Follows(c, s, e, r) && i < |s.books.leases|
    ensures i < |r.books.leases|
    ensures r.books.leases[i].attempt ==
              if e.BeginRouting? && e.lease == i && !s.books.leases[i].releaseRequested then Some(e.key)
              else if e.EndRouting? && e.lease == i then None
              else s.books.leases[i].attempt
  {
    hide SysInv, Apply, TallyOf, Charge, Charged;
    if Accounts(e) && AccountedLease(s, e) == i {
      AccountsCharge(c, s, e, "");
    } else {
      ChargedLease(c, s, e, i, "");
      if Charged(s, e) == {} {
        StepUncharged(c, s, e);
        BindingCharged(s, e);
        assert LeaseUncharged(s.books.leases[i], r.books.leases[i]);
      } else if i !in Charged(s, e) {
        AskUncharged(c, s, e);
        if e.BeginRouting? || e.EndRouting? { BindsOnly(s, e, i); }
        assert LeaseUncharged(s.books.leases[i], r.books.leases[i]);
      } else {
        BindsOnly(s, e, i);
        BindingStep(c, s, e);
      }
    }
  }

  lemma BindingCharged(s: Sys, e: Event)
    requires Allowed(s, e) && Charged(s, e) == {}
    ensures !e.BeginRouting? && !e.EndRouting?
  {
  }

  /** In every reachable state a lease is bound to the attempt last begun for it and not yet ended. */
  lemma {:induction false} AttemptBound(c: Config, trace: seq<Sys>, events: seq<Event>, n: nat, i: nat)
    requires IsRun(c, trace, events) && n <= |events|
    ensures i < |trace[n].books.leases| ==> trace[n].books.leases[i].attempt == Bound(trace, events, n, i)
    ensures i >= |trace[n].books.leases| ==> Bound(trace, events, n, i) == None
  {
    hide Apply, SysInv;
    if n > 0 {
      AttemptBound(c, trace, events, n - 1, i);
      assert Follows(c, trace[n - 1], events[n - 1], trace[n - 1 + 1]);
      RunInv(c, trace, events, n - 1);
      StepLeases(c, trace[n - 1], events[n - 1], trace[n]);
      if i < |trace[n - 1].books.leases| {
        StepBinds(c, trace[n - 1], events[n - 1], trace[n], i);
      } else if i < |trace[n].books.leases| {
        OpenedBlank(c, trace[n - 1], events[n - 1], trace[n], i, "");
      }
    } else {
      StartsEmpty(c, trace, events);
    }
  }

  // ----- the attempt of a temporary -----

  /** Step `m` of a run activated temporary `t`, for the attempt bound to its lease at that moment. */
  ghost predicate ActivatedAt(trace: seq<Sys>, events: seq<Event>, n: nat, t: nat, m: nat)
    requires |trace| == |events| + 1 && n < |trace| && t < |trace[n].books.temps|
  {
    && m < n && |trace[m].books.temps| == t
    && events[m].AskTemporary? && events[m].lease < |trace[m].books.leases|
    && trace[n].books.temps[t].lease == events[m].lease
    && trace[n].books.temps[t].key == BoundKey(Bound(trace, events, m, events[m].lease))
  }

  /** Only the activation of a temporary makes one, for the attempt bound at that moment. */
  lemma TempsMade(c: Config, s: Sys, e: Event, r: Sys)
    requires SysInv(c, s) && Follows(c, s, e, r)
    ensures |s.books.temps| <= |r.books.temps| <= |s.books.temps| + 1
    ensures forall t :: 0 <= t < |s.books.temps| ==>
              r.books.temps[t].lease == s.books.temps[t].lease && r.books.temps[t].key == s.books.temps[t].key
    ensures |r.books.temps| > |s.books.temps| ==>
              && e.AskTemporary? && e.lease < |s.books.leases|
              && r.books.temps[|s.books.temps|].lease == e.lease
              && r.books.temps[|s.books.temps|].key == BoundKey(s.books.leases[e.lease].attempt)
  {
    hide Apply, SysInv, StepOf;
    ApplyOk(c, s, e);
    StepTemps(c, s, e, r);
    StepContinued(c, s, e, r);
  }

  lemma StepContinued(c: Config, s: Sys, e: Event, r: Sys)
    requires SysInv(c, s) && Follows(c, s, e, r)
    ensures Continues(s.books, r.books)
  {
    hide Apply, SysInv, Continues;
    ApplyOk(c, s, e);
    BooksSame(s.books);
  }

  lemma StepTemps(c: Config, s: Sys, e: Event, r: Sys)
    requires Follows(c, s, e, r)
    ensures |r.books.temps| == |s.books.temps|
            || (e.AskTemporary? && |r.books.temps| == |s.books.temps| + 1 && e.lease < |s.books.leases|
                && r.books.temps[|s.books.temps|].lease == e.lease
                && r.books.temps[|s.books.temps|].key == BoundKey(s.books.leases[e.lease].attempt))
  {
    hide Ask, TurnCommit, TurnGiveUp, GiveBack, AskParent, Q.Remove, AdmitResponse;
    hide Transfer, ReleasePending, ReleaseStaged, CommitTemp, ReleaseTemp, ReleaseDeferral, RunRelease;
    match e
    case AskBody(o, additional, reading, tenant, expired) =>
      AskCommits(c, s, o, additional, reading, tenant, expired);
      GrowthTemps(c, s.books, o, additional);
    case CommitUnderTurn(w) =>
      TurnBooks(c, s, w, None);
      GrowthTemps(c, s.books, s.waits[w].owner, s.waits[w].additional);
    case GiveUpTurn(w) => TurnBooks(c, s, w, Some(BudgetExhausted));
    case TransferPending(p, i) => TransferTemps(c, s.books, p, i);
    case DropPending(p) =>
      GiveBackBooks(SectionRuns(s, p), ReleasePending(s.books, p));
      ReleaseTemps(c, s.books, p, 0, 0);
    case ReleaseBody(i, bytes) =>
      GiveBackBooks(s, ReleaseStaged(s.books, i, bytes));
      ReleaseTemps(c, s.books, |s.books.pendings|, i, bytes);
    case CommitTemporary(t) =>
      GiveBackBooks(s, CommitTemp(s.books, t));
      EndTemps(s.books, t, 0, 0);
    case ReleaseTemporary(t) =>
      GiveBackBooks(s, ReleaseTemp(s.books, t));
      EndTemps(s.books, t, 0, 0);
    case EndDeferral(d) =>
      GiveBackBooks(s, ReleaseDeferral(s.books, d));
      EndTemps(s.books, |s.books.temps|, d, |s.books.leases|);
    case RunLeaseRelease(i) =>
      GiveBackBooks(s, RunRelease(s.books, i));
      EndTemps(s.books, |s.books.temps|, |s.books.deferrals|, i);
    case AskDirect(i, additional, reading) =>
      AdmitBooks(c, s, i, CurrentKey(s.books.leases[i]), additional, reading);
    case AskTemporary(i, additional, reading) =>
      AdmitBooks(c, s, i, CurrentKey(s.books.leases[i]), additional, reading);
      CurrentIsBound(s.books.leases[i]);
    case AskGrowth(t, additional, reading) =>
      AdmitBooks(c, s, s.books.temps[t].lease, s.books.temps[t].key, additional, reading);
    case _ => QuietTemps(c, s, e);
  }

  lemma QuietTemps(c: Config, s: Sys, e: Event)
    requires Allowed(s, e) && Apply(c, s, e).Next?
    requires e.OpenLease? || e.OpenPending? || e.CallRelease? || e.MarkPending? || e.DeferRelease?
             || e.RequestLeaseRelease? || e.ForeignAsk? || e.ForeignReturn? || e.AskUnderTurn? || e.StopWaiting?
             || e.BeginRouting? || e.EndRouting?
    ensures Apply(c, s, e).sys.books.temps == s.books.temps
  {
    hide Q.Remove, G.Reserve, G.Release;
  }

  lemma SlotTemps(c: Config, b: Books, o: Owner, bytes: nat)
    requires Known(b, o)
    ensures ClaimSlot(c, b, o, bytes).Done? ==>
              ClaimSlot(c, b, o, bytes).books.temps == b.temps && Known(ClaimSlot(c, b, o, bytes).books, o)
    ensures UpdateHolder(b, o, bytes).Done? ==> UpdateHolder(b, o, bytes).books.temps == b.temps
    ensures ReleaseSlot(b, o).Done? ==> ReleaseSlot(b, o).books.temps == b.temps
  {
  }

  lemma SettleTemps(c: Config, b: Books, o: Owner)
    requires Known(b, o)
    ensures Settle(c, b, o).Done? ==> Settle(c, b, o).books.temps == b.temps
  {
    hide ClaimSlot, UpdateHolder;
    SlotTemps(c, b, o, Bytes(b, o));
    if ClaimSlot(c, b, o, Bytes(b, o)).Done? { SlotTemps(c, ClaimSlot(c, b, o, Bytes(b, o)).books, o, Bytes(b, o)); }
  }

  lemma GrowthTemps(c: Config, b: Books, o: Owner, additional: nat)
    requires Known(b, o)
    ensures CommitGrowth(c, b, o, additional).Done? ==> CommitGrowth(c, b, o, additional).books.temps == b.temps
  {
    hide Settle;
    SettleTemps(c, GrownBooks(b, o, additional), o);
  }

  lemma TransferTemps(c: Config, b: Books, p: nat, i: nat)
    requires p < |b.pendings| && i < |b.leases|
    ensures Transfer(c, b, p, i).Done? ==> Transfer(c, b, p, i).books.temps == b.temps
  {
    hide Settle;
    if b.pendings[p].bytes <= b.pendingBody && (b.pendings[p].slot ==> b.pendings[p].claim.Some?) {
      SettleTemps(c, MovedBooks(b, p, i), OfLease(i));
    }
  }

  lemma ReleaseTemps(c: Config, b: Books, p: nat, i: nat, bytes: nat)
    ensures p < |b.pendings| && ReleasePending(b, p).Done? ==> ReleasePending(b, p).books.temps == b.temps
    ensures i < |b.leases| && ReleaseStaged(b, i, bytes).Done? ==> ReleaseStaged(b, i, bytes).books.temps == b.temps
  {
    hide ReleaseSlot, UpdateHolder;
    if p < |b.pendings| && b.pendings[p].bytes <= b.pendingBody && b.pendings[p].bytes <= b.body {
      SlotTemps(c, DrainedPending(b, p), OfPending(p), 0);
    }
    if i < |b.leases| && bytes <= b.leases[i].body && bytes <= b.body {
      SlotTemps(c, ShrunkBooks(b, i, bytes), OfLease(i), b.leases[i].body - bytes);
    }
  }

  /** The ends of owners close temporaries and never make one. */
  lemma EndTemps(b: Books, t: nat, d: nat, i: nat)
    ensures t < |b.temps| && b.temps[t].lease < |b.leases| && CommitTemp(b, t).Done? ==>
              |CommitTemp(b, t).books.temps| == |b.temps|
    ensures t < |b.temps| && b.temps[t].lease < |b.leases| && ReleaseTemp(b, t).Done? ==>
              |ReleaseTemp(b, t).books.temps| == |b.temps|
    ensures d < |b.deferrals| && b.deferrals[d].lease < |b.leases| && ReleaseDeferral(b, d).Done? ==>
              |ReleaseDeferral(b, d).books.temps| == |b.temps|
    ensures i < |b.leases| && RunRelease(b, i).Done? ==> |RunRelease(b, i).books.temps| == |b.temps|
  {
    hide FinishOwner, Finalize, Committed, RolledBack;
    if t < |b.temps| && b.temps[t].lease < |b.leases| {
      var x := b.temps[t];
      FinishTemps(BeforeCommitEnds(b, t), x.lease);
      if x.size <= b.leases[x.lease].response && x.size <= b.response { FinishTemps(BeforeReleaseEnds(b, t), x.lease); }
    }
    if d < |b.deferrals| && b.deferrals[d].lease < |b.leases| {
      FinishTemps(b.(deferrals := b.deferrals[d := b.deferrals[d].(released := true)]), b.deferrals[d].lease);
    }
    if i < |b.leases| { FinalTemps(SetLease(b, i, b.leases[i].(releaseRan := true)), i); }
  }

  lemma FinalTemps(b: Books, i: nat)
    requires i < |b.leases|
    ensures Finalize(b, i).Done? ==> Finalize(b, i).books.temps == b.temps
  {
    hide FinalLease, AllocatedBytes;
  }

  lemma FinishTemps(b: Books, i: nat)
    requires i < |b.leases|
    ensures FinishOwner(b, i).Done? ==> FinishOwner(b, i).books.temps == b.temps
  {
    hide Finalize;
    FinalTemps(SetLease(b, i, b.leases[i].(owners := b.leases[i].owners - 1)), i);
  }

  /**
   Every temporary of every reachable state was made by one step, and whatever is charged to it goes
   to the attempt that the run's events had bound to its request at that step.
   */
  lemma {:induction false} TemporariesRemember(
      c: Config, trace: seq<Sys>, events: seq<Event>, n: nat, t: nat)
    requires IsRun(c, trace, events) && n < |trace| && t < |trace[n].books.temps|
    ensures |trace| == |events| + 1 && exists m :: ActivatedAt(trace, events, n, t, m)
  {
    hide Apply, IsRun, SysInv, Bound, Follows;
    RunLength(c, trace, events);
    if n == 0 {
      StartsWithout(c, trace, events);
    } else {
      StepTaken(c, trace, events, n - 1);
      RunInv(c, trace, events, n - 1);
      TempsMade(c, trace[n - 1], events[n - 1], trace[n]);
      if t < |trace[n - 1].books.temps| {
        TemporariesRemember(c, trace, events, n - 1, t);
        var m: nat :| ActivatedAt(trace, events, n - 1, t, m);
        assert ActivatedAt(trace, events, n, t, m);
      } else {
        AttemptBound(c, trace, events, n - 1, events[n - 1].lease);
        assert ActivatedAt(trace, events, n, t, n - 1);
      }
    }
  }

  lemma StartsWithout(c: Config, trace: seq<Sys>, events: seq<Event>)
    requires IsRun(c, trace, events)
    ensures trace[0].books.temps == []
  {
  }

  lemma StepTaken(c: Config, trace: seq<Sys>, events: seq<Event>, n: nat)
    requires IsRun(c, trace, events) && n < |events|
    ensures n + 1 < |trace| && Follows(c, trace[n], events[n], trace[n + 1])
  {
    hide Follows;
  }
}
