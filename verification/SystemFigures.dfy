/**
 The steps of the admission system in the figures themselves: which requests are carried out, which
 wait and which are refused, and what a release sets going, read off configuration, owners,
 counters, waiters and the parent's sample.
 */
module SystemFigures {
  import opened Common
  import opened Ledger
  import opened LedgerBody
  import opened LedgerInvariant
  import opened LedgerLifetime
  import opened StepFrames
  import opened System
  import opened SystemInvariant
  import opened SystemRuns
  import opened FairQueueEffects
  import G = Governor
  import Q = FairQueue

  // ----- what a body growth needs -----

  /** The owner may still grow: a request not asked to release, a reservation without a flag. */
  predicate MayGrow(b: Books, o: Owner)
    requires Known(b, o)
  {
    match o
    case OfLease(i) => !b.leases[i].releaseRequested
    case OfPending(p) => !b.pendings[p].transferred && !b.pendings[p].released
  }

  /** Outside resource-only mode a body has a limit, and so has a request with its responses. */
  predicate WithinLimits(c: Config, b: Books, o: Owner, next: nat)
    requires Known(b, o)
  {
    match o
    case OfLease(i) =>
      b.leases[i].resourceOnly || (next <= c.maxBody && next + b.leases[i].response <= c.maxRetained)
    case OfPending(p) => b.pendings[p].resourceOnly || next <= c.maxBody
  }

  /** A large body has a slot, or finds one. */
  predicate SlotFound(c: Config, b: Books, o: Owner, next: nat)
    requires Known(b, o)
  {
    c.largeLimit == 0 || next <= c.largeThreshold || HasSlot(b, o) || |b.holders| < c.largeLimit
  }

  /** The parent, where there is one, finds the bytes safe on the sample it uses. */
  ghost predicate Consents(s: Sys, size: nat, r: G.Reading) {
    s.parent.None? || size == 0
    || G.Safe(G.Refresh(s.parent.value, r), G.Reserved(s.parent.value) + size)
  }

  /** The lane of a body of that size. */
  predicate IsSmall(c: Config, next: nat) { c.smallThreshold != 0 && next <= c.smallThreshold }

  /** Budget and slots allow the growth at this moment. */
  predicate RoomNow(c: Config, b: Books, o: Owner, additional: nat)
    requires Known(b, o)
  {
    var next := Bytes(b, o) + additional;
    WithinShare(c, next, b.body + b.response + additional) && SlotFound(c, b, o, next)
  }

  /** A newcomer stands behind everybody in its lane. */
  ghost predicate InTurn(c: Config, s: Sys, o: Owner, additional: nat)
    requires Known(s.books, o)
  {
    Bytes(s.books, o) > 0 || LaneFree(s.queue, IsSmall(c, additional))
  }

  /** Everything a body growth needs to be committed in the round that asks for it. */
  ghost predicate CanCommit(c: Config, s: Sys, o: Owner, additional: nat, r: G.Reading)
    requires Known(s.books, o)
  {
    && MayGrow(s.books, o) && WithinLimits(c, s.books, o, Bytes(s.books, o) + additional)
    && RoomNow(c, s.books, o, additional) && InTurn(c, s, o, additional) && Consents(s, additional, r)
  }

  /** The books of a committed growth: its bytes, and a slot exactly when the body is large. */
  predicate Grew(c: Config, b: Books, r: Books, o: Owner, additional: nat)
    requires Known(b, o)
  {
    && Known(r, o) && Bytes(r, o) == Bytes(b, o) + additional
    && r.body == b.body + additional && r.response == b.response
    && (HasSlot(r, o) <==> HasSlot(b, o) || (c.largeLimit != 0 && Bytes(r, o) > c.largeThreshold))
  }

  // ----- the checks of the model are these -----

  lemma LaneIsShare(c: Config, next: nat, total: nat)
    ensures total <= LaneBudget(c, SmallLane(c, next)) <==> WithinShare(c, next, total)
    ensures SmallLane(c, next) == IsSmall(c, next)
  {
  }

  lemma HardIsLimits(c: Config, b: Books, o: Owner, next: nat)
    requires Known(b, o)
    ensures HardRefusal(c, b, o, next) ==
              if !MayGrow(b, o) then Some(Inactive)
              else if WithinLimits(c, b, o, next) then None
              else if next > c.maxBody then Some(BodyTooLarge) else Some(BudgetExhausted)
  {
  }

  lemma UnavailableIsRoom(c: Config, b: Books, o: Owner, additional: nat)
    requires Known(b, o)
    ensures Unavailable(c, b, o, Bytes(b, o) + additional, additional) ==
              if RoomNow(c, b, o, additional) then None
              else if WithinShare(c, Bytes(b, o) + additional, b.body + b.response + additional)
              then Some(LargeCapacityExhausted) else Some(BudgetExhausted)
  {
    LaneIsShare(c, Bytes(b, o) + additional, b.body + b.response + additional);
  }

  lemma ParentConsents(s: Sys, k: G.Category, size: nat, r: G.Reading)
    ensures AskParent(s, k, size, r).1 <==> Consents(s, size, r)
    ensures AskParent(s, k, size, r).0 == s.(parent := AskParent(s, k, size, r).0.parent)
    ensures s.parent.Some? ==>
              && AskParent(s, k, size, r).0.parent.Some?
              && forall j :: G.Amount(AskParent(s, k, size, r).0.parent.value, j)
                          == Held(s, j) + if j == k && Consents(s, size, r) then size else 0
  {
    if s.parent.Some? {
      var g := s.parent.value;
      G.RefreshKeeps(g, r);
      G.AddSum(G.Refresh(g, r), k, size);
      if size > 0 { G.AdmitsExactlySafe(g, k, size, r); }
    }
  }

  lemma WaitIsTurn(c: Config, s: Sys, o: Owner, additional: nat)
    requires Known(s.books, o) && Q.Inv(s.queue)
    ensures MustWait(c, s, o, additional) ==
              if !RoomNow(c, s.books, o, additional) then
                (if WithinShare(c, Bytes(s.books, o) + additional, s.books.body + s.books.response + additional)
                 then Some(LargeCapacityExhausted) else Some(BudgetExhausted))
              else if InTurn(c, s, o, additional) then None else Some(BudgetExhausted)
  {
    hide Q.Inv, Q.HasWaiters, Unavailable, RoomNow;
    UnavailableIsRoom(c, s.books, o, additional);
    LaneIsShare(c, Bytes(s.books, o) + additional, 0);
    HasWaitersExactly(s.queue, IsSmall(c, Bytes(s.books, o) + additional));
  }

  // ----- a round of a body reservation -----

  /** A round has committed: it refuses nothing and nobody has joined the line. */
  ghost predicate Committed(c: Config, s: Sys, e: Event)
    requires Allowed(s, e)
  {
    Apply(c, s, e).Next? && Apply(c, s, e).refusal.None? && Apply(c, s, e).sys.waits == s.waits
  }

  /** The same reservations with the parent as before. */
  ghost predicate ParentSame(s: Sys, r: Sys) {
    (s.parent.Some? <==> r.parent.Some?) && (s.parent.Some? ==> forall k :: Held(r, k) == Held(s, k))
  }

  /** Why a growth without a commit is refused or waits. */
  function Reason(c: Config, b: Books, o: Owner, additional: nat): Refusal
    requires Known(b, o)
  {
    if WithinShare(c, Bytes(b, o) + additional, b.body + b.response + additional) && !RoomNow(c, b, o, additional)
    then LargeCapacityExhausted else BudgetExhausted
  }

  /** A lane's flag: it is put to sleep exactly for want of budget or of a slot, not by fairness or by the parent. */
  predicate Slept(c: Config, s: Sys, r: Sys, o: Owner, additional: nat)
    requires Known(s.books, o)
  {
    forall lane ::
      Q.Get(r.queue, lane).enabled <==>
        Q.Get(s.queue, lane).enabled
        && (lane == IsSmall(c, Bytes(s.books, o) + additional) ==> RoomNow(c, s.books, o, additional))
  }

  /** The request stands in the queue with its owner, bytes, lane and tenant. */
  predicate JoinedAs(c: Config, s: Sys, r: Sys, o: Owner, additional: nat, tenant: string)
    requires Known(s.books, o)
  {
    var lane := IsSmall(c, Bytes(s.books, o) + additional);
    && r.waits == s.waits + [Wait(o, additional, lane, false)]
    && |r.queue.waiters| == |s.queue.waiters| + 1
    && r.queue.waiters[|s.queue.waiters|].tenant == Q.Normalize(tenant)
    && r.queue.waiters[|s.queue.waiters|].small == lane
    && r.queue.waiters[|s.queue.waiters|].state != Q.Abandoned
  }

  /** A round that goes as far as the wait queue: refused at once, by a full queue, or in line. */
  ghost predicate Waits(c: Config, s: Sys, o: Owner, additional: nat, tenant: string, expired: bool, out: Outcome)
    requires Known(s.books, o)
  {
    && out.Next? && out.sys.books == s.books && ParentSame(s, out.sys)
    && if expired || s.queue.limit == Some(0) then
         out.refusal == Some(Reason(c, s.books, o, additional)) && out.sys.queue == s.queue && out.sys.waits == s.waits
       else if s.queue.limit == Some(s.queue.count) then
         && out.refusal == Some(Reason(c, s.books, o, additional)) && out.sys.waits == s.waits
         && |out.sys.queue.waiters| == |s.queue.waiters| && Slept(c, s, out.sys, o, additional)
       else
         && out.refusal == None && JoinedAs(c, s, out.sys, o, additional, tenant)
         && Slept(c, s, out.sys, o, additional)
  }

  lemma EnqueueWaits(c: Config, s: Sys, t: Sys, o: Owner, additional: nat, tenant: string)
    requires Known(s.books, o) && Q.Inv(s.queue) && t.books == s.books && t.queue == s.queue && t.waits == s.waits
    requires ParentSame(s, t) && s.queue.limit != Some(0)
    ensures Waits(c, s, o, additional, tenant, false,
                  Enqueue(c, t, o, additional, Reason(c, s.books, o, additional), tenant))
  {
    hide Q.Inv, Q.Join, Q.Block, Q.Normalize, RoomNow, ParentSame, WithinShare;
    ParentOnly(s, t);
    var next := Bytes(s.books, o) + additional;
    var lane := IsSmall(c, next);
    LaneIsShare(c, next, s.books.body + s.books.response + additional);
    SleepsForRoom(c, t, o, additional);
    var asleep := Sleep(c, t, o, additional, Reason(c, s.books, o, additional));
    BlockKeeps(t.queue, lane);
    JoinEffects(asleep, tenant, lane);
  }

  lemma ParentOnly(s: Sys, t: Sys)
    requires ParentSame(s, t)
    ensures forall r: Sys :: r.parent == t.parent ==> ParentSame(s, r)
  {
  }

  lemma BlockKeeps(q: Q.Queue, lane: bool)
    requires Q.Inv(q)
    ensures Q.Inv(Q.Block(q, lane)) && Q.Block(q, lane).waiters == q.waiters
    ensures Q.Block(q, lane).limit == q.limit && Q.Block(q, lane).count == q.count
    ensures forall l :: Q.Get(Q.Block(q, lane), l).enabled <==> Q.Get(q, l).enabled && l != lane
  {
  }

  lemma SleepsForRoom(c: Config, s: Sys, o: Owner, additional: nat)
    requires Known(s.books, o)
    ensures Sleep(c, s, o, additional, Reason(c, s.books, o, additional))
         == if RoomNow(c, s.books, o, additional) then s.queue
            else Q.Block(s.queue, IsSmall(c, Bytes(s.books, o) + additional))
  {
    LaneIsShare(c, Bytes(s.books, o) + additional, s.books.body + s.books.response + additional);
  }

  /**
   A round of a body reservation, on the figures. It is committed if and only if the owner may grow,
   its limits and its lane's part of the budget hold, a slot is found if it is large, it gets ahead
   of nobody as a newcomer, and the parent consents; then it grows by exactly its bytes. A growth
   that its own limits forbid is refused at once and changes nothing. Any other is refused or
   waits, with the books and the parent's amounts as they were.
   */
  lemma RoundExactly(c: Config, s: Sys, o: Owner, additional: nat, r: G.Reading, tenant: string, expired: bool)
    requires SysInv(c, s) && Known(s.books, o)
    ensures var e := AskBody(o, additional, r, tenant, expired);
            var out := Apply(c, s, e);
            && (Committed(c, s, e) <==> CanCommit(c, s, o, additional, r))
            && (CanCommit(c, s, o, additional, r) ==>
                  Grew(c, s.books, out.sys.books, o, additional) && out.sys.queue == s.queue)
            && (!MayGrow(s.books, o) ==> out == Next(s, Some(Inactive)))
            && (MayGrow(s.books, o) && !WithinLimits(c, s.books, o, Bytes(s.books, o) + additional) ==>
                  out == Next(s, Some(if Bytes(s.books, o) + additional > c.maxBody then BodyTooLarge
                                      else BudgetExhausted)))
            && (MayGrow(s.books, o) && WithinLimits(c, s.books, o, Bytes(s.books, o) + additional)
                && !CanCommit(c, s, o, additional, r) ==>
                  Waits(c, s, o, additional, tenant, expired, out))
  {
    hide SysInv, Inv, Q.Inv, WaitsOk, ParentOk, HardRefusal, MustWait, CommitGrowth, Enqueue, AskParent;
    hide MayGrow, WithinLimits, RoomNow, InTurn, Consents, WithinShare, Waits, Grew, ParentSame;
    SysParts(c, s);
    HardIsLimits(c, s.books, o, Bytes(s.books, o) + additional);
    WaitIsTurn(c, s, o, additional);
    ParentConsents(s, BODY, additional, r);
    var asked := AskParent(s, BODY, additional, r).0;
    if HardRefusal(c, s.books, o, Bytes(s.books, o) + additional).None? {
      if CanCommit(c, s, o, additional, r) {
        CommitGrew(c, s, o, additional);
      } else {
        RefusedParent(s, BODY, additional, r);
        var t := if MustWait(c, s, o, additional).Some? then s else asked;
        if expired || s.queue.limit == Some(0) {
          ReasonIs(c, s, o, additional, r);
          AtOnce(c, s, t, o, additional, tenant, expired);
        } else {
          ReasonIs(c, s, o, additional, r);
          EnqueueWaits(c, s, t, o, additional, tenant);
          NotExpired(c, s, o, additional, tenant, t);
        }
      }
    }
  }

  lemma SysParts(c: Config, s: Sys)
    requires SysInv(c, s)
    ensures Inv(c, s.books) && Q.Inv(s.queue) && WaitsOk(s) && ParentOk(s)
  {
    hide Inv, Q.Inv, WaitsOk, ParentOk;
  }

  lemma CommitGrew(c: Config, s: Sys, o: Owner, additional: nat)
    requires Inv(c, s.books) && Known(s.books, o) && MayGrow(s.books, o)
    requires WithinLimits(c, s.books, o, Bytes(s.books, o) + additional) && RoomNow(c, s.books, o, additional)
    ensures CommitGrowth(c, s.books, o, additional).Done?
    ensures Grew(c, s.books, CommitGrowth(c, s.books, o, additional).books, o, additional)
  {
    hide Inv, CommitGrowth, HardRefusal, Unavailable, MayGrow, WithinLimits, RoomNow;
    HardIsLimits(c, s.books, o, Bytes(s.books, o) + additional);
    UnavailableIsRoom(c, s.books, o, additional);
    CommitGrowthOk(c, s.books, o, additional);
  }

  lemma RefusedParent(s: Sys, k: G.Category, size: nat, r: G.Reading)
    ensures ParentSame(s, s)
    ensures !Consents(s, size, r) ==> ParentSame(s, AskParent(s, k, size, r).0)
  {
    hide AskParent, Consents;
    ParentConsents(s, k, size, r);
    if !Consents(s, size, r) { NoConsent(s, size, r); }
  }

  lemma NoConsent(s: Sys, size: nat, r: G.Reading)
    requires !Consents(s, size, r)
    ensures s.parent.Some?
  {
  }

  lemma ReasonIs(c: Config, s: Sys, o: Owner, additional: nat, r: G.Reading)
    requires Known(s.books, o) && Q.Inv(s.queue)
    requires !(RoomNow(c, s.books, o, additional) && InTurn(c, s, o, additional) && Consents(s, additional, r))
    ensures var must := MustWait(c, s, o, additional);
            && (must.None? ==> !Consents(s, additional, r))
            && (if must.Some? then must.value else BudgetExhausted) == Reason(c, s.books, o, additional)
  {
    hide Q.Inv, MustWait, RoomNow, InTurn, Consents, WithinShare;
    WaitIsTurn(c, s, o, additional);
  }

  lemma AtOnce(c: Config, s: Sys, t: Sys, o: Owner, additional: nat, tenant: string, expired: bool)
    requires Known(s.books, o) && (expired || s.queue.limit == Some(0))
    requires t.books == s.books && t.queue == s.queue && t.waits == s.waits && ParentSame(s, t)
    ensures Waits(c, s, o, additional, tenant, expired, Next(t, Some(Reason(c, s.books, o, additional))))
  {
    hide ParentSame, RoomNow, WithinShare;
  }

  lemma NotExpired(c: Config, s: Sys, o: Owner, additional: nat, tenant: string, t: Sys)
    requires Known(s.books, o) && t.books == s.books
    requires var out := Enqueue(c, t, o, additional, Reason(c, s.books, o, additional), tenant);
             Waits(c, s, o, additional, tenant, false, out)
    ensures var out := Enqueue(c, t, o, additional, Reason(c, s.books, o, additional), tenant);
            out.Next? ==> s.queue.limit != Some(0) ==> out.refusal.Some? || out.sys.waits != s.waits
  {
    hide ParentSame, RoomNow, WithinShare, Enqueue, Slept, Q.Normalize;
  }

  // ----- under a wait turn -----

  /** The turn of `w` is over for good: it holds no turn, no parent bytes, and is not in line. */
  predicate TurnOver(r: Sys, w: nat) {
    && w < |r.waits| && !r.waits[w].reserved
    && w < |r.queue.waiters| && r.queue.waiters[w].state != Q.Queued
    && forall lane :: w !in Q.Get(r.queue, lane).turns
  }

  /** The parent holds so many body bytes less, and otherwise what it held. */
  ghost predicate ParentHoldsLess(s: Sys, r: Sys, less: nat) {
    && (s.parent.Some? <==> r.parent.Some?)
    && (s.parent.Some? ==> Held(r, BODY) == Held(s, BODY) - less && Held(r, RESPONSE) == Held(s, RESPONSE))
  }

  /**
   A try of the parent under a turn: the task holds the bytes exactly if the parent consents, and the
   parent then holds just those more; nothing is asked for a growth by nothing.
   */
  lemma TurnAskExactly(c: Config, s: Sys, w: nat, r: G.Reading)
    requires Allowed(s, AskUnderTurn(w, r))
    ensures var x, out := s.waits[w], Apply(c, s, AskUnderTurn(w, r));
            && out.Next? && out.refusal.None?
            && out.sys.books == s.books && out.sys.queue == s.queue
            && out.sys.waits == s.waits[w := x.(reserved := Consents(s, x.additional, r))]
            && out.sys.parent.Some?
            && Held(out.sys, BODY) == Held(s, BODY) + (if Consents(s, x.additional, r) then x.additional else 0)
            && Held(out.sys, RESPONSE) == Held(s, RESPONSE)
  {
    hide AskParent, Consents;
    ParentConsents(s, BODY, s.waits[w].additional, r);
    NothingAsked(s, r);
    assert !Consents(s, s.waits[w].additional, r) ==> s.waits[w := s.waits[w].(reserved := false)] == s.waits;
  }

  lemma NothingAsked(s: Sys, r: G.Reading)
    ensures Consents(s, 0, r)
  {
  }

  /** Why a growth under a turn is not carried out. */
  function TurnRefusal(c: Config, b: Books, o: Owner, additional: nat): Option<Refusal>
    requires Known(b, o)
  {
    var next := Bytes(b, o) + additional;
    if !MayGrow(b, o) then Some(Inactive)
    else if !WithinLimits(c, b, o, next) then Some(if next > c.maxBody then BodyTooLarge else BudgetExhausted)
    else if !WithinShare(c, next, b.body + b.response + additional) then Some(BudgetExhausted)
    else if !SlotFound(c, b, o, next) then Some(LargeCapacityExhausted)
    else None
  }

  lemma TurnRefusalIs(c: Config, b: Books, o: Owner, additional: nat)
    requires Known(b, o)
    ensures GrowthRefusal(c, b, o, additional) == TurnRefusal(c, b, o, additional)
  {
    hide HardRefusal, Unavailable, WithinLimits, MayGrow;
    HardIsLimits(c, b, o, Bytes(b, o) + additional);
    UnavailableIsRoom(c, b, o, additional);
  }

  lemma ReturnKeeps(s: Sys, size: nat)
    ensures ReturnParent(s, BODY, size).Next? ==>
              var r := ReturnParent(s, BODY, size).sys;
              && r == s.(parent := r.parent, queue := r.queue) && ParentHoldsLess(s, r, size)
              && r.queue == (if size == 0 then s.queue else Q.Notify(s.queue))
  {
    hide Q.Notify;
    if s.parent.Some? { G.ReleaseSum(s.parent.value, BODY, size); }
  }

  /** A turn that is given up: the parent gets back what was taken under it, and if it was anything, both lanes wake. */
  lemma GiveUpExactly(c: Config, s: Sys, w: nat, refusal: Option<Refusal>)
    requires SysInv(c, s) && HasTurn(s, w) && TurnGiveUp(s, w, refusal).Next?
    ensures var x, out := s.waits[w], TurnGiveUp(s, w, refusal);
            && out.refusal == refusal && out.sys.books == s.books && TurnOver(out.sys, w)
            && ParentHoldsLess(s, out.sys, if x.reserved then x.additional else 0)
            && (forall lane ::
                  Q.Get(out.sys.queue, lane).enabled <==>
                    Q.Get(s.queue, lane).enabled || (x.reserved && x.additional > 0))
  {
    hide SysInv, Inv, Q.Inv, WaitsOk, ParentOk, Q.Notify, Q.FinishTurn, ReturnParent;
    SysParts(c, s);
    var x := s.waits[w];
    var size := if x.reserved then x.additional else 0;
    var without := s.(waits := s.waits[w := x.(reserved := false)]);
    ReturnKeeps(without, size);
    NotifiedTurn(s, w);
    NotifyEffects(s.queue);
    Q.NotifyInv(s.queue);
    var q := ReturnParent(without, BODY, size).sys.queue;
    assert forall lane :: Q.Get(q, lane).enabled <==> Q.Get(s.queue, lane).enabled || size > 0;
    FinishEffects(q, w);
    assert TurnGiveUp(s, w, refusal).sys.queue == Q.FinishTurn(q, x.small, w).value;
  }

  lemma NotifiedTurn(s: Sys, w: nat)
    requires WaitsOk(s) && HasTurn(s, w)
    ensures Q.Allowed(s.queue, Q.Finish(w)) && s.queue.waiters[w].small == s.waits[w].small
    ensures Q.Allowed(Q.Notify(s.queue), Q.Finish(w)) && Q.Notify(s.queue).waiters[w].small == s.waits[w].small
  {
    hide Q.Notify;
    assert WaitOk(s, w);
    FairQueueTurns.NotifyKeeps(s.queue);
    FairQueueTurns.TurnKept(s.queue, Q.Notify(s.queue), {}, s.waits[w].small, w);
  }

  /**
   The second check under a turn, on the figures: the growth is carried out if and only if the owner
   may still grow and its limits, its part of the budget and the slots allow it; otherwise the first
   reason against it is reported, nothing is committed, and the parent gets its bytes back. Either
   way the turn is over for good.
   */
  lemma TurnExactly(c: Config, s: Sys, w: nat)
    requires SysInv(c, s) && Allowed(s, CommitUnderTurn(w))
    ensures var x, out := s.waits[w], Apply(c, s, CommitUnderTurn(w));
            && out.Next? && TurnOver(out.sys, w)
            && out.refusal == TurnRefusal(c, s.books, x.owner, x.additional)
            && (out.refusal.None? ==>
                  && Grew(c, s.books, out.sys.books, x.owner, x.additional) && ParentHoldsLess(s, out.sys, 0)
                  && forall lane :: Q.Get(out.sys.queue, lane).enabled <==> Q.Get(s.queue, lane).enabled)
            && (out.refusal.Some? ==>
                  && out.sys.books == s.books && ParentHoldsLess(s, out.sys, if x.reserved then x.additional else 0)
                  && forall lane ::
                       Q.Get(out.sys.queue, lane).enabled <==>
                         Q.Get(s.queue, lane).enabled || (x.reserved && x.additional > 0))
  {
    hide SysInv, Inv, Q.Inv, WaitsOk, ParentOk, Q.FinishTurn, TurnGiveUp, CommitGrowth, GrowthRefusal, StepOf;
    hide TurnRefusal, Grew, TurnOver;
    SysParts(c, s);
    ApplyOk(c, s, CommitUnderTurn(w));
    var x := s.waits[w];
    TurnRefusalIs(c, s.books, x.owner, x.additional);
    if GrowthRefusal(c, s.books, x.owner, x.additional).Some? {
      GiveUpExactly(c, s, w, GrowthRefusal(c, s.books, x.owner, x.additional));
    } else {
      TurnCommitGrew(c, s, w);
      NotifiedTurn(s, w);
      FinishEffects(s.queue, w);
      CommitOver(c, s, w);
    }
  }

  lemma TurnCommitGrew(c: Config, s: Sys, w: nat)
    requires SysInv(c, s) && Allowed(s, CommitUnderTurn(w))
    requires GrowthRefusal(c, s.books, s.waits[w].owner, s.waits[w].additional).None?
    ensures var x := s.waits[w];
            && CommitGrowth(c, s.books, x.owner, x.additional).Done?
            && Grew(c, s.books, CommitGrowth(c, s.books, x.owner, x.additional).books, x.owner, x.additional)
  {
    hide SysInv, Inv, CommitGrowth, GrowthRefusal;
    SysParts(c, s);
    CommitGrowthOk(c, s.books, s.waits[w].owner, s.waits[w].additional);
  }

  lemma CommitOver(c: Config, s: Sys, w: nat)
    requires WaitsOk(s) && Q.Inv(s.queue) && Allowed(s, CommitUnderTurn(w))
    requires GrowthRefusal(c, s.books, s.waits[w].owner, s.waits[w].additional).None?
    requires CommitGrowth(c, s.books, s.waits[w].owner, s.waits[w].additional).Done?
    requires TurnCommit(c, s, w).Next?
    ensures TurnOver(TurnCommit(c, s, w).sys, w)
  {
    hide Q.Inv, WaitsOk, CommitGrowth, GrowthRefusal, Q.FinishTurn;
    NotifiedTurn(s, w);
    FinishEffects(s.queue, w);
  }

  /** Whoever stops waiting is out of the queue, and the books and the parent do not notice. */
  lemma StopExactly(c: Config, s: Sys, w: nat)
    requires SysInv(c, s) && Allowed(s, StopWaiting(w))
    ensures var out := Apply(c, s, StopWaiting(w));
            && out.Next? && out.sys == s.(queue := out.sys.queue)
            && w < |out.sys.queue.waiters| && out.sys.queue.waiters[w].state == Q.Abandoned
            && (forall lane :: w !in Q.Get(out.sys.queue, lane).turns)
            && (forall lane :: Q.Get(out.sys.queue, lane).enabled <==> Q.Get(s.queue, lane).enabled)
  {
    hide SysInv, Inv, Q.Inv, ParentOk, Q.Remove;
    SysParts(c, s);
    assert WaitOk(s, w);
    RemoveEffects(s.queue, w);
  }

  // ----- response growth -----

  predicate AsksResponse(e: Event) { e.AskDirect? || e.AskTemporary? || e.AskGrowth? }

  function AskedLease(s: Sys, e: Event): nat
    requires AsksResponse(e) && Allowed(s, e)
  {
    if e.AskGrowth? then s.books.temps[e.temp].lease else e.lease
  }

  /** A request that has asked for its release takes no new response bytes; a live temporary may still grow. */
  predicate MayTake(s: Sys, e: Event)
    requires AsksResponse(e) && Allowed(s, e)
  {
    if e.AskGrowth? then !s.books.temps[e.temp].committed && !s.books.temps[e.temp].released
    else !s.books.leases[e.lease].releaseRequested
  }

  /** The first limit that a response growth breaks: of the response, the request, the system, and the parent. */
  ghost function ResponseReason(c: Config, s: Sys, i: nat, additional: nat, r: G.Reading): Option<Refusal>
    requires i < |s.books.leases|
  {
    var b, l := s.books, s.books.leases[i];
    if l.response + additional > c.maxResponse then Some(ResponseTooLarge)
    else if l.body + l.response + additional > c.maxRetained then Some(RetainedTooLarge)
    else if b.body + b.response + additional > c.budget then Some(GlobalBudget)
    else if !Consents(s, additional, r) then Some(ParentGovernor)
    else None
  }

  /** The books after a response growth: the lease, the counter, and the temporary that holds the bytes. */
  predicate Took(b: Books, r: Books, i: nat, e: Event)
    requires AsksResponse(e) && i < |b.leases|
  {
    && i < |r.leases| && r.leases[i].response == b.leases[i].response + e.additional
    && r.leases[i].body == b.leases[i].body
    && r.response == b.response + e.additional && r.body == b.body
    && match e
       case AskTemporary(_, _, _) =>
         && |r.temps| == |b.temps| + 1 && r.temps[|b.temps|].Live()
         && r.temps[|b.temps|].lease == i && r.temps[|b.temps|].size == e.additional
         && r.temps[|b.temps|].key == (if b.leases[i].attempt.Some? then b.leases[i].attempt.value else UNATTRIBUTED)
       case AskGrowth(t, _, _) =>
         t < |b.temps| == |r.temps| && r.temps[t] == b.temps[t].(size := b.temps[t].size + e.additional)
       case _ => r.temps == b.temps
  }

  lemma AdmittedOnFigures(c: Config, s: Sys, i: nat, k: Key, additional: nat, r: G.Reading)
    requires i < |s.books.leases|
    ensures var (t, refusal) := AdmitResponse(c, s, i, k, additional, r);
            && refusal == ResponseReason(c, s, i, additional, r)
            && t == s.(parent := t.parent, books := t.books)
            && (refusal.None? ==> t.books == s.books)
            && (refusal.Some? ==>
                  t.books.body == s.books.body && t.books.response == s.books.response && ParentSame(s, t))
  {
    hide AskParent, Consents, Rejected;
    ParentConsents(s, RESPONSE, additional, r);
    RefusedParent(s, RESPONSE, additional, r);
    if s.parent.None? { NoParent(s, additional, r); }
  }

  lemma NoParent(s: Sys, size: nat, r: G.Reading)
    requires s.parent.None?
    ensures Consents(s, size, r)
  {
  }

  lemma TookDirect(b: Books, i: nat, additional: nat, r: G.Reading)
    requires i < |b.leases|
    ensures Took(b, ReserveDirect(b, i, additional), i, AskDirect(i, additional, r))
  {
    hide PutAllocation, EntryBytes, CurrentKey;
  }

  lemma TookTemporary(b: Books, i: nat, additional: nat, r: G.Reading)
    requires i < |b.leases|
    ensures Took(b, ActivateTemp(b, i, additional), i, AskTemporary(i, additional, r))
  {
  }

  lemma TookGrowth(b: Books, t: nat, additional: nat, r: G.Reading)
    requires t < |b.temps| && b.temps[t].lease < |b.leases|
    ensures Took(b, GrowTemp(b, t, additional), b.temps[t].lease, AskGrowth(t, additional, r))
  {
  }

  /**
   A response growth, on the figures: nothing for a request or a temporary that is done; otherwise it
   is admitted exactly when it breaks none of the four limits, and refused for the first one it
   breaks, with counters and parent as they were.
   */
  lemma ResponseExactly(c: Config, s: Sys, e: Event)
    requires Allowed(s, e) && AsksResponse(e)
    ensures var i, out := AskedLease(s, e), Apply(c, s, e);
            && out.Next?
            && (!MayTake(s, e) ==> out == Next(s, Some(Inactive)))
            && (MayTake(s, e) ==>
                  && out.refusal == ResponseReason(c, s, i, e.additional, e.reading)
                  && (out.refusal.None? ==> Took(s.books, out.sys.books, i, e))
                  && (out.refusal.Some? ==>
                        && out.sys.books.body == s.books.body && out.sys.books.response == s.books.response
                        && ParentSame(s, out.sys)))
  {
    hide AdmitResponse, ReserveDirect, ActivateTemp, GrowTemp, Took, ResponseReason, ParentSame;
    var i := AskedLease(s, e);
    var k := if e.AskGrowth? then s.books.temps[e.temp].key else CurrentKey(s.books.leases[i]);
    AdmittedOnFigures(c, s, i, k, e.additional, e.reading);
    if e.AskDirect? {
      TookDirect(s.books, i, e.additional, e.reading);
    } else if e.AskTemporary? {
      TookTemporary(s.books, i, e.additional, e.reading);
    } else {
      TookGrowth(s.books, e.temp, e.additional, e.reading);
    }
  }

  // ----- transfer -----

  /** The first reason against a transfer. */
  function TransferReason(c: Config, b: Books, p: nat, i: nat): Option<Refusal>
    requires p < |b.pendings| && i < |b.leases|
  {
    var from, to := b.pendings[p], b.leases[i];
    if to.releaseRequested then Some(Inactive)
    else if !to.resourceOnly && to.body + from.bytes > c.maxBody then Some(TransferTooLarge)
    else if from.resourceOnly != to.resourceOnly then Some(ModeChanged)
    else if from.slot && to.slot then Some(DoubleTransfer)
    else if !from.slot && !SlotFound(c, b, OfLease(i), to.body + from.bytes) then Some(LargeCapacityExhausted)
    else None
  }

  /** All bytes of the reservation, and its slot, are in the hands of the lease; the counters only change hands. */
  predicate Moved(c: Config, b: Books, r: Books, p: nat, i: nat)
    requires p < |b.pendings| && i < |b.leases|
  {
    && i < |r.leases| && p < |r.pendings|
    && r.leases[i].body == b.leases[i].body + b.pendings[p].bytes && r.pendings[p].bytes == 0
    && r.pendings[p].transferred && !r.pendings[p].slot
    && (r.leases[i].slot <==>
          || b.leases[i].slot || b.pendings[p].slot
          || (c.largeLimit != 0 && r.leases[i].body > c.largeThreshold))
    && r.body == b.body && r.response == b.response && r.pendingBody == b.pendingBody - b.pendings[p].bytes
  }

  /** A transfer, on the figures: refused for the first reason against it, without a change, or carried out in full. */
  lemma TransferExactly(c: Config, s: Sys, p: nat, i: nat)
    requires SysInv(c, s) && p < |s.books.pendings| && i < |s.books.leases| && Unflagged(s.books, p)
    ensures var out := Apply(c, s, TransferPending(p, i));
            && out.Next? && out.refusal == TransferReason(c, s.books, p, i)
            && (out.refusal.Some? ==> out.sys == s)
            && (out.refusal.None? ==> Moved(c, s.books, out.sys.books, p, i))
  {
    hide SysInv, Inv, Q.Inv, WaitsOk, ParentOk, Settle;
    SysParts(c, s);
    TransferOk(c, s.books, p, i);
    PendingBytesHeld(c, s.books, p);
  }

  lemma PendingBytesHeld(c: Config, b: Books, p: nat)
    requires Inv(c, b) && p < |b.pendings|
    ensures b.pendings[p].bytes <= b.pendingBody
    ensures b.pendings[p].slot ==> b.pendings[p].claim.Some? && b.pendings[p].claim.value in b.holders
  {
    PendingWithin(b, p);
    SlotHeld(c, b, p);
  }

  // ----- marks -----

  /** New owners start empty, active and in the mode they were opened in; a mark is exactly that mark. */
  lemma MarksExactly(c: Config, s: Sys, e: Event)
    requires Allowed(s, e)
    ensures e.OpenLease? ==>
              var r, n := Apply(c, s, e).sys.books, |s.books.leases|;
              && |r.leases| == n + 1 && MayGrow(r, OfLease(n)) && r.leases[n].resourceOnly == e.resourceOnly
              && r.leases[n].body == r.leases[n].response == 0 && r.leases[n].owners == 0 && !r.leases[n].slot
    ensures e.OpenPending? ==>
              var r, n := Apply(c, s, e).sys.books, |s.books.pendings|;
              && |r.pendings| == n + 1 && MayGrow(r, OfPending(n)) && r.pendings[n].resourceOnly == e.resourceOnly
              && r.pendings[n].bytes == 0 && !r.pendings[n].slot
    ensures e.RequestLeaseRelease? ==>
              var r := Apply(c, s, e).sys.books;
              && e.lease < |r.leases| && r.leases[e.lease] == s.books.leases[e.lease].(releaseRequested := true)
    ensures e.MarkPending? ==>
              var r := Apply(c, s, e).sys.books;
              && e.pending < |r.pendings| && r.pendings[e.pending] == s.books.pendings[e.pending].(released := true)
  {
  }
}
