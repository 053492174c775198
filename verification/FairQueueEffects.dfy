/**
 What each operation on the wait queue comes to, in the lanes' flags and the waiters' own states:
 who is in line, who has a turn, and which lanes are awake.
 */
module FairQueueEffects {
  import opened Common
  import opened FairQueue
  import FairQueueTurns

  /** Somebody of the lane is in line. */
  predicate InLine(q: Queue, lane: bool, w: WaiterId) {
    w < |q.waiters| && q.waiters[w].small == lane && q.waiters[w].state == Queued
  }

  /** Nobody is in line in a lane, and nobody holds its turn. */
  ghost predicate LaneFree(q: Queue, lane: bool) { Get(q, lane).turns == {} && forall w: nat :: !InLine(q, lane, w) }

  /** A lane hands out its turns: it is awake, and its turn is out or nobody is in line. */
  ghost predicate Serving(q: Queue, lane: bool) {
    Get(q, lane).enabled && (Get(q, lane).turns != {} || forall w: nat :: !InLine(q, lane, w))
  }

  lemma LineHead(ws: seq<Waiter>, small: bool, l: Lane, t: Tenant)
    requires LaneOk(ws, small, l) && t in l.queues
    ensures l.queues[t] != [] && l.queues[t][0] < |ws| && ws[l.queues[t][0]] == Waiter(t, small, Queued)
  {
    assert Line(ws, small, t, l.queues[t]);
  }

  /** The check of a newcomer: it waits exactly when a turn is out or somebody is in line. */
  lemma HasWaitersExactly(q: Queue, lane: bool)
    requires Inv(q)
    ensures HasWaiters(q, lane) <==> !LaneFree(q, lane)
  {
    var l := Get(q, lane);
    assert LaneOk(q.waiters, lane, l) && Placed(q.waiters, lane, l);
    if t :| t in l.queues && l.queues[t] != [] {
      LineHead(q.waiters, lane, l, t);
      assert InLine(q, lane, l.queues[t][0]);
    }
    if w: nat :| InLine(q, lane, w) {
      assert w in l.queues[q.waiters[w].tenant];
    }
  }

  /** In a settled queue every lane that is awake serves. */
  lemma AwakeServes(q: Queue, lane: bool)
    requires Inv(q) && Get(q, lane).enabled
    ensures Serving(q, lane)
  {
    var l := Get(q, lane);
    assert LaneOk(q.waiters, lane, l) && Placed(q.waiters, lane, l) && Settled(l);
    if w: nat :| InLine(q, lane, w) { assert q.waiters[w].tenant in l.queues; }
  }

  // ----- promotion -----

  /** Promotion hands a turn only to somebody in line, and puts no lane to sleep or awake. */
  lemma {:induction false} RotateEffects(q: Queue, small: bool)
    ensures var r := Rotate(q, small);
            && (forall lane :: Get(r, lane).enabled == Get(q, lane).enabled)
            && Get(r, !small) == Get(q, !small)
            && |r.waiters| == |q.waiters| && r.limit == q.limit
            && (forall w :: 0 <= w < |q.waiters| ==>
                  || r.waiters[w] == q.waiters[w]
                  || (q.waiters[w].state == Queued && r.waiters[w] == q.waiters[w].(state := Granted)))
            && (forall w :: w in Get(r, small).turns && w !in Get(q, small).turns ==> StillQueued(q, w))
    decreases Backlog(Get(q, small)), |Get(q, small).rotation|
  {
    hide Backlog;
    var l := Get(q, small);
    if l.rotation != [] {
      TakeTokenShrinks(l);
      var (m, v) := TakeToken(l);
      var skipped := Put(q, small, m);
      if v.None? {
        RotateEffects(skipped, small);
      } else if v.value >= |q.waiters| || q.waiters[v.value].state != Queued {
        RotateEffects(skipped.(count := q.count - 1), small);
      }
    }
  }

  /** Somebody is in line, in whichever lane. */
  predicate StillQueued(q: Queue, w: WaiterId) { w < |q.waiters| && q.waiters[w].state == Queued }

  lemma PromoteEffects(q: Queue, small: bool)
    ensures var r := Promote(q, small);
            && (forall lane :: Get(r, lane).enabled == Get(q, lane).enabled)
            && Get(r, !small) == Get(q, !small)
            && |r.waiters| == |q.waiters| && r.limit == q.limit
            && (forall w :: 0 <= w < |q.waiters| ==>
                  || r.waiters[w] == q.waiters[w]
                  || (q.waiters[w].state == Queued && r.waiters[w] == q.waiters[w].(state := Granted)))
            && (forall w :: w in Get(r, small).turns && w !in Get(q, small).turns ==> StillQueued(q, w))
  {
    hide Rotate;
    RotateEffects(q, small);
  }

  // ----- joining -----

  /**
   An arrival is refused exactly by a full queue; otherwise it stands in the queue as one more
   waiter, of its tenant and lane, in line or with the turn already. No lane falls asleep or wakes.
   */
  lemma JoinEffects(q: Queue, tenant: string, small: bool)
    requires Inv(q)
    ensures Join(q, tenant, small).None? <==> q.limit == Some(q.count)
    ensures Join(q, tenant, small).Some? ==>
              var r, n := Join(q, tenant, small).value, |q.waiters|;
              && |r.waiters| == n + 1
              && r.waiters[n].tenant == Normalize(tenant) && r.waiters[n].small == small
              && r.waiters[n].state != Abandoned
              && (r.waiters[n].state == Granted <==> n in Get(r, small).turns)
              && (forall lane :: Get(r, lane).enabled == Get(q, lane).enabled)
  {
    hide Promote, Inv;
    JoinInv(q, tenant, small);
    PromoteEffects(Joined(q, Normalize(tenant), small), small);
    if Join(q, tenant, small).Some? { NewcomerTurn(q, tenant, small); }
  }

  lemma NewcomerTurn(q: Queue, tenant: string, small: bool)
    requires Inv(q) && Join(q, tenant, small).Some? && Inv(Join(q, tenant, small).value)
    ensures var r, n := Join(q, tenant, small).value, |q.waiters|;
            n < |r.waiters| && (r.waiters[n].state == Granted <==> n in Get(r, small).turns)
  {
    hide Rotate;
    assert LaneOk(q.waiters, small, Get(q, small));
    var j := Joined(q, Normalize(tenant), small);
    RotateTurns(j, small, |q.waiters|);
  }

  /** Whoever is granted a turn in a promotion holds it afterwards. */
  lemma {:induction false} RotateTurns(q: Queue, small: bool, w: WaiterId)
    requires w < |q.waiters| && q.waiters[w].state == Queued && w !in Get(q, small).turns
    ensures w < |Rotate(q, small).waiters|
    ensures Rotate(q, small).waiters[w].state == Granted <==> w in Get(Rotate(q, small), small).turns
    decreases Backlog(Get(q, small)), |Get(q, small).rotation|
  {
    hide Backlog;
    var l := Get(q, small);
    if l.rotation != [] {
      TakeTokenShrinks(l);
      var (m, v) := TakeToken(l);
      var skipped := Put(q, small, m);
      if v.None? {
        RotateTurns(skipped, small, w);
      } else if v.value >= |q.waiters| || q.waiters[v.value].state != Queued {
        RotateTurns(skipped.(count := q.count - 1), small, w);
      }
    }
  }

  /** Tenants are told apart by their first 96 characters, and the unnamed one is called anonymous. */
  lemma NormalizeMeaning(a: string, b: string)
    ensures 0 < |Normalize(a)| <= 96 && Normalize(Normalize(a)) == Normalize(a)
    ensures a != "" && |a| <= 96 ==> Normalize(a) == a
    ensures a != "" && b != "" && |a| >= 96 && |b| >= 96 ==> (Normalize(a) == Normalize(b) <==> a[..96] == b[..96])
    ensures a != "" && b != "" && |a| < 96 ==> (Normalize(a) == Normalize(b) <==> a == b)
    ensures Normalize("") == Normalize("anonymous")
  {
    assert |a| == 96 ==> a[..96] == a;
    assert |b| == 96 ==> b[..96] == b;
  }

  // ----- turns and leaving -----

  /** A turn that is ended is over for good: its holder is neither in line nor has a turn. */
  lemma FinishEffects(q: Queue, w: WaiterId)
    requires Inv(q) && Allowed(q, Finish(w))
    ensures FinishTurn(q, q.waiters[w].small, w).Some?
    ensures var r, small := FinishTurn(q, q.waiters[w].small, w).value, q.waiters[w].small;
            && |r.waiters| == |q.waiters| && r.waiters[w].state == Granted
            && (forall lane :: w !in Get(r, lane).turns)
            && (forall lane :: Get(r, lane).enabled == Get(q, lane).enabled)
  {
    hide Promote;
    var small := q.waiters[w].small;
    FinishTurnInv(q, w);
    PromoteEffects(Returned(q, small, w), small);
    assert LaneOk(q.waiters, small, Get(q, small)) && LaneOk(q.waiters, !small, Get(q, !small));
  }

  /** Whoever gives up waiting is out of the line and has no turn. */
  lemma RemoveEffects(q: Queue, w: WaiterId)
    requires Inv(q) && Allowed(q, Abandon(w))
    ensures Remove(q, w).Some?
    ensures var r := Remove(q, w).value;
            && |r.waiters| == |q.waiters| && r.waiters[w].state == Abandoned
            && (forall lane :: w !in Get(r, lane).turns)
            && (forall lane :: Get(r, lane).enabled == Get(q, lane).enabled)
  {
    hide Promote;
    RemoveInv(q, w);
    var x := q.waiters[w];
    var gone := q.(waiters := q.waiters[w := x.(state := Abandoned)]);
    assert LaneOk(q.waiters, x.small, Get(q, x.small)) && LaneOk(q.waiters, !x.small, Get(q, !x.small));
    if x.state == Granted { PromoteEffects(Returned(gone, x.small, w), x.small); }
  }

  /** A notification wakes both lanes. */
  lemma NotifyEffects(q: Queue)
    ensures Notify(q).small.enabled && Notify(q).large.enabled
    ensures |Notify(q).waiters| == |q.waiters|
  {
    hide Promote;
    PromoteEffects(Put(q, true, Get(q, true).(enabled := true)), true);
    PromoteEffects(Put(Enable(q, true), false, Get(Enable(q, true), false).(enabled := true)), false);
    assert Get(Enable(q, true), true).enabled;
    assert Get(Notify(q), true).enabled && Get(Notify(q), false).enabled;
  }
}
