/**
 How far a waiter still is from its turn: the earlier waiters of its own tenant, and its tenant's
 place in the rotation. Both are carried along any sequence of queue events.
 */
module FairQueueOrder {
  import opened Common
  import opened FairQueue
  import FairQueueTurns

  /** The earlier waiters of the same tenant and lane that are still in line. */
  function Ahead(ws: seq<Waiter>, w: WaiterId): set<WaiterId>
    requires w < |ws|
  {
    set v | 0 <= v < w && ws[v] == Waiter(ws[w].tenant, ws[w].small, Queued)
  }

  function Count(log: seq<Tenant>, t: Tenant): nat {
    if log == [] then 0 else Count(log[..|log| - 1], t) + if log[|log| - 1] == t then 1 else 0
  }

  lemma {:induction false} CountAppend(a: seq<Tenant>, b: seq<Tenant>, t: Tenant)
    ensures Count(a + b, t) == Count(a, t) + Count(b, t)
  {
    if b == [] {
      assert a + b == a;
    } else {
      assert (a + b)[..|a + b| - 1] == a + b[..|b| - 1];
      CountAppend(a, b[..|b| - 1], t);
    }
  }

  lemma {:induction false} CountZero(log: seq<Tenant>, t: Tenant)
    ensures Count(log, t) == 0 <==> t !in log
  {
    if log != [] {
      CountZero(log[..|log| - 1], t);
      assert log == log[..|log| - 1] + [log[|log| - 1]];
    }
  }

  /** Turns of a lane that have ended. */
  function Ended(l: Lane): int { |l.log| - if l.active then 1 else 0 }

  // ----- waiters -----

  /** Waiters are only added, keep tenant and lane, and never return to the line. */
  predicate WaitersKept(ws: seq<Waiter>, vs: seq<Waiter>) {
    && |ws| <= |vs|
    && forall w :: 0 <= w < |ws| ==>
         && vs[w].tenant == ws[w].tenant && vs[w].small == ws[w].small
         && (vs[w].state == Queued ==> ws[w].state == Queued)
  }

  /** How a lane and the waiters moved: what was logged, and who left the line of `w`. */
  ghost predicate LineMoves(q: Queue, r: Queue, w: WaiterId)
    requires w < |q.waiters|
  {
    var lane, t := q.waiters[w].small, q.waiters[w].tenant;
    && WaitersKept(q.waiters, r.waiters)
    && Get(q, lane).log <= Get(r, lane).log
    && Ended(Get(q, lane)) <= Ended(Get(r, lane))
    && (r.waiters[w].state == Queued ==>
          Count(NewGrants(Get(q, lane), Get(r, lane)), t) + |Ahead(r.waiters, w)| <= |Ahead(q.waiters, w)|)
  }

  lemma NewGrantsCount(a: Lane, b: Lane, c: Lane, t: Tenant)
    requires a.log <= b.log && b.log <= c.log
    ensures Count(NewGrants(a, c), t) == Count(NewGrants(a, b), t) + Count(NewGrants(b, c), t)
  {
    assert NewGrants(a, c) == NewGrants(a, b) + NewGrants(b, c);
    CountAppend(NewGrants(a, b), NewGrants(b, c), t);
  }

  lemma LineMovesTransitive(q: Queue, r: Queue, p: Queue, w: WaiterId)
    requires w < |q.waiters| && LineMoves(q, r, w) && LineMoves(r, p, w)
    ensures LineMoves(q, p, w)
  {
    hide Ahead, Count, Ended, NewGrants;
    var lane, t := q.waiters[w].small, q.waiters[w].tenant;
    NewGrantsCount(Get(q, lane), Get(r, lane), Get(p, lane), t);
  }

  /** Waiters leaving, or joining behind, never put anybody ahead. */
  lemma AheadShrinks(ws: seq<Waiter>, vs: seq<Waiter>, w: WaiterId)
    requires WaitersKept(ws, vs) && w < |ws|
    ensures Ahead(vs, w) <= Ahead(ws, w)
    ensures |Ahead(vs, w)| <= |Ahead(ws, w)|
  {
    SubsetSize(Ahead(vs, w), Ahead(ws, w));
  }

  lemma {:induction false} SubsetSize(a: set<WaiterId>, b: set<WaiterId>)
    requires a <= b
    ensures |a| <= |b|
  {
    if a != {} {
      var x :| x in a;
      SubsetSize(a - {x}, b - {x});
    }
  }

  /** A change that logs no turn and ends at most the one outstanding. */
  lemma QuietMoves(q: Queue, r: Queue, w: WaiterId)
    requires w < |q.waiters| && WaitersKept(q.waiters, r.waiters)
    requires forall lane :: Get(r, lane).log == Get(q, lane).log && (Get(r, lane).active ==> Get(q, lane).active)
    ensures LineMoves(q, r, w)
  {
    hide Ahead;
    AheadShrinks(q.waiters, r.waiters, w);
    assert NewGrants(Get(q, q.waiters[w].small), Get(r, q.waiters[w].small)) == [];
  }

  /** One turn handed to `v`: if `w` waits behind the same tenant, it has one waiter less ahead. */
  lemma GrantMoves(q: Queue, r: Queue, small: bool, v: WaiterId, w: WaiterId)
    requires v < |q.waiters| && w < |q.waiters| && !Get(q, small).active
    requires q.waiters[v].state == Queued && q.waiters[v].small == small && FairQueueTurns.Oldest(q.waiters, v)
    requires r.waiters == MarkGranted(q.waiters, v) && Get(r, !small).log == Get(q, !small).log
    requires Get(r, !small).active == Get(q, !small).active && Get(r, small).active
    requires Get(r, small).log == Get(q, small).log + [q.waiters[v].tenant]
    ensures LineMoves(q, r, w)
  {
    var t := q.waiters[w].tenant;
    AheadShrinks(q.waiters, r.waiters, w);
    if q.waiters[w].small == small {
      var since := NewGrants(Get(q, small), Get(r, small));
      assert since == [q.waiters[v].tenant];
      assert Count(since, t) == if q.waiters[v].tenant == t then 1 else 0;
      if r.waiters[w].state == Queued && q.waiters[v].tenant == t {
        assert v < w && v in Ahead(q.waiters, w) && v !in Ahead(r.waiters, w);
        SubsetSize(Ahead(r.waiters, w), Ahead(q.waiters, w) - {v});
      }
    } else {
      assert NewGrants(Get(q, !small), Get(r, !small)) == [];
    }
  }

  lemma {:induction false} RotateMoves(q: Queue, small: bool, w: WaiterId)
    requires Core(q) && !Get(q, small).active && w < |q.waiters|
    ensures LineMoves(q, Rotate(q, small), w)
    decreases Backlog(Get(q, small)), |Get(q, small).rotation|
  {
    hide LineMoves, Core;
    var l := Get(q, small);
    if l.rotation == [] {
      QuietMoves(q, q, w);
    } else {
      TakeTokenShrinks(l);
      var (m, v) := TakeToken(l);
      if v.None? {
        SkipCore(q, small);
        QuietMoves(q, Put(q, small, m), w);
        RotateMoves(Put(q, small, m), small, w);
        LineMovesTransitive(q, Put(q, small, m), Rotate(q, small), w);
      } else {
        GrantCore(q, small, v.value);
        CoreFront(q, small);
        GrantMoves(q, Rotate(q, small), small, v.value, w);
      }
    }
  }

  /** The waiter that the front token selects is its tenant's oldest. */
  lemma CoreFront(q: Queue, small: bool)
    requires Core(q) && Get(q, small).rotation != [] && TakeToken(Get(q, small)).1.Some?
    ensures var v := TakeToken(Get(q, small)).1.value;
            v < |q.waiters| && q.waiters[v] == Waiter(Get(q, small).rotation[0], small, Queued)
            && FairQueueTurns.Oldest(q.waiters, v)
  {
    var l := Get(q, small);
    TakeTokenOk(q.waiters, small, l);
    FairQueueTurns.FrontIsOldest(q.waiters, small, l, l.rotation[0]);
  }

  lemma PromoteMoves(q: Queue, small: bool, w: WaiterId)
    requires Core(q) && w < |q.waiters|
    ensures LineMoves(q, Promote(q, small), w)
  {
    hide LineMoves, Core, Rotate;
    QuietMoves(q, q, w);
    if !Get(q, small).active && Get(q, small).enabled { RotateMoves(q, small, w); }
  }

  /** A change that grants nothing, and then a promotion. */
  lemma ThenPromote(q: Queue, r: Queue, small: bool, w: WaiterId)
    requires Core(r) && w < |q.waiters| && WaitersKept(q.waiters, r.waiters)
    requires forall lane :: Get(r, lane).log == Get(q, lane).log && (Get(r, lane).active ==> Get(q, lane).active)
    ensures LineMoves(q, Promote(r, small), w)
  {
    hide LineMoves, Core, Promote;
    QuietMoves(q, r, w);
    PromoteMoves(r, small, w);
    LineMovesTransitive(q, r, Promote(r, small), w);
  }

  lemma EnableMoves(q: Queue, small: bool, w: WaiterId)
    requires Inv(q) && w < |q.waiters|
    ensures LineMoves(q, Enable(q, small), w)
  {
    hide LineMoves, Promote;
    var p := Put(q, small, Get(q, small).(enabled := true));
    CoreFromLanes(p, small);
    ThenPromote(q, p, small, w);
  }

  lemma EventMoves(q: Queue, e: Event, w: WaiterId)
    requires Inv(q) && Allowed(q, e) && w < |q.waiters|
    ensures Apply(q, e).Some? && Inv(Apply(q, e).value)
    ensures LineMoves(q, Apply(q, e).value, w)
  {
    hide LineMoves, Promote, Enable, Core, Settled;
    ApplyInv(q, e);
    match e
    case Arrive(tenant, small) =>
      QuietMoves(q, q, w);
      if Join(q, tenant, small).Some? {
        JoinedCore(q, Normalize(tenant), small);
        ThenPromote(q, Joined(q, Normalize(tenant), small), small, w);
      }
    case Finish(v) => ReturnMoves(q, v, w);
    case Abandon(v) => AbandonMoves(q, v, w);
    case BlockUntilRelease(small) => QuietMoves(q, Block(q, small), w);
    case MemoryReleased =>
      EnableInv(q, true);
      EnableMoves(q, true, w);
      assert w < |Enable(q, true).waiters|;
      EnableMoves(Enable(q, true), false, w);
      LineMovesTransitive(q, Enable(q, true), Notify(q), w);
  }

  /** A turn that is ended is counted as ended, whether or not the next one goes out at once. */
  lemma ReturnMoves(q: Queue, v: WaiterId, w: WaiterId)
    requires Inv(q) && Allowed(q, Finish(v)) && w < |q.waiters| && Apply(q, Finish(v)).Some?
    ensures LineMoves(q, Apply(q, Finish(v)).value, w)
    ensures q.waiters[v].small == q.waiters[w].small ==>
              Ended(Get(Apply(q, Finish(v)).value, q.waiters[w].small)) > Ended(Get(q, q.waiters[w].small))
  {
    hide LineMoves, Promote;
    var r := Returned(q, q.waiters[v].small, v);
    CoreFromLanes(r, q.waiters[v].small);
    ThenPromote(q, r, q.waiters[v].small, w);
    PromoteMoves(r, q.waiters[v].small, w);
    EndedMoves(r, Apply(q, Finish(v)).value, w);
  }

  lemma EndedMoves(q: Queue, r: Queue, w: WaiterId)
    requires w < |q.waiters| && LineMoves(q, r, w)
    ensures Ended(Get(q, q.waiters[w].small)) <= Ended(Get(r, q.waiters[w].small))
  {
  }

  lemma AbandonMoves(q: Queue, v: WaiterId, w: WaiterId)
    requires Inv(q) && Allowed(q, Abandon(v)) && w < |q.waiters| && Remove(q, v).Some?
    ensures LineMoves(q, Remove(q, v).value, w)
  {
    hide LineMoves, Promote;
    var x := q.waiters[v];
    var gone := q.(waiters := q.waiters[v := x.(state := Abandoned)]);
    if x.state == Granted {
      ReturnedCore(q, v);
      ThenPromote(q, Returned(gone, x.small, v), x.small, w);
    } else {
      QuietMoves(q, Remove(q, v).value, w);
    }
  }

  // ----- sequences of events -----

  /** `es` leads from one queue to another. */
  ghost predicate Path(q: Queue, es: seq<Event>, r: Queue)
    decreases |es|
  {
    if es == [] then r == q
    else Allowed(q, es[0]) && Apply(q, es[0]).Some? && Path(Apply(q, es[0]).value, es[1..], r)
  }

  ghost predicate Reaches(q: Queue, r: Queue) { exists es :: Path(q, es, r) }

  lemma ReachesItself(q: Queue)
    ensures Reaches(q, q)
  {
    assert Path(q, [], q);
  }

  lemma ReachesBy(q: Queue, e: Event)
    requires Allowed(q, e) && Apply(q, e).Some?
    ensures Reaches(q, Apply(q, e).value)
  {
    assert Path(q, [e], Apply(q, e).value);
  }

  lemma {:induction false} PathAppend(q: Queue, es: seq<Event>, r: Queue, fs: seq<Event>, p: Queue)
    requires Path(q, es, r) && Path(r, fs, p)
    ensures Path(q, es + fs, p)
    decreases |es|
  {
    hide Apply, Allowed;
    if es == [] {
      assert es + fs == fs;
    } else {
      assert (es + fs)[1..] == es[1..] + fs;
      PathAppend(Apply(q, es[0]).value, es[1..], r, fs, p);
    }
  }

  lemma ReachesTransitive(q: Queue, r: Queue, p: Queue)
    requires Reaches(q, r) && Reaches(r, p)
    ensures Reaches(q, p)
  {
    hide Path;
    var es :| Path(q, es, r);
    var fs :| Path(r, fs, p);
    PathAppend(q, es, r, fs, p);
  }

  // ----- what a waiter sees -----

  /** Everything a waiter that is still in line can say about what happened since. */
  ghost predicate Moves(q: Queue, r: Queue, w: WaiterId)
    requires w < |q.waiters|
  {
    && LineMoves(q, r, w)
    && (r.waiters[w].state == Queued ==>
          Approaches(Get(q, q.waiters[w].small), Get(r, q.waiters[w].small), q.waiters[w].tenant))
  }

  /** A waiter in line keeps its tenant waiting. */
  lemma QueuedWaits(q: Queue, w: WaiterId)
    requires Inv(q) && w < |q.waiters| && q.waiters[w].state == Queued
    ensures Waiting(q, q.waiters[w].small, q.waiters[w].tenant)
    ensures HasWaiters(q, q.waiters[w].small)
  {
    var line := Get(q, q.waiters[w].small).queues[q.waiters[w].tenant];
    assert w in line;
  }

  lemma LineMovesKept(q: Queue, r: Queue, w: WaiterId)
    requires w < |q.waiters| && LineMoves(q, r, w)
    ensures WaitersKept(q.waiters, r.waiters)
  {
  }

  lemma {:induction false} PathMoves(q: Queue, es: seq<Event>, r: Queue, w: WaiterId)
    requires Inv(q) && Path(q, es, r) && w < |q.waiters|
    ensures Inv(r) && Moves(q, r, w)
    decreases |es|
  {
    hide Inv, Apply, Allowed, LineMoves, Approaches;
    var lane, t := q.waiters[w].small, q.waiters[w].tenant;
    if es == [] {
      QuietMoves(q, q, w);
      ApproachesItself(Get(q, lane), t);
    } else {
      var p := Apply(q, es[0]).value;
      EventMoves(q, es[0], w);
      LineMovesKept(q, p, w);
      PathMoves(p, es[1..], r, w);
      LineMovesKept(p, r, w);
      LineMovesTransitive(q, p, r, w);
      if r.waiters[w].state == Queued {
        QueuedWaits(q, w);
        QueuedWaits(p, w);
        ApplyApproaches(q, es[0], lane, t);
        ApproachesTransitive(Get(q, lane), Get(p, lane), Get(r, lane), t);
      }
    }
  }

  lemma ApproachesItself(l: Lane, t: Tenant)
    ensures Approaches(l, l, t)
  {
    assert NewGrants(l, l) == [];
  }

  /**
   A waiter still in line after any events has seen at most as many turns go to its own tenant as
   it had waiters of that tenant ahead; and while its tenant got none, the turns handed out in its
   lane number at most its tenant's place in the rotation.
   */
  lemma StillInLine(q: Queue, r: Queue, w: WaiterId)
    requires Inv(q) && Reaches(q, r) && w < |q.waiters|
    requires w < |r.waiters| && r.waiters[w].state == Queued
    ensures var lane, t := q.waiters[w].small, q.waiters[w].tenant;
            var since := NewGrants(Get(q, lane), Get(r, lane));
            && Get(q, lane).log <= Get(r, lane).log
            && Count(since, t) <= |Ahead(q.waiters, w)|
            && (t !in since ==> |since| <= FirstToken(Get(q, lane).rotation, t) < |Get(q, lane).rotation|)
  {
    hide Inv, Path, Count, Ahead;
    var es :| Path(q, es, r);
    PathMoves(q, es, r, w);
    QueuedWaits(q, w);
    QueuedWaits(r, w);
    WaitingToken(q, w);
  }

  lemma WaitingToken(q: Queue, w: WaiterId)
    requires Inv(q) && w < |q.waiters| && Waiting(q, q.waiters[w].small, q.waiters[w].tenant)
    ensures var rotation := Get(q, q.waiters[w].small).rotation;
            FirstToken(rotation, q.waiters[w].tenant) < |rotation|
  {
    FirstTokenAppend(Get(q, q.waiters[w].small).rotation, q.waiters[w].tenant, []);
  }

  // ----- how long a line can last -----

  /** Promotion logs at most one turn and never lengthens a rotation. */
  lemma {:induction false} RotateOne(q: Queue, small: bool)
    ensures var r := Rotate(q, small);
            && Get(r, !small) == Get(q, !small)
            && |Get(r, small).log| <= |Get(q, small).log| + 1
            && |Get(r, small).rotation| <= |Get(q, small).rotation|
    decreases Backlog(Get(q, small)), |Get(q, small).rotation|
  {
    hide Backlog, Grant;
    var l := Get(q, small);
    if l.rotation != [] {
      TakeTokenShrinks(l);
      var (m, v) := TakeToken(l);
      TokenKeeps(l);
      var skipped := Put(q, small, m);
      if v.None? {
        RotateOne(skipped, small);
      } else {
        var taken := skipped.(count := q.count - 1);
        if v.value >= |q.waiters| || q.waiters[v.value].state != Queued {
          RotateOne(taken, small);
        } else {
          GrantOne(taken, small, v.value);
        }
      }
    }
  }

  lemma TokenKeeps(l: Lane)
    requires l.rotation != []
    ensures TakeToken(l).0.log == l.log && |TakeToken(l).0.rotation| <= |l.rotation|
  {
  }

  lemma GrantOne(q: Queue, small: bool, w: WaiterId)
    requires w < |q.waiters|
    ensures var r := Grant(q, small, w);
            && Get(r, !small) == Get(q, !small)
            && |Get(r, small).log| == |Get(q, small).log| + 1
            && Get(r, small).rotation == Get(q, small).rotation
  {
  }

  lemma PromoteOne(q: Queue, small: bool, lane: bool)
    ensures |Get(Promote(q, small), lane).log| <= |Get(q, lane).log| + 1
    ensures |Get(Promote(q, small), lane).rotation| <= |Get(q, lane).rotation|
    ensures lane != small ==> Get(Promote(q, small), lane) == Get(q, lane)
  {
    hide Rotate;
    RotateOne(q, small);
  }

  /** An event hands out at most one turn of a lane, and only an arrival lengthens its rotation. */
  lemma EventOne(q: Queue, e: Event, lane: bool)
    requires Allowed(q, e) && Apply(q, e).Some?
    ensures |Get(Apply(q, e).value, lane).log| <= |Get(q, lane).log| + 1
    ensures !e.Arrive? ==> |Get(Apply(q, e).value, lane).rotation| <= |Get(q, lane).rotation|
  {
    hide Promote;
    match e
    case Arrive(tenant, small) => PromoteOne(Joined(q, Normalize(tenant), small), small, lane);
    case Finish(v) => PromoteOne(Returned(q, q.waiters[v].small, v), q.waiters[v].small, lane);
    case Abandon(v) =>
      var gone := q.(waiters := q.waiters[v := q.waiters[v].(state := Abandoned)]);
      PromoteOne(Returned(gone, q.waiters[v].small, v), q.waiters[v].small, lane);
    case BlockUntilRelease(small) =>
    case MemoryReleased =>
      var p := Put(q, true, Get(q, true).(enabled := true));
      PromoteOne(p, true, lane);
      var r := Promote(p, true);
      PromoteOne(Put(r, false, Get(r, false).(enabled := true)), false, lane);
  }

  /**
   The turns that can still go out before that of `w`, in a lane of at most `longest` tokens: a
   round for each waiter of its tenant ahead, and the tokens before its tenant's.
   */
  function Distance(q: Queue, w: WaiterId, longest: nat): nat
    requires w < |q.waiters|
  {
    |Ahead(q.waiters, w)| * longest + FirstToken(Get(q, q.waiters[w].small).rotation, q.waiters[w].tenant)
  }

  /** What a waiter that is still in line has seen of its lane. */
  ghost predicate ComesCloser(q: Queue, r: Queue, w: WaiterId, longest: nat)
    requires w < |q.waiters|
  {
    && |q.waiters| <= |r.waiters|
    && r.waiters[w].small == q.waiters[w].small && r.waiters[w].tenant == q.waiters[w].tenant
    && (r.waiters[w].state == Queued ==> q.waiters[w].state == Queued)
    && (r.waiters[w].state == Queued ==>
          |Get(r, q.waiters[w].small).log| - |Get(q, q.waiters[w].small).log| + Distance(r, w, longest)
          <= Distance(q, w, longest))
  }

  /** One round less to go, and a place within the round. */
  lemma RoundPassed(ahead: nat, left: nat, place: nat, longest: nat)
    requires left + 1 <= ahead && place < longest
    ensures 1 + left * longest + place <= ahead * longest
  {
    assert ahead * longest == (ahead - left - 1) * longest + left * longest + longest;
  }

  lemma FewerAhead(ahead: nat, left: nat, longest: nat)
    requires left <= ahead
    ensures left * longest <= ahead * longest
  {
  }

  /** Every turn handed out in the lane brings a waiter in line closer to its own. */
  lemma EventCloser(q: Queue, e: Event, w: WaiterId, longest: nat)
    requires Inv(q) && Allowed(q, e) && w < |q.waiters|
    requires Apply(q, e).Some? ==> |Get(Apply(q, e).value, q.waiters[w].small).rotation| <= longest
    ensures Apply(q, e).Some? && Inv(Apply(q, e).value) && ComesCloser(q, Apply(q, e).value, w, longest)
  {
    hide Inv, Apply, Allowed, Ahead, Count, FirstToken, LineMoves;
    var lane, t := q.waiters[w].small, q.waiters[w].tenant;
    EventMoves(q, e, w);
    var r := Apply(q, e).value;
    LineMovesKept(q, r, w);
    if r.waiters[w].state == Queued {
      QueuedWaits(q, w);
      QueuedWaits(r, w);
      ApplyApproaches(q, e, lane, t);
      LineMovesCount(q, r, w);
      EventOne(q, e, lane);
      WaitingToken(r, w);
      var since := NewGrants(Get(q, lane), Get(r, lane));
      CountZero(since, t);
      if t in since {
        RoundPassed(|Ahead(q.waiters, w)|, |Ahead(r.waiters, w)|, FirstToken(Get(r, lane).rotation, t), longest);
      } else {
        FewerAhead(|Ahead(q.waiters, w)|, |Ahead(r.waiters, w)|, longest);
      }
    }
  }

  lemma LineMovesCount(q: Queue, r: Queue, w: WaiterId)
    requires w < |q.waiters| && LineMoves(q, r, w) && r.waiters[w].state == Queued
    ensures Count(NewGrants(Get(q, q.waiters[w].small), Get(r, q.waiters[w].small)), q.waiters[w].tenant)
            + |Ahead(r.waiters, w)| <= |Ahead(q.waiters, w)|
    ensures |Get(q, q.waiters[w].small).log| <= |Get(r, q.waiters[w].small).log|
  {
  }

  lemma CloserItself(q: Queue, w: WaiterId, longest: nat)
    requires w < |q.waiters|
    ensures ComesCloser(q, q, w, longest)
  {
  }

  lemma CloserTransitive(q: Queue, r: Queue, p: Queue, w: WaiterId, longest: nat)
    requires w < |q.waiters| && ComesCloser(q, r, w, longest) && ComesCloser(r, p, w, longest)
    ensures ComesCloser(q, p, w, longest)
  {
    hide Distance;
  }

  // ----- the queue events of one critical section -----

  predicate NoArrival(es: seq<Event>) { forall i :: 0 <= i < |es| ==> !es[i].Arrive? }

  /** `r` is reached by events none of which is an arrival. */
  ghost predicate Quietly(q: Queue, r: Queue) { exists es :: Path(q, es, r) && NoArrival(es) }

  /** `r` is reached by such events and at most one event more. */
  ghost predicate InOneSection(q: Queue, r: Queue) {
    exists p :: Quietly(q, p) && (r == p || exists e :: Allowed(p, e) && Apply(p, e) == Some(r))
  }

  lemma QuietlyItself(q: Queue)
    ensures Quietly(q, q)
  {
    assert Path(q, [], q) && NoArrival([]);
  }

  lemma QuietlyBy(q: Queue, e: Event)
    requires Allowed(q, e) && Apply(q, e).Some? && !e.Arrive?
    ensures Quietly(q, Apply(q, e).value)
  {
    assert Path(q, [e], Apply(q, e).value) && NoArrival([e]);
  }

  lemma QuietlyTransitive(q: Queue, r: Queue, p: Queue)
    requires Quietly(q, r) && Quietly(r, p)
    ensures Quietly(q, p)
  {
    hide Path;
    var es :| Path(q, es, r) && NoArrival(es);
    var fs :| Path(r, fs, p) && NoArrival(fs);
    PathAppend(q, es, r, fs, p);
    assert NoArrival(es + fs);
  }

  lemma SectionQuiet(q: Queue, r: Queue)
    requires Quietly(q, r)
    ensures InOneSection(q, r)
  {
  }

  lemma SectionBy(q: Queue, p: Queue, e: Event)
    requires Quietly(q, p) && Allowed(p, e) && Apply(p, e).Some?
    ensures InOneSection(q, Apply(p, e).value)
  {
  }

  lemma SectionReaches(q: Queue, r: Queue)
    requires InOneSection(q, r)
    ensures Reaches(q, r)
  {
    hide Path, Apply, Allowed;
    var p :| Quietly(q, p) && (r == p || exists e :: Allowed(p, e) && Apply(p, e) == Some(r));
    assert Reaches(q, p);
    if r != p {
      var e :| Allowed(p, e) && Apply(p, e) == Some(r);
      ReachesBy(p, e);
      ReachesTransitive(q, p, r);
    }
  }

  lemma {:induction false} PathCloser(q: Queue, es: seq<Event>, r: Queue, w: WaiterId, longest: nat)
    requires Inv(q) && Path(q, es, r) && NoArrival(es) && w < |q.waiters|
    requires |Get(q, q.waiters[w].small).rotation| <= longest
    ensures Inv(r) && ComesCloser(q, r, w, longest)
    ensures |Get(r, q.waiters[w].small).rotation| <= longest
    decreases |es|
  {
    hide Inv, Apply, Allowed, Distance;
    if es == [] {
      CloserItself(q, w, longest);
    } else {
      EventOne(q, es[0], q.waiters[w].small);
      EventCloser(q, es[0], w, longest);
      PathCloser(Apply(q, es[0]).value, es[1..], r, w, longest);
      CloserTransitive(q, Apply(q, es[0]).value, r, w, longest);
    }
  }

  /** One critical section brings a waiter in line closer by the turns that it hands out. */
  lemma SectionCloser(q: Queue, r: Queue, w: WaiterId, longest: nat)
    requires Inv(q) && InOneSection(q, r) && w < |q.waiters|
    requires |Get(q, q.waiters[w].small).rotation| <= longest && |Get(r, q.waiters[w].small).rotation| <= longest
    ensures ComesCloser(q, r, w, longest)
  {
    hide Inv, Path, Apply, Allowed, Distance;
    var p :| Quietly(q, p) && (r == p || exists e :: Allowed(p, e) && Apply(p, e) == Some(r));
    var es :| Path(q, es, p) && NoArrival(es);
    PathCloser(q, es, p, w, longest);
    if r != p {
      var e :| Allowed(p, e) && Apply(p, e) == Some(r);
      EventCloser(p, e, w, longest);
      CloserTransitive(q, p, r, w, longest);
    }
  }
}
