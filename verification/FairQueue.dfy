/**
 The fair body-memory wait queue as mathematics: two lanes, each rotating between tenants,
 each handing out one turn at a time. The invariant holds over every run of events, and
 a waiting tenant is bypassed at most as often as its place in the rotation.
 */
module FairQueue {
  import opened Common

  type Tenant = string

  type WaiterId = nat

  datatype WaiterState = Queued | Granted | Abandoned

  datatype Waiter = Waiter(tenant: Tenant, small: bool, state: WaiterState)

  /**
   One lane. `turns` and `log` are history: the waiters whose turn is outstanding, and the tenants
   granted so far. Nothing ever reads them to make a decision.
   */
  datatype Lane = Lane(
    queues: map<Tenant, seq<WaiterId>>, rotation: seq<Tenant>, active: bool, enabled: bool,
    turns: set<WaiterId>, log: seq<Tenant>)

  const EMPTY_LANE := Lane(map[], [], false, true, {}, [])

  /** Waiters are numbered in order of arrival; nobody is ever forgotten. */
  datatype Queue = Queue(limit: Option<nat>, small: Lane, large: Lane, count: int, waiters: seq<Waiter>)

  function New(limit: Option<nat>): Queue { Queue(limit, EMPTY_LANE, EMPTY_LANE, 0, []) }

  function Get(q: Queue, small: bool): Lane { if small then q.small else q.large }

  function Put(q: Queue, small: bool, l: Lane): Queue {
    if small then q.(small := l) else q.(large := l)
  }

  function Normalize(tenant: string): Tenant {
    var named := if tenant == "" then "anonymous" else tenant;
    if |named| > 96 then named[..96] else named
  }

  // ----- sizes -----

  ghost function Lengths(queues: map<Tenant, seq<WaiterId>>): map<Tenant, nat> {
    map t | t in queues :: |queues[t]|
  }

  /** The number of waiters queued in a lane. */
  ghost function Backlog(l: Lane): nat { MapSum(Lengths(l.queues)) }

  lemma LengthsUpdate(queues: map<Tenant, seq<WaiterId>>, t: Tenant, s: seq<WaiterId>)
    ensures MapSum(Lengths(queues[t := s])) == MapSum(Lengths(queues)) + |s| - (if t in queues then |queues[t]| else 0)
  {
    assert Lengths(queues[t := s]) == Lengths(queues)[t := |s|];
    MapSumUpdate(Lengths(queues), t, |s|);
  }

  lemma LengthsRemove(queues: map<Tenant, seq<WaiterId>>, t: Tenant)
    ensures MapSum(Lengths(queues - {t})) == MapSum(Lengths(queues)) - (if t in queues then |queues[t]| else 0)
  {
    assert Lengths(queues - {t}) == Lengths(queues) - {t};
    if t in queues { MapSumRemove(Lengths(queues), t); } else { assert queues - {t} == queues; }
  }

  /** Storing a tenant queue and dropping it when it has become empty. */
  function Store(queues: map<Tenant, seq<WaiterId>>, t: Tenant, s: seq<WaiterId>): map<Tenant, seq<WaiterId>> {
    if s == [] then queues - {t} else queues[t := s]
  }

  lemma StoreSum(queues: map<Tenant, seq<WaiterId>>, t: Tenant, s: seq<WaiterId>)
    ensures MapSum(Lengths(Store(queues, t, s)))
         == MapSum(Lengths(queues)) + |s| - (if t in queues then |queues[t]| else 0)
  {
    if s == [] { LengthsRemove(queues, t); } else { LengthsUpdate(queues, t, s); }
  }

  // ----- operations -----

  /** The lane after its front token has been taken, and the waiter that token selects. */
  function TakeToken(l: Lane): (Lane, Option<WaiterId>)
    requires l.rotation != []
  {
    var t := l.rotation[0];
    var rest := l.rotation[1..];
    if t !in l.queues || l.queues[t] == [] then
      (l.(rotation := rest, queues := l.queues - {t}), None)
    else
      var tail := l.queues[t][1..];
      (l.(rotation := if tail == [] then rest else rest + [t], queues := Store(l.queues, t, tail)),
       Some(l.queues[t][0]))
  }

  lemma TakeTokenShrinks(l: Lane)
    requires l.rotation != []
    ensures var (m, w) := TakeToken(l);
            && Backlog(m) == Backlog(l) - (if w.Some? then 1 else 0)
            && (w.None? ==> |m.rotation| < |l.rotation|)
  {
    var t := l.rotation[0];
    if t in l.queues && l.queues[t] != [] {
      StoreSum(l.queues, t, l.queues[t][1..]);
    } else {
      LengthsRemove(l.queues, t);
    }
  }

  function Grant(q: Queue, small: bool, w: WaiterId): Queue
    requires w < |q.waiters|
  {
    var l := Get(q, small);
    Put(q, small, l.(active := true, turns := l.turns + {w}, log := l.log + [q.waiters[w].tenant]))
      .(waiters := q.waiters[w := q.waiters[w].(state := Granted)])
  }

  /** The promotion loop: take tokens until one selects a waiter that is still queued. */
  function Rotate(q: Queue, small: bool): Queue
    decreases Backlog(Get(q, small)), |Get(q, small).rotation|
  {
    var l := Get(q, small);
    if l.rotation == [] then q else
      TakeTokenShrinks(l);
      var (m, w) := TakeToken(l);
      if w.None? then Rotate(Put(q, small, m), small)
      else
        var taken := Put(q, small, m).(count := q.count - 1);
        if w.value >= |q.waiters| || q.waiters[w.value].state != Queued then Rotate(taken, small)
        else Grant(taken, small, w.value)
  }

  function Promote(q: Queue, small: bool): Queue {
    if Get(q, small).active || !Get(q, small).enabled then q else Rotate(q, small)
  }

  /** The queue with a new waiter standing in line, before any promotion. */
  function Joined(q: Queue, t: Tenant, small: bool): Queue {
    var l := Get(q, small);
    var known := t in l.queues;
    var line := if known then l.queues[t] else [];
    var m := l.(queues := l.queues[t := line + [|q.waiters|]],
                rotation := if known then l.rotation else l.rotation + [t]);
    Put(q, small, m).(count := q.count + 1, waiters := q.waiters + [Waiter(t, small, Queued)])
  }

  /** A new waiter queues behind its tenant, unless the queue is full. */
  function Join(q: Queue, tenant: string, small: bool): Option<Queue> {
    if q.limit.Some? && q.count >= q.limit.value then None
    else
      Some(Promote(Joined(q, Normalize(tenant), small), small))
  }

  /** The queue after a granted turn is returned, before the next promotion. */
  function Returned(q: Queue, small: bool, w: WaiterId): Queue {
    Put(q, small, Get(q, small).(active := false, turns := Get(q, small).turns - {w}))
  }

  /** Ends the lane's turn, held by `w`; None is the underflow error. */
  function FinishTurn(q: Queue, small: bool, w: WaiterId): Option<Queue> {
    var l := Get(q, small);
    if !l.active then None
    else Some(Promote(Returned(q, small, w), small))
  }

  function Block(q: Queue, small: bool): Queue {
    Put(q, small, Get(q, small).(enabled := false))
  }

  function Enable(q: Queue, small: bool): Queue {
    Promote(Put(q, small, Get(q, small).(enabled := true)), small)
  }

  function Notify(q: Queue): Queue { Enable(Enable(q, true), false) }

  /** Timeout or cancellation of a waiter; None is the underflow error. */
  function Remove(q: Queue, w: WaiterId): Option<Queue>
    requires w < |q.waiters|
  {
    var x := q.waiters[w];
    var gone := q.(waiters := q.waiters[w := x.(state := Abandoned)]);
    match x.state
    case Granted => FinishTurn(gone, x.small, w)
    case Abandoned => Some(q)
    case Queued =>
      var l := Get(q, x.small);
      if x.tenant !in l.queues then Some(gone)
      else
        var line := l.queues[x.tenant];
        var m := l.(queues := Store(l.queues, x.tenant, Without(line, w)));
        Some(Put(gone, x.small, m).(count := if w in line then q.count - 1 else q.count))
  }

  function HasWaiters(q: Queue, small: bool): bool {
    var l := Get(q, small);
    l.active || exists t :: t in l.queues && l.queues[t] != []
  }

  // ----- invariant -----

  /** Queue entries are queued waiters of that tenant and lane, in order of arrival. */
  predicate Line(ws: seq<Waiter>, small: bool, t: Tenant, line: seq<WaiterId>) {
    && line != []
    && Increasing(line)
    && forall i :: 0 <= i < |line| ==> line[i] < |ws| && ws[line[i]] == Waiter(t, small, Queued)
  }

  /** Everything about one lane except that promotion has been carried through. */
  ghost predicate LaneOk(ws: seq<Waiter>, small: bool, l: Lane) {
    && (forall t :: t in l.queues ==> t in l.rotation && Line(ws, small, t, l.queues[t]))
    && (l.active <==> l.turns != {})
    && (forall v, w :: v in l.turns && w in l.turns ==> v == w)
    && (forall w :: w in l.turns ==> w < |ws| && ws[w].state == Granted && ws[w].small == small)
  }

  /** Every waiter in state `Queued` really stands in its tenant's queue. */
  predicate Placed(ws: seq<Waiter>, small: bool, l: Lane) {
    forall w :: 0 <= w < |ws| && ws[w].small == small && ws[w].state == Queued ==>
      ws[w].tenant in l.queues && w in l.queues[ws[w].tenant]
  }

  /** A lane free to promote has nobody left to promote. */
  predicate Settled(l: Lane) { l.enabled && !l.active ==> l.queues == map[] }

  ghost predicate Core(q: Queue) {
    && LaneOk(q.waiters, true, q.small) && LaneOk(q.waiters, false, q.large)
    && Placed(q.waiters, true, q.small) && Placed(q.waiters, false, q.large)
    && q.count == Backlog(q.small) + Backlog(q.large)
    && (q.limit.Some? ==> q.count <= q.limit.value)
  }

  ghost predicate Inv(q: Queue) { Core(q) && Settled(q.small) && Settled(q.large) }

  lemma NewInv(limit: Option<nat>)
    ensures Inv(New(limit))
  {
    assert Lengths(EMPTY_LANE.queues) == map[];
  }

  /** The position of a tenant's first token, or the rotation's length when it has none. */
  function FirstToken(rotation: seq<Tenant>, t: Tenant): nat {
    if rotation == [] || rotation[0] == t then 0 else 1 + FirstToken(rotation[1..], t)
  }

  lemma {:induction false} FirstTokenAppend(rotation: seq<Tenant>, t: Tenant, more: seq<Tenant>)
    requires t in rotation
    ensures FirstToken(rotation + more, t) == FirstToken(rotation, t)
    ensures FirstToken(rotation, t) < |rotation|
  {
    if rotation[0] != t {
      assert (rotation + more)[1..] == rotation[1..] + more;
      FirstTokenAppend(rotation[1..], t, more);
    }
  }

  lemma LineFrame(ws: seq<Waiter>, w: WaiterId, x: Waiter, small: bool, t: Tenant, line: seq<WaiterId>)
    requires Line(ws, small, t, line) && w < |ws| && w !in line
    ensures Line(ws[w := x], small, t, line)
  {
  }

  lemma LineTail(ws: seq<Waiter>, w: WaiterId, x: Waiter, small: bool, t: Tenant, line: seq<WaiterId>)
    requires Line(ws, small, t, line) && line[0] == w && |line| > 1
    ensures w < |ws| && Line(ws[w := x], small, t, line[1..])
  {
    var tail := line[1..];
    assert forall i :: 0 <= i < |tail| ==> tail[i] == line[i + 1] && tail[i] != w;
  }

  /** The state after the granted waiter has left its lane's queues. */
  function MarkGranted(ws: seq<Waiter>, w: WaiterId): seq<Waiter>
    requires w < |ws|
  {
    ws[w := ws[w].(state := Granted)]
  }

  /** Taking the front token keeps the core, up to the waiter taken out. */
  lemma TakeTokenOk(ws: seq<Waiter>, small: bool, l: Lane)
    requires LaneOk(ws, small, l) && Placed(ws, small, l) && l.rotation != []
    ensures var (m, w) := TakeToken(l);
            && (w.None? ==> LaneOk(ws, small, m) && Placed(ws, small, m))
            && (w.Some? ==>
                  && w.value < |ws| && ws[w.value] == Waiter(l.rotation[0], small, Queued)
                  && LaneOk(MarkGranted(ws, w.value), small, m.(active := true, turns := {w.value}))
                  && Placed(MarkGranted(ws, w.value), small, m))
  {
    var (m, w) := TakeToken(l);
    if w.None? {
      forall u | u in m.queues ensures u in m.rotation { assert u in l.queues && u != l.rotation[0]; }
    } else {
      assert Line(ws, small, l.rotation[0], l.queues[l.rotation[0]]);
      hide Line;
      TakenLines(ws, small, l);
      TakenPlaced(ws, small, l);
    }
  }

  lemma TakenLines(ws: seq<Waiter>, small: bool, l: Lane)
    requires LaneOk(ws, small, l) && l.rotation != [] && TakeToken(l).1.Some?
    ensures var (m, w) := TakeToken(l);
            && w.value < |ws|
            && forall u :: u in m.queues ==>
                 u in m.rotation && Line(MarkGranted(ws, w.value), small, u, m.queues[u])
  {
    var t, line := l.rotation[0], l.queues[l.rotation[0]];
    var (m, w) := TakeToken(l);
    assert Line(ws, small, t, line);
    var granted := ws[w.value].(state := Granted);
    forall u | u in m.queues ensures u in m.rotation && Line(MarkGranted(ws, w.value), small, u, m.queues[u]) {
      assert Line(ws, small, u, l.queues[u]);
      if u == t {
        LineTail(ws, w.value, granted, small, t, line);
      } else {
        LineFrame(ws, w.value, granted, small, u, l.queues[u]);
      }
    }
  }

  lemma TakenPlaced(ws: seq<Waiter>, small: bool, l: Lane)
    requires Placed(ws, small, l) && l.rotation != [] && TakeToken(l).1.Some? && TakeToken(l).1.value < |ws|
    requires ws[TakeToken(l).1.value].tenant == l.rotation[0]
    ensures var (m, w) := TakeToken(l);
            Placed(MarkGranted(ws, w.value), small, m)
  {
    var (m, w) := TakeToken(l);
    var ws' := MarkGranted(ws, w.value);
    forall v | 0 <= v < |ws'| && ws'[v].small == small && ws'[v].state == Queued
      ensures ws'[v].tenant in m.queues && v in m.queues[ws'[v].tenant]
    {
      assert v in l.queues[ws[v].tenant];
    }
  }

  /** Another lane does not notice a waiter of this lane changing state. */
  lemma OtherLane(ws: seq<Waiter>, w: WaiterId, x: Waiter, small: bool, l: Lane)
    requires w < |ws| && ws[w].small == x.small != small
    requires LaneOk(ws, small, l) && Placed(ws, small, l)
    ensures LaneOk(ws[w := x], small, l) && Placed(ws[w := x], small, l)
  {
  }

  /** What a lane contributes to the core. */
  ghost predicate LaneCore(ws: seq<Waiter>, small: bool, l: Lane) {
    LaneOk(ws, small, l) && Placed(ws, small, l)
  }

  lemma CoreFromLanes(q: Queue, small: bool)
    requires LaneCore(q.waiters, small, Get(q, small)) && LaneCore(q.waiters, !small, Get(q, !small))
    requires q.count == Backlog(q.small) + Backlog(q.large)
    requires q.limit.Some? ==> q.count <= q.limit.value
    ensures Core(q)
  {
  }

  /** The state of the loop once a token has selected a waiter. */
  function Taken(q: Queue, small: bool): Queue
    requires Get(q, small).rotation != []
  {
    Put(q, small, TakeToken(Get(q, small)).0).(count := q.count - 1)
  }

  lemma GrantCore(q: Queue, small: bool, w: WaiterId)
    requires Core(q) && !Get(q, small).active
    requires Get(q, small).rotation != [] && TakeToken(Get(q, small)).1 == Some(w)
    ensures w < |q.waiters| && q.waiters[w].state == Queued
    ensures Core(Grant(Taken(q, small), small, w))
  {
    var l := Get(q, small);
    TakeTokenShrinks(l);
    TakeTokenOk(q.waiters, small, l);
    var m := TakeToken(l).0;
    assert m.turns == {};
    var g := Grant(Taken(q, small), small, w);
    OtherLane(q.waiters, w, q.waiters[w].(state := Granted), !small, Get(q, !small));
    assert LaneCore(g.waiters, small, Get(g, small)) by {
      assert g.waiters == MarkGranted(q.waiters, w);
      LaneLog(g.waiters, small, m.(active := true, turns := {w}), l.log + [q.waiters[w].tenant]);
    }
    CoreFromLanes(g, small);
  }

  lemma LaneLog(ws: seq<Waiter>, small: bool, l: Lane, log: seq<Tenant>)
    requires LaneCore(ws, small, l)
    ensures LaneCore(ws, small, l.(log := log))
  {
  }

  lemma SkipCore(q: Queue, small: bool)
    requires Core(q) && Get(q, small).rotation != [] && TakeToken(Get(q, small)).1 == None
    ensures Core(Put(q, small, TakeToken(Get(q, small)).0))
  {
    TakeTokenShrinks(Get(q, small));
    TakeTokenOk(q.waiters, small, Get(q, small));
    CoreFromLanes(Put(q, small, TakeToken(Get(q, small)).0), small);
  }

  /**
   The promotion loop settles its lane: it ends with a turn handed out or with no waiter
   left, never touches the other lane, and passes over no tenant that is waiting.
   */
  lemma {:induction false} RotateSettles(q: Queue, small: bool)
    requires Core(q) && !Get(q, small).active
    ensures var p := Rotate(q, small);
            && Core(p) && Settled(Get(p, small))
            && Get(p, !small) == Get(q, !small)
            && Get(p, small).enabled == Get(q, small).enabled
            && |p.waiters| == |q.waiters| && p.limit == q.limit
    decreases Backlog(Get(q, small)), |Get(q, small).rotation|
  {
    var l := Get(q, small);
    if l.rotation != [] {
      TakeTokenShrinks(l);
      var (m, w) := TakeToken(l);
      if w.None? {
        SkipCore(q, small);
        RotateSettles(Put(q, small, m), small);
      } else {
        GrantCore(q, small, w.value);
      }
    } else {
      assert forall t :: t !in l.queues;
    }
  }

  lemma PromoteSettles(q: Queue, small: bool)
    requires Core(q) && (Settled(Get(q, !small)))
    ensures Inv(Promote(q, small))
    ensures Get(Promote(q, small), !small) == Get(q, !small)
    ensures |Promote(q, small).waiters| == |q.waiters| && Promote(q, small).limit == q.limit
  {
    if !(Get(q, small).active || !Get(q, small).enabled) { RotateSettles(q, small); }
  }

  lemma LineAppend(ws: seq<Waiter>, small: bool, t: Tenant, line: seq<WaiterId>)
    requires line == [] || Line(ws, small, t, line)
    ensures Line(ws + [Waiter(t, small, Queued)], small, t, line + [|ws|])
  {
  }

  lemma LaneAppend(ws: seq<Waiter>, x: Waiter, small: bool, l: Lane)
    requires LaneOk(ws, small, l) && Placed(ws, small, l) && x.small != small
    ensures LaneOk(ws + [x], small, l) && Placed(ws + [x], small, l)
  {
  }

  lemma JoinedCore(q: Queue, t: Tenant, small: bool)
    requires Core(q) && (q.limit.Some? ==> q.count < q.limit.value)
    ensures Core(Joined(q, t, small))
    ensures Get(Joined(q, t, small), !small) == Get(q, !small)
  {
    var l := Get(q, small);
    var x := Waiter(t, small, Queued);
    var line := if t in l.queues then l.queues[t] else [];
    LengthsUpdate(l.queues, t, line + [|q.waiters|]);
    LaneAppend(q.waiters, x, !small, Get(q, !small));
    JoinedLane(q.waiters, l, t, small);
    CoreFromLanes(Joined(q, t, small), small);
  }

  lemma JoinedLane(ws: seq<Waiter>, l: Lane, t: Tenant, small: bool)
    requires LaneCore(ws, small, l)
    ensures var line := if t in l.queues then l.queues[t] else [];
            LaneCore(ws + [Waiter(t, small, Queued)], small,
                     l.(queues := l.queues[t := line + [|ws|]],
                        rotation := if t in l.queues then l.rotation else l.rotation + [t]))
  {
    hide Line;
    JoinedLines(ws, l, t, small);
    JoinedPlaced(ws, l, t, small);
  }

  /** A lane's lines with a newcomer at the end of its tenant's. */
  function Appended(ws: seq<Waiter>, l: Lane, t: Tenant): map<Tenant, seq<WaiterId>> {
    l.queues[t := (if t in l.queues then l.queues[t] else []) + [|ws|]]
  }

  lemma JoinedLines(ws: seq<Waiter>, l: Lane, t: Tenant, small: bool)
    requires LaneOk(ws, small, l)
    ensures forall u :: u in Appended(ws, l, t) ==>
              && u in (if t in l.queues then l.rotation else l.rotation + [t])
              && Line(ws + [Waiter(t, small, Queued)], small, u, Appended(ws, l, t)[u])
  {
    LineAppend(ws, small, t, if t in l.queues then l.queues[t] else []);
    forall u | u in l.queues && u != t ensures Line(ws + [Waiter(t, small, Queued)], small, u, l.queues[u]) {
      assert Line(ws, small, u, l.queues[u]);
    }
  }

  lemma JoinedPlaced(ws: seq<Waiter>, l: Lane, t: Tenant, small: bool)
    requires Placed(ws, small, l)
    ensures Placed(ws + [Waiter(t, small, Queued)], small, l.(queues := Appended(ws, l, t)))
  {
    var ws' := ws + [Waiter(t, small, Queued)];
    forall v | 0 <= v < |ws'| && ws'[v].small == small && ws'[v].state == Queued
      ensures ws'[v].tenant in Appended(ws, l, t) && v in Appended(ws, l, t)[ws'[v].tenant]
    {
      if v < |ws| { assert v in l.queues[ws[v].tenant]; }
    }
  }

  /** An arrival is refused exactly when the queue is full. */
  lemma JoinInv(q: Queue, tenant: string, small: bool)
    requires Inv(q)
    ensures var r := Join(q, tenant, small);
            && (r.None? <==> q.limit.Some? && q.count == q.limit.value)
            && (r.Some? ==> Inv(r.value) && |r.value.waiters| == |q.waiters| + 1 && r.value.limit == q.limit)
  {
    if !(q.limit.Some? && q.count >= q.limit.value) {
      JoinedCore(q, Normalize(tenant), small);
      PromoteSettles(Joined(q, Normalize(tenant), small), small);
    }
  }

  /** A task holding an outstanding turn can always end it. */
  lemma FinishTurnInv(q: Queue, w: WaiterId)
    requires Inv(q) && w < |q.waiters| && w in Get(q, q.waiters[w].small).turns
    ensures var small := q.waiters[w].small;
            var r := FinishTurn(q, small, w);
            && r.Some? && Inv(r.value) && r.value.limit == q.limit
            && |r.value.waiters| == |q.waiters|
            && Get(r.value, !small) == Get(q, !small)
  {
    var small := q.waiters[w].small;
    CoreFromLanes(Returned(q, small, w), small);
    PromoteSettles(Returned(q, small, w), small);
  }

  lemma NotifyInv(q: Queue)
    requires Inv(q)
    ensures Inv(Notify(q)) && |Notify(q).waiters| == |q.waiters| && Notify(q).limit == q.limit
  {
    EnableInv(q, true);
    EnableInv(Enable(q, true), false);
  }

  lemma EnableInv(q: Queue, small: bool)
    requires Inv(q)
    ensures Inv(Enable(q, small)) && |Enable(q, small).waiters| == |q.waiters| && Enable(q, small).limit == q.limit
    ensures Get(Enable(q, small), !small) == Get(q, !small)
    ensures Get(q, small).turns <= Get(Enable(q, small), small).turns
  {
    PromoteSettles(Put(q, small, Get(q, small).(enabled := true)), small);
  }

  lemma LineWithout(ws: seq<Waiter>, w: WaiterId, x: Waiter, small: bool, t: Tenant, line: seq<WaiterId>)
    requires Line(ws, small, t, line) && w < |ws| && Without(line, w) != []
    ensures Line(ws[w := x], small, t, Without(line, w))
  {
    WithoutMembers(line, w);
    var r := Without(line, w);
    assert forall i :: 0 <= i < |r| ==> r[i] in line && r[i] != w;
  }

  lemma LaneWithout(ws: seq<Waiter>, w: WaiterId, small: bool, l: Lane)
    requires LaneCore(ws, small, l) && w < |ws| && ws[w].small == small && ws[w].state == Queued
    ensures ws[w].tenant in l.queues && w in l.queues[ws[w].tenant]
    ensures LaneCore(ws[w := ws[w].(state := Abandoned)], small,
                     l.(queues := Store(l.queues, ws[w].tenant, Without(l.queues[ws[w].tenant], w))))
  {
    assert w in l.queues[ws[w].tenant];
    hide Line;
    RemainingLines(ws, w, small, l);
    RemainingPlaced(ws, w, small, l);
  }

  /** A lane's lines without a waiter. */
  function Remaining(ws: seq<Waiter>, w: WaiterId, l: Lane): map<Tenant, seq<WaiterId>>
    requires w < |ws| && ws[w].tenant in l.queues
  {
    Store(l.queues, ws[w].tenant, Without(l.queues[ws[w].tenant], w))
  }

  lemma RemainingLines(ws: seq<Waiter>, w: WaiterId, small: bool, l: Lane)
    requires LaneOk(ws, small, l) && w < |ws| && ws[w].small == small && ws[w].tenant in l.queues
    ensures forall u :: u in Remaining(ws, w, l) ==>
              u in l.rotation && Line(ws[w := ws[w].(state := Abandoned)], small, u, Remaining(ws, w, l)[u])
  {
    var x := ws[w].(state := Abandoned);
    forall u | u in Remaining(ws, w, l) ensures u in l.rotation && Line(ws[w := x], small, u, Remaining(ws, w, l)[u]) {
      assert Line(ws, small, u, l.queues[u]);
      if u == x.tenant {
        LineWithout(ws, w, x, small, u, l.queues[u]);
      } else {
        LineFrame(ws, w, x, small, u, l.queues[u]);
      }
    }
  }

  lemma RemainingPlaced(ws: seq<Waiter>, w: WaiterId, small: bool, l: Lane)
    requires LaneOk(ws, small, l) && Placed(ws, small, l)
    requires w < |ws| && ws[w].small == small && ws[w].tenant in l.queues
    ensures Placed(ws[w := ws[w].(state := Abandoned)], small, l.(queues := Remaining(ws, w, l)))
  {
    assert Line(ws, small, ws[w].tenant, l.queues[ws[w].tenant]);
    WithoutMembers(l.queues[ws[w].tenant], w);
    var ws' := ws[w := ws[w].(state := Abandoned)];
    forall v | 0 <= v < |ws'| && ws'[v].small == small && ws'[v].state == Queued
      ensures ws'[v].tenant in Remaining(ws, w, l) && v in Remaining(ws, w, l)[ws'[v].tenant]
    {
      assert v in l.queues[ws[v].tenant];
    }
  }

  lemma ReturnedCore(q: Queue, w: WaiterId)
    requires Core(q) && w < |q.waiters| && w in Get(q, q.waiters[w].small).turns
    ensures Core(Returned(q.(waiters := q.waiters[w := q.waiters[w].(state := Abandoned)]), q.waiters[w].small, w))
  {
    var x := q.waiters[w];
    var gone := q.(waiters := q.waiters[w := x.(state := Abandoned)]);
    OtherLane(q.waiters, w, x.(state := Abandoned), !x.small, Get(q, !x.small));
    var l := Get(q, x.small);
    forall u | u in l.queues ensures Line(gone.waiters, x.small, u, l.queues[u]) {
      LineFrame(q.waiters, w, gone.waiters[w], x.small, u, l.queues[u]);
    }
    CoreFromLanes(Returned(gone, x.small, w), x.small);
  }

  /** Abandonment takes a queued waiter out, or returns a turn that was already handed over. */
  lemma RemoveInv(q: Queue, w: WaiterId)
    requires Inv(q) && w < |q.waiters|
    requires q.waiters[w].state == Granted ==> w in Get(q, q.waiters[w].small).turns
    ensures Remove(q, w).Some? && Inv(Remove(q, w).value)
    ensures |Remove(q, w).value.waiters| == |q.waiters| && Remove(q, w).value.limit == q.limit
  {
    var x := q.waiters[w];
    var gone := q.(waiters := q.waiters[w := x.(state := Abandoned)]);
    match x.state
    case Granted =>
      ReturnedCore(q, w);
      PromoteSettles(Returned(gone, x.small, w), x.small);
    case Abandoned =>
    case Queued => RemoveQueuedInv(q, w);
  }

  lemma RemoveQueuedInv(q: Queue, w: WaiterId)
    requires Inv(q) && w < |q.waiters| && q.waiters[w].state == Queued
    ensures Remove(q, w).Some? && Inv(Remove(q, w).value)
    ensures |Remove(q, w).value.waiters| == |q.waiters| && Remove(q, w).value.limit == q.limit
  {
    var x := q.waiters[w];
    var l := Get(q, x.small);
    var line := l.queues[x.tenant];
    LaneWithout(q.waiters, w, x.small, l);
    WithoutMembers(line, w);
    StoreSum(l.queues, x.tenant, Without(line, w));
    OtherLane(q.waiters, w, x.(state := Abandoned), !x.small, Get(q, !x.small));
    CoreFromLanes(Remove(q, w).value, x.small);
    assert l.queues != map[];
  }

  // ----- runs -----

  datatype Event =
    | Arrive(tenant: string, small: bool)
    | Finish(waiter: WaiterId)
    | Abandon(waiter: WaiterId)
    | BlockUntilRelease(small: bool)
    | MemoryReleased

  /** Only the task that was handed a turn, and has not ended it, may end or abandon it. */
  predicate Allowed(q: Queue, e: Event) {
    match e
    case Finish(w) => w < |q.waiters| && w in Get(q, q.waiters[w].small).turns
    case Abandon(w) =>
      && w < |q.waiters|
      && (q.waiters[w].state == Granted ==> w in Get(q, q.waiters[w].small).turns)
    case _ => true
  }

  /** The queue after an event; None is the underflow error. A full queue refuses an arrival. */
  function Apply(q: Queue, e: Event): Option<Queue>
    requires Allowed(q, e)
  {
    match e
    case Arrive(tenant, small) => (match Join(q, tenant, small) case Some(p) => Some(p) case None => Some(q))
    case Finish(w) => FinishTurn(q, q.waiters[w].small, w)
    case Abandon(w) => Remove(q, w)
    case BlockUntilRelease(small) => Some(Block(q, small))
    case MemoryReleased => Some(Notify(q))
  }

  /** No event loses a turn: the invariant is kept and the underflow error is unreachable. */
  lemma ApplyInv(q: Queue, e: Event)
    requires Inv(q) && Allowed(q, e)
    ensures Apply(q, e).Some? && Inv(Apply(q, e).value)
  {
    match e
    case Arrive(tenant, small) => JoinInv(q, tenant, small);
    case Finish(w) => FinishTurnInv(q, w);
    case Abandon(w) => RemoveInv(q, w);
    case BlockUntilRelease(small) =>
    case MemoryReleased => NotifyInv(q);
  }

  /** `trace` is a run: each state follows from the one before by an allowed event. */
  ghost predicate IsRun(trace: seq<Queue>, events: seq<Event>) {
    && |trace| == |events| + 1
    && forall i :: 0 <= i < |events| ==>
         Allowed(trace[i], events[i]) && Apply(trace[i], events[i]) == Some(trace[i + 1])
  }

  /** Every state of every run from the empty queue satisfies the invariant. */
  lemma {:induction false} RunInv(trace: seq<Queue>, events: seq<Event>, n: nat)
    requires IsRun(trace, events) && Inv(trace[0]) && n < |trace|
    ensures Inv(trace[n])
  {
    if n > 0 {
      RunInv(trace, events, n - 1);
      ApplyInv(trace[n - 1], events[n - 1]);
    }
  }

  // ----- bounded bypass -----

  predicate Waiting(q: Queue, small: bool, t: Tenant) { t in Get(q, small).queues }

  /** The grants in a lane between two states. */
  function NewGrants(before: Lane, after: Lane): seq<Tenant> {
    if |before.log| <= |after.log| then after.log[|before.log|..] else []
  }

  /** How a lane moves for a tenant that keeps waiting and is not granted a turn itself. */
  ghost predicate Approaches(before: Lane, after: Lane, t: Tenant) {
    && before.log <= after.log
    && (t in after.queues && t !in NewGrants(before, after) ==>
          |NewGrants(before, after)| + FirstToken(after.rotation, t) <= FirstToken(before.rotation, t))
  }

  /** One token of the promotion loop: skipped, or a turn for its tenant. */
  lemma RotateOnce(q: Queue, small: bool)
    requires Core(q) && Get(q, small).rotation != []
    ensures var l := Get(q, small);
            var (m, w) := TakeToken(l);
            && (w.None? ==> Core(Put(q, small, m)) && Rotate(q, small) == Rotate(Put(q, small, m), small))
            && (w.Some? ==>
                  && w.value < |q.waiters| && q.waiters[w.value].tenant == l.rotation[0]
                  && Rotate(q, small) == Grant(Taken(q, small), small, w.value))
  {
    TakeTokenShrinks(Get(q, small));
    TakeTokenOk(q.waiters, small, Get(q, small));
    if TakeToken(Get(q, small)).1.None? { SkipCore(q, small); }
  }

  lemma {:induction false} RotateApproaches(q: Queue, small: bool, t: Tenant)
    requires Core(q) && !Get(q, small).active && t in Get(q, small).queues
    ensures Approaches(Get(q, small), Get(Rotate(q, small), small), t)
    decreases Backlog(Get(q, small)), |Get(q, small).rotation|
  {
    var l := Get(q, small);
    assert t in l.rotation && l.queues[t] != [] by { assert Line(q.waiters, small, t, l.queues[t]); }
    hide Core, Rotate, Backlog, LaneOk, Placed, Approaches;
    TakeTokenShrinks(l);
    RotateOnce(q, small);
    var (m, w) := TakeToken(l);
    if w.None? {
      assert t in m.queues && l.rotation[0] != t;
      RotateApproaches(Put(q, small, m), small, t);
      SkipApproaches(l, Get(Rotate(q, small), small), t);
    } else {
      GrantApproaches(l, m, w, t);
    }
  }

  /** A token without a waiter is dropped. */
  lemma SkipApproaches(l: Lane, p: Lane, t: Tenant)
    requires l.rotation != [] && TakeToken(l).1.None? && l.rotation[0] != t
    requires Approaches(TakeToken(l).0, p, t)
    ensures Approaches(l, p, t)
  {
  }

  lemma GrantApproaches(l: Lane, m: Lane, w: Option<WaiterId>, t: Tenant)
    requires l.rotation != [] && TakeToken(l) == (m, w) && w.Some? && t in l.rotation
    ensures Approaches(l, m.(active := true, turns := m.turns + {w.value}, log := m.log + [l.rotation[0]]), t)
  {
    var rest := l.rotation[1..];
    assert NewGrants(l, l.(log := l.log + [l.rotation[0]])) == [l.rotation[0]];
    if l.rotation[0] != t {
      assert t in rest;
      FirstTokenAppend(rest, t, [l.rotation[0]]);
    }
  }

  lemma PromoteApproaches(q: Queue, small: bool, lane: bool, t: Tenant)
    requires Core(q) && t in Get(q, lane).queues
    ensures Approaches(Get(q, lane), Get(Promote(q, small), lane), t)
  {
    if !(Get(q, small).active || !Get(q, small).enabled) {
      if lane == small { RotateApproaches(q, small, t); } else { RotateSettles(q, small); }
    }
  }

  lemma EnableApproaches(q: Queue, small: bool, t: Tenant)
    requires Core(q) && t in Get(q, small).queues
    ensures Approaches(Get(q, small), Get(Enable(q, small), small), t)
  {
    var p := Put(q, small, Get(q, small).(enabled := true));
    CoreFromLanes(p, small);
    PromoteApproaches(p, small, small, t);
  }

  lemma NotifyApproaches(q: Queue, lane: bool, t: Tenant)
    requires Inv(q) && t in Get(q, lane).queues
    ensures Approaches(Get(q, lane), Get(Notify(q), lane), t)
  {
    EnableInv(q, true);
    if lane {
      EnableApproaches(q, true, t);
      EnableInv(Enable(q, true), false);
    } else {
      EnableApproaches(Enable(q, true), false, t);
    }
  }

  /** One event moves a waiting tenant forward by at least the number of other grants. */
  lemma ApplyApproaches(q: Queue, e: Event, lane: bool, t: Tenant)
    requires Inv(q) && Allowed(q, e) && Waiting(q, lane, t)
    ensures Approaches(Get(q, lane), Get(Apply(q, e).value, lane), t)
  {
    hide Approaches, Promote, Enable, LaneOk, Placed, Backlog;
    ApplyInv(q, e);
    BlockApproaches(q, lane, lane, t);
    match e
    case Arrive(tenant, small) =>
      if Join(q, tenant, small).Some? { JoinApproaches(q, tenant, small, lane, t); }
    case Finish(w) => FinishApproaches(q, w, lane, t);
    case Abandon(w) => AbandonApproaches(q, w, lane, t);
    case BlockUntilRelease(small) => BlockApproaches(q, small, lane, t);
    case MemoryReleased => NotifyApproaches(q, lane, t);
  }

  lemma BlockApproaches(q: Queue, small: bool, lane: bool, t: Tenant)
    ensures Approaches(Get(q, lane), Get(Block(q, small), lane), t)
    ensures Approaches(Get(q, lane), Get(q, lane), t)
  {
    assert NewGrants(Get(q, lane), Get(q, lane)) == [];
  }

  lemma FinishApproaches(q: Queue, w: WaiterId, lane: bool, t: Tenant)
    requires Inv(q) && Allowed(q, Finish(w)) && Waiting(q, lane, t) && Apply(q, Finish(w)).Some?
    ensures Approaches(Get(q, lane), Get(Apply(q, Finish(w)).value, lane), t)
  {
    hide Approaches, Promote;
    CoreFromLanes(Returned(q, q.waiters[w].small, w), q.waiters[w].small);
    PromoteApproaches(Returned(q, q.waiters[w].small, w), q.waiters[w].small, lane, t);
    SameApproach(Get(q, lane), Get(Returned(q, q.waiters[w].small, w), lane), Get(Apply(q, Finish(w)).value, lane), t);
  }

  /** Only a lane's log and rotation matter for its approaches. */
  lemma SameApproach(a: Lane, b: Lane, c: Lane, t: Tenant)
    requires a.log == b.log && a.rotation == b.rotation && Approaches(b, c, t)
    ensures Approaches(a, c, t)
  {
  }

  lemma AbandonApproaches(q: Queue, w: WaiterId, lane: bool, t: Tenant)
    requires Inv(q) && Allowed(q, Abandon(w)) && Waiting(q, lane, t) && Remove(q, w).Some?
    ensures Approaches(Get(q, lane), Get(Remove(q, w).value, lane), t)
  {
    var x := q.waiters[w];
    if x.state == Granted {
      hide Approaches, Promote, LaneOk, Placed, Backlog;
      var gone := q.(waiters := q.waiters[w := x.(state := Abandoned)]);
      ReturnedCore(q, w);
      PromoteApproaches(Returned(gone, x.small, w), x.small, lane, t);
      SameApproach(Get(q, lane), Get(Returned(gone, x.small, w), lane), Get(Remove(q, w).value, lane), t);
    }
  }

  lemma JoinApproaches(q: Queue, tenant: string, small: bool, lane: bool, t: Tenant)
    requires Inv(q) && Waiting(q, lane, t) && Join(q, tenant, small).Some?
    ensures Approaches(Get(q, lane), Get(Join(q, tenant, small).value, lane), t)
  {
    var u := Normalize(tenant);
    JoinedCore(q, u, small);
    FirstTokenAppend(Get(q, lane).rotation, t, [u]);
    PromoteApproaches(Joined(q, u, small), small, lane, t);
  }

  lemma ApproachesTransitive(a: Lane, b: Lane, c: Lane, t: Tenant)
    requires Approaches(a, b, t) && Approaches(b, c, t) && t in b.queues
    ensures Approaches(a, c, t)
  {
    assert NewGrants(a, c) == NewGrants(a, b) + NewGrants(b, c);
  }

  lemma {:induction false} RunApproaches(trace: seq<Queue>, events: seq<Event>, n: nat, lane: bool, t: Tenant)
    requires IsRun(trace, events) && Inv(trace[0]) && n < |trace|
    requires forall i :: 0 <= i < |trace| ==> Waiting(trace[i], lane, t)
    ensures Approaches(Get(trace[0], lane), Get(trace[n], lane), t)
  {
    if n > 0 {
      RunApproaches(trace, events, n - 1, lane, t);
      RunInv(trace, events, n - 1);
      assert Waiting(trace[n - 1], lane, t);
      ApplyApproaches(trace[n - 1], events[n - 1], lane, t);
      ApproachesTransitive(Get(trace[0], lane), Get(trace[n - 1], lane), Get(trace[n], lane), t);
    } else {
      assert NewGrants(Get(trace[0], lane), Get(trace[0], lane)) == [];
    }
  }

  /**
   Bounded bypass. Along any run in which a tenant keeps a waiter queued and receives no
   turn, the other turns handed out in its lane number at most its first token's position.
   */
  lemma BoundedBypass(trace: seq<Queue>, events: seq<Event>, lane: bool, t: Tenant)
    requires IsRun(trace, events) && Inv(trace[0])
    requires forall i :: 0 <= i < |trace| ==> Waiting(trace[i], lane, t)
    requires t !in NewGrants(Get(trace[0], lane), Get(trace[|events|], lane))
    ensures var before, after := Get(trace[0], lane), Get(trace[|events|], lane);
            && before.log <= after.log
            && |NewGrants(before, after)| <= FirstToken(before.rotation, t) < |before.rotation|
  {
    RunApproaches(trace, events, |events|, lane, t);
    assert Waiting(trace[|events|], lane, t) && Waiting(trace[0], lane, t);
    FirstTokenAppend(Get(trace[0], lane).rotation, t, []);
  }
}
