/**
 The resource-only request gate: no request count, only a fixed amount of control memory per
 active request, taken from the parent governor that other users share.
 */
module ControlGate {
  import opened Common
  import G = Governor

  const CONTROL: G.Category := "request_control"

  /** Leases are numbered as they are granted; `held` says which are still out. */
  datatype Gate = Gate(bytes: nat, active: int, held: seq<bool>, parent: G.Gov)

  function New(bytes: nat, settings: G.Settings): Gate { Gate(bytes, 0, [], G.New(settings)) }

  function Ones(held: seq<bool>): seq<int> { seq(|held|, i requires 0 <= i < |held| => if held[i] then 1 else 0) }

  function Outstanding(held: seq<bool>): int { Total(Ones(held)) }

  ghost function TryAcquire(g: Gate, r: G.Reading): (Gate, bool) {
    var (p, allowed) := G.Reserve(g.parent, CONTROL, g.bytes, r);
    if allowed then (g.(parent := p, active := g.active + 1, held := g.held + [true]), true)
    else (g.(parent := p), false)
  }

  datatype Outcome = Next(gate: Gate) | CountUnderflow | ParentUnderflow

  /** Returning a lease; returning it again does nothing. */
  function Release(g: Gate, id: nat): Outcome
    requires id < |g.held|
  {
    if !g.held[id] then Next(g)
    else if g.active <= 0 then CountUnderflow
    else match G.Release(g.parent, CONTROL, g.bytes)
      case Some(p) => Next(g.(parent := p, active := g.active - 1, held := g.held[id := false]))
      case None => ParentUnderflow
  }

  datatype Event =
    | Arrive(reading: G.Reading)
    | Return(id: nat)
    | ForeignAsk(category: G.Category, size: nat, reading: G.Reading)
    | ForeignReturn(category: G.Category, size: nat)

  predicate Allowed(g: Gate, e: Event) {
    match e
    case Return(id) => id < |g.held|
    case ForeignAsk(k, _, _) => k != CONTROL
    case ForeignReturn(k, _) => k != CONTROL
    case Arrive(_) => true
  }

  ghost function Apply(g: Gate, e: Event): Outcome
    requires Allowed(g, e)
  {
    match e
    case Arrive(r) => Next(TryAcquire(g, r).0)
    case Return(id) => Release(g, id)
    case ForeignAsk(k, size, r) => Next(g.(parent := G.Reserve(g.parent, k, size, r).0))
    case ForeignReturn(k, size) =>
      match G.Release(g.parent, k, size)
      case Some(p) => Next(g.(parent := p))
      case None => Next(g)
  }

  /** The count is the leases out, and the parent holds control memory for exactly those. */
  predicate Inv(g: Gate) {
    && g.active == Outstanding(g.held) && g.active >= 0
    && G.Amount(g.parent, CONTROL) == g.active * g.bytes
  }

  lemma NewInv(bytes: nat, settings: G.Settings)
    ensures Inv(New(bytes, settings))
  {
    assert Ones([]) == [];
  }

  lemma HeldUpdate(held: seq<bool>, id: nat)
    requires id < |held| && held[id]
    ensures Outstanding(held[id := false]) == Outstanding(held) - 1 && Outstanding(held) >= 1
  {
    assert Ones(held[id := false]) == Ones(held)[id := 0];
    TotalUpdate(Ones(held), id, 0);
    TotalBounds(Ones(held), id);
  }

  lemma HeldAppend(held: seq<bool>)
    ensures Outstanding(held + [true]) == Outstanding(held) + 1
  {
    assert Ones(held + [true]) == Ones(held) + [1];
    TotalAppend(Ones(held), 1);
  }

  lemma AcquireInv(g: Gate, r: G.Reading)
    requires Inv(g)
    ensures Inv(TryAcquire(g, r).0) && TryAcquire(g, r).0.bytes == g.bytes
  {
    hide G.Refresh, G.Allows, G.Add, Outstanding;
    G.RefreshKeeps(g.parent, r);
    G.AddSum(G.Refresh(g.parent, r), CONTROL, g.bytes);
    HeldAppend(g.held);
    OneMore(g.active, g.bytes);
  }

  lemma OneMore(n: int, k: nat)
    ensures (n + 1) * k == n * k + k
  {
  }

  lemma ReleaseInv(g: Gate, id: nat)
    requires Inv(g) && id < |g.held|
    ensures Release(g, id).Next? && Inv(Release(g, id).gate) && Release(g, id).gate.bytes == g.bytes
  {
    hide G.Release;
    if g.held[id] {
      HeldUpdate(g.held, id);
      assert (g.active - 1) * g.bytes == g.active * g.bytes - g.bytes;
      assert (g.active - 1) * g.bytes >= 0;
      G.ReleaseSum(g.parent, CONTROL, g.bytes);
    }
  }

  /** No step fails; each keeps the count and the parent in agreement. */
  lemma ApplyInv(g: Gate, e: Event)
    requires Inv(g) && Allowed(g, e)
    ensures Apply(g, e).Next? && Inv(Apply(g, e).gate) && Apply(g, e).gate.bytes == g.bytes
  {
    hide TryAcquire, Release, G.Release, Outstanding;
    match e
    case Arrive(r) => AcquireInv(g, r);
    case Return(id) => ReleaseInv(g, id);
    case ForeignAsk(k, size, r) => G.AddSum(G.Refresh(g.parent, r), k, size);
    case ForeignReturn(k, size) => G.ReleaseSum(g.parent, k, size);
  }

  ghost predicate IsRun(trace: seq<Gate>, events: seq<Event>) {
    && |trace| == |events| + 1
    && forall i :: 0 <= i < |events| ==>
         Allowed(trace[i], events[i]) && Apply(trace[i], events[i]) == Next(trace[i + 1])
  }

  /** Over every run of a new gate, active requests are the leases out and own exactly their control memory. */
  lemma {:induction false} RunInv(trace: seq<Gate>, events: seq<Event>, n: nat, settings: G.Settings)
    requires IsRun(trace, events) && n < |trace| && trace[0] == New(trace[0].bytes, settings)
    ensures Inv(trace[n])
  {
    if n == 0 {
      NewInv(trace[0].bytes, settings);
    } else {
      RunInv(trace, events, n - 1, settings);
      ApplyInv(trace[n - 1], events[n - 1]);
    }
  }

  /** A request is admitted exactly when its control memory is safe on the sample in use. */
  lemma AdmittedExactly(g: Gate, r: G.Reading)
    requires g.bytes > 0
    ensures TryAcquire(g, r).1 <==> G.Safe(G.Refresh(g.parent, r), G.Reserved(g.parent) + g.bytes)
  {
    G.AdmitsExactlySafe(g.parent, CONTROL, g.bytes, r);
  }

  /** An admission is one more lease with its control memory; a return gives both back, once. */
  lemma EffectsExactly(g: Gate, r: G.Reading, id: nat)
    requires Inv(g)
    ensures var (p, allowed) := TryAcquire(g, r);
            && p.held == (if allowed then g.held + [true] else g.held)
            && p.active == g.active + (if allowed then 1 else 0)
            && G.Amount(p.parent, CONTROL) == G.Amount(g.parent, CONTROL) + (if allowed then g.bytes else 0)
    ensures id < |g.held| ==>
              && Release(g, id).Next?
              && var p := Release(g, id).gate;
              && p.held == g.held[id := false]
              && p.active == g.active - (if g.held[id] then 1 else 0)
              && G.Amount(p.parent, CONTROL) == G.Amount(g.parent, CONTROL) - (if g.held[id] then g.bytes else 0)
  {
    hide G.Refresh, G.Allows, G.Add, G.Release, Outstanding;
    G.RefreshKeeps(g.parent, r);
    G.AddSum(G.Refresh(g.parent, r), CONTROL, g.bytes);
    if id < |g.held| {
      ReleaseInv(g, id);
      G.ReleaseSum(g.parent, CONTROL, g.bytes);
    }
  }

  class MemoryResourceAdmissionGate {
    const governor: G.AdaptiveMemoryGovernor
    const controlBytes: nat
    var active: int
    var held: seq<bool>

    ghost function View(): Gate
      reads this, governor
    {
      Gate(controlBytes, active, held, governor.View())
    }

    ghost predicate Valid()
      reads this, governor
    {
      Inv(View())
    }

    constructor (governor: G.AdaptiveMemoryGovernor, controlBytes: nat)
      ensures this.governor == governor && View() == Gate(controlBytes, 0, [], governor.View())
      ensures G.Amount(governor.View(), CONTROL) == 0 ==> Valid()
    {
      this.governor, this.controlBytes := governor, controlBytes;
      active, held := 0, [];
      new;
      assert Ones([]) == [];
    }

    method TryAcquireNowait(r: G.Reading) returns (id: Option<nat>)
      modifies this, governor
      ensures (View(), id.Some?) == TryAcquire(old(View()), r)
      ensures id.Some? ==> id.value == |old(held)|
      ensures old(Valid()) ==> Valid()
    {
      hide Inv;
      if Valid() { AcquireInv(View(), r); }
      var allowed := governor.ReserveNowait(CONTROL, controlBytes, r);
      if !allowed { return None; }
      id := Some(|held|);
      active := active + 1;
      held := held + [true];
    }

    /** Returns a lease; `ok` is false when the count or the parent would underflow. */
    method ReleaseSlot(id: nat) returns (ok: bool)
      requires id < |held|
      modifies this, governor
      ensures ok <==> Release(old(View()), id).Next?
      ensures ok ==> View() == Release(old(View()), id).gate
      ensures old(Valid()) ==> ok && Valid()
    {
      hide Inv;
      if Valid() { ReleaseInv(View(), id); }
      if !held[id] { return true; }
      if active <= 0 { return false; }
      ok := governor.ReleaseBytes(CONTROL, controlBytes);
      if !ok { return; }
      active := active - 1;
      held := held[id := false];
    }
  }
}
