/**
 Startup sizing: how many requests a process may serve and how many may wait, given its CPU,
 memory, file descriptors and ports. Ratios are rationals; all limits are optional.
 */
module StartupSizing {
  import opened Common

  // ----- inputs -----

  datatype Tuning = Tuning(
    baseActive: int, referenceMillicores: int, referenceWeight: int,
    minimumTotal: int, burst: real,
    connectionBytes: int, activeExtraBytes: int, controlRatio: real,
    fdReserveMin: int, fdReserveRatio: real, outboundFds: int,
    headroomMin: int, headroomRatio: real, portUtilization: real)
  {
    predicate Valid() {
      && baseActive > 0 && referenceMillicores > 0 && referenceWeight > 0 && minimumTotal > 0
      && connectionBytes > 0 && activeExtraBytes > 0 && fdReserveMin > 0 && outboundFds > 0 && headroomMin > 0
      && 0.0 < controlRatio < 1.0 && 0.0 < fdReserveRatio < 1.0
      && 0.0 < headroomRatio < 1.0 && 0.0 < portUtilization < 1.0
      && burst >= 1.0
    }
  }

  datatype Host = Host(
    cpuMillicores: Option<int>, cpuWeight: Option<int>, cpuAffinity: Option<int>,
    memory: Option<int>, nofile: Option<int>, openFds: Option<int>,
    ports: Option<int>, portsInUse: Option<int>, somaxconn: Option<int>)

  datatype Wish = Wish(
    active: Option<int>, waiters: Option<int>, total: Option<int>, maxActive: Option<int>, cpuBound: bool)

  datatype Refusal =
    | InvalidTuning | InvalidCap | NoPorts | NoFreePorts | NoMemory | NoRoom
    | ActiveAboveCap | ActiveNotPositive | TotalBelowActive | ActiveAboveResources
    | WaitersNegative | WaitersAboveTotal | WaitersAboveResources

  datatype Result<+T> = Ok(value: T) | Err(refusal: Refusal)

  datatype Envelope = Envelope(
    active: int, waiters: int, total: int, serverLimit: int, backlog: int, cpuLimit: int, resourceLimit: int)

  // ----- arithmetic -----

  function Ceil(x: real): int { -((-x).Floor) }

  function Scaled(n: int, ratio: real): real { n as real * ratio }

  function Present(x: Option<int>): bool { x.Some? && x.value > 0 }

  /** CPU entitlement in millicores: a quota, else a weight, else the affinity set. */
  function Entitlement(t: Tuning, h: Host): Option<int>
    requires t.Valid()
  {
    var whole :=
      if Present(h.cpuMillicores) then Some(h.cpuMillicores.value)
      else if Present(h.cpuWeight) then Some(Max(1, t.referenceMillicores * h.cpuWeight.value / t.referenceWeight))
      else if Present(h.cpuAffinity) then Some(h.cpuAffinity.value * 1000)
      else None;
    if whole.Some? && Present(h.cpuAffinity) then Some(Min(whole.value, h.cpuAffinity.value * 1000)) else whole
  }

  function CpuLimit(t: Tuning, h: Host, cap: Option<int>): int
    requires t.Valid()
  {
    var e := Entitlement(t, h);
    var active := if e.Some? then Max(1, t.baseActive * e.value / t.referenceMillicores) else t.baseActive;
    if cap.Some? then Min(active, cap.value) else active
  }

  function Headroom(t: Tuning, total: int): int { Max(t.headroomMin, Ceil(Scaled(total, t.headroomRatio))) }

  function FdReserve(t: Tuning, nofile: Option<int>): int {
    if !Present(nofile) then 0
    else Max(Min(t.fdReserveMin, Max(1, nofile.value / 2)), Ceil(Scaled(nofile.value, t.fdReserveRatio)))
  }

  function OpenFds(h: Host): int { if h.openFds.Some? then Max(0, h.openFds.value) else 0 }

  function FreePorts(h: Host): int
    requires h.ports.Some?
  {
    Max(0, h.ports.value - Max(0, if h.portsInUse.Some? then h.portsInUse.value else 0))
  }

  function PortLimit(t: Tuning, h: Host): Result<Option<int>>
    requires t.Valid()
  {
    if h.ports.None? then Ok(None)
    else if h.ports.value <= 0 then Err(NoPorts)
    else if FreePorts(h) <= 0 then Err(NoFreePorts)
    else Ok(Some(Max(1, (Scaled(FreePorts(h), t.portUtilization) / t.outboundFds as real).Floor)))
  }

  function MemoryBudget(t: Tuning, memory: Option<int>): Result<Option<int>> {
    if memory.None? then Ok(None)
    else if memory.value <= 0 then Err(NoMemory)
    else Ok(Some(Scaled(memory.value, t.controlRatio).Floor))
  }

  /** The limits a plan is checked against. */
  datatype Limits = Limits(nofile: Option<int>, openFds: int, budget: Option<int>)

  function FdsNeeded(t: Tuning, m: Limits, active: int, waiters: int): int {
    m.openFds + FdReserve(t, m.nofile) + t.outboundFds * active + (active + waiters + Headroom(t, active + waiters))
  }

  function MemoryNeeded(t: Tuning, active: int, waiters: int): int {
    t.connectionBytes * (active + waiters + Headroom(t, active + waiters)) + t.activeExtraBytes * active
  }

  predicate Fits(t: Tuning, m: Limits, active: int, waiters: int) {
    && (m.nofile.Some? ==> FdsNeeded(t, m, active, waiters) <= m.nofile.value)
    && (m.budget.Some? ==> MemoryNeeded(t, active, waiters) <= m.budget.value)
  }

  function ActiveFits(t: Tuning, m: Limits): int -> bool { (v: int) => Fits(t, m, v, 0) }

  function WaitersFit(t: Tuning, m: Limits, active: int): int -> bool { (v: int) => Fits(t, m, active, v) }

  /** The greatest value up to `upper` that satisfies `p`, by plain search; 0 when there is none. */
  function Greatest(p: int -> bool, upper: int): (g: int)
    ensures 0 <= g <= Max(0, upper)
    ensures g > 0 ==> p(g)
    ensures forall v :: g < v <= upper ==> !p(v)
    decreases Max(0, upper)
  {
    if upper <= 0 then 0 else if p(upper) then upper else Greatest(p, upper - 1)
  }

  function MemoryBound(t: Tuning, budget: int): int
    requires t.Valid()
  {
    budget / (t.connectionBytes + t.activeExtraBytes)
  }

  function FdBound(t: Tuning, m: Limits): int
    requires t.Valid() && m.nofile.Some?
  {
    Max(0, m.nofile.value - m.openFds - FdReserve(t, m.nofile)) / (t.outboundFds + 1)
  }

  function Tighter(bound: Option<int>, other: Option<int>): Option<int> {
    if bound.None? then other else if other.None? then bound else Some(Min(bound.value, other.value))
  }

  /** The loose bound of the active search: the least of the known ones. */
  function SearchLimit(t: Tuning, m: Limits, ports: Option<int>, cpuLimit: int): int
    requires t.Valid()
  {
    var known := Tighter(ports, Tighter(
                   if m.budget.Some? then Some(MemoryBound(t, m.budget.value)) else None,
                   if m.nofile.Some? then Some(FdBound(t, m)) else None));
    if known.Some? then known.value else Max(t.minimumTotal, Ceil(Scaled(cpuLimit, t.burst)))
  }

  function ResourceLimit(t: Tuning, m: Limits, ports: Option<int>, cpuLimit: int): int
    requires t.Valid()
  {
    Greatest(ActiveFits(t, m), SearchLimit(t, m, ports, cpuLimit))
  }

  // ----- the plan -----

  /** The active count aimed at, before resources are considered. */
  function Target(q: Wish, cpuLimit: int, resourceLimit: int): Result<int> {
    var wanted := if q.active.Some? then q.active.value else if q.cpuBound then cpuLimit else resourceLimit;
    if q.active.Some? && q.maxActive.Some? && q.active.value > q.maxActive.value then Err(ActiveAboveCap)
    else
      var capped := if q.maxActive.Some? then Min(wanted, q.maxActive.value) else wanted;
      if capped <= 0 then Err(ActiveNotPositive)
      else if q.total.None? then Ok(capped)
      else if q.active.Some? && q.active.value > q.total.value then Err(TotalBelowActive)
      else Ok(Min(capped, q.total.value))
  }

  function WaiterCeiling(t: Tuning, q: Wish, active: int): int {
    if q.total.Some? then q.total.value - active
    else if q.waiters.Some? then q.waiters.value
    else Max(0, Max(t.minimumTotal, Ceil(Scaled(active, t.burst))) - active)
  }

  function DesiredWaiters(t: Tuning, q: Wish, active: int): int {
    if q.waiters.Some? then q.waiters.value else WaiterCeiling(t, q, active)
  }

  function Finish(t: Tuning, h: Host, active: int, waiters: int, cpuLimit: int, resourceLimit: int): Envelope {
    var total := active + waiters;
    var headroom := Headroom(t, total);
    var wanted := Max(1, waiters + headroom);
    var backlog := if h.somaxconn.Some? && h.somaxconn.value != 0 then Min(wanted, h.somaxconn.value) else wanted;
    Envelope(active, waiters, total, total + headroom, Max(1, backlog), cpuLimit, resourceLimit)
  }

  function PlanWaiters(t: Tuning, h: Host, q: Wish, m: Limits, active: int, cpuLimit: int, resourceLimit: int)
    : Result<Envelope>
  {
    var desired := DesiredWaiters(t, q, active);
    if desired < 0 then Err(WaitersNegative)
    else if desired > WaiterCeiling(t, q, active) then Err(WaitersAboveTotal)
    else
      var waiters := Greatest(WaitersFit(t, m, active), desired);
      if q.waiters.Some? && waiters != q.waiters.value then Err(WaitersAboveResources)
      else Ok(Finish(t, h, active, waiters, cpuLimit, resourceLimit))
  }

  function LimitsOf(h: Host, budget: Option<int>): Limits { Limits(h.nofile, OpenFds(h), budget) }

  function PlanWithin(t: Tuning, h: Host, q: Wish, ports: Option<int>, budget: Option<int>): Result<Envelope>
    requires t.Valid()
  {
    var m := LimitsOf(h, budget);
    var cpuLimit := CpuLimit(t, h, q.maxActive);
    var resourceLimit := ResourceLimit(t, m, ports, cpuLimit);
    if resourceLimit <= 0 then Err(NoRoom)
    else match Target(q, cpuLimit, resourceLimit)
      case Err(r) => Err(r)
      case Ok(target) =>
        var active := Min(target, resourceLimit);
        if q.active.Some? && active != q.active.value then Err(ActiveAboveResources)
        else PlanWaiters(t, h, q, m, active, cpuLimit, resourceLimit)
  }

  function Plan(t: Tuning, h: Host, q: Wish): Result<Envelope> {
    if !t.Valid() then Err(InvalidTuning)
    else if q.maxActive.Some? && q.maxActive.value <= 0 then Err(InvalidCap)
    else match PortLimit(t, h)
      case Err(r) => Err(r)
      case Ok(ports) =>
        match MemoryBudget(t, h.memory)
        case Err(r) => Err(r)
        case Ok(budget) => PlanWithin(t, h, q, ports, budget)
  }

  // ----- monotone arithmetic -----

  lemma CeilMonotone(x: real, y: real)
    requires x <= y
    ensures Ceil(x) <= Ceil(y)
  {
  }

  lemma ScaledMonotone(a: int, b: int, ratio: real)
    requires a <= b && ratio >= 0.0
    ensures Scaled(a, ratio) <= Scaled(b, ratio)
  {
    assert (b - a) as real * ratio >= 0.0;
    assert Scaled(b, ratio) == Scaled(a, ratio) + (b - a) as real * ratio;
  }

  lemma HeadroomMonotone(t: Tuning, a: int, b: int)
    requires t.Valid() && a <= b
    ensures Headroom(t, a) <= Headroom(t, b)
  {
    ScaledMonotone(a, b, t.headroomRatio);
    CeilMonotone(Scaled(a, t.headroomRatio), Scaled(b, t.headroomRatio));
  }

  lemma ProductMonotone(k: int, a: int, b: int)
    requires k >= 0 && a <= b
    ensures k * a <= k * b
  {
  }

  /** Whatever fits still fits with fewer active requests and fewer waiters. */
  lemma FitsDownward(t: Tuning, m: Limits, active: int, waiters: int, fewer: int, shorter: int)
    requires t.Valid() && fewer <= active && shorter <= waiters && Fits(t, m, active, waiters)
    ensures Fits(t, m, fewer, shorter)
  {
    HeadroomMonotone(t, fewer + shorter, active + waiters);
    ProductMonotone(t.outboundFds, fewer, active);
    ProductMonotone(t.activeExtraBytes, fewer, active);
    ProductMonotone(t.connectionBytes, fewer + shorter + Headroom(t, fewer + shorter),
                    active + waiters + Headroom(t, active + waiters));
  }

  // ----- the search -----

  predicate DownwardClosed(p: int -> bool, upper: int) {
    forall u, v :: 0 < u <= v <= upper && p(v) ==> p(u)
  }

  lemma ActiveFitsClosed(t: Tuning, m: Limits, upper: int)
    requires t.Valid()
    ensures DownwardClosed(ActiveFits(t, m), upper)
  {
    forall u: int, v: int | 0 < u <= v <= upper && ActiveFits(t, m)(v) ensures ActiveFits(t, m)(u) {
      FitsDownward(t, m, v, 0, u, 0);
    }
  }

  lemma WaitersFitClosed(t: Tuning, m: Limits, active: int, upper: int)
    requires t.Valid()
    ensures DownwardClosed(WaitersFit(t, m, active), upper)
  {
    forall u: int, v: int | 0 < u <= v <= upper && WaitersFit(t, m, active)(v) ensures WaitersFit(t, m, active)(u) {
      FitsDownward(t, m, active, v, active, u);
    }
  }

  /** Binary search for the greatest value that satisfies a downward closed predicate. */
  method LargestFitting(upper: int, p: int -> bool) returns (low: int)
    requires DownwardClosed(p, upper)
    ensures low == Greatest(p, upper)
  {
    low := 0;
    var high := Max(0, upper);
    while low < high
      invariant 0 <= low <= high <= Max(0, upper)
      invariant low > 0 ==> p(low)
      invariant forall v :: high < v <= upper ==> !p(v)
    {
      var middle := (low + high + 1) / 2;
      if p(middle) { low := middle; } else { high := middle - 1; }
    }
    GreatestUnique(p, upper, low);
  }

  lemma GreatestUnique(p: int -> bool, upper: int, g: int)
    requires 0 <= g <= Max(0, upper) && (g > 0 ==> p(g))
    requires forall v :: g < v <= upper ==> !p(v)
    ensures g == Greatest(p, upper)
  {
  }

  // ----- the method -----

  /** The CPU share of the active limit, step by step. */
  method StartupActiveLimit(t: Tuning, h: Host, cap: Option<int>) returns (active: int)
    requires t.Valid()
    ensures active == CpuLimit(t, h, cap)
  {
    var entitlement := None;
    if Present(h.cpuMillicores) {
      entitlement := h.cpuMillicores;
    } else if Present(h.cpuWeight) {
      entitlement := Some(Max(1, t.referenceMillicores * h.cpuWeight.value / t.referenceWeight));
    } else if Present(h.cpuAffinity) {
      entitlement := Some(h.cpuAffinity.value * 1000);
    }
    if entitlement.Some? {
      if Present(h.cpuAffinity) { entitlement := Some(Min(entitlement.value, h.cpuAffinity.value * 1000)); }
      active := Max(1, t.baseActive * entitlement.value / t.referenceMillicores);
    } else {
      active := t.baseActive;
    }
    if cap.Some? { active := Min(active, cap.value); }
  }

  method CalculateStartupConcurrency(t: Tuning, h: Host, q: Wish) returns (r: Result<Envelope>)
    ensures r == Plan(t, h, q)
  {
    if !t.Valid() { return Err(InvalidTuning); }
    if q.maxActive.Some? && q.maxActive.value <= 0 { return Err(InvalidCap); }
    var cpuLimit := StartupActiveLimit(t, h, q.maxActive);
    var ports := PortLimit(t, h);
    if ports.Err? { return Err(ports.refusal); }
    var budget := MemoryBudget(t, h.memory);
    if budget.Err? { return Err(budget.refusal); }
    var m := LimitsOf(h, budget.value);

    var bound := SearchLimit(t, m, ports.value, cpuLimit);
    ActiveFitsClosed(t, m, bound);
    var resourceLimit := LargestFitting(bound, ActiveFits(t, m));
    if resourceLimit <= 0 { return Err(NoRoom); }

    var target := Target(q, cpuLimit, resourceLimit);
    if target.Err? { return Err(target.refusal); }
    var active := Min(target.value, resourceLimit);
    if q.active.Some? && active != q.active.value { return Err(ActiveAboveResources); }

    var desired := DesiredWaiters(t, q, active);
    if desired < 0 { return Err(WaitersNegative); }
    if desired > WaiterCeiling(t, q, active) { return Err(WaitersAboveTotal); }
    WaitersFitClosed(t, m, active, desired);
    var waiters := LargestFitting(desired, WaitersFit(t, m, active));
    if q.waiters.Some? && waiters != q.waiters.value { return Err(WaitersAboveResources); }
    r := Ok(Finish(t, h, active, waiters, cpuLimit, resourceLimit));
  }

  // ----- what the plan guarantees -----

  lemma QuotientBound(a: int, k: int, v: int)
    requires k > 0 && k * v <= a
    ensures v <= a / k
  {
    if v > a / k { ProductMonotone(k, a / k + 1, v); }
  }

  /** The arithmetic bounds of the search exclude nothing that fits. */
  lemma BoundsExcludeNothing(t: Tuning, m: Limits, v: int)
    requires t.Valid() && Fits(t, m, v, 0) && v >= 0
    ensures m.budget.Some? ==> v <= MemoryBound(t, m.budget.value)
    ensures m.nofile.Some? ==> v <= FdBound(t, m)
  {
    if m.budget.Some? {
      assert MemoryNeeded(t, v, 0) == (t.connectionBytes + t.activeExtraBytes) * v + t.connectionBytes * Headroom(t, v);
      ProductMonotone(t.connectionBytes, 0, Headroom(t, v));
      QuotientBound(m.budget.value, t.connectionBytes + t.activeExtraBytes, v);
    }
    if m.nofile.Some? {
      assert t.outboundFds * v + v == (t.outboundFds + 1) * v;
      QuotientBound(Max(0, m.nofile.value - m.openFds - FdReserve(t, m.nofile)), t.outboundFds + 1, v);
    }
  }

  /** A positive active count the resources can carry. */
  predicate Feasible(t: Tuning, m: Limits, ports: Option<int>, v: int) {
    Fits(t, m, v, 0) && (ports.Some? ==> v <= ports.value)
  }

  /** With any resource known, the resource limit is exactly the greatest feasible count. */
  lemma ResourceLimitExactly(t: Tuning, m: Limits, ports: Option<int>, cpuLimit: int, v: int)
    requires t.Valid() && v > 0
    requires ports.Some? || m.budget.Some? || m.nofile.Some?
    ensures v <= ResourceLimit(t, m, ports, cpuLimit) <==> Feasible(t, m, ports, v)
  {
    var g := ResourceLimit(t, m, ports, cpuLimit);
    if Feasible(t, m, ports, v) {
      BoundsExcludeNothing(t, m, v);
      assert v <= SearchLimit(t, m, ports, cpuLimit);
      assert ActiveFits(t, m)(v);
    }
    if v <= g {
      assert ActiveFits(t, m)(g);
      FitsDownward(t, m, g, 0, v, 0);
    }
  }

  /** What an accepted plan was computed from. */
  predicate Accepted(t: Tuning, h: Host, q: Wish, e: Envelope) {
    Plan(t, h, q) == Ok(e)
  }

  function Ports(t: Tuning, h: Host): Option<int>
    requires t.Valid() && PortLimit(t, h).Ok?
  {
    PortLimit(t, h).value
  }

  function LimitsFor(t: Tuning, h: Host): Limits
    requires t.Valid() && MemoryBudget(t, h.memory).Ok?
  {
    LimitsOf(h, MemoryBudget(t, h.memory).value)
  }

  /**
   An accepted plan fits. Its active count is the greatest one that the resources carry up to
   the target, and given that, its waiters are the most that fit up to the number desired.
   */
  lemma PlanOptimal(t: Tuning, h: Host, q: Wish, e: Envelope)
    requires Accepted(t, h, q, e)
    ensures t.Valid() && PortLimit(t, h).Ok? && MemoryBudget(t, h.memory).Ok?
    ensures var m := LimitsFor(t, h);
            && Fits(t, m, e.active, e.waiters) && e.waiters >= 0
            && e.resourceLimit == ResourceLimit(t, m, Ports(t, h), e.cpuLimit)
            && Target(q, e.cpuLimit, e.resourceLimit).Ok?
            && e.active <= Target(q, e.cpuLimit, e.resourceLimit).value
            && (Ports(t, h).Some? || m.budget.Some? || m.nofile.Some? ==>
                  forall a ::
                    0 < a <= Target(q, e.cpuLimit, e.resourceLimit).value && Feasible(t, m, Ports(t, h), a) ==>
                    a <= e.active)
            && (forall w :: 0 <= w <= DesiredWaiters(t, q, e.active) && Fits(t, m, e.active, w) ==> w <= e.waiters)
  {
    var m := LimitsFor(t, h);
    var desired := DesiredWaiters(t, q, e.active);
    assert e.waiters == Greatest(WaitersFit(t, m, e.active), desired);
    assert ActiveFits(t, m)(e.resourceLimit);
    FitsDownward(t, m, e.resourceLimit, 0, e.active, 0);
    if e.waiters > 0 { assert WaitersFit(t, m, e.active)(e.waiters); }
    forall w | 0 <= w <= desired && Fits(t, m, e.active, w) ensures w <= e.waiters {
      assert w > e.waiters ==> !WaitersFit(t, m, e.active)(w);
    }
    if Ports(t, h).Some? || m.budget.Some? || m.nofile.Some? {
      forall a | 0 < a <= Target(q, e.cpuLimit, e.resourceLimit).value && Feasible(t, m, Ports(t, h), a)
        ensures a <= e.active
      {
        ResourceLimitExactly(t, m, Ports(t, h), e.cpuLimit, a);
      }
    }
  }

  /** What is asked for explicitly is granted exactly, or the plan is refused. */
  lemma PlanHonours(t: Tuning, h: Host, q: Wish, e: Envelope)
    requires Accepted(t, h, q, e)
    ensures q.active.Some? ==> e.active == q.active.value
    ensures q.waiters.Some? ==> e.waiters == q.waiters.value
    ensures q.maxActive.Some? ==> e.active <= q.maxActive.value
    ensures q.total.Some? ==> e.total <= q.total.value
    ensures e.total == e.active + e.waiters
  {
    hide Accepted, CpuLimit, ResourceLimit, PortLimit, MemoryBudget, LimitsFor, Ports;
    PlanActive(t, h, q, e);
    WaitersHonoured(t, h, q, e);
  }

  lemma WaitersHonoured(t: Tuning, h: Host, q: Wish, e: Envelope)
    requires Accepted(t, h, q, e)
    ensures e.total == e.active + e.waiters && 0 <= e.waiters <= WaiterCeiling(t, q, e.active)
    ensures q.waiters.Some? ==> e.waiters == q.waiters.value
    ensures q.active.Some? ==> e.active == q.active.value
  {
    hide CpuLimit, ResourceLimit, PortLimit, MemoryBudget, Target, WaiterCeiling;
  }

  /** An explicit active count is refused for lack of resources exactly when it is not feasible. */
  lemma ActiveRefusedExactly(t: Tuning, h: Host, q: Wish, a: int)
    requires t.Valid() && PortLimit(t, h).Ok? && MemoryBudget(t, h.memory).Ok?
    requires q.active == Some(a) && a > 0 && (q.maxActive.Some? ==> a <= q.maxActive.value)
    requires q.total.Some? ==> a <= q.total.value
    requires Ports(t, h).Some? || LimitsFor(t, h).budget.Some? || LimitsFor(t, h).nofile.Some?
    ensures Plan(t, h, q) in {Err(NoRoom), Err(ActiveAboveResources)} <==> !Feasible(t, LimitsFor(t, h), Ports(t, h), a)
  {
    ResourceLimitExactly(t, LimitsFor(t, h), Ports(t, h), CpuLimit(t, h, q.maxActive), a);
  }

  /** An accepted plan serves at least one request, unless a total below one was asked for. */
  lemma PlanServes(t: Tuning, h: Host, q: Wish, e: Envelope)
    requires Accepted(t, h, q, e)
    ensures e.active >= 1 <==> q.total.None? || q.total.value >= 1
  {
    hide Accepted, ResourceLimit, PortLimit, MemoryBudget, LimitsFor, Ports, CpuLimit;
    PlanActive(t, h, q, e);
  }

  // ----- what is accepted -----

  /** The resource limit of a host. */
  function HostLimit(t: Tuning, h: Host, q: Wish): int
    requires t.Valid() && PortLimit(t, h).Ok? && MemoryBudget(t, h.memory).Ok?
  {
    ResourceLimit(t, LimitsFor(t, h), Ports(t, h), CpuLimit(t, h, q.maxActive))
  }

  /** The inputs pass every check made before the waiters are looked at. */
  predicate ActiveSettled(t: Tuning, h: Host, q: Wish) {
    && t.Valid() && (q.maxActive.Some? ==> q.maxActive.value > 0)
    && PortLimit(t, h).Ok? && MemoryBudget(t, h.memory).Ok?
    && HostLimit(t, h, q) > 0 && Target(q, CpuLimit(t, h, q.maxActive), HostLimit(t, h, q)).Ok?
    && (q.active.Some? ==> q.active.value <= HostLimit(t, h, q))
  }

  /** The active count decided on before the waiters are looked at. */
  function ActiveCount(t: Tuning, h: Host, q: Wish): int
    requires ActiveSettled(t, h, q)
  {
    Min(Target(q, CpuLimit(t, h, q.maxActive), HostLimit(t, h, q)).value, HostLimit(t, h, q))
  }

  /** Waiters asked for explicitly stay within the total beside the active count. */
  predicate WithinTotal(t: Tuning, h: Host, q: Wish)
    requires ActiveSettled(t, h, q) && q.waiters.Some?
  {
    q.total.Some? ==> ActiveCount(t, h, q) + q.waiters.value <= q.total.value
  }

  /** The resources carry the waiters asked for explicitly beside the active count. */
  predicate WaitersCarried(t: Tuning, h: Host, q: Wish)
    requires ActiveSettled(t, h, q) && q.waiters.Some?
  {
    Fits(t, LimitsFor(t, h), ActiveCount(t, h, q), q.waiters.value)
  }

  lemma SettledPlan(t: Tuning, h: Host, q: Wish)
    ensures Plan(t, h, q).Ok? ==> ActiveSettled(t, h, q)
    ensures ActiveSettled(t, h, q) ==>
              && ActiveCount(t, h, q) <= HostLimit(t, h, q)
              && (q.total.Some? ==> ActiveCount(t, h, q) <= q.total.value)
              && (q.active.Some? ==> ActiveCount(t, h, q) == q.active.value)
              && Plan(t, h, q) == PlanWaiters(t, h, q, LimitsFor(t, h), ActiveCount(t, h, q),
                                              CpuLimit(t, h, q.maxActive), HostLimit(t, h, q))
  {
    hide CpuLimit, ResourceLimit, PlanWaiters, PortLimit, MemoryBudget;
  }

  lemma SettledValid(t: Tuning, h: Host, q: Wish)
    requires ActiveSettled(t, h, q)
    ensures t.Valid() && MemoryBudget(t, h.memory).Ok?
  {
    hide HostLimit, Target, CpuLimit, PortLimit, MemoryBudget;
  }

  /** The active count alone fits. */
  lemma CountFits(t: Tuning, h: Host, q: Wish)
    requires ActiveSettled(t, h, q)
    ensures Fits(t, LimitsFor(t, h), ActiveCount(t, h, q), 0)
  {
    hide Fits, Target, CpuLimit, PortLimit, MemoryBudget, SearchLimit, LimitsFor, Ports;
    SettledPlan(t, h, q);
    assert ActiveFits(t, LimitsFor(t, h))(HostLimit(t, h, q));
    FitsDownward(t, LimitsFor(t, h), HostLimit(t, h, q), 0, ActiveCount(t, h, q), 0);
  }

  /**
   Explicit waiters are refused for the total exactly when they and the active count exceed it, for
   lack of resources exactly when they stay within it and do not fit, and granted otherwise.
   */
  lemma WaitersRefusedExactly(t: Tuning, h: Host, q: Wish)
    requires ActiveSettled(t, h, q) && q.waiters.Some? && q.waiters.value >= 0
    ensures Plan(t, h, q) == Err(WaitersAboveTotal) <==> !WithinTotal(t, h, q)
    ensures Plan(t, h, q) == Err(WaitersAboveResources) <==> WithinTotal(t, h, q) && !WaitersCarried(t, h, q)
    ensures Plan(t, h, q).Ok? <==> WithinTotal(t, h, q) && WaitersCarried(t, h, q)
  {
    hide ActiveSettled, ActiveCount, Plan, LimitsFor, HostLimit, CpuLimit, Fits;
    SettledPlan(t, h, q);
    SettledValid(t, h, q);
    CountFits(t, h, q);
    var w, p := q.waiters.value, WaitersFit(t, LimitsFor(t, h), ActiveCount(t, h, q));
    assert p(w) <==> WaitersCarried(t, h, q);
    assert w == 0 ==> p(w);
  }

  /** A plan is accepted exactly when its active count is settled and explicit waiters are carried. */
  lemma AcceptedExactly(t: Tuning, h: Host, q: Wish)
    ensures Plan(t, h, q).Ok? <==>
              && ActiveSettled(t, h, q)
              && (q.waiters.Some? ==>
                    q.waiters.value >= 0 && WithinTotal(t, h, q) && WaitersCarried(t, h, q))
  {
    hide ActiveSettled, ActiveCount, Plan, LimitsFor, HostLimit, CpuLimit, Fits, Greatest;
    SettledPlan(t, h, q);
    if ActiveSettled(t, h, q) && q.waiters.Some? && q.waiters.value >= 0 { WaitersRefusedExactly(t, h, q); }
  }

  /** The defaults of the calculation. */
  const DEFAULTS := Tuning(64, 465, 55, 1000, 2.0, 131072, 393216, 0.125, 256, 0.05, 2, 8, 0.1, 0.8)

  /** A total of zero is such a total: it is accepted, and the plan serves nobody. */
  lemma TotalOfZeroAccepted()
    ensures exists t: Tuning, h: Host, q: Wish, e: Envelope ::
              Accepted(t, h, q, e) && q.total == Some(0) && e.active == 0
  {
    var h := Host(None, None, None, None, None, None, None, None, None);
    var q := Wish(None, None, Some(0), None, false);
    var m := LimitsOf(h, None);
    assert DEFAULTS.Valid();
    assert SearchLimit(DEFAULTS, m, None, 64) == 1000;
    GreatestUnique(ActiveFits(DEFAULTS, m), 1000, 1000);
    assert Greatest(WaitersFit(DEFAULTS, m, 0), 0) == 0;
    assert Accepted(DEFAULTS, h, q, Finish(DEFAULTS, h, 0, 0, 64, 1000));
  }

  // ----- the CPU share -----

  /** The millicores an affinity set allows. */
  predicate AffinityAllows(h: Host, millicores: int) {
    Present(h.cpuAffinity) ==> millicores <= h.cpuAffinity.value * 1000
  }

  /**
   The entitlement is a quota when there is one, else the weight's share, else the affinity set;
   it is positive, and never more than the affinity set allows.
   */
  lemma EntitlementMeaning(t: Tuning, h: Host)
    requires t.Valid()
    ensures Entitlement(t, h).Some? <==> Present(h.cpuMillicores) || Present(h.cpuWeight) || Present(h.cpuAffinity)
    ensures Entitlement(t, h).Some? ==> Entitlement(t, h).value >= 1 && AffinityAllows(h, Entitlement(t, h).value)
    ensures Present(h.cpuMillicores) ==> Entitlement(t, h) == Some(AtAffinity(h, h.cpuMillicores.value))
    ensures !Present(h.cpuMillicores) && Present(h.cpuWeight) ==>
              forall e :: WeightEarns(t, h.cpuWeight.value, e) ==> Entitlement(t, h) == Some(AtAffinity(h, e))
    ensures !Present(h.cpuMillicores) && !Present(h.cpuWeight) && Present(h.cpuAffinity) ==>
              Entitlement(t, h) == Some(h.cpuAffinity.value * 1000)
  {
    if Present(h.cpuWeight) {
      forall e ensures WeightEarns(t, h.cpuWeight.value, e) <==>
                         e == Max(1, t.referenceMillicores * h.cpuWeight.value / t.referenceWeight) {
        WeightExactly(t, h.cpuWeight.value, e);
      }
    }
  }

  /** A share, or all that the affinity set allows where that is less. */
  function AtAffinity(h: Host, share: int): int {
    if Present(h.cpuAffinity) && h.cpuAffinity.value * 1000 < share then h.cpuAffinity.value * 1000 else share
  }

  /** The millicores that a weight earns: its share of the reference pair, rounded down but never below one. */
  predicate WeightEarns(t: Tuning, weight: int, millicores: int) {
    && millicores >= 1
    && (millicores == 1 || millicores * t.referenceWeight <= t.referenceMillicores * weight)
    && t.referenceMillicores * weight < (millicores + 1) * t.referenceWeight
  }

  lemma WeightExactly(t: Tuning, weight: int, e: int)
    requires t.Valid()
    ensures WeightEarns(t, weight, e) <==> e == Max(1, t.referenceMillicores * weight / t.referenceWeight)
  {
    var a, k := t.referenceMillicores * weight, t.referenceWeight;
    var q := a / k;
    QuotientMeaning(a, k);
    if WeightEarns(t, weight, e) {
      if e < q { ProductMonotone(k, e + 1, q); }
      if e > q && e > 1 { ProductMonotone(k, q + 1, e); }
    } else if e == Max(1, q) && q < 1 {
      ProductMonotone(k, q + 1, e + 1);
    }
  }

  lemma ShareMonotone(a: int, b: int, x: int, k: int)
    requires a <= b && x >= 0 && k > 0
    ensures x * a / k <= x * b / k
  {
    ProductMonotone(x, a, b);
    QuotientMonotone(x * a, x * b, k);
  }

  lemma QuotientMonotone(a: int, b: int, k: int)
    requires a <= b && k > 0
    ensures a / k <= b / k
  {
    assert k * (a / k) <= a;
    QuotientBound(b, k, a / k);
  }

  /** The share of the base count that an entitlement earns, rounded down but never below one. */
  predicate EarnedBy(t: Tuning, active: int, millicores: int) {
    && active >= 1
    && (active == 1 || active * t.referenceMillicores <= t.baseActive * millicores)
    && t.baseActive * millicores < (active + 1) * t.referenceMillicores
  }

  lemma QuotientMeaning(a: int, k: int)
    requires k > 0
    ensures (a / k) * k <= a < (a / k + 1) * k
  {
  }

  /**
   The CPU limit is at least one and at most a positive cap. Without a cap it is the base count
   when no CPU figure is known, and otherwise the share that the entitlement earns.
   */
  lemma CpuLimitMeaning(t: Tuning, h: Host, cap: Option<int>)
    requires t.Valid() && (cap.Some? ==> cap.value > 0)
    ensures CpuLimit(t, h, cap) >= 1
    ensures cap.Some? ==> CpuLimit(t, h, cap) == Min(CpuLimit(t, h, None), cap.value) <= cap.value
    ensures Entitlement(t, h).None? ==> CpuLimit(t, h, None) == t.baseActive
    ensures Entitlement(t, h).Some? ==> EarnedBy(t, CpuLimit(t, h, None), Entitlement(t, h).value)
  {
    hide Entitlement;
    if Entitlement(t, h).Some? {
      QuotientMeaning(t.baseActive * Entitlement(t, h).value, t.referenceMillicores);
    }
  }

  /** A host entitled to no less never gets a lower CPU limit. */
  lemma CpuLimitMonotone(t: Tuning, h: Host, k: Host, cap: Option<int>)
    requires t.Valid() && Entitlement(t, h).Some? && Entitlement(t, k).Some?
    requires Entitlement(t, h).value <= Entitlement(t, k).value
    ensures CpuLimit(t, h, cap) <= CpuLimit(t, k, cap)
  {
    hide Entitlement;
    ShareMonotone(Entitlement(t, h).value, Entitlement(t, k).value, t.baseActive, t.referenceMillicores);
  }

  /** A larger quota, weight or affinity set never lowers the entitlement it determines. */
  lemma EntitlementMonotone(t: Tuning, h: Host, k: Host)
    requires t.Valid()
    requires Present(h.cpuMillicores) <==> Present(k.cpuMillicores)
    requires Present(h.cpuWeight) <==> Present(k.cpuWeight)
    requires Present(h.cpuAffinity) <==> Present(k.cpuAffinity)
    requires Present(h.cpuMillicores) ==> h.cpuMillicores.value <= k.cpuMillicores.value
    requires Present(h.cpuWeight) ==> h.cpuWeight.value <= k.cpuWeight.value
    requires Present(h.cpuAffinity) ==> h.cpuAffinity.value <= k.cpuAffinity.value
    ensures Entitlement(t, h).Some? <==> Entitlement(t, k).Some?
    ensures Entitlement(t, h).Some? ==> Entitlement(t, h).value <= Entitlement(t, k).value
  {
    if Present(h.cpuWeight) {
      ShareMonotone(h.cpuWeight.value, k.cpuWeight.value, t.referenceMillicores, t.referenceWeight);
    }
  }

  // ----- monotonicity in the host -----

  /** One more descriptor reserves at most one more. */
  lemma ReserveStep(t: Tuning, n: int)
    requires t.Valid() && n >= 0
    ensures FdReserve(t, Some(n + 1)) <= FdReserve(t, Some(n)) + 1
  {
    assert Scaled(n + 1, t.fdReserveRatio) == Scaled(n, t.fdReserveRatio) + t.fdReserveRatio;
    CeilMonotone(Scaled(n + 1, t.fdReserveRatio), Scaled(n, t.fdReserveRatio) + 1.0);
    assert Ceil(Scaled(n, t.fdReserveRatio) + 1.0) == Ceil(Scaled(n, t.fdReserveRatio)) + 1;
  }

  /** A higher descriptor limit never leaves fewer descriptors after the reserve. */
  lemma {:induction false} FdsLeftMonotone(t: Tuning, n: int, more: int)
    requires t.Valid() && n <= more
    ensures n - FdReserve(t, Some(n)) <= more - FdReserve(t, Some(more))
    decreases more - n
  {
    if n < more {
      FdsLeftMonotone(t, n, more - 1);
      if more >= 1 { ReserveStep(t, more - 1); }
    }
  }

  /** A host with at least as much memory and at least as many descriptors, otherwise the same. */
  predicate Roomier(h: Host, k: Host) {
    && k == h.(memory := k.memory, nofile := k.nofile)
    && (h.memory.Some? <==> k.memory.Some?) && (h.memory.Some? ==> h.memory.value <= k.memory.value)
    && (h.nofile.Some? <==> k.nofile.Some?) && (h.nofile.Some? ==> h.nofile.value <= k.nofile.value)
  }

  lemma FitsRoomier(t: Tuning, h: Host, k: Host, v: int, w: int)
    requires t.Valid() && Roomier(h, k) && MemoryBudget(t, h.memory).Ok?
    requires Fits(t, LimitsFor(t, h), v, w)
    ensures MemoryBudget(t, k.memory).Ok? && Fits(t, LimitsFor(t, k), v, w)
  {
    if h.memory.Some? { ScaledMonotone(h.memory.value, k.memory.value, t.controlRatio); }
    if h.nofile.Some? { FdsLeftMonotone(t, h.nofile.value, k.nofile.value); }
  }

  /** More memory or more file descriptors never lower the resource limit. */
  lemma ResourceLimitMonotone(t: Tuning, h: Host, k: Host, cpuLimit: int)
    requires t.Valid() && Roomier(h, k) && PortLimit(t, h).Ok? && MemoryBudget(t, h.memory).Ok?
    ensures PortLimit(t, k).Ok? && MemoryBudget(t, k.memory).Ok?
    ensures ResourceLimit(t, LimitsFor(t, h), Ports(t, h), cpuLimit)
         <= ResourceLimit(t, LimitsFor(t, k), Ports(t, k), cpuLimit)
  {
    var g := ResourceLimit(t, LimitsFor(t, h), Ports(t, h), cpuLimit);
    if g > 0 && (Ports(t, h).Some? || h.memory.Some? || h.nofile.Some?) {
      ResourceLimitExactly(t, LimitsFor(t, h), Ports(t, h), cpuLimit, g);
      FitsRoomier(t, h, k, g, 0);
      ResourceLimitExactly(t, LimitsFor(t, k), Ports(t, k), cpuLimit, g);
    }
  }

  lemma PlanActive(t: Tuning, h: Host, q: Wish, e: Envelope)
    requires Accepted(t, h, q, e)
    ensures t.Valid() && PortLimit(t, h).Ok? && MemoryBudget(t, h.memory).Ok?
    ensures e.cpuLimit == CpuLimit(t, h, q.maxActive)
    ensures e.resourceLimit == ResourceLimit(t, LimitsFor(t, h), Ports(t, h), e.cpuLimit)
    ensures e.resourceLimit >= 1 && Target(q, e.cpuLimit, e.resourceLimit).Ok?
    ensures e.active == Min(Target(q, e.cpuLimit, e.resourceLimit).value, e.resourceLimit)
  {
    hide CpuLimit, ResourceLimit, PlanWaiters, Target, PortLimit, MemoryBudget;
    PlanWaitersShape(t, h, q, e);
  }

  lemma PlanWaitersShape(t: Tuning, h: Host, q: Wish, e: Envelope)
    ensures forall m, active, cpuLimit, resourceLimit
              {:trigger PlanWaiters(t, h, q, m, active, cpuLimit, resourceLimit)} ::
              PlanWaiters(t, h, q, m, active, cpuLimit, resourceLimit) == Ok(e) ==>
                e.active == active && e.cpuLimit == cpuLimit && e.resourceLimit == resourceLimit
  {
  }

  lemma TargetMonotone(q: Wish, cpuLimit: int, resourceLimit: int, more: int)
    requires resourceLimit <= more
    requires Target(q, cpuLimit, resourceLimit).Ok? && Target(q, cpuLimit, more).Ok?
    ensures Target(q, cpuLimit, resourceLimit).value <= Target(q, cpuLimit, more).value
  {
  }

  /** On a roomier host an accepted plan never serves fewer requests. */
  lemma ActiveMonotone(t: Tuning, h: Host, k: Host, q: Wish, e: Envelope, f: Envelope)
    requires Roomier(h, k) && Accepted(t, h, q, e) && Accepted(t, k, q, f)
    ensures e.active <= f.active
  {
    hide Accepted, ResourceLimit, Target, PortLimit, MemoryBudget, LimitsFor, Ports;
    PlanActive(t, h, q, e);
    PlanActive(t, k, q, f);
    assert e.cpuLimit == f.cpuLimit;
    ResourceLimitMonotone(t, h, k, e.cpuLimit);
    TargetMonotone(q, e.cpuLimit, e.resourceLimit, f.resourceLimit);
  }

  // ----- acceptance on a roomier host -----

  /** What settles the active count on a host settles it on a roomier one, at no less. */
  lemma SettledRoomier(t: Tuning, h: Host, k: Host, q: Wish)
    requires Roomier(h, k) && ActiveSettled(t, h, q)
    ensures ActiveSettled(t, k, q) && ActiveCount(t, h, q) <= ActiveCount(t, k, q)
  {
    hide ResourceLimit, LimitsFor, Ports, PortLimit, MemoryBudget;
    assert CpuLimit(t, h, q.maxActive) == CpuLimit(t, k, q.maxActive);
    hide CpuLimit;
    ResourceLimitMonotone(t, h, k, CpuLimit(t, h, q.maxActive));
  }

  /**
   A request accepted on a host is accepted on a roomier one if and only if its explicit waiters, if
   it has any, stay within the total and fit beside the active count there. So it always is when the
   waiters are automatic, and when the active count is explicit.
   */
  lemma RoomierExactly(t: Tuning, h: Host, k: Host, q: Wish)
    requires Roomier(h, k) && Plan(t, h, q).Ok?
    ensures ActiveSettled(t, k, q)
    ensures Plan(t, k, q).Ok? <==> (q.waiters.Some? ==> WithinTotal(t, k, q) && WaitersCarried(t, k, q))
    ensures q.waiters.None? || q.active.Some? ==> Plan(t, k, q).Ok?
  {
    hide ActiveSettled, ActiveCount, Plan, LimitsFor, HostLimit, Fits, Roomier, MemoryBudget;
    AcceptedExactly(t, h, q);
    SettledRoomier(t, h, k, q);
    AcceptedExactly(t, k, q);
    if q.waiters.Some? && q.active.Some? {
      SettledPlan(t, h, q);
      SettledPlan(t, k, q);
      SettledValid(t, h, q);
      FitsRoomier(t, h, k, q.active.value, q.waiters.value);
    }
  }

  // ----- a roomier host can refuse -----

  const UNIT := 131072

  /** A host known only by its memory, whose control budget is that many connections. */
  function Sized(connections: int): Host {
    Host(None, None, None, Some(connections * UNIT * 8), None, None, None, None, None)
  }

  /** Two explicit waiters beside an automatic active count. */
  function TwoWaiters(total: Option<int>): Wish { Wish(None, Some(2), total, None, false) }

  lemma SizedLimits(n: int)
    requires 0 < n < 300
    ensures DEFAULTS.Valid()
    ensures PortLimit(DEFAULTS, Sized(n)) == Ok(None) && MemoryBudget(DEFAULTS, Sized(n).memory) == Ok(Some(n * UNIT))
  {
    assert Scaled(n * UNIT * 8, 0.125) == (n * UNIT) as real;
  }

  /** With up to eighty requests and waiters the headroom is its minimum. */
  lemma SizedFits(n: int, active: int, waiters: int)
    requires 0 < n < 300 && 0 <= active && 0 <= waiters && active + waiters <= 80
    ensures MemoryBudget(DEFAULTS, Sized(n).memory).Ok?
    ensures Fits(DEFAULTS, LimitsFor(DEFAULTS, Sized(n)), active, waiters) <==> 4 * active + waiters + 8 <= n
  {
    SizedLimits(n);
    assert Headroom(DEFAULTS, active + waiters) == 8;
  }

  lemma SizedCount(n: int, total: Option<int>)
    requires 12 <= n < 300 && (total.Some? ==> total.value > 0)
    ensures ActiveSettled(DEFAULTS, Sized(n), TwoWaiters(total))
    ensures ActiveCount(DEFAULTS, Sized(n), TwoWaiters(total))
         == if total.Some? then Min((n - 8) / 4, total.value) else (n - 8) / 4
  {
    hide Fits;
    SizedLimits(n);
    var m, g := LimitsFor(DEFAULTS, Sized(n)), (n - 8) / 4;
    assert SearchLimit(DEFAULTS, m, None, 64) == n / 4;
    SizedFits(n, g, 0);
    forall v | g < v <= n / 4 ensures !ActiveFits(DEFAULTS, m)(v) { SizedFits(n, v, 0); }
    GreatestUnique(ActiveFits(DEFAULTS, m), n / 4, g);
  }

  /**
   With more memory the active count takes the room of the waiters: a request for two of them is
   accepted on a host and refused on a roomier one, with a total for the total and without one for
   lack of resources.
   */
  lemma RoomierRefused()
    ensures Roomier(Sized(171), Sized(176)) && Roomier(Sized(171), Sized(172))
    ensures Plan(DEFAULTS, Sized(171), TwoWaiters(Some(42))).Ok?
    ensures Plan(DEFAULTS, Sized(176), TwoWaiters(Some(42))) == Err(WaitersAboveTotal)
    ensures Plan(DEFAULTS, Sized(171), TwoWaiters(None)).Ok?
    ensures Plan(DEFAULTS, Sized(172), TwoWaiters(None)) == Err(WaitersAboveResources)
  {
    hide Plan, ActiveSettled, ActiveCount, Fits, LimitsFor, MemoryBudget;
    SizedCount(171, Some(42));
    SizedFits(171, 40, 2);
    WaitersRefusedExactly(DEFAULTS, Sized(171), TwoWaiters(Some(42)));
    SizedCount(176, Some(42));
    WaitersRefusedExactly(DEFAULTS, Sized(176), TwoWaiters(Some(42)));
    SizedCount(171, None);
    WaitersRefusedExactly(DEFAULTS, Sized(171), TwoWaiters(None));
    SizedCount(172, None);
    SizedFits(172, 41, 2);
    WaitersRefusedExactly(DEFAULTS, Sized(172), TwoWaiters(None));
  }
}
