/**
 The startup plan in the figures of its inputs: what a host carries, what an automatic active count
 and automatic waiters come to, and what the server is told, without the calculation's own steps.
 */
module StartupFigures {
  import opened Common
  import opened StartupSizing

  // ----- what a host carries -----

  /** Room for transport beside so many connections: the fixed one at least, and the ratio's share. */
  predicate EnoughHeadroom(t: Tuning, connections: int, headroom: int) {
    headroom >= t.headroomMin && headroom as real >= connections as real * t.headroomRatio
  }

  /**
   Descriptors kept back from a limit: the ratio's share at least, and the fixed reserve or, where
   that is less, half of the limit and one at least; none of a limit that is not positive.
   */
  predicate EnoughReserve(t: Tuning, limit: int, reserve: int) {
    if limit <= 0 then reserve >= 0
    else
      && reserve as real >= limit as real * t.fdReserveRatio && reserve >= 1
      && (reserve >= t.fdReserveMin || 2 * reserve >= limit - 1)
  }

  /** Connections for all, and the extra memory of the active ones, within the share of memory for control. */
  predicate MemoryCarries(t: Tuning, h: Host, active: int, waiters: int, headroom: int) {
    h.memory.Some? ==>
      (t.connectionBytes * (active + waiters + headroom) + t.activeExtraBytes * active) as real
      <= h.memory.value as real * t.controlRatio
  }

  /** The descriptors already open and held back, those the active ones need outwards, and one a connection. */
  predicate DescriptorsCarry(t: Tuning, h: Host, active: int, waiters: int, headroom: int, reserve: int) {
    h.nofile.Some? ==>
      (if h.openFds.Some? && h.openFds.value > 0 then h.openFds.value else 0)
      + reserve + t.outboundFds * active + active + waiters + headroom <= h.nofile.value
  }

  predicate CarriesWith(t: Tuning, h: Host, active: int, waiters: int, headroom: int, reserve: int) {
    && EnoughHeadroom(t, active + waiters, headroom)
    && (h.nofile.Some? ==> EnoughReserve(t, h.nofile.value, reserve))
    && MemoryCarries(t, h, active, waiters, headroom)
    && DescriptorsCarry(t, h, active, waiters, headroom, reserve)
  }

  /** The host's memory and descriptors carry so many requests and waiters, with all that is kept free. */
  ghost predicate Carries(t: Tuning, h: Host, active: int, waiters: int) {
    exists headroom, reserve :: CarriesWith(t, h, active, waiters, headroom, reserve)
  }

  lemma CeilIsLeast(x: real, n: int)
    ensures n as real >= x <==> n >= Ceil(x)
  {
    assert (-x).Floor as real <= -x < (-x).Floor as real + 1.0;
    assert (-n) as real <= -x <==> -n <= (-x).Floor;
  }

  lemma HeadroomIsLeast(t: Tuning, connections: int, headroom: int)
    ensures EnoughHeadroom(t, connections, headroom) <==> headroom >= Headroom(t, connections)
  {
    CeilIsLeast(Scaled(connections, t.headroomRatio), headroom);
  }

  lemma ReserveIsLeast(t: Tuning, limit: int, reserve: int)
    requires t.Valid()
    ensures EnoughReserve(t, limit, reserve) <==> reserve >= FdReserve(t, Some(limit))
  {
    CeilIsLeast(Scaled(limit, t.fdReserveRatio), reserve);
  }

  lemma FitsWith(t: Tuning, h: Host, active: int, waiters: int)
    requires t.Valid() && MemoryBudget(t, h.memory).Ok?
    ensures CarriesWith(t, h, active, waiters, Headroom(t, active + waiters), FdReserve(t, h.nofile))
            <==> Fits(t, LimitsFor(t, h), active, waiters)
  {
    HeadroomIsLeast(t, active + waiters, Headroom(t, active + waiters));
    if h.nofile.Some? { ReserveIsLeast(t, h.nofile.value, FdReserve(t, h.nofile)); }
    if h.memory.Some? {
      assert MemoryNeeded(t, active, waiters) <= Scaled(h.memory.value, t.controlRatio).Floor
         <==> MemoryNeeded(t, active, waiters) as real <= Scaled(h.memory.value, t.controlRatio);
    }
  }

  /** Less headroom and a smaller reserve, as long as they are enough, carry as much. */
  lemma LessIsEnough(
      t: Tuning, h: Host, active: int, waiters: int, headroom: int, reserve: int, less: int, smaller: int)
    requires t.Valid() && CarriesWith(t, h, active, waiters, headroom, reserve)
    requires less <= headroom && EnoughHeadroom(t, active + waiters, less)
    requires h.nofile.Some? ==> smaller <= reserve && EnoughReserve(t, h.nofile.value, smaller)
    ensures CarriesWith(t, h, active, waiters, less, smaller)
  {
    ProductMonotone(t.connectionBytes, active + waiters + less, active + waiters + headroom);
  }

  /** The check of the calculation is exactly whether the host carries the plan. */
  lemma FitsExactly(t: Tuning, h: Host, active: int, waiters: int)
    requires t.Valid() && MemoryBudget(t, h.memory).Ok?
    ensures Fits(t, LimitsFor(t, h), active, waiters) <==> Carries(t, h, active, waiters)
  {
    hide CarriesWith, Fits, LimitsFor, MemoryBudget;
    FitsWith(t, h, active, waiters);
    if headroom, reserve :| CarriesWith(t, h, active, waiters, headroom, reserve) {
      LeastCarries(t, h, active, waiters, headroom, reserve);
    }
  }

  lemma LeastCarries(t: Tuning, h: Host, active: int, waiters: int, headroom: int, reserve: int)
    requires t.Valid() && CarriesWith(t, h, active, waiters, headroom, reserve)
    ensures CarriesWith(t, h, active, waiters, Headroom(t, active + waiters), FdReserve(t, h.nofile))
  {
    var least, smallest := Headroom(t, active + waiters), FdReserve(t, h.nofile);
    HeadroomIsLeast(t, active + waiters, headroom);
    HeadroomIsLeast(t, active + waiters, least);
    if h.nofile.Some? {
      ReserveIsLeast(t, h.nofile.value, reserve);
      ReserveIsLeast(t, h.nofile.value, smallest);
    }
    LessIsEnough(t, h, active, waiters, headroom, reserve, least, smallest);
  }

  // ----- ports -----

  /** Ephemeral ports that nobody uses yet. */
  function FreeOf(ports: int, used: Option<int>): int {
    if used.Some? && used.value > 0 then ports - used.value else ports
  }

  /** The outward connections of the active requests stay within the usable share of the free ports; one always may. */
  predicate PortsCarry(t: Tuning, h: Host, active: int) {
    h.ports.Some? && active > 1 ==>
      (active * t.outboundFds) as real <= FreeOf(h.ports.value, h.portsInUse) as real * t.portUtilization
  }

  lemma QuotientFloor(x: real, k: int, v: int)
    requires k > 0
    ensures v <= (x / k as real).Floor <==> (v * k) as real <= x
  {
    var q := x / k as real;
    assert q * k as real == x;
    assert v <= q.Floor <==> v as real <= q;
    if v as real <= q {
      assert (q - v as real) * k as real >= 0.0;
    } else {
      assert (v as real - q) * k as real > 0.0;
    }
    assert (v * k) as real == v as real * k as real;
  }

  lemma PortsExactly(t: Tuning, h: Host, active: int)
    requires t.Valid() && active > 0
    ensures PortLimit(t, h).Ok? <==> (h.ports.Some? ==> h.ports.value > 0 && FreeOf(h.ports.value, h.portsInUse) > 0)
    ensures PortLimit(t, h).Ok? ==>
              (PortsCarry(t, h, active) <==> (Ports(t, h).Some? ==> active <= Ports(t, h).value))
  {
    if PortLimit(t, h).Ok? && h.ports.Some? {
      QuotientFloor(Scaled(FreePorts(h), t.portUtilization), t.outboundFds, active);
    }
  }

  // ----- the resource limit -----

  /** Some resource of the host is known. */
  predicate SomethingKnown(h: Host) { h.memory.Some? || h.nofile.Some? || h.ports.Some? }

  /** The least count that is no less than the minimum and than the burst over `base`. */
  predicate IsBurst(t: Tuning, base: int, count: int) {
    && count >= t.minimumTotal && count as real >= base as real * t.burst
    && (count == t.minimumTotal || (count - 1) as real < base as real * t.burst)
  }

  lemma BurstExactly(t: Tuning, base: int, count: int)
    ensures IsBurst(t, base, count) <==> count == Max(t.minimumTotal, Ceil(Scaled(base, t.burst)))
  {
    var x := Scaled(base, t.burst);
    assert x == base as real * t.burst;
    CeilIsLeast(x, count);
    CeilIsLeast(x, count - 1);
  }

  /**
   The resource limit of an accepted plan: with any resource known, exactly the counts up to it are
   carried by memory, descriptors and ports; otherwise it is the burst over the CPU limit.
   */
  lemma LimitOnFigures(t: Tuning, h: Host, q: Wish, e: Envelope, v: int)
    requires Accepted(t, h, q, e) && v > 0
    ensures SomethingKnown(h) ==> (v <= e.resourceLimit <==> Carries(t, h, v, 0) && PortsCarry(t, h, v))
    ensures !SomethingKnown(h) ==> IsBurst(t, e.cpuLimit, e.resourceLimit)
  {
    hide Accepted, Carries, PortsCarry, Fits, CpuLimit;
    PlanActive(t, h, q, e);
    FitsExactly(t, h, v, 0);
    PortsExactly(t, h, v);
    if SomethingKnown(h) {
      hide ResourceLimit;
      ResourceLimitExactly(t, LimitsFor(t, h), Ports(t, h), e.cpuLimit, v);
    } else {
      UnknownLimit(t, h, e.cpuLimit, e.resourceLimit);
    }
  }

  /** With nothing known everything fits, up to the burst. */
  lemma UnknownLimit(t: Tuning, h: Host, cpuLimit: int, limit: int)
    requires t.Valid() && !SomethingKnown(h) && PortLimit(t, h).Ok? && MemoryBudget(t, h.memory).Ok?
    requires limit == ResourceLimit(t, LimitsFor(t, h), Ports(t, h), cpuLimit)
    ensures IsBurst(t, cpuLimit, limit)
  {
    var burst := Max(t.minimumTotal, Ceil(Scaled(cpuLimit, t.burst)));
    BurstExactly(t, cpuLimit, burst);
    var m := LimitsFor(t, h);
    assert ActiveFits(t, m)(burst);
    GreatestUnique(ActiveFits(t, m), burst, burst);
  }

  // ----- the active count -----

  /** `least` is one of the bounds and within all of them; a bound that is absent counts for nothing. */
  predicate IsLeast(least: int, a: int, b: Option<int>, c: Option<int>, d: Option<int>) {
    && least <= a && (b.Some? ==> least <= b.value) && (c.Some? ==> least <= c.value) && (d.Some? ==> least <= d.value)
    && (least == a || Some(least) == b || Some(least) == c || Some(least) == d)
  }

  /**
   The active count of an accepted plan: what was asked for explicitly; otherwise the least of the
   resource limit, the cap, the total and, only for a CPU-bound plan, the CPU limit.
   */
  lemma ActiveOnFigures(t: Tuning, h: Host, q: Wish, e: Envelope)
    requires Accepted(t, h, q, e)
    ensures e.cpuLimit == CpuLimit(t, h, q.maxActive)
    ensures q.active.Some? ==>
              && e.active == q.active.value >= 1 && e.active <= e.resourceLimit
              && (q.maxActive.Some? ==> e.active <= q.maxActive.value) && (q.total.Some? ==> e.active <= q.total.value)
    ensures q.active.None? ==>
              IsLeast(e.active, e.resourceLimit, if q.cpuBound then Some(e.cpuLimit) else None, q.maxActive, q.total)
  {
    hide Accepted, CpuLimit, ResourceLimit, PortLimit, MemoryBudget;
    PlanActive(t, h, q, e);
    PlanHonours(t, h, q, e);
  }

  /** The count that explicit waiters are held against, before a plan is accepted. */
  lemma CountOnFigures(t: Tuning, h: Host, q: Wish)
    requires ActiveSettled(t, h, q)
    ensures q.active.Some? ==> ActiveCount(t, h, q) == q.active.value
    ensures q.active.None? ==>
              IsLeast(ActiveCount(t, h, q), HostLimit(t, h, q),
                      if q.cpuBound then Some(CpuLimit(t, h, q.maxActive)) else None, q.maxActive, q.total)
  {
    hide CpuLimit, HostLimit, PortLimit, MemoryBudget;
    SettledPlan(t, h, q);
  }

  // ----- the waiters -----

  /** The most waiters that automatic sizing aims at: up to the total, or to the burst over the active count. */
  ghost predicate AutomaticCeiling(t: Tuning, q: Wish, active: int, ceiling: int) {
    if q.total.Some? then ceiling == q.total.value - active
    else exists count :: IsBurst(t, active, count) && ceiling == Max(0, count - active)
  }

  /**
   The waiters of an accepted plan: what was asked for explicitly; otherwise the most that the host
   carries beside the active count, up to the ceiling.
   */
  lemma WaitersOnFigures(t: Tuning, h: Host, q: Wish, e: Envelope, ceiling: int, w: int)
    requires Accepted(t, h, q, e) && AutomaticCeiling(t, q, e.active, ceiling)
    ensures e.waiters >= 0 && Carries(t, h, e.active, e.waiters)
    ensures q.waiters.Some? ==> e.waiters == q.waiters.value
    ensures q.waiters.None? ==>
              e.waiters <= ceiling && (0 <= w <= ceiling && Carries(t, h, e.active, w) ==> w <= e.waiters)
  {
    hide Accepted, Carries, Fits, ResourceLimit, Target, CpuLimit;
    PlanOptimal(t, h, q, e);
    PlanHonours(t, h, q, e);
    FitsExactly(t, h, e.active, e.waiters);
    FitsExactly(t, h, e.active, w);
    if q.waiters.None? { CeilingExactly(t, q, e.active, ceiling); }
    WaitersAtMost(t, h, q, e);
  }

  lemma CeilingExactly(t: Tuning, q: Wish, active: int, ceiling: int)
    requires AutomaticCeiling(t, q, active, ceiling) && q.waiters.None?
    ensures DesiredWaiters(t, q, active) == ceiling
  {
    if q.total.None? {
      var count :| IsBurst(t, active, count) && ceiling == Max(0, count - active);
      BurstExactly(t, active, count);
    }
  }

  lemma WaitersAtMost(t: Tuning, h: Host, q: Wish, e: Envelope)
    requires Accepted(t, h, q, e)
    ensures e.waiters <= DesiredWaiters(t, q, e.active)
  {
    hide CpuLimit, ResourceLimit, PortLimit, MemoryBudget, Target;
  }

  // ----- what the server is told -----

  /** The listen backlog: what is wanted, within the system's limit if there is one, and never nothing. */
  predicate IsBacklog(somaxconn: Option<int>, wanted: int, backlog: int) {
    && backlog >= 1
    && (somaxconn.Some? && somaxconn.value != 0 ==> backlog == 1 || backlog <= somaxconn.value)
    && (backlog == 1 || backlog <= wanted)
    && (backlog >= wanted || (somaxconn.Some? && somaxconn.value != 0 && backlog >= somaxconn.value))
  }

  /**
   The server limit is the total with the least headroom that is enough for it, and the backlog
   holds the waiters and that headroom.
   */
  lemma ServerOnFigures(t: Tuning, h: Host, q: Wish, e: Envelope)
    requires Accepted(t, h, q, e)
    ensures e.total == e.active + e.waiters
    ensures EnoughHeadroom(t, e.total, e.serverLimit - e.total)
    ensures !EnoughHeadroom(t, e.total, e.serverLimit - e.total - 1)
    ensures IsBacklog(h.somaxconn, e.waiters + e.serverLimit - e.total, e.backlog)
  {
    FinishShape(t, h, q, e);
    HeadroomIsLeast(t, e.total, e.serverLimit - e.total);
    HeadroomIsLeast(t, e.total, e.serverLimit - e.total - 1);
  }

  lemma FinishShape(t: Tuning, h: Host, q: Wish, e: Envelope)
    requires Accepted(t, h, q, e)
    ensures e == Finish(t, h, e.active, e.waiters, e.cpuLimit, e.resourceLimit)
  {
    hide CpuLimit, ResourceLimit, PortLimit, MemoryBudget, Target, Headroom;
  }

  // ----- what is accepted -----

  /** An explicit active count is positive, within cap and total, and carried by the host. */
  ghost predicate ActiveAcceptable(t: Tuning, h: Host, q: Wish, a: int)
    requires t.Valid()
  {
    && a > 0 && (q.maxActive.Some? ==> a <= q.maxActive.value) && (q.total.Some? ==> a <= q.total.value)
    && (SomethingKnown(h) ==> Carries(t, h, a, 0) && PortsCarry(t, h, a))
    && (!SomethingKnown(h) ==> forall count :: IsBurst(t, CpuLimit(t, h, q.maxActive), count) ==> a <= count)
  }

  /** The inputs themselves make sense: positive figures, a positive cap, free ports, some memory. */
  predicate InputsAcceptable(t: Tuning, h: Host, q: Wish) {
    && t.Valid() && (q.maxActive.Some? ==> q.maxActive.value > 0)
    && (h.ports.Some? ==> h.ports.value > 0 && FreeOf(h.ports.value, h.portsInUse) > 0)
    && (h.memory.Some? ==> h.memory.value > 0)
  }

  /**
   Which requests pass the checks of the active count: the inputs make sense, a known host carries
   one request, and an explicit count is acceptable. The waiters are the only further reason for a refusal.
   */
  lemma SettledOnFigures(t: Tuning, h: Host, q: Wish)
    ensures ActiveSettled(t, h, q) <==>
              && InputsAcceptable(t, h, q)
              && (SomethingKnown(h) ==> Carries(t, h, 1, 0))
              && (q.active.Some? ==> ActiveAcceptable(t, h, q, q.active.value))
  {
    hide Carries, CpuLimit, PortsCarry, ResourceLimit, IsBurst;
    if InputsAcceptable(t, h, q) {
      PortsExactly(t, h, 1);
      OnePort(t, h);
      CpuLimitMeaning(t, h, q.maxActive);
      LimitReached(t, h, q, 1);
      if q.active.Some? && q.active.value > 0 { LimitReached(t, h, q, q.active.value); }
    } else if t.Valid() {
      PortsExactly(t, h, 1);
    }
  }

  lemma OnePort(t: Tuning, h: Host)
    ensures PortsCarry(t, h, 1)
  {
  }

  /** Whether a count is within the resource limit. */
  lemma LimitReached(t: Tuning, h: Host, q: Wish, v: int)
    requires InputsAcceptable(t, h, q) && v > 0
    ensures PortLimit(t, h).Ok? && MemoryBudget(t, h.memory).Ok?
    ensures SomethingKnown(h) ==> (v <= HostLimit(t, h, q) <==> Carries(t, h, v, 0) && PortsCarry(t, h, v))
    ensures !SomethingKnown(h) ==>
              && HostLimit(t, h, q) >= 1
              && (v <= HostLimit(t, h, q) <==>
                    forall count :: IsBurst(t, CpuLimit(t, h, q.maxActive), count) ==> v <= count)
  {
    hide Carries, PortsCarry, CpuLimit, Fits;
    PortsExactly(t, h, v);
    FitsExactly(t, h, v, 0);
    if SomethingKnown(h) {
      hide ResourceLimit;
      ResourceLimitExactly(t, LimitsFor(t, h), Ports(t, h), CpuLimit(t, h, q.maxActive), v);
    } else {
      UnknownLimit(t, h, CpuLimit(t, h, q.maxActive), HostLimit(t, h, q));
      forall count ensures IsBurst(t, CpuLimit(t, h, q.maxActive), count) <==> count == HostLimit(t, h, q) {
        BurstExactly(t, CpuLimit(t, h, q.maxActive), count);
        BurstExactly(t, CpuLimit(t, h, q.maxActive), HostLimit(t, h, q));
      }
    }
  }
}
