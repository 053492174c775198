/**
 The parent memory governor: one budget for every retained byte of the process, decided
 against sampled memory usage. Samples are arbitrary inputs.
 */
module Governor {
  import opened Common

  /** One memory reading; a missing figure was not available. */
  datatype Sample = Sample(current: Option<nat>, limit: Option<nat>, high: Option<nat>)

  /** What a sampling attempt brings. `Cached` serves the last sample while there is one. */
  datatype Reading = Cached | Fresh(sample: Sample) | Failed

  datatype RequestedSettings = Settings(softLimit: Option<int>, guardBytes: int, guardRatio: real, fallback: int)
  {
    predicate Valid() {
      (softLimit.Some? ==> softLimit.value > 0) && guardBytes >= 0 && 0.0 <= guardRatio < 1.0 && fallback > 0
    }
  }

  type Settings = s: RequestedSettings | s.Valid()
    witness Settings(None, 512 * 1024 * 1024, 0.25, 256 * 1024 * 1024)

  type Category = string

  datatype Gov = Gov(settings: Settings, reserved: map<Category, nat>, sample: Option<Sample>, stale: bool)

  function New(settings: Settings): Gov { Gov(settings, map[], None, false) }

  function Amount(g: Gov, c: Category): nat { if c in g.reserved then g.reserved[c] else 0 }

  ghost function Reserved(g: Gov): nat { MapSum(g.reserved) }

  const UNAVAILABLE := Sample(None, None, None)

  /** After a failed reading the last good sample stays in use, marked stale. */
  function Refresh(g: Gov, r: Reading): Gov {
    if r.Cached? && g.sample.Some? then g
    else if r.Fresh? then g.(sample := Some(r.sample), stale := false)
    else g.(sample := Some(if g.sample.Some? then g.sample.value else UNAVAILABLE), stale := true)
  }

  /** The tighter of the hard and the high limit. */
  function EffectiveLimit(s: Sample): Option<nat> {
    if s.high.None? then s.limit
    else if s.limit.None? then s.high
    else Some(Min(s.limit.value, s.high.value))
  }

  function RatioShare(limit: nat, ratio: real): int { (limit as real * ratio).Floor }

  function Guard(t: Settings, limit: Option<nat>): int {
    if t.softLimit.Some? then
      var soft := if limit.Some? then Min(t.softLimit.value, limit.value) else t.softLimit.value;
      Max(0, (if limit.Some? && limit.value != 0 then limit.value else soft) - soft)
    else if limit.Some? then
      Max(Min(t.guardBytes, limit.value / 2), RatioShare(limit.value, t.guardRatio))
    else t.guardBytes
  }

  function SoftLimit(t: Settings, limit: Option<nat>): Option<int> {
    if t.softLimit.Some? then
      Some(if limit.Some? then Min(t.softLimit.value, limit.value) else t.softLimit.value)
    else if limit.Some? then
      Some(Max(1, limit.value - Min(Guard(t, limit), Max(0, limit.value - 1))))
    else None
  }

  function Capacity(t: Settings, s: Sample, stale: bool, reserved: nat): int {
    var soft := SoftLimit(t, EffectiveLimit(s));
    var open := if soft.None? || s.current.None? then Max(reserved, t.fallback)
                else Max(reserved, soft.value - s.current.value);
    if stale then Max(reserved, Min(open, t.fallback)) else open
  }

  function Available(t: Settings, s: Sample, stale: bool, reserved: nat): int {
    Max(0, Capacity(t, s, stale, reserved) - reserved)
  }

  /** The decision taken on the sample in use. */
  ghost predicate Allows(g: Gov, size: nat)
    requires g.sample.Some?
  {
    size <= Available(g.settings, g.sample.value, g.stale, Reserved(g))
  }

  function Add(g: Gov, c: Category, size: nat): Gov {
    if size == 0 then g else g.(reserved := g.reserved[c := Amount(g, c) + size])
  }

  /** An immediate reservation: whether it was allowed, and the state either way. */
  ghost function Reserve(g: Gov, c: Category, size: nat, r: Reading): (Gov, bool) {
    var next := Refresh(g, r);
    if Allows(next, size) then (Add(next, c, size), true) else (next, false)
  }

  /** Returning bytes; None is the underflow error. */
  function Release(g: Gov, c: Category, size: nat): Option<Gov> {
    if size == 0 then Some(g)
    else if size > Amount(g, c) then None
    else if size == Amount(g, c) then Some(g.(reserved := g.reserved - {c}))
    else Some(g.(reserved := g.reserved[c := Amount(g, c) - size]))
  }

  // ----- properties -----

  /** A limit is known, and `limit` is the tightest one: of the hard and the high limit. */
  predicate Tightest(s: Sample, limit: nat) {
    && (s.limit.Some? ==> limit <= s.limit.value) && (s.high.Some? ==> limit <= s.high.value)
    && (s.limit == Some(limit) || s.high == Some(limit))
  }

  /**
   Using memory up to `soft` keeps both margins free below the limit: the fixed one, which is never
   more than half of the limit, and the ratio's share of the limit, in whole bytes.
   */
  predicate MarginsFree(t: Settings, limit: nat, soft: int) {
    && (limit - soft >= t.guardBytes || 2 * (limit - soft) >= limit - 1)
    && (limit - soft + 1) as real > limit as real * t.guardRatio
  }

  /** `soft` is the most that keeps the margins free; where nothing does, a single byte. */
  predicate MostWithMargins(t: Settings, limit: nat, soft: int) {
    if MarginsFree(t, limit, 1) then MarginsFree(t, limit, soft) && !MarginsFree(t, limit, soft + 1)
    else soft == 1
  }

  /** What the soft limit is, from the settings and the figures of the sample. */
  ghost predicate IsSoftLimit(t: Settings, s: Sample, soft: int) {
    match t.softLimit
    case Some(configured) =>
      && soft <= configured && (s.limit.Some? ==> soft <= s.limit.value) && (s.high.Some? ==> soft <= s.high.value)
      && (soft == configured || (soft >= 0 && (s.limit == Some(soft) || s.high == Some(soft))))
    case None => exists limit: nat :: Tightest(s, limit) && MostWithMargins(t, limit, soft)
  }

  /** A soft limit is configured, or can be derived. */
  predicate LimitKnown(t: Settings, s: Sample) { t.softLimit.Some? || s.limit.Some? || s.high.Some? }

  /** The margins are the guard. */
  lemma GuardIsMargins(t: Settings, limit: nat, soft: int)
    requires t.softLimit.None?
    ensures MarginsFree(t, limit, soft) <==> limit - soft >= Guard(t, Some(limit))
  {
    var share := limit as real * t.guardRatio;
    assert share >= 0.0;
    assert limit - soft >= share.Floor <==> (limit - soft + 1) as real > share;
  }

  /** There is exactly one soft limit when one is known, and none otherwise. */
  lemma SoftLimitExactly(t: Settings, s: Sample, soft: int)
    ensures SoftLimit(t, EffectiveLimit(s)).Some? <==> LimitKnown(t, s)
    ensures IsSoftLimit(t, s, soft) <==> SoftLimit(t, EffectiveLimit(s)) == Some(soft)
  {
    if t.softLimit.None? {
      forall limit: nat ensures Tightest(s, limit) <==> EffectiveLimit(s) == Some(limit) {
      }
      if LimitKnown(t, s) {
        var limit := EffectiveLimit(s).value;
        GuardIsMargins(t, limit, 1);
        GuardIsMargins(t, limit, soft);
        GuardIsMargins(t, limit, soft + 1);
      }
    }
  }

  /**
   With none configured, the soft limit lies within any positive limit, and is one byte exactly when
   the margins leave no more.
   */
  lemma SoftLimitRange(t: Settings, limit: nat)
    requires t.softLimit.None?
    ensures SoftLimit(t, Some(limit)).Some? && MostWithMargins(t, limit, SoftLimit(t, Some(limit)).value)
    ensures SoftLimit(t, Some(limit)).value >= 1
    ensures SoftLimit(t, Some(limit)).value <= limit <==> limit > 0
    ensures SoftLimit(t, Some(limit)).value == 1 <==> !MarginsFree(t, limit, 2)
  {
    var soft := SoftLimit(t, Some(limit)).value;
    GuardIsMargins(t, limit, 1);
    GuardIsMargins(t, limit, 2);
    GuardIsMargins(t, limit, soft);
    GuardIsMargins(t, limit, soft + 1);
    var product := limit as real * t.guardRatio;
    assert product >= 0.0;
  }

  /** Capacity always covers what is already owned. */
  lemma CapacityCoversOwned(t: Settings, s: Sample, stale: bool, reserved: nat)
    ensures Capacity(t, s, stale, reserved) >= reserved
  {
  }

  /**
   The condition under which a positive reservation is safe: sampled usage plus everything
   reserved stays within the soft limit when both are known, and everything reserved stays
   within the fallback budget when they are not, or when the sample is stale.
   */
  ghost predicate Safe(g: Gov, total: nat)
    requires g.sample.Some?
  {
    var t, s := g.settings, g.sample.value;
    && (LimitKnown(t, s) && s.current.Some? ==>
          exists soft :: IsSoftLimit(t, s, soft) && s.current.value + total <= soft)
    && (!LimitKnown(t, s) || s.current.None? || g.stale ==> total <= t.fallback)
  }

  /** A positive reservation is admitted exactly when it is safe. */
  lemma AdmitsExactlySafe(g: Gov, c: Category, size: nat, r: Reading)
    requires size > 0
    ensures Reserve(g, c, size, r).1 <==> Safe(Refresh(g, r), Reserved(g) + size)
  {
    hide IsSoftLimit;
    var p := Refresh(g, r);
    var t, s := p.settings, p.sample.value;
    SoftLimitExactly(t, s, 0);
    if SoftLimit(t, EffectiveLimit(s)).Some? { SoftLimitExactly(t, s, SoftLimit(t, EffectiveLimit(s)).value); }
    forall soft | IsSoftLimit(t, s, soft) ensures SoftLimit(t, EffectiveLimit(s)) == Some(soft) {
      SoftLimitExactly(t, s, soft);
    }
  }

  /** A reservation changes its own category and the total by exactly its size. */
  lemma AddSum(g: Gov, c: Category, size: nat)
    ensures Reserved(Add(g, c, size)) == Reserved(g) + size
    ensures Amount(Add(g, c, size), c) == Amount(g, c) + size
    ensures forall d :: d != c ==> Amount(Add(g, c, size), d) == Amount(g, d)
  {
    MapSumUpdate(g.reserved, c, Amount(g, c) + size);
  }

  lemma ReleaseSum(g: Gov, c: Category, size: nat)
    ensures Release(g, c, size).None? <==> size > Amount(g, c)
    ensures Release(g, c, size).Some? ==>
              var p := Release(g, c, size).value;
              && Reserved(p) == Reserved(g) - size
              && Amount(p, c) == Amount(g, c) - size
              && (forall d :: d != c ==> Amount(p, d) == Amount(g, d))
              && p.settings == g.settings && p.sample == g.sample && p.stale == g.stale
  {
    if 0 < size <= Amount(g, c) {
      MapSumRemove(g.reserved, c);
      MapSumUpdate(g.reserved, c, Amount(g, c) - size);
    }
  }

  /** A reading changes only the sample in use. */
  lemma RefreshKeeps(g: Gov, r: Reading)
    ensures Refresh(g, r).reserved == g.reserved && Refresh(g, r).settings == g.settings
  {
  }

  // ----- runs -----

  datatype Event =
    | Ask(category: Category, size: nat, reading: Reading)
    | Return(category: Category, size: nat)

  /** The state after an event; None is the underflow error. */
  ghost function Apply(g: Gov, e: Event): Option<Gov> {
    match e
    case Ask(c, size, r) => Some(Reserve(g, c, size, r).0)
    case Return(c, size) => Release(g, c, size)
  }

  ghost function Run(g: Gov, events: seq<Event>): Option<Gov> {
    if events == [] then Some(g) else
      match Run(g, events[..|events| - 1])
      case Some(p) => Apply(p, events[|events| - 1])
      case None => None
  }

  /** Bytes granted to a category minus bytes it returned, read off the events. */
  ghost function Balance(g: Gov, events: seq<Event>, c: Category): int {
    if events == [] then Amount(g, c) else
      var before := events[..|events| - 1];
      Balance(g, before, c) +
      match events[|events| - 1]
      case Ask(d, size, r) =>
        if d == c && Run(g, before).Some? && Reserve(Run(g, before).value, d, size, r).1 then size else 0
      case Return(d, size) => if d == c then 0 - size as int else 0
  }

  /**
   Over arbitrary events and samples, each category holds exactly its balance, so a return
   fails only when it exceeds what the category still owns.
   */
  lemma {:induction false} RunBalances(g: Gov, events: seq<Event>, c: Category)
    ensures Run(g, events).Some? ==> Amount(Run(g, events).value, c) == Balance(g, events, c)
  {
    if events != [] {
      var before := events[..|events| - 1];
      RunBalances(g, before, c);
      if Run(g, before).Some? {
        var p := Run(g, before).value;
        match events[|events| - 1]
        case Ask(d, size, r) => AddSum(Refresh(p, r), d, size);
        case Return(d, size) => ReleaseSum(p, d, size);
      }
    }
  }

  /** The governor bound over runs: every admitted positive reservation of any run was safe. */
  lemma RunSafe(g: Gov, before: seq<Event>, c: Category, size: nat, r: Reading)
    requires Run(g, before).Some? && size > 0
    requires Reserve(Run(g, before).value, c, size, r).1
    ensures Run(g, before + [Ask(c, size, r)]).Some?
    ensures var p := Run(g, before + [Ask(c, size, r)]).value;
            && p.sample.Some? && Safe(p, Reserved(p))
            && Reserved(p) == Reserved(Run(g, before).value) + size
  {
    var p := Run(g, before).value;
    assert (before + [Ask(c, size, r)])[..|before|] == before;
    AdmitsExactlySafe(p, c, size, r);
    AddSum(Refresh(p, r), c, size);
  }

  // ----- the sample in use -----

  /** The readings of a run, in order. */
  function Readings(events: seq<Event>): seq<Reading> {
    if events == [] then []
    else
      Readings(events[..|events| - 1]) + if events[|events| - 1].Ask? then [events[|events| - 1].reading] else []
  }

  /** Reading `k` is the last one that brought a sample. */
  predicate LastFresh(rs: seq<Reading>, k: int) {
    0 <= k < |rs| && rs[k].Fresh? && forall j :: k < j < |rs| ==> !rs[j].Fresh?
  }

  predicate NoneFresh(rs: seq<Reading>) { forall k :: 0 <= k < |rs| ==> !rs[k].Fresh? }

  predicate FailedAfter(rs: seq<Reading>, k: int) { exists j :: k < j < |rs| && 0 <= j && rs[j].Failed? }

  /** The sample in use is the last one that was read, and it is stale exactly since a reading has failed. */
  ghost predicate InUse(rs: seq<Reading>, sample: Option<Sample>, stale: bool) {
    && (forall k :: LastFresh(rs, k) ==> sample == Some(rs[k].sample) && (stale <==> FailedAfter(rs, k)))
    && (NoneFresh(rs) ==> if rs == [] then sample == None && !stale else sample == Some(UNAVAILABLE) && stale)
  }

  lemma {:induction false} FreshSomewhere(rs: seq<Reading>)
    ensures NoneFresh(rs) || exists k :: LastFresh(rs, k)
  {
    if !NoneFresh(rs) {
      var n := |rs| - 1;
      if rs[n].Fresh? {
        assert LastFresh(rs, n);
      } else {
        FreshSomewhere(rs[..n]);
        var i :| 0 <= i < |rs| && rs[i].Fresh?;
        assert rs[..n][i].Fresh?;
        var k :| LastFresh(rs[..n], k);
        LastFreshStays(rs[..n], rs[n], k);
        assert rs[..n] + [rs[n]] == rs;
      }
    }
  }

  /** A reading without a sample leaves the last one what it was. */
  lemma LastFreshStays(rs: seq<Reading>, r: Reading, k: int)
    requires !r.Fresh?
    ensures LastFresh(rs + [r], k) <==> LastFresh(rs, k)
    ensures LastFresh(rs, k) ==> (FailedAfter(rs + [r], k) <==> FailedAfter(rs, k) || r.Failed?)
  {
    var all := rs + [r];
    assert all[|rs|] == r;
    assert forall j :: 0 <= j < |rs| ==> all[j] == rs[j];
    if LastFresh(rs, k) && FailedAfter(rs, k) {
      var j :| k < j < |rs| && 0 <= j && rs[j].Failed?;
      assert all[j].Failed?;
    }
  }

  /** One more reading. */
  lemma ReadingInUse(rs: seq<Reading>, g: Gov, r: Reading)
    requires InUse(rs, g.sample, g.stale)
    ensures InUse(rs + [r], Refresh(g, r).sample, Refresh(g, r).stale)
  {
    hide NoneFresh, FailedAfter;
    var all, p := rs + [r], Refresh(g, r);
    FreshSomewhere(rs);
    ReadingFresh(rs, r);
    forall k | LastFresh(all, k) ensures p.sample == Some(all[k].sample) && (p.stale <==> FailedAfter(all, k)) {
      if !r.Fresh? {
        LastFreshStays(rs, r, k);
        assert 0 <= k < |rs| && all[k] == rs[k] by { LastFreshRange(rs, k); }
      }
    }
  }

  lemma LastFreshRange(rs: seq<Reading>, k: int)
    requires LastFresh(rs, k)
    ensures 0 <= k < |rs|
  {
  }

  lemma ReadingFresh(rs: seq<Reading>, r: Reading)
    ensures NoneFresh(rs + [r]) <==> NoneFresh(rs) && !r.Fresh?
    ensures r.Fresh? ==> forall k :: LastFresh(rs + [r], k) ==> k == |rs| && !FailedAfter(rs + [r], k)
  {
    var all := rs + [r];
    assert all[|rs|] == r;
    assert forall j :: 0 <= j < |rs| ==> all[j] == rs[j];
  }

  /** Over runs of a new governor: every decision is taken on the last sample read, stale or not. */
  lemma {:induction false} RunSample(settings: Settings, events: seq<Event>)
    requires Run(New(settings), events).Some?
    ensures var p := Run(New(settings), events).value;
            InUse(Readings(events), p.sample, p.stale) && p.settings == settings
  {
    if events != [] {
      var before, e := events[..|events| - 1], events[|events| - 1];
      RunSample(settings, before);
      var p := Run(New(settings), before).value;
      match e
      case Ask(c, size, r) =>
        hide Refresh;
        RefreshKeeps(p, r);
        ReadingInUse(Readings(before), p, r);
      case Return(c, size) =>
        ReleaseSum(p, c, size);
        assert Readings(events) == Readings(before);
    }
  }

  // ----- the object -----

  class AdaptiveMemoryGovernor {
    const settings: Settings
    var reserved: map<Category, nat>
    var sample: Option<Sample>
    var stale: bool
    var peakReserved: nat
    var rejected: nat

    function View(): Gov
      reads this
    {
      Gov(settings, reserved, sample, stale)
    }

    constructor (settings: Settings)
      ensures View() == New(settings) && peakReserved == 0 && rejected == 0
    {
      this.settings := settings;
      reserved, sample, stale, peakReserved, rejected := map[], None, false, 0, 0;
    }

    /** The sum over all categories. */
    method TotalReserved() returns (total: nat)
      ensures total == Reserved(View())
    {
      total := 0;
      var rest := reserved;
      while rest != map[]
        invariant total + MapSum(rest) == MapSum(reserved)
        decreases |rest|
      {
        var c :| c in rest;
        MapSumRemove(rest, c);
        total := total + rest[c];
        assert (rest - {c}).Keys == rest.Keys - {c};
        rest := rest - {c};
      }
    }

    method RefreshSample(r: Reading)
      modifies this
      ensures View() == Refresh(old(View()), r) && sample.Some?
      ensures peakReserved == old(peakReserved) && rejected == old(rejected)
    {
      if r.Cached? && sample.Some? { return; }
      if r.Fresh? {
        sample, stale := Some(r.sample), false;
      } else {
        if sample.None? { sample := Some(UNAVAILABLE); }
        stale := true;
      }
    }

    method SoftLimitAndGuard() returns (soft: Option<int>, guard: int)
      requires sample.Some?
      ensures soft == SoftLimit(settings, EffectiveLimit(sample.value))
      ensures guard == Guard(settings, EffectiveLimit(sample.value))
    {
      var limit := sample.value.limit;
      if sample.value.high.Some? {
        limit := Some(if limit.Some? then Min(limit.value, sample.value.high.value) else sample.value.high.value);
      }
      assert limit == EffectiveLimit(sample.value);
      if settings.softLimit.Some? {
        var configured := settings.softLimit.value;
        if limit.Some? { configured := Min(configured, limit.value); }
        guard := Max(0, (if limit.Some? && limit.value != 0 then limit.value else configured) - configured);
        soft := Some(configured);
      } else if limit.Some? {
        var absolute := Min(settings.guardBytes, limit.value / 2);
        guard := Max(absolute, RatioShare(limit.value, settings.guardRatio));
        soft := Some(Max(1, limit.value - Min(guard, Max(0, limit.value - 1))));
      } else {
        guard := settings.guardBytes;
        soft := None;
      }
    }

    /** What may still be reserved on the sample in use. */
    method AvailableBytes(total: nat) returns (available: int)
      requires sample.Some?
      ensures available == Available(settings, sample.value, stale, total)
    {
      var soft, _ := SoftLimitAndGuard();
      var capacity;
      if soft.None? || sample.value.current.None? {
        capacity := Max(total, settings.fallback);
      } else {
        capacity := Max(total, soft.value - sample.value.current.value);
      }
      if stale { capacity := Max(total, Min(capacity, settings.fallback)); }
      available := Max(0, capacity - total);
    }

    /** Reserves at once or not at all. */
    method ReserveNowait(c: Category, size: nat, r: Reading) returns (allowed: bool)
      modifies this
      ensures (View(), allowed) == Reserve(old(View()), c, size, r)
      ensures peakReserved == if allowed && size > 0 then Max(old(peakReserved), Reserved(View()))
                              else old(peakReserved)
      ensures rejected == old(rejected) + if allowed then 0 else 1
    {
      RefreshSample(r);
      var before := TotalReserved();
      var available := AvailableBytes(before);
      allowed := size <= available;
      AddSum(View(), c, size);
      if allowed && size > 0 {
        reserved := reserved[c := (if c in reserved then reserved[c] else 0) + size];
        peakReserved := Max(peakReserved, before + size);
      } else if !allowed {
        rejected := rejected + 1;
      }
    }

    /** Returns bytes; `ok` is false for the underflow error. */
    method ReleaseBytes(c: Category, size: nat) returns (ok: bool)
      modifies this
      ensures ok <==> Release(old(View()), c, size).Some?
      ensures View() == if ok then Release(old(View()), c, size).value else old(View())
      ensures peakReserved == old(peakReserved) && rejected == old(rejected)
    {
      if size == 0 { return true; }
      var owned := if c in reserved then reserved[c] else 0;
      if size > owned { return false; }
      reserved := reserved[c := owned - size];
      if reserved[c] == 0 { reserved := reserved - {c}; }
      assert reserved == Release(old(View()), c, size).value.reserved;
      ok := true;
    }
  }
}
