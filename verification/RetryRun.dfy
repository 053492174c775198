/**
 The retry runner: its loop over a finite supply of providers, and the bounded log of routing
 attempts it keeps. Log entries are records that the loop goes on editing while they are logged.
 */
module RetryRun {
  import opened Common

  const HEAD := 16
  const TAIL := 16
  const LIMIT := HEAD + TAIL

  datatype Outcome = Started | RetryDecided | Finished | RetryExhausted | RetryAborted

  datatype Entry = Entry(index: nat, outcome: Outcome, next: Option<nat>)

  /** The observability context. `entries` is every record ever made; `log` lists those still kept. */
  datatype Info = Info(count: nat, log: seq<nat>, omitted: nat, transitions: nat, entries: seq<Entry>)

  const BLANK := Info(0, [], 0, 0, [])

  /** What an attempt leads to; `Nothing` is a result without response, retry or finalization. */
  datatype Verdict = Retry | Finalize | Respond | Nothing

  /** How a run ends: by the final error, by an attempt's response, or by the hook's response. */
  datatype Ending = Open | ByFinal | ByResponse | ByHook

  datatype Run = Run(info: Option<Info>, pending: Option<nat>, started: nat, ending: Ending)

  // ----- the log -----

  /** A new record at the end of the log; the first and the last ones are kept, the middle is counted. */
  function StartAttempt(i: Info): Info {
    var id := |i.entries|;
    var full := |i.log| >= LIMIT;
    i.(count := i.count + 1,
       entries := i.entries + [Entry(i.count + 1, Started, None)],
       log := (if full then i.log[..HEAD] + i.log[HEAD + 1..] else i.log) + [id],
       omitted := if full then i.omitted + 1 else i.omitted)
  }

  function Edit(i: Info, id: nat, e: Entry): Info
    requires id < |i.entries|
  {
    i.(entries := i.entries[id := e])
  }

  function RecordTransition(i: Info, previous: Option<nat>, id: nat): Info
    requires id < |i.entries| && (previous.Some? ==> previous.value < |i.entries|)
  {
    if previous.None? then i
    else
      var e := i.entries[previous.value];
      Edit(i, previous.value, e.(next := Some(i.entries[id].index))).(transitions := i.transitions + 1)
  }

  function FinishAttempt(i: Info, id: nat, v: Verdict): Info
    requires id < |i.entries|
  {
    Edit(i, id, i.entries[id].(outcome := if v == Retry then RetryDecided else Finished))
  }

  /** The attempts a log keeps after `n` starts. */
  function Window(n: nat): seq<nat> {
    if n <= LIMIT then seq(n, k => k + 1)
    else seq(HEAD, k => k + 1) + seq(TAIL, k => n - TAIL + k + 1)
  }

  function Indices(i: Info): seq<nat>
    requires forall k :: 0 <= k < |i.log| ==> i.log[k] < |i.entries|
  {
    seq(|i.log|, k requires 0 <= k < |i.log| => i.entries[i.log[k]].index)
  }

  /** Records are numbered in order, and the log keeps exactly the window of them. */
  predicate LogOk(i: Info) {
    && i.count == |i.entries|
    && (forall k :: 0 <= k < |i.entries| ==> i.entries[k].index == k + 1)
    && (forall k :: 0 <= k < |i.log| ==> i.log[k] < |i.entries|)
    && Indices(i) == Window(i.count)
    && i.omitted == (if i.count <= LIMIT then 0 else i.count - LIMIT)
  }

  lemma StartAttemptOk(i: Info)
    requires LogOk(i)
    ensures LogOk(StartAttempt(i))
  {
    hide Indices, Window;
    IndicesNext(i);
    WindowNext(i.count);
    WindowLength(i.count);
    IndicesLength(i);
  }

  /** The list with one more element at its end; a full one loses the element after its head. */
  function Next(s: seq<nat>, x: nat): seq<nat> {
    (if |s| >= LIMIT then s[..HEAD] + s[HEAD + 1..] else s) + [x]
  }

  lemma WindowLength(n: nat)
    ensures |Window(n)| == if n <= LIMIT then n else LIMIT
  {
  }

  lemma WindowNext(n: nat)
    ensures Window(n + 1) == Next(Window(n), n + 1)
  {
    var w, v := Window(n), Window(n + 1);
    if n >= LIMIT { assert w[..HEAD] == v[..HEAD]; }
    assert |v| == |Next(w, n + 1)|;
  }

  lemma IndicesLength(i: Info)
    requires forall k :: 0 <= k < |i.log| ==> i.log[k] < |i.entries|
    ensures |Indices(i)| == |i.log|
  {
  }

  /** A new record appends its index to the indices of the log. */
  lemma IndicesNext(i: Info)
    requires forall k :: 0 <= k < |i.log| ==> i.log[k] < |i.entries|
    ensures var r := StartAttempt(i);
            && (forall k :: 0 <= k < |r.log| ==> r.log[k] < |r.entries|)
            && Indices(r) == Next(Indices(i), i.count + 1)
  {
    var r, m := StartAttempt(i), Next(i.log, |i.entries|);
    assert r.log == m;
    forall k | 0 <= k < |m| ensures m[k] < |r.entries| && r.entries[m[k]].index == Next(Indices(i), i.count + 1)[k] {
    }
  }

  lemma EditOk(i: Info, id: nat, e: Entry)
    requires LogOk(i) && id < |i.entries| && e.index == i.entries[id].index
    ensures LogOk(Edit(i, id, e))
  {
    assert Indices(Edit(i, id, e)) == Indices(i);
  }

  // ----- the loop -----

  /** The run stops short of another attempt: a retry that was waiting gets its fate. */
  function Stop(r: Run, fate: Outcome, ending: Ending): Run
    requires r.info.Some? && r.pending.Some? ==> r.pending.value < |r.info.value.entries|
  {
    var info :=
      if r.info.Some? && r.pending.Some? then
        var e := r.info.value.entries[r.pending.value];
        Some(Edit(r.info.value, r.pending.value, e.(outcome := fate)))
      else r.info;
    r.(info := info, ending := ending)
  }

  /** One attempt: logged, linked to the retry before it, carried out, finished. */
  function Attempt(r: Run, v: Verdict): Run
    requires r.info.Some? && r.pending.Some? ==> r.pending.value < |r.info.value.entries|
  {
    var ending := match v case Finalize => ByFinal case Respond => ByResponse case _ => Open;
    if r.info.None? then r.(pending := None, started := r.started + 1, ending := ending)
    else
      var id := |r.info.value.entries|;
      var begun := RecordTransition(StartAttempt(r.info.value), r.pending, id);
      Run(Some(FinishAttempt(begun, id, v)), if v == Retry then Some(id) else None, r.started + 1, ending)
  }

  predicate Ready(r: Run) { r.info.Some? && r.pending.Some? ==> r.pending.value < |r.info.value.entries| }

  predicate LimitReached(max: Option<int>, started: nat) { max.Some? && started >= Max(0, max.value) }

  /**
   The loop from a state on. `supply` says what each provider's attempt leads to, and `hook` how
   many attempts have been started when the hook answers in place of the next one.
   */
  function Loop(r: Run, supply: seq<Verdict>, hook: Option<nat>, max: Option<int>): Run
    requires Ready(r)
    decreases |supply| - r.started
  {
    if LimitReached(max, r.started) then Stop(r, RetryExhausted, ByFinal)
    else if hook == Some(r.started) then Stop(r, RetryAborted, ByHook)
    else if r.started >= |supply| then Stop(r, RetryExhausted, ByFinal)
    else
      var next := Attempt(r, supply[r.started]);
      if next.ending != Open then next else Loop(next, supply, hook, max)
  }

  // ----- fates -----

  /** What became of attempt `k` of a run that began with `base` records. */
  predicate Transitioned(i: Info, base: nat, k: nat)
    requires base + k < |i.entries|
  {
    i.entries[base + k] == Entry(base + k + 1, RetryDecided, Some(base + k + 2))
  }

  predicate LeftWith(i: Info, base: nat, k: nat, fate: Outcome)
    requires base + k < |i.entries|
  {
    i.entries[base + k] == Entry(base + k + 1, fate, None)
  }

  /** Every attempt before the last has its fate; the last one may still wait for it. */
  predicate FatesSoFar(i: Info, base: nat, started: nat, supply: seq<Verdict>, pending: Option<nat>) {
    && |i.entries| == base + started && started <= |supply|
    && (forall k :: 0 <= k < started ==>
          if supply[k] != Retry then LeftWith(i, base, k, Finished)
          else if k < started - 1 then Transitioned(i, base, k)
          else LeftWith(i, base, k, RetryDecided))
    && pending == if started > 0 && supply[started - 1] == Retry then Some(base + started - 1) else None
  }

  predicate Progress(r: Run, base: Info, supply: seq<Verdict>) {
    && r.started <= |supply|
    && (r.info.Some? ==>
          var i := r.info.value;
          && LogOk(i) && |base.entries| <= |i.entries| && i.entries[..|base.entries|] == base.entries
          && FatesSoFar(i, |base.entries|, r.started, supply, r.pending)
          && i.transitions == base.transitions + Retries(supply, if r.started > 0 then r.started - 1 else 0))
    && (r.info.None? ==> r.pending.None?)
  }

  /** How many of the first `n` attempts asked for a retry. */
  function Retries(supply: seq<Verdict>, n: nat): nat
    requires n <= |supply|
  {
    if n == 0 then 0 else Retries(supply, n - 1) + if supply[n - 1] == Retry then 1 else 0
  }

  lemma AttemptLog(i: Info, pending: Option<nat>, v: Verdict)
    requires LogOk(i) && (pending.Some? ==> pending.value < |i.entries|)
    ensures LogOk(FinishAttempt(RecordTransition(StartAttempt(i), pending, |i.entries|), |i.entries|, v))
  {
    hide Indices, Window;
    var s := StartAttempt(i);
    StartAttemptOk(i);
    var t := RecordTransition(s, pending, |i.entries|);
    assert |t.entries| == |i.entries| + 1;
    if pending.Some? { EditOk(s, pending.value, t.entries[pending.value]); LogTransitions(s, pending.value, t); }
    EditOk(t, |i.entries|, t.entries[|i.entries|].(outcome := if v == Retry then RetryDecided else Finished));
  }

  lemma LogTransitions(s: Info, id: nat, t: Info)
    requires id < |s.entries| == |t.entries| && t == Edit(s, id, t.entries[id]).(transitions := t.transitions)
    requires LogOk(Edit(s, id, t.entries[id]))
    ensures LogOk(t)
  {
    assert Indices(t) == Indices(Edit(s, id, t.entries[id]));
  }

  lemma AttemptProgress(r: Run, base: Info, supply: seq<Verdict>)
    requires Progress(r, base, supply) && Ready(r) && r.started < |supply|
    ensures Progress(Attempt(r, supply[r.started]), base, supply) && Ready(Attempt(r, supply[r.started]))
  {
    hide LogOk;
    if r.info.Some? {
      AttemptLog(r.info.value, r.pending, supply[r.started]);
      LogCounts(r.info.value);
    }
  }

  lemma LogCounts(i: Info)
    requires LogOk(i)
    ensures i.count == |i.entries|
  {
  }

  /** The fates at the end of a run: one for each attempt that asked for a retry. */
  predicate FatesAtEnd(i: Info, base: nat, r: Run, supply: seq<Verdict>) {
    && |i.entries| == base + r.started && r.started <= |supply|
    && forall k :: 0 <= k < r.started ==>
         if supply[k] != Retry then LeftWith(i, base, k, Finished)
         else if k < r.started - 1 then Transitioned(i, base, k)
         else if r.ending == ByHook then LeftWith(i, base, k, RetryAborted)
         else LeftWith(i, base, k, RetryExhausted)
  }

  /** Where the loop ends, and what it leaves in the log. */
  predicate Concluded(r: Run, base: Info, supply: seq<Verdict>, hook: Option<nat>, max: Option<int>) {
    && r.ending != Open && r.started <= |supply|
    && (max.Some? ==> r.started <= Max(0, max.value))
    && (r.ending == ByHook ==> hook == Some(r.started))
    && (r.info.Some? ==>
          && LogOk(r.info.value) && |base.entries| <= |r.info.value.entries|
          && r.info.value.entries[..|base.entries|] == base.entries
          && FatesAtEnd(r.info.value, |base.entries|, r, supply)
          && r.info.value.transitions == base.transitions + Retries(supply, if r.started > 0 then r.started - 1 else 0))
  }

  lemma StopConcludes(
      r: Run, base: Info, supply: seq<Verdict>, hook: Option<nat>, max: Option<int>, fate: Outcome, ending: Ending)
    requires Progress(r, base, supply) && Ready(r)
    requires (fate == RetryExhausted && ending == ByFinal)
             || (fate == RetryAborted && ending == ByHook && hook == Some(r.started))
    requires max.Some? ==> r.started <= Max(0, max.value)
    ensures Concluded(Stop(r, fate, ending), base, supply, hook, max)
  {
    hide LogOk;
    if r.info.Some? && r.pending.Some? {
      EditOk(r.info.value, r.pending.value, r.info.value.entries[r.pending.value].(outcome := fate));
    }
  }

  lemma {:induction false} LoopConcludes(r: Run, base: Info, supply: seq<Verdict>, hook: Option<nat>, max: Option<int>)
    requires Progress(r, base, supply) && Ready(r) && r.ending == Open
    requires max.Some? ==> r.started <= Max(0, max.value)
    ensures Concluded(Loop(r, supply, hook, max), base, supply, hook, max)
    decreases |supply| - r.started
  {
    hide LogOk, FatesSoFar, Retries;
    if LimitReached(max, r.started) {
      StopConcludes(r, base, supply, hook, max, RetryExhausted, ByFinal);
    } else if hook == Some(r.started) {
      StopConcludes(r, base, supply, hook, max, RetryAborted, ByHook);
    } else if r.started >= |supply| {
      StopConcludes(r, base, supply, hook, max, RetryExhausted, ByFinal);
    } else {
      AttemptProgress(r, base, supply);
      AttemptCounts(r, supply[r.started]);
      var next := Attempt(r, supply[r.started]);
      if next.ending != Open {
        EndedConcludes(r, next, base, supply, hook, max);
      } else {
        LoopConcludes(next, base, supply, hook, max);
      }
    }
  }

  lemma AttemptCounts(r: Run, v: Verdict)
    requires Ready(r)
    ensures Attempt(r, v).started == r.started + 1
    ensures Attempt(r, v).ending == match v case Finalize => ByFinal case Respond => ByResponse case _ => Open
  {
  }

  /** An attempt that ends the run asked for no retry, so nothing is left waiting. */
  lemma EndedConcludes(r: Run, next: Run, base: Info, supply: seq<Verdict>, hook: Option<nat>, max: Option<int>)
    requires Ready(r) && r.started < |supply| && next == Attempt(r, supply[r.started]) && Progress(next, base, supply)
    requires next.ending != Open && (max.Some? ==> next.started <= Max(0, max.value))
    ensures Concluded(next, base, supply, hook, max)
  {
    hide LogOk;
    AttemptCounts(r, supply[r.started]);
  }

  // ----- how many attempts -----

  predicate Ends(v: Verdict) { v == Finalize || v == Respond }

  /** The place of the first attempt that ends the run, or the number of providers when none does. */
  function FirstEnd(supply: seq<Verdict>): (n: nat)
    ensures n <= |supply|
    ensures forall k :: 0 <= k < n ==> !Ends(supply[k])
    ensures n < |supply| ==> Ends(supply[n])
  {
    if supply == [] || Ends(supply[0]) then 0 else 1 + FirstEnd(supply[1..])
  }

  /** The least of the supply, the first ending attempt included, the limit and the hook. */
  function Starts(supply: seq<Verdict>, hook: Option<nat>, max: Option<int>): nat {
    var supplied := Min(|supply|, FirstEnd(supply) + 1);
    var limited := if max.Some? then Min(supplied, Max(0, max.value)) else supplied;
    if hook.Some? then Min(limited, hook.value) else limited
  }

  /**
   What ends a run that has started that many attempts: an ending attempt comes first, then the
   limit, then the hook.
   */
  function EndOf(supply: seq<Verdict>, hook: Option<nat>, max: Option<int>): Ending {
    var n := Starts(supply, hook, max);
    if n > FirstEnd(supply) then if supply[n - 1] == Respond then ByResponse else ByFinal
    else if max.Some? && n >= max.value then ByFinal
    else if hook == Some(n) then ByHook
    else ByFinal
  }

  /** The loop starts exactly as many attempts as nothing stops it from, and ends for that reason. */
  lemma {:induction false} LoopStarts(r: Run, supply: seq<Verdict>, hook: Option<nat>, max: Option<int>)
    requires Ready(r) && r.ending == Open && r.started <= FirstEnd(supply)
    requires (max.Some? ==> r.started <= Max(0, max.value)) && (hook.Some? ==> r.started <= hook.value)
    ensures Loop(r, supply, hook, max).started == Starts(supply, hook, max)
    ensures Loop(r, supply, hook, max).ending == EndOf(supply, hook, max)
    decreases |supply| - r.started
  {
    hide FirstEnd, Attempt;
    if !LimitReached(max, r.started) && hook != Some(r.started) && r.started < |supply| {
      AttemptCounts(r, supply[r.started]);
      var next := Attempt(r, supply[r.started]);
      if next.ending == Open {
        AttemptReady(r, supply[r.started]);
        LoopStarts(next, supply, hook, max);
      }
    }
  }

  lemma AttemptReady(r: Run, v: Verdict)
    requires Ready(r)
    ensures Ready(Attempt(r, v))
  {
  }

  function Opening(info: Option<Info>): Run { Run(info, None, 0, Open) }

  /**
   A run of the loop, from any log left by earlier runs: it starts exactly the attempts that neither
   supply, limit, hook nor an ending attempt stops, and ends for the first of those reasons; earlier
   records stay as they were; the log keeps the window of all attempts; and
   every attempt that asked for a retry gets exactly one fate: a transition to the next index, or,
   for the last one, exhaustion or abortion by the hook.
   */
  lemma RunConcludes(info: Option<Info>, supply: seq<Verdict>, hook: Option<nat>, max: Option<int>)
    requires info.Some? ==> LogOk(info.value)
    ensures var r := Loop(Opening(info), supply, hook, max);
            && Concluded(r, if info.Some? then info.value else BLANK, supply, hook, max)
            && r.started == Starts(supply, hook, max) && r.ending == EndOf(supply, hook, max)
            && (r.info.Some? <==> info.Some?)
  {
    hide LogOk;
    LoopStarts(Opening(info), supply, hook, max);
    InfoKept(Opening(info), supply, hook, max);
    LoopConcludes(Opening(info), if info.Some? then info.value else BLANK, supply, hook, max);
  }

  lemma BlankLog()
    ensures LogOk(BLANK)
  {
    assert Indices(BLANK) == Window(0);
  }

  /** After the first run of a request, the log is the window of its attempts and the rest is counted. */
  lemma FirstRunLog(supply: seq<Verdict>, hook: Option<nat>, max: Option<int>)
    ensures var r := Loop(Opening(Some(BLANK)), supply, hook, max);
            && r.info.Some? && LogOk(r.info.value) && r.info.value.count == r.started
            && Indices(r.info.value) == Window(r.started)
            && r.info.value.omitted == (if r.started <= LIMIT then 0 else r.started - LIMIT)
  {
    BlankLog();
    RunConcludes(Some(BLANK), supply, hook, max);
    InfoKept(Opening(Some(BLANK)), supply, hook, max);
  }

  lemma {:induction false} InfoKept(r: Run, supply: seq<Verdict>, hook: Option<nat>, max: Option<int>)
    requires Ready(r)
    ensures Loop(r, supply, hook, max).info.Some? <==> r.info.Some?
    decreases |supply| - r.started
  {
    if !LimitReached(max, r.started) && hook != Some(r.started) && r.started < |supply| {
      var next := Attempt(r, supply[r.started]);
      if next.ending == Open { InfoKept(next, supply, hook, max); }
    }
  }

  /** The window keeps the first and the last attempts and leaves out exactly the middle. */
  lemma WindowMeaning(n: nat, a: nat)
    ensures a in Window(n) <==> 1 <= a <= n && (n <= 32 || a <= 16 || a > n - 16)
    ensures |Window(n)| == Min(n, 32) && Increasing(Window(n))
  {
    var w := Window(n);
    if 1 <= a <= n {
      if n <= LIMIT || a <= HEAD { assert w[a - 1] == a; }
      else if a > n - TAIL { assert w[HEAD + a - 1 - (n - TAIL)] == a; }
    }
  }

  // ----- the object -----

  class UpstreamRunner {
    var observed: bool
    var attemptCount: nat
    var routingAttempts: seq<nat>
    var omitted: nat
    var transitions: nat
    var entries: seq<Entry>

    ghost function Context(): Info
      reads this
    {
      Info(attemptCount, routingAttempts, omitted, transitions, entries)
    }

    ghost function View(): Option<Info>
      reads this
    {
      if observed then Some(Context()) else None
    }

    constructor (observed: bool)
      ensures View() == if observed then Some(BLANK) else None
      ensures Context() == BLANK
    {
      this.observed := observed;
      attemptCount, routingAttempts, omitted, transitions, entries := 0, [], 0, 0, [];
    }

    /** Logs the start of an attempt; the entry is None when nothing is observed. */
    method StartRoutingAttempt() returns (entry: Option<nat>)
      modifies this
      ensures observed == old(observed)
      ensures !observed ==> entry == None && Context() == old(Context())
      ensures observed ==> entry == Some(|old(entries)|) && Context() == StartAttempt(old(Context()))
    {
      if !observed { return None; }
      attemptCount := attemptCount + 1;
      entry := Some(|entries|);
      entries := entries + [Entry(attemptCount, Started, None)];
      if |routingAttempts| < LIMIT {
        routingAttempts := routingAttempts + [entry.value];
      } else {
        routingAttempts := routingAttempts[..HEAD] + routingAttempts[HEAD + 1..];
        routingAttempts := routingAttempts + [entry.value];
        omitted := omitted + 1;
      }
    }

    method RecordRetryTransition(previous: Option<nat>, next: Option<nat>)
      requires previous.Some? ==> previous.value < |entries|
      requires next.Some? ==> next.value < |entries|
      modifies this
      ensures observed == old(observed)
      ensures Context() == if observed && next.Some? then RecordTransition(old(Context()), previous, next.value)
                           else old(Context())
    {
      if !observed || previous.None? || next.None? { return; }
      var e := entries[previous.value];
      entries := entries[previous.value := e.(next := Some(entries[next.value].index))];
      transitions := transitions + 1;
    }

    method SetOutcome(entry: Option<nat>, outcome: Outcome)
      requires entry.Some? ==> entry.value < |entries|
      modifies this
      ensures observed == old(observed)
      ensures Context() == if entry.Some?
                           then Edit(old(Context()), entry.value, old(entries[entry.value]).(outcome := outcome))
                           else old(Context())
    {
      if entry.None? { return; }
      entries := entries[entry.value := entries[entry.value].(outcome := outcome)];
    }

    /** The run loop. */
    method RunAttempts(supply: seq<Verdict>, hook: Option<nat>, max: Option<int>) returns (started: nat, ending: Ending)
      modifies this
      ensures observed == old(observed)
      ensures Loop(Opening(old(View())), supply, hook, max).info == View()
      ensures Loop(Opening(old(View())), supply, hook, max).started == started
      ensures Loop(Opening(old(View())), supply, hook, max).ending == ending
    {
      var pending: Option<nat> := None;
      started, ending := 0, Open;
      ghost var entry := Opening(View());
      while true
        invariant observed == old(observed)
        invariant !observed ==> pending == None
        invariant pending.Some? ==> pending.value < |entries|
        invariant started <= |supply|
        invariant Loop(entry, supply, hook, max) == Loop(Run(View(), pending, started, Open), supply, hook, max)
        decreases |supply| - started
      {
        if max.Some? && started >= Max(0, max.value) {
          SetOutcome(pending, RetryExhausted);
          return started, ByFinal;
        }
        if hook == Some(started) {
          SetOutcome(pending, RetryAborted);
          return started, ByHook;
        }
        if started >= |supply| {
          SetOutcome(pending, RetryExhausted);
          return started, ByFinal;
        }
        var verdict := supply[started];
        ghost var before := Run(View(), pending, started, Open);
        var begun := StartRoutingAttempt();
        started := started + 1;
        RecordRetryTransition(pending, begun);
        SetOutcome(begun, if verdict == Retry then RetryDecided else Finished);
        pending := if verdict == Retry then begun else None;
        ghost var after := Attempt(before, verdict);
        assert after.info == View() && after.pending == pending && after.started == started;
        match verdict
        case Finalize => return started, ByFinal;
        case Respond => return started, ByResponse;
        case Retry =>
        case Nothing =>
      }
    }
  }
}
