/**
 The JSON memory scanner as mathematics.

 `Step` is the byte-at-a-time automaton with its limit checks, `Advance` the same
 automaton without any limit, and `FeedSpec` charges a whole chunk before scanning it.
 The theorems below say exactly which inputs are accepted and that the way the input is
 cut into chunks cannot matter.
 */
module JsonScan {
  import opened Common

  newtype byte = b: int | 0 <= b < 256

  const QUOTE: byte := 0x22
  const BACKSLASH: byte := 0x5C

  predicate Opens(b: byte) { b == 0x7B || b == 0x5B }

  predicate Closes(b: byte) { b == 0x7D || b == 0x5D }

  predicate IsSpace(b: byte) { b == 0x20 || b == 0x09 || b == 0x0A || b == 0x0D }

  /** JSON whitespace, comma or colon. */
  predicate Separates(b: byte) { IsSpace(b) || b == 0x2C || b == 0x3A }

  predicate StringSpecial(b: byte) { b == QUOTE || b == BACKSLASH }

  predicate OutsideSpecial(b: byte) { b == QUOTE || Opens(b) || Closes(b) || Separates(b) }

  datatype RequestedLimits = Limits(
    rawMultiplier: int, tokenBytes: int, maxDepth: int, maxScalarBytes: int, maxEstimated: int)
  {
    predicate Valid() {
      rawMultiplier > 0 && tokenBytes > 0 && maxDepth > 0 && maxScalarBytes > 0 && maxEstimated > 0
    }
  }

  /** The limits an estimator accepts; the witness holds the defaults. */
  type Limits = l: RequestedLimits | l.Valid() witness Limits(5, 1024, 128, 4096, 256 * 1024 * 1024)

  /** The estimator's resumable state. */
  datatype Scan = Scan(
    raw: nat, tokens: nat, depth: nat, peak: nat,
    inString: bool, escaped: bool, scalarActive: bool, scalarBytes: nat)

  const FRESH := Scan(0, 0, 0, 0, false, false, false, 0)

  datatype Reason = MaxDepth | MaxScalarBytes | MaxEstimatedBytes

  datatype Phase = ChunkRawCharge | StructuralItemScan | DepthScan | ScalarScan

  /** A rejection carries the counters observed at the rejecting decision. */
  datatype Verdict =
    | Accepted(scan: Scan)
    | Rejected(reason: Reason, phase: Phase, scan: Scan)

  function Estimated(lim: Limits, s: Scan): int {
    s.raw * lim.rawMultiplier + s.tokens * lim.tokenBytes
  }

  function Unscalar(s: Scan): Scan { s.(scalarActive := false, scalarBytes := 0) }

  function Counted(lim: Limits, s: Scan): Verdict {
    var t := s.(tokens := s.tokens + 1);
    if Estimated(lim, t) > lim.maxEstimated
    then Rejected(MaxEstimatedBytes, StructuralItemScan, t)
    else Accepted(t)
  }

  /** One byte of the limited automaton. */
  function Step(lim: Limits, s: Scan, b: byte): Verdict {
    if s.inString then
      Accepted(
        if s.escaped then s.(escaped := false)
        else if b == BACKSLASH then s.(escaped := true)
        else if b == QUOTE then s.(inString := false)
        else s)
    else if b == QUOTE then
      match Counted(lim, Unscalar(s))
      case Accepted(t) => Accepted(t.(inString := true))
      case r => r
    else if Opens(b) then
      match Counted(lim, Unscalar(s))
      case Accepted(t) =>
        var d := t.(depth := t.depth + 1, peak := Max(t.peak, t.depth + 1));
        if d.depth > lim.maxDepth then Rejected(MaxDepth, DepthScan, d) else Accepted(d)
      case r => r
    else if Closes(b) then
      Accepted(Unscalar(s).(depth := Max(0, s.depth - 1)))
    else if Separates(b) then
      Accepted(Unscalar(s))
    else
      match (if s.scalarActive then Accepted(s)
             else Counted(lim, s.(scalarActive := true, scalarBytes := 0)))
      case Accepted(t) =>
        if t.scalarBytes + 1 > lim.maxScalarBytes
        then Rejected(MaxScalarBytes, ScalarScan, t.(scalarBytes := lim.maxScalarBytes + 1))
        else Accepted(t.(scalarBytes := t.scalarBytes + 1))
      case r => r
  }

  /** The limited automaton over a byte sequence, stopping at the first rejection. */
  function Run(lim: Limits, s: Scan, bytes: seq<byte>): Verdict
    decreases |bytes|
  {
    if bytes == [] then Accepted(s) else
      match Step(lim, s, bytes[0])
      case Accepted(t) => Run(lim, t, bytes[1..])
      case r => r
  }

  /** One feed: the whole chunk is charged first, then scanned byte by byte. */
  function FeedSpec(lim: Limits, s: Scan, chunk: seq<byte>): Verdict {
    var charged := s.(raw := s.raw + |chunk|);
    if Estimated(lim, charged) > lim.maxEstimated
    then Rejected(MaxEstimatedBytes, ChunkRawCharge, charged)
    else Run(lim, charged, chunk)
  }

  function FeedAll(lim: Limits, s: Scan, chunks: seq<seq<byte>>): Verdict
    decreases |chunks|
  {
    if chunks == [] then Accepted(s) else
      match FeedSpec(lim, s, chunks[0])
      case Accepted(t) => FeedAll(lim, t, chunks[1..])
      case r => r
  }

  function Concat(chunks: seq<seq<byte>>): seq<byte> {
    if chunks == [] then [] else chunks[0] + Concat(chunks[1..])
  }

  // ----- the automaton without limits -----

  function Advance(s: Scan, b: byte): Scan {
    if s.inString then
      if s.escaped then s.(escaped := false)
      else if b == BACKSLASH then s.(escaped := true)
      else if b == QUOTE then s.(inString := false)
      else s
    else if b == QUOTE then
      Unscalar(s).(tokens := s.tokens + 1, inString := true)
    else if Opens(b) then
      Unscalar(s).(tokens := s.tokens + 1, depth := s.depth + 1, peak := Max(s.peak, s.depth + 1))
    else if Closes(b) then
      Unscalar(s).(depth := Max(0, s.depth - 1))
    else if Separates(b) then
      Unscalar(s)
    else if s.scalarActive then
      s.(scalarBytes := s.scalarBytes + 1)
    else
      s.(tokens := s.tokens + 1, scalarActive := true, scalarBytes := 1)
  }

  /** An unlimited scan that also remembers the longest scalar seen. */
  datatype Trace = Trace(scan: Scan, longest: nat)

  function Start(s: Scan): Trace { Trace(s, s.scalarBytes) }

  function Next(tr: Trace, b: byte): Trace {
    var t := Advance(tr.scan, b);
    Trace(t, Max(tr.longest, t.scalarBytes))
  }

  function TraceAll(tr: Trace, bytes: seq<byte>): Trace
    decreases |bytes|
  {
    if bytes == [] then tr else TraceAll(Next(tr, bytes[0]), bytes[1..])
  }

  /** The three limits, read off the end of an unlimited scan. */
  predicate Within(lim: Limits, tr: Trace) {
    && Estimated(lim, tr.scan) <= lim.maxEstimated
    && tr.scan.peak <= lim.maxDepth
    && tr.longest <= lim.maxScalarBytes
  }

  /** What every state between two accepted feeds satisfies. */
  predicate Ready(lim: Limits, s: Scan) {
    && Within(lim, Start(s))
    && s.depth <= s.peak
  }

  lemma {:induction false} TraceAppend(tr: Trace, a: seq<byte>, b: seq<byte>)
    ensures TraceAll(tr, a + b) == TraceAll(TraceAll(tr, a), b)
    decreases |a|
  {
    if a == [] {
      assert a + b == b;
    } else {
      assert (a + b)[1..] == a[1..] + b;
      TraceAppend(Next(tr, a[0]), a[1..], b);
    }
  }

  /** A scan only ever counts up, and never touches the byte charge. */
  lemma {:induction false} TraceGrows(tr: Trace, bytes: seq<byte>)
    ensures var e := TraceAll(tr, bytes);
            && e.scan.raw == tr.scan.raw
            && e.scan.tokens >= tr.scan.tokens
            && e.scan.peak >= tr.scan.peak
            && e.longest >= tr.longest
            && (tr.scan.depth <= tr.scan.peak ==> e.scan.depth <= e.scan.peak)
            && (tr.scan.scalarBytes <= tr.longest ==> e.scan.scalarBytes <= e.longest)
    decreases |bytes|
  {
    if bytes != [] { TraceGrows(Next(tr, bytes[0]), bytes[1..]); }
  }

  lemma EstimateMonotone(lim: Limits, s: Scan, t: Scan)
    requires s.raw <= t.raw && s.tokens <= t.tokens
    ensures Estimated(lim, s) <= Estimated(lim, t)
  {
    assert s.raw * lim.rawMultiplier <= t.raw * lim.rawMultiplier;
    assert s.tokens * lim.tokenBytes <= t.tokens * lim.tokenBytes;
  }

  /** A byte charge moved across a scan. */
  lemma {:induction false} TraceRecharge(tr: Trace, bytes: seq<byte>, raw: nat)
    ensures TraceAll(tr.(scan := tr.scan.(raw := raw)), bytes)
         == (var e := TraceAll(tr, bytes); e.(scan := e.scan.(raw := raw)))
    decreases |bytes|
  {
    if bytes != [] {
      var n := Next(tr, bytes[0]);
      assert Next(tr.(scan := tr.scan.(raw := raw)), bytes[0]) == n.(scan := n.scan.(raw := raw));
      TraceRecharge(n, bytes[1..], raw);
    }
  }

  /** One limited step accepts exactly when the unlimited step stays within the limits. */
  lemma StepExact(lim: Limits, s: Scan, longest: nat, b: byte)
    requires Within(lim, Trace(s, longest)) && s.depth <= s.peak && s.scalarBytes <= longest
    ensures Step(lim, s, b).Accepted? <==> Within(lim, Next(Trace(s, longest), b))
    ensures Step(lim, s, b).Accepted? ==> Step(lim, s, b).scan == Advance(s, b)
  {
    EstimateMonotone(lim, s, Advance(s, b));
  }

  /** A run accepts exactly when its unlimited end is within the limits. */
  lemma {:induction false} RunExact(lim: Limits, s: Scan, longest: nat, bytes: seq<byte>)
    requires Within(lim, Trace(s, longest)) && s.depth <= s.peak && s.scalarBytes <= longest
    ensures var e := TraceAll(Trace(s, longest), bytes);
            && (Run(lim, s, bytes).Accepted? <==> Within(lim, e))
            && (Run(lim, s, bytes).Accepted? ==> Run(lim, s, bytes).scan == e.scan)
    decreases |bytes|
  {
    if bytes != [] {
      StepExact(lim, s, longest, bytes[0]);
      var n := Next(Trace(s, longest), bytes[0]);
      TraceGrows(n, bytes[1..]);
      if Within(lim, n) {
        RunExact(lim, n.scan, n.longest, bytes[1..]);
      } else {
        EstimateMonotone(lim, n.scan, TraceAll(n, bytes[1..]).scan);
      }
    }
  }

  /** The unlimited scan of a whole input, with its bytes charged. */
  function Ending(s: Scan, bytes: seq<byte>): Trace {
    TraceAll(Start(s.(raw := s.raw + |bytes|)), bytes)
  }

  /** One feed accepts exactly the chunks whose charged, unlimited scan ends within the limits. */
  lemma FeedExact(lim: Limits, s: Scan, chunk: seq<byte>)
    requires Ready(lim, s)
    ensures FeedSpec(lim, s, chunk).Accepted? <==> Within(lim, Ending(s, chunk))
    ensures FeedSpec(lim, s, chunk).Accepted? ==>
              && FeedSpec(lim, s, chunk).scan == Ending(s, chunk).scan
              && Ready(lim, FeedSpec(lim, s, chunk).scan)
  {
    var charged := s.(raw := s.raw + |chunk|);
    TraceGrows(Start(charged), chunk);
    EstimateMonotone(lim, charged, Ending(s, chunk).scan);
    if Estimated(lim, charged) <= lim.maxEstimated {
      RunExact(lim, charged, s.scalarBytes, chunk);
    }
  }

  lemma {:induction false} LongestIrrelevant(s: Scan, longest: nat, bytes: seq<byte>)
    requires s.scalarBytes <= longest
    ensures TraceAll(Trace(s, longest), bytes)
         == (var e := TraceAll(Start(s), bytes); e.(longest := Max(longest, e.longest)))
    decreases |bytes|
  {
    if bytes != [] {
      var t := Advance(s, bytes[0]);
      LongestIrrelevant(t, Max(longest, t.scalarBytes), bytes[1..]);
      LongestIrrelevant(t, Max(s.scalarBytes, t.scalarBytes), bytes[1..]);
    }
  }

  /** Scanning a chunk and then the rest is scanning both together. */
  lemma EndingAppend(s: Scan, a: seq<byte>, b: seq<byte>)
    ensures var first := Ending(s, a);
            var whole := Ending(s, a + b);
            && whole.scan == Ending(first.scan, b).scan
            && whole.longest == Max(first.longest, Ending(first.scan, b).longest)
  {
    var raw := s.raw + |a| + |b|;
    var first := Ending(s, a);
    TraceGrows(Start(s.(raw := s.raw + |a|)), a);
    TraceRecharge(Start(s.(raw := s.raw + |a|)), a, raw);
    var moved := first.(scan := first.scan.(raw := raw));
    TraceAppend(Start(s.(raw := raw)), a, b);
    assert TraceAll(Start(s.(raw := raw)), a) == moved;
    LongestIrrelevant(moved.scan, moved.longest, b);
  }

  /**
   A sequence of feeds accepts exactly when one feed of the joined bytes would, and then
   reaches the state of the unlimited scan.
   */
  lemma {:induction false} FeedAllExact(lim: Limits, s: Scan, chunks: seq<seq<byte>>)
    requires Ready(lim, s)
    ensures var whole := Concat(chunks);
            && (FeedAll(lim, s, chunks).Accepted? <==> Within(lim, Ending(s, whole)))
            && (FeedAll(lim, s, chunks).Accepted? ==> FeedAll(lim, s, chunks).scan == Ending(s, whole).scan)
    decreases |chunks|
  {
    if chunks == [] {
      assert Ending(s, []) == Start(s);
    } else {
      var rest := Concat(chunks[1..]);
      FeedExact(lim, s, chunks[0]);
      EndingAppend(s, chunks[0], rest);
      var first := Ending(s, chunks[0]);
      TraceGrows(Start(first.scan.(raw := first.scan.raw + |rest|)), rest);
      EstimateMonotone(lim, first.scan, Ending(first.scan, rest).scan);
      if Within(lim, first) {
        FeedAllExact(lim, first.scan, chunks[1..]);
      }
    }
  }

  /**
   Chunk independence: two splittings of the same bytes get the same verdict and, when
   accepted, the same state. The split may fall inside an escape or a scalar.
   */
  lemma ChunkIndependence(lim: Limits, s: Scan, left: seq<seq<byte>>, right: seq<seq<byte>>)
    requires Ready(lim, s)
    requires Concat(left) == Concat(right)
    ensures FeedAll(lim, s, left).Accepted? <==> FeedAll(lim, s, right).Accepted?
    ensures FeedAll(lim, s, left).Accepted? ==> FeedAll(lim, s, left) == FeedAll(lim, s, right)
  {
    FeedAllExact(lim, s, left);
    FeedAllExact(lim, s, right);
  }

  /**
   The rejecting phase is not chunk independent. Whenever there is room for two raw bytes,
   and for one byte with one item, but not for both, two opening brackets are refused at
   the first structural item when fed together, and at the second raw charge when cut.
   */
  lemma PhaseDependsOnChunking(lim: Limits, open: byte)
    requires Opens(open)
    requires 2 * lim.rawMultiplier <= lim.maxEstimated
    requires lim.rawMultiplier + lim.tokenBytes <= lim.maxEstimated
    requires 2 * lim.rawMultiplier + lim.tokenBytes > lim.maxEstimated
    ensures FeedAll(lim, FRESH, [[open, open]])
         == Rejected(MaxEstimatedBytes, StructuralItemScan, FRESH.(raw := 2, tokens := 1))
    ensures FeedAll(lim, FRESH, [[open], [open]])
         == Rejected(MaxEstimatedBytes, ChunkRawCharge, Scan(2, 1, 1, 1, false, false, false, 0))
  {
    var whole := [open, open];
    assert FeedSpec(lim, FRESH, whole) == Step(lim, FRESH.(raw := 2), whole[0]);
    var half := [open];
    var first := Scan(1, 1, 1, 1, false, false, false, 0);
    assert FeedSpec(lim, FRESH, half) == Accepted(first) by {
      assert Step(lim, FRESH.(raw := 1), half[0]) == Accepted(first);
      assert half[1..] == [];
      assert Run(lim, FRESH.(raw := 1), half) == Run(lim, first, half[1..]) == Accepted(first);
    }
    assert [half, half][1..] == [half];
    assert FeedAll(lim, FRESH, [half, half]) == FeedAll(lim, first, [half]);
  }
}
