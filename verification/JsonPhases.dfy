/**
 Why and where a text is rejected. The verdict does not depend on how the text is cut into
 chunks, the reported reason and phase do; this module says exactly how, for every splitting.
 */
module JsonPhases {
  import opened Common
  import opened JsonScan

  /** What a rejection reports. */
  datatype Cause = Cause(reason: Reason, phase: Phase)

  const RAW := Cause(MaxEstimatedBytes, ChunkRawCharge)
  const ITEM := Cause(MaxEstimatedBytes, StructuralItemScan)

  function Report(v: Verdict): Option<Cause> {
    match v
    case Accepted(_) => None
    case Rejected(reason, phase, _) => Some(Cause(reason, phase))
  }

  // ----- the unlimited scan of the whole text -----

  /** The unlimited scan after the first `j` bytes; no byte is charged by it. */
  function At(s: Scan, bytes: seq<byte>, j: nat): Trace
    requires j <= |bytes|
  {
    TraceAll(Start(s), bytes[..j])
  }

  /** The two limits that have nothing to do with the estimate. */
  predicate Sound(lim: Limits, tr: Trace) { tr.scan.peak <= lim.maxDepth && tr.longest <= lim.maxScalarBytes }

  /** How many bytes a scan gets through before it breaks the depth or the scalar limit. */
  function SoundLength(lim: Limits, tr: Trace, bytes: seq<byte>): (n: nat)
    ensures n <= |bytes|
    decreases |bytes|
  {
    if bytes == [] || !Sound(lim, Next(tr, bytes[0])) then 0
    else 1 + SoundLength(lim, Next(tr, bytes[0]), bytes[1..])
  }

  function Break(lim: Limits, s: Scan, bytes: seq<byte>): nat { SoundLength(lim, Start(s), bytes) }

  /** The limit broken by a byte that was the first to break one. */
  function Violation(lim: Limits, tr: Trace): Cause {
    if tr.scan.peak > lim.maxDepth then Cause(MaxDepth, DepthScan) else Cause(MaxScalarBytes, ScalarScan)
  }

  /** The estimate with `b` bytes charged and the first `j` bytes scanned. */
  function Charge(lim: Limits, s: Scan, bytes: seq<byte>, j: nat, b: nat): int
    requires j <= |bytes|
  {
    (s.raw + b) * lim.rawMultiplier + At(s, bytes, j).scan.tokens * lim.tokenBytes
  }

  /** Feeding the bytes from `a` to `b` is refused before a byte of them is scanned. */
  predicate RawAt(lim: Limits, s: Scan, bytes: seq<byte>, a: nat, b: nat)
    requires a <= b <= |bytes|
  {
    Charge(lim, s, bytes, a, b) > lim.maxEstimated
  }

  /** The bytes of such a feed that are scanned at most: all, or up to the first breaking one. */
  function Scanned(lim: Limits, s: Scan, bytes: seq<byte>, b: nat): nat { Min(b, Break(lim, s, bytes) + 1) }

  /** The items among those bytes do not fit beside the charge of the feed. */
  predicate ItemAt(lim: Limits, s: Scan, bytes: seq<byte>, a: nat, b: nat)
    requires a <= b <= |bytes|
  {
    !RawAt(lim, s, bytes, a, b) && Charge(lim, s, bytes, Scanned(lim, s, bytes, b), b) > lim.maxEstimated
  }

  /** What a feed of the bytes from `a` to `b` reports, read off the unlimited scan. */
  function CauseAt(lim: Limits, s: Scan, bytes: seq<byte>, a: nat, b: nat): Option<Cause>
    requires a <= b <= |bytes|
  {
    if RawAt(lim, s, bytes, a, b) then Some(RAW)
    else if ItemAt(lim, s, bytes, a, b) then Some(ITEM)
    else if Break(lim, s, bytes) < b then Some(Violation(lim, At(s, bytes, Break(lim, s, bytes) + 1)))
    else None
  }

  // ----- facts about the unlimited scan -----

  lemma AtNext(s: Scan, bytes: seq<byte>, j: nat)
    requires j < |bytes|
    ensures At(s, bytes, j + 1) == Next(At(s, bytes, j), bytes[j])
  {
    var one := [bytes[j]];
    assert bytes[..j + 1] == bytes[..j] + one;
    TraceAppend(Start(s), bytes[..j], one);
    assert one[1..] == [];
    assert TraceAll(At(s, bytes, j), one) == TraceAll(Next(At(s, bytes, j), one[0]), one[1..]);
  }

  lemma AtMonotone(s: Scan, bytes: seq<byte>, i: nat, j: nat)
    requires i <= j <= |bytes|
    ensures At(s, bytes, i).scan.tokens <= At(s, bytes, j).scan.tokens
    ensures At(s, bytes, i).scan.peak <= At(s, bytes, j).scan.peak
    ensures At(s, bytes, i).longest <= At(s, bytes, j).longest
    ensures At(s, bytes, j).scan.raw == s.raw
    ensures s.depth <= s.peak ==> At(s, bytes, j).scan.depth <= At(s, bytes, j).scan.peak
    ensures At(s, bytes, j).scan.scalarBytes <= At(s, bytes, j).longest
  {
    assert bytes[..j] == bytes[..i] + bytes[i..j];
    TraceAppend(Start(s), bytes[..i], bytes[i..j]);
    TraceGrows(At(s, bytes, i), bytes[i..j]);
    TraceGrows(Start(s), bytes[..j]);
  }

  lemma ChargeMonotone(lim: Limits, s: Scan, bytes: seq<byte>, i: nat, j: nat, b: nat, c: nat)
    requires i <= j <= |bytes| && b <= c
    ensures Charge(lim, s, bytes, i, b) <= Charge(lim, s, bytes, j, c)
  {
    AtMonotone(s, bytes, i, j);
    EstimateMonotone(lim, At(s, bytes, i).scan.(raw := s.raw + b), At(s, bytes, j).scan.(raw := s.raw + c));
  }

  /** A scan is sound exactly up to its break. */
  lemma {:induction false} SoundLengthExact(lim: Limits, tr: Trace, bytes: seq<byte>, j: nat)
    requires Sound(lim, tr) && j <= |bytes|
    ensures Sound(lim, TraceAll(tr, bytes[..j])) <==> j <= SoundLength(lim, tr, bytes)
    decreases |bytes|
  {
    if bytes != [] && j > 0 {
      var n := Next(tr, bytes[0]);
      assert bytes[..j][1..] == bytes[1..][..j - 1];
      assert TraceAll(tr, bytes[..j]) == TraceAll(n, bytes[1..][..j - 1]);
      if Sound(lim, n) {
        SoundLengthExact(lim, n, bytes[1..], j - 1);
      } else {
        TraceGrows(n, bytes[1..][..j - 1]);
      }
    }
  }

  lemma BreakExact(lim: Limits, s: Scan, bytes: seq<byte>, j: nat)
    requires Ready(lim, s) && j <= |bytes|
    ensures Sound(lim, At(s, bytes, j)) <==> j <= Break(lim, s, bytes)
  {
    SoundLengthExact(lim, Start(s), bytes, j);
  }

  /** A charge does not change what the rest of the scan does. */
  lemma EndingAt(s: Scan, bytes: seq<byte>, b: nat)
    requires b <= |bytes|
    ensures Ending(s, bytes[..b]) == At(s, bytes, b).(scan := At(s, bytes, b).scan.(raw := s.raw + b))
  {
    TraceRecharge(Start(s), bytes[..b], s.raw + b);
  }

  /** The three limits after `b` bytes, taken apart. */
  lemma WithinAt(lim: Limits, s: Scan, bytes: seq<byte>, b: nat)
    requires Ready(lim, s) && b <= |bytes|
    ensures Within(lim, Ending(s, bytes[..b])) <==>
              Charge(lim, s, bytes, b, b) <= lim.maxEstimated && b <= Break(lim, s, bytes)
  {
    EndingAt(s, bytes, b);
    BreakExact(lim, s, bytes, b);
    AtMonotone(s, bytes, 0, b);
  }

  // ----- one feed -----

  /** What one limited step reports, in terms of the unlimited one. */
  lemma StepReports(lim: Limits, s: Scan, longest: nat, b: byte)
    requires Within(lim, Trace(s, longest)) && s.depth <= s.peak && s.scalarBytes <= longest
    ensures var n := Next(Trace(s, longest), b);
            Report(Step(lim, s, b)) ==
              if Estimated(lim, n.scan) > lim.maxEstimated then Some(ITEM)
              else if !Sound(lim, n) then Some(Violation(lim, n)) else None
    ensures Step(lim, s, b).Accepted? ==> Step(lim, s, b).scan == Advance(s, b)
  {
    EstimateMonotone(lim, s, Advance(s, b));
  }

  /** The scan after `j` bytes with `b` bytes charged. */
  function Charged(s: Scan, bytes: seq<byte>, j: nat, b: nat): Scan
    requires j <= |bytes|
  {
    At(s, bytes, j).scan.(raw := s.raw + b)
  }

  lemma ChargedNext(s: Scan, bytes: seq<byte>, j: nat, b: nat)
    requires j < |bytes|
    ensures Advance(Charged(s, bytes, j, b), bytes[j]) == Charged(s, bytes, j + 1, b)
    ensures Next(Trace(Charged(s, bytes, j, b), At(s, bytes, j).longest), bytes[j])
         == Trace(Charged(s, bytes, j + 1, b), At(s, bytes, j + 1).longest)
  {
    AtNext(s, bytes, j);
  }

  /** A run from `j` on reports the first item or byte that breaks a limit. */
  lemma {:induction false} RunReports(lim: Limits, s: Scan, bytes: seq<byte>, j: nat, b: nat)
    requires Ready(lim, s) && j <= b <= |bytes| && j <= Break(lim, s, bytes)
    requires Charge(lim, s, bytes, j, b) <= lim.maxEstimated
    ensures Report(Run(lim, Charged(s, bytes, j, b), bytes[j..b])) ==
              if Charge(lim, s, bytes, Scanned(lim, s, bytes, b), b) > lim.maxEstimated then Some(ITEM)
              else if Break(lim, s, bytes) < b then Some(Violation(lim, At(s, bytes, Break(lim, s, bytes) + 1)))
              else None
    decreases b - j
  {
    if j < b {
      var here := Charged(s, bytes, j, b);
      var rest := bytes[j..b];
      assert rest[0] == bytes[j] && rest[1..] == bytes[j + 1..b];
      BreakExact(lim, s, bytes, j);
      BreakExact(lim, s, bytes, j + 1);
      AtMonotone(s, bytes, 0, j);
      ChargedNext(s, bytes, j, b);
      StepReports(lim, here, At(s, bytes, j).longest, bytes[j]);
      if Charge(lim, s, bytes, j + 1, b) > lim.maxEstimated {
        ChargeMonotone(lim, s, bytes, j + 1, Scanned(lim, s, bytes, b), b, b);
      } else if j < Break(lim, s, bytes) {
        RunReports(lim, s, bytes, j + 1, b);
      }
    }
  }

  /** One feed, in the middle of a text scanned so far within the limits. */
  lemma FeedReports(lim: Limits, s: Scan, bytes: seq<byte>, a: nat, b: nat)
    requires Ready(lim, s) && a <= b <= |bytes| && Within(lim, Ending(s, bytes[..a]))
    ensures Report(FeedSpec(lim, Ending(s, bytes[..a]).scan, bytes[a..b])) == CauseAt(lim, s, bytes, a, b)
  {
    WithinAt(lim, s, bytes, a);
    EndingAt(s, bytes, a);
    AtMonotone(s, bytes, 0, a);
    if !RawAt(lim, s, bytes, a, b) { RunReports(lim, s, bytes, a, b); }
  }

  // ----- a splitting -----

  /** The bytes of the first `k` chunks. */
  function Cut(chunks: seq<seq<byte>>, k: nat): nat
    requires k <= |chunks|
  {
    |Concat(chunks[..k])|
  }

  lemma {:induction false} ConcatAppend(left: seq<seq<byte>>, right: seq<seq<byte>>)
    ensures Concat(left + right) == Concat(left) + Concat(right)
  {
    if left == [] {
      assert left + right == right;
    } else {
      assert (left + right)[1..] == left[1..] + right;
      ConcatAppend(left[1..], right);
      assert Concat(left + right) == left[0] + Concat(left[1..] + right);
    }
  }

  lemma ConcatTake(chunks: seq<seq<byte>>, k: nat)
    requires k < |chunks|
    ensures Concat(chunks[..k + 1]) == Concat(chunks[..k]) + chunks[k]
  {
    var one := [chunks[k]];
    assert one[1..] == [] && Concat(one) == chunks[k] + Concat(one[1..]);
    assert chunks[..k + 1] == chunks[..k] + one;
    ConcatAppend(chunks[..k], one);
  }

  lemma ConcatSplit(chunks: seq<seq<byte>>, k: nat)
    requires k <= |chunks|
    ensures Concat(chunks) == Concat(chunks[..k]) + Concat(chunks[k..])
  {
    assert chunks == chunks[..k] + chunks[k..];
    ConcatAppend(chunks[..k], chunks[k..]);
  }

  /** Where the chunks of a splitting lie in the text. */
  lemma CutPlaces(chunks: seq<seq<byte>>, k: nat)
    requires k < |chunks|
    ensures var whole := Concat(chunks);
            && Cut(chunks, k) <= Cut(chunks, k + 1) == Cut(chunks, k) + |chunks[k]| <= |whole|
            && Concat(chunks[..k]) == whole[..Cut(chunks, k)]
            && Concat(chunks[..k + 1]) == whole[..Cut(chunks, k + 1)]
            && chunks[k] == whole[Cut(chunks, k)..Cut(chunks, k + 1)]
  {
    hide Concat;
    ConcatTake(chunks, k);
    ConcatSplit(chunks, k + 1);
  }

  /** Chunk `k` is the one at which a splitting is rejected. */
  predicate RejectsAt(lim: Limits, s: Scan, chunks: seq<seq<byte>>, k: nat)
    requires k < |chunks|
  {
    Within(lim, Ending(s, Concat(chunks[..k]))) && !Within(lim, Ending(s, Concat(chunks[..k + 1])))
  }

  /** A longer text is within the limits only if a shorter one is. */
  lemma WithinPrefix(lim: Limits, s: Scan, bytes: seq<byte>, a: nat, b: nat)
    requires Ready(lim, s) && a <= b <= |bytes| && Within(lim, Ending(s, bytes[..b]))
    ensures Within(lim, Ending(s, bytes[..a]))
  {
    WithinAt(lim, s, bytes, a);
    WithinAt(lim, s, bytes, b);
    ChargeMonotone(lim, s, bytes, a, b, a, b);
  }

  /** Feeds continue from the state that the accepted ones have reached. */
  lemma {:induction false} FeedAllFrom(lim: Limits, s: Scan, chunks: seq<seq<byte>>, k: nat)
    requires Ready(lim, s) && k <= |chunks| && Within(lim, Ending(s, Concat(chunks[..k])))
    ensures FeedAll(lim, s, chunks) == FeedAll(lim, Ending(s, Concat(chunks[..k])).scan, chunks[k..])
  {
    if k == 0 {
      assert Concat(chunks[..0]) == [] && Ending(s, []) == Start(s) && chunks[0..] == chunks;
    } else {
      CutPlaces(chunks, k - 1);
      var whole := Concat(chunks);
      var a, b := Cut(chunks, k - 1), Cut(chunks, k);
      WithinPrefix(lim, s, whole, a, b);
      FeedAllFrom(lim, s, chunks, k - 1);
      var before := Ending(s, whole[..a]);
      WithinAt(lim, s, whole, a);
      EndingAt(s, whole, a);
      AtMonotone(s, whole, 0, a);
      FeedExact(lim, before.scan, chunks[k - 1]);
      EndingAppend(s, whole[..a], chunks[k - 1]);
      assert whole[..a] + chunks[k - 1] == whole[..b];
      assert chunks[k - 1..][0] == chunks[k - 1] && chunks[k - 1..][1..] == chunks[k..];
    }
  }

  /** A rejected splitting reports what the chunk at which it is rejected reports, in closed form. */
  lemma SplittingReports(lim: Limits, s: Scan, chunks: seq<seq<byte>>, k: nat)
    requires Ready(lim, s) && k < |chunks| && RejectsAt(lim, s, chunks, k)
    ensures Cut(chunks, k) <= Cut(chunks, k + 1) <= |Concat(chunks)|
    ensures Report(FeedAll(lim, s, chunks)) == CauseAt(lim, s, Concat(chunks), Cut(chunks, k), Cut(chunks, k + 1))
    ensures FeedAll(lim, s, chunks).Rejected?
  {
    var whole := Concat(chunks);
    var a, b := Cut(chunks, k), Cut(chunks, k + 1);
    CutPlaces(chunks, k);
    FeedAllFrom(lim, s, chunks, k);
    FeedReports(lim, s, whole, a, b);
    assert chunks[k..][0] == chunks[k];
    WithinAt(lim, s, whole, a);
    EndingAt(s, whole, a);
    AtMonotone(s, whole, 0, a);
    FeedExact(lim, Ending(s, whole[..a]).scan, chunks[k]);
    EndingAppend(s, whole[..a], chunks[k]);
    assert whole[..a] + chunks[k] == whole[..b];
  }

  /** A rejected splitting is rejected at exactly one chunk. */
  lemma {:induction false} RejectedSomewhere(lim: Limits, s: Scan, chunks: seq<seq<byte>>, n: nat)
    requires Ready(lim, s) && n <= |chunks| && !Within(lim, Ending(s, Concat(chunks[..n])))
    ensures exists k :: 0 <= k < n && RejectsAt(lim, s, chunks, k)
  {
    assert Concat(chunks[..0]) == [] && Ending(s, []) == Start(s);
    if Within(lim, Ending(s, Concat(chunks[..n - 1]))) {
      assert RejectsAt(lim, s, chunks, n - 1);
    } else {
      RejectedSomewhere(lim, s, chunks, n - 1);
    }
  }

  lemma RejectedOnce(lim: Limits, s: Scan, chunks: seq<seq<byte>>, j: nat, k: nat)
    requires Ready(lim, s) && j < |chunks| && k < |chunks|
    requires RejectsAt(lim, s, chunks, j) && RejectsAt(lim, s, chunks, k)
    ensures j == k
  {
    CutPlaces(chunks, j);
    CutPlaces(chunks, k);
    var whole := Concat(chunks);
    if j < k {
      CutsGrow(chunks, j + 1, k);
      WithinPrefix(lim, s, whole, Cut(chunks, j + 1), Cut(chunks, k));
    } else if k < j {
      CutsGrow(chunks, k + 1, j);
      WithinPrefix(lim, s, whole, Cut(chunks, k + 1), Cut(chunks, j));
    }
  }

  lemma {:induction false} CutsGrow(chunks: seq<seq<byte>>, i: nat, j: nat)
    requires i <= j <= |chunks|
    ensures Cut(chunks, i) <= Cut(chunks, j)
  {
    if i < j {
      CutsGrow(chunks, i, j - 1);
      ConcatTake(chunks, j - 1);
    }
  }

  /** A splitting is rejected exactly when it is rejected at some chunk. */
  lemma RejectedExactly(lim: Limits, s: Scan, chunks: seq<seq<byte>>)
    requires Ready(lim, s)
    ensures FeedAll(lim, s, chunks).Rejected? <==> exists k :: 0 <= k < |chunks| && RejectsAt(lim, s, chunks, k)
  {
    FeedAllExact(lim, s, chunks);
    assert chunks[..|chunks|] == chunks;
    if FeedAll(lim, s, chunks).Rejected? {
      RejectedSomewhere(lim, s, chunks, |chunks|);
    } else if k :| 0 <= k < |chunks| && RejectsAt(lim, s, chunks, k) {
      SplittingReports(lim, s, chunks, k);
    }
  }

  // ----- the reported phase -----

  /** The text up to chunk `k` is within the limits, and charging the chunk breaks the estimate. */
  predicate ChargeBreaks(lim: Limits, s: Scan, chunks: seq<seq<byte>>, k: nat)
    requires k < |chunks|
  {
    var before := Ending(s, Concat(chunks[..k]));
    && Within(lim, before)
    && Estimated(lim, before.scan.(raw := before.scan.raw + |chunks[k]|)) > lim.maxEstimated
  }

  lemma ChargeBreaksRaw(lim: Limits, s: Scan, chunks: seq<seq<byte>>, k: nat)
    requires Ready(lim, s) && k < |chunks| && Within(lim, Ending(s, Concat(chunks[..k])))
    ensures Cut(chunks, k) <= Cut(chunks, k + 1) <= |Concat(chunks)|
    ensures ChargeBreaks(lim, s, chunks, k) <==> RawAt(lim, s, Concat(chunks), Cut(chunks, k), Cut(chunks, k + 1))
    ensures ChargeBreaks(lim, s, chunks, k) ==> RejectsAt(lim, s, chunks, k)
  {
    var whole := Concat(chunks);
    var a, b := Cut(chunks, k), Cut(chunks, k + 1);
    CutPlaces(chunks, k);
    EndingAt(s, whole, a);
    AtMonotone(s, whole, 0, a);
    WithinAt(lim, s, whole, b);
    ChargeMonotone(lim, s, whole, a, b, b, b);
  }

  /**
   A splitting is rejected in the raw-charge phase if and only if, after some of its chunks, the
   text is still within the limits and charging the next chunk alone breaks the estimate.
   */
  lemma RawPhaseExactly(lim: Limits, s: Scan, chunks: seq<seq<byte>>)
    requires Ready(lim, s)
    ensures Report(FeedAll(lim, s, chunks)) == Some(RAW) <==>
              exists k :: 0 <= k < |chunks| && ChargeBreaks(lim, s, chunks, k)
    ensures FeedAll(lim, s, chunks).Rejected? && FeedAll(lim, s, chunks).phase == ChunkRawCharge ==>
              Report(FeedAll(lim, s, chunks)) == Some(RAW)
  {
    hide Ending, Within, CauseAt;
    RejectedExactly(lim, s, chunks);
    if k :| 0 <= k < |chunks| && RejectsAt(lim, s, chunks, k) {
      SplittingReports(lim, s, chunks, k);
      ChargeBreaksRaw(lim, s, chunks, k);
      CausePhases(lim, s, Concat(chunks), Cut(chunks, k), Cut(chunks, k + 1));
      forall j | 0 <= j < |chunks| && ChargeBreaks(lim, s, chunks, j) ensures j == k {
        ChargeBreaksRaw(lim, s, chunks, j);
        RejectedOnce(lim, s, chunks, j, k);
      }
    } else if j :| 0 <= j < |chunks| && ChargeBreaks(lim, s, chunks, j) {
      ChargeBreaksRaw(lim, s, chunks, j);
    }
  }

  /** The three kinds of report are told apart by the two estimates. */
  lemma CausePhases(lim: Limits, s: Scan, bytes: seq<byte>, a: nat, b: nat)
    requires a <= b <= |bytes|
    ensures var cause := CauseAt(lim, s, bytes, a, b);
            && (cause == Some(RAW) <==> RawAt(lim, s, bytes, a, b))
            && (cause == Some(ITEM) <==> ItemAt(lim, s, bytes, a, b))
            && (cause.Some? && cause.value.phase == ChunkRawCharge ==> cause == Some(RAW))
            && (cause.Some? && cause != Some(RAW) && cause != Some(ITEM) ==>
                  && Break(lim, s, bytes) < b
                  && cause == Some(Violation(lim, At(s, bytes, Break(lim, s, bytes) + 1))))
  {
  }

  /**
   Two rejected splittings of one text report the same reason and phase if and only if both or
   neither break the estimate by charging the chunk, and both or neither by its items. If neither
   does, both report the one depth or scalar limit that the text breaks first.
   */
  lemma SameReportExactly(lim: Limits, s: Scan, left: seq<seq<byte>>, right: seq<seq<byte>>, i: nat, j: nat)
    requires Ready(lim, s) && Concat(left) == Concat(right)
    requires i < |left| && j < |right| && RejectsAt(lim, s, left, i) && RejectsAt(lim, s, right, j)
    ensures Cut(left, i) <= Cut(left, i + 1) <= |Concat(left)| && Cut(right, j) <= Cut(right, j + 1) <= |Concat(right)|
    ensures Report(FeedAll(lim, s, left)) == Report(FeedAll(lim, s, right)) <==>
              && (RawAt(lim, s, Concat(left), Cut(left, i), Cut(left, i + 1))
                  <==> RawAt(lim, s, Concat(right), Cut(right, j), Cut(right, j + 1)))
              && (ItemAt(lim, s, Concat(left), Cut(left, i), Cut(left, i + 1))
                  <==> ItemAt(lim, s, Concat(right), Cut(right, j), Cut(right, j + 1)))
  {
    hide RejectsAt, CauseAt, RawAt, ItemAt, Ready, Concat, Cut, FeedAll, Break, Violation, At, Report;
    SplittingReports(lim, s, left, i);
    SplittingReports(lim, s, right, j);
    CausePhases(lim, s, Concat(left), Cut(left, i), Cut(left, i + 1));
    CausePhases(lim, s, Concat(right), Cut(right, j), Cut(right, j + 1));
    SplittingRejected(lim, s, left, i);
    SplittingRejected(lim, s, right, j);
  }

  lemma SplittingRejected(lim: Limits, s: Scan, chunks: seq<seq<byte>>, k: nat)
    requires Ready(lim, s) && k < |chunks| && RejectsAt(lim, s, chunks, k)
    ensures Report(FeedAll(lim, s, chunks)).Some?
  {
    SplittingReports(lim, s, chunks, k);
  }

  /**
   When the whole text's estimate fits, no splitting can be rejected for it: every splitting of a
   rejected text reports the same depth or scalar limit.
   */
  lemma EstimateFits(lim: Limits, s: Scan, chunks: seq<seq<byte>>)
    requires Ready(lim, s) && FeedAll(lim, s, chunks).Rejected?
    requires Estimated(lim, Ending(s, Concat(chunks)).scan) <= lim.maxEstimated
    ensures Break(lim, s, Concat(chunks)) < |Concat(chunks)|
    ensures Report(FeedAll(lim, s, chunks))
         == Some(Violation(lim, At(s, Concat(chunks), Break(lim, s, Concat(chunks)) + 1)))
  {
    hide CauseAt, RawAt, ItemAt, RejectsAt, Ready, Concat, Break, Violation;
    RejectedExactly(lim, s, chunks);
    var k :| 0 <= k < |chunks| && RejectsAt(lim, s, chunks, k);
    SplittingReports(lim, s, chunks, k);
    SplittingRejected(lim, s, chunks, k);
    CausePhases(lim, s, Concat(chunks), Cut(chunks, k), Cut(chunks, k + 1));
    NoEstimateBreaks(lim, s, Concat(chunks), Cut(chunks, k), Cut(chunks, k + 1));
  }

  /** A feed of a text whose estimate fits breaks no estimate. */
  lemma NoEstimateBreaks(lim: Limits, s: Scan, whole: seq<byte>, a: nat, b: nat)
    requires Ready(lim, s) && a <= b <= |whole|
    requires Estimated(lim, Ending(s, whole).scan) <= lim.maxEstimated
    ensures !RawAt(lim, s, whole, a, b) && !ItemAt(lim, s, whole, a, b)
  {
    assert whole[..|whole|] == whole;
    EndingAt(s, whole, |whole|);
    AtMonotone(s, whole, 0, |whole|);
    ChargeMonotone(lim, s, whole, a, |whole|, b, |whole|);
    ChargeMonotone(lim, s, whole, Scanned(lim, s, whole, b), |whole|, b, |whole|);
  }

  /**
   The reason can change with the splitting too: three opening brackets past a depth limit of one,
   with room for two raw bytes and two items but not for three raw bytes, are refused for their
   size when fed together and for their depth when cut after the second.
   */
  lemma ReasonDependsOnChunking(lim: Limits, open: byte)
    requires Opens(open) && lim.maxDepth == 1
    requires 2 * lim.rawMultiplier + 2 * lim.tokenBytes <= lim.maxEstimated < 3 * lim.rawMultiplier
    ensures Report(FeedAll(lim, FRESH, [[open, open, open]])) == Some(RAW)
    ensures Report(FeedAll(lim, FRESH, [[open, open], [open]])) == Some(Cause(MaxDepth, DepthScan))
  {
    var pair := [open, open];
    var one := Scan(2, 1, 1, 1, false, false, false, 0);
    assert pair[1..] == [open];
    assert Step(lim, FRESH.(raw := 2), pair[0]) == Accepted(one);
    assert Step(lim, one, pair[1]) == Rejected(MaxDepth, DepthScan, Scan(2, 2, 2, 2, false, false, false, 0));
    assert Run(lim, FRESH.(raw := 2), pair) == Run(lim, one, pair[1..]) == Step(lim, one, pair[1..][0]);
    assert [pair, [open]][0] == pair;
  }
}
