/**
 What the scanner counts, on any bytes at all, JSON or not: which bytes lie in strings, where items
 begin, how deep brackets nest and how long scalars run, all read off the bytes themselves.
 */
module JsonMeaning {
  import opened Common
  import opened JsonScan
  import opened JsonPhases

  // ----- classes of bytes -----

  predicate Bracket(b: byte) { b == 0x7B || b == 0x5B }

  predicate Unbracket(b: byte) { b == 0x7D || b == 0x5D }

  /** Quotes, brackets, JSON whitespace, commas and colons; anything else outside strings belongs to a scalar. */
  predicate Plain(b: byte) {
    b != 0x22 && !Bracket(b) && !Unbracket(b)
    && b != 0x20 && b != 0x09 && b != 0x0A && b != 0x0D && b != 0x2C && b != 0x3A
  }

  // ----- strings -----

  /** The backslashes that stand together right before position `k`, back to the string's opening quote at `q`. */
  function Backslashes(bytes: seq<byte>, q: nat, k: nat): nat
    requires k <= |bytes|
    decreases k
  {
    if k <= q + 1 || bytes[k - 1] != 0x5C then 0 else 1 + Backslashes(bytes, q, k - 1)
  }

  /** The string opened at `q` is closed at `k`: a quote behind an even number of backslashes. */
  predicate ClosesAt(bytes: seq<byte>, q: nat, k: nat)
    requires q < k < |bytes|
  {
    bytes[k] == 0x22 && Backslashes(bytes, q, k) % 2 == 0
  }

  /** A string is opened at `q` and not yet closed before `j`. */
  ghost predicate OpenFrom(bytes: seq<byte>, q: nat, j: nat)
    requires j <= |bytes|
    decreases j, 0
  {
    q < j && bytes[q] == 0x22 && !InString(bytes, q) && forall k :: q < k < j ==> !ClosesAt(bytes, q, k)
  }

  /** Position `j` lies in a string, behind its opening quote. */
  ghost predicate InString(bytes: seq<byte>, j: nat)
    requires j <= |bytes|
    decreases j, 1
  {
    exists q: nat | q < j :: OpenFrom(bytes, q, j)
  }

  /** Position `j` lies in a string, behind an odd number of backslashes: its byte is escaped. */
  ghost predicate Escaped(bytes: seq<byte>, j: nat)
    requires j <= |bytes|
  {
    exists q: nat | q < j :: OpenFrom(bytes, q, j) && Backslashes(bytes, q, j) % 2 == 1
  }

  lemma OpenShorter(bytes: seq<byte>, q: nat, k: nat, j: nat)
    requires q < k <= j <= |bytes|
    ensures OpenFrom(bytes, q, j) ==> OpenFrom(bytes, q, k) && InString(bytes, k)
  {
  }

  /** A position has at most one string around it. */
  lemma OneString(bytes: seq<byte>, q: nat, p: nat, j: nat)
    requires q < j <= |bytes| && p < j && q != p
    ensures !(OpenFrom(bytes, q, j) && OpenFrom(bytes, p, j))
  {
    if q < p { OpenShorter(bytes, q, p, j); } else { OpenShorter(bytes, p, q, j); }
  }

  // ----- items -----

  /** The byte before `j` belongs to a scalar. */
  ghost predicate InScalar(bytes: seq<byte>, j: nat)
    requires j <= |bytes|
  {
    j > 0 && !InString(bytes, j - 1) && Plain(bytes[j - 1])
  }

  /** An item begins at `k`: a string, an array, an object, or a scalar. */
  ghost predicate Begins(bytes: seq<byte>, k: nat)
    requires k < |bytes|
  {
    !InString(bytes, k) && (bytes[k] == 0x22 || Bracket(bytes[k]) || (Plain(bytes[k]) && !InScalar(bytes, k)))
  }

  /** The items that begin in the first `j` bytes. */
  ghost function Items(bytes: seq<byte>, j: nat): nat
    requires j <= |bytes|
  {
    if j == 0 then 0 else Items(bytes, j - 1) + if Begins(bytes, j - 1) then 1 else 0
  }

  /** The length of the scalar that ends at `j`. */
  ghost function ScalarLength(bytes: seq<byte>, j: nat): nat
    requires j <= |bytes|
    decreases j
  {
    if InScalar(bytes, j) then 1 + ScalarLength(bytes, j - 1) else 0
  }

  // ----- nesting -----

  /** What one byte adds to the nesting. */
  ghost function Nests(bytes: seq<byte>, k: nat): int
    requires k < |bytes|
  {
    if InString(bytes, k) then 0 else if Bracket(bytes[k]) then 1 else if Unbracket(bytes[k]) then -1 else 0
  }

  /** Opening brackets minus closing ones between two positions, outside strings. */
  ghost function Excess(bytes: seq<byte>, i: nat, j: nat): int
    requires i <= j <= |bytes|
    decreases j
  {
    if i == j then 0 else Excess(bytes, i, j - 1) + Nests(bytes, j - 1)
  }

  /**
   The nesting at `j`: the greatest excess of any stretch that ends there. Closing brackets without an
   opening one count for nothing.
   */
  ghost predicate IsDepth(bytes: seq<byte>, j: nat, depth: nat)
    requires j <= |bytes|
  {
    && (forall i :: 0 <= i <= j ==> Excess(bytes, i, j) <= depth)
    && (exists i: nat :: i <= j && Excess(bytes, i, j) == depth)
  }

  /** No stretch of the first `j` bytes nests deeper. */
  ghost predicate NestsWithin(bytes: seq<byte>, j: nat, depth: nat)
    requires j <= |bytes|
  {
    forall i, h :: 0 <= i <= h <= j ==> Excess(bytes, i, h) <= depth
  }

  /** No scalar of the first `j` bytes is longer. */
  ghost predicate ScalarsWithin(bytes: seq<byte>, j: nat, length: nat)
    requires j <= |bytes|
  {
    forall h :: 0 <= h <= j ==> ScalarLength(bytes, h) <= length
  }

  // ----- the scanner does this -----

  /** Strings: the scanner is in one exactly where the bytes say so, and at an escaped byte exactly there. */
  lemma {:induction false} StringsExactly(bytes: seq<byte>, j: nat)
    requires j <= |bytes|
    ensures At(FRESH, bytes, j).scan.inString <==> InString(bytes, j)
    ensures At(FRESH, bytes, j).scan.escaped <==> Escaped(bytes, j)
  {
    if j == 0 {
      assert bytes[..0] == [];
    } else {
      var k := j - 1;
      StringsExactly(bytes, k);
      AtNext(FRESH, bytes, k);
      hide OpenFrom, Backslashes, At, InString, Escaped;
      if InString(bytes, k) { InsideStep(bytes, k); } else { OutsideStep(bytes, k); }
    }
  }

  /** Behind the byte at `k` of a string: an unescaped quote closes it, an unescaped backslash escapes what follows. */
  lemma InsideStep(bytes: seq<byte>, k: nat)
    requires k < |bytes| && InString(bytes, k)
    ensures InString(bytes, k + 1) <==> !(bytes[k] == 0x22 && !Escaped(bytes, k))
    ensures Escaped(bytes, k + 1) <==> bytes[k] == 0x5C && !Escaped(bytes, k)
  {
    var q: nat :| q < k && OpenFrom(bytes, q, k);
    forall p: nat | p < k && p != q ensures !OpenFrom(bytes, p, k) { OneString(bytes, q, p, k); }
    var j := k + 1;
    forall p: nat | p < j && p != q ensures !OpenFrom(bytes, p, j) {
      if p < k { OpenShorter(bytes, p, k, j); }
    }
    assert Escaped(bytes, k) <==> Backslashes(bytes, q, k) % 2 == 1;
    assert OpenFrom(bytes, q, k + 1) <==> !ClosesAt(bytes, q, k);
    assert InString(bytes, k + 1) <==> OpenFrom(bytes, q, k + 1);
    assert Escaped(bytes, k + 1) <==> OpenFrom(bytes, q, k + 1) && Backslashes(bytes, q, k + 1) % 2 == 1;
  }

  /** Behind the byte at `k` outside any string: a quote opens one. */
  lemma OutsideStep(bytes: seq<byte>, k: nat)
    requires k < |bytes| && !InString(bytes, k)
    ensures InString(bytes, k + 1) <==> bytes[k] == 0x22
    ensures !Escaped(bytes, k) && !Escaped(bytes, k + 1)
  {
    var j := k + 1;
    forall p: nat | p < k ensures !OpenFrom(bytes, p, j) { OpenShorter(bytes, p, k, j); }
    assert OpenFrom(bytes, k, k + 1) <==> bytes[k] == 0x22;
    assert Backslashes(bytes, k, k + 1) == 0;
  }

  /** Items, scalars and nesting: the scanner's counters are those of the bytes. */
  lemma {:induction false} CountersExactly(bytes: seq<byte>, j: nat)
    requires j <= |bytes|
    ensures var s := At(FRESH, bytes, j).scan;
            && s.tokens == Items(bytes, j)
            && (s.scalarActive <==> InScalar(bytes, j)) && s.scalarBytes == ScalarLength(bytes, j)
            && IsDepth(bytes, j, s.depth)
  {
    hide At, IsDepth, InString;
    if j == 0 {
      CountersStart(bytes);
    } else {
      var k := j - 1;
      CountersExactly(bytes, k);
      StringsExactly(bytes, k);
      AtNext(FRESH, bytes, k);
      NoScalarInside(bytes, k);
      DepthStep(bytes, k, At(FRESH, bytes, k).scan.depth);
    }
  }

  /** A string begins behind a quote, never behind a scalar. */
  lemma NoScalarInside(bytes: seq<byte>, k: nat)
    requires k <= |bytes|
    ensures InString(bytes, k) ==> !InScalar(bytes, k)
  {
    if k > 0 && !InString(bytes, k - 1) { OutsideStep(bytes, k - 1); }
  }

  lemma CountersStart(bytes: seq<byte>)
    ensures At(FRESH, bytes, 0) == Start(FRESH) && IsDepth(bytes, 0, 0)
  {
    assert bytes[..0] == [];
    assert Excess(bytes, 0, 0) == 0;
  }

  lemma DepthStep(bytes: seq<byte>, k: nat, depth: nat)
    requires k < |bytes| && IsDepth(bytes, k, depth)
    ensures IsDepth(bytes, k + 1, Max(0, depth + Nests(bytes, k)))
  {
    var i: nat :| i <= k && Excess(bytes, i, k) == depth;
    assert Excess(bytes, i, k + 1) == depth + Nests(bytes, k);
    assert Excess(bytes, k + 1, k + 1) == 0;
    var j := k + 1;
    forall h | 0 <= h <= j ensures Excess(bytes, h, j) <= Max(0, depth + Nests(bytes, k)) {
      if h <= k { assert Excess(bytes, h, k) <= depth; }
    }
  }

  /** The two maxima of a scan. */
  lemma {:induction false} MaximaExactly(bytes: seq<byte>, j: nat, depth: nat, length: nat)
    requires j <= |bytes|
    ensures At(FRESH, bytes, j).scan.peak <= depth <==> NestsWithin(bytes, j, depth)
    ensures At(FRESH, bytes, j).longest <= length <==> ScalarsWithin(bytes, j, length)
  {
    CountersExactly(bytes, j);
    if j == 0 {
      assert bytes[..0] == [];
    } else {
      hide At, IsDepth, NestsWithin, ScalarsWithin, Items;
      MaximaExactly(bytes, j - 1, depth, length);
      AtNext(FRESH, bytes, j - 1);
      DepthReached(bytes, j - 1);
      NestsNext(bytes, j - 1, At(FRESH, bytes, j).scan.depth, depth);
      ScalarsNext(bytes, j - 1, length);
    }
  }

  lemma DepthReached(bytes: seq<byte>, j: nat)
    requires j <= |bytes|
    ensures At(FRESH, bytes, j).scan.depth <= At(FRESH, bytes, j).scan.peak
  {
    AtMonotone(FRESH, bytes, 0, j);
  }

  lemma NestsNext(bytes: seq<byte>, k: nat, reached: nat, depth: nat)
    requires k < |bytes| && IsDepth(bytes, k + 1, reached)
    ensures NestsWithin(bytes, k + 1, depth) <==> NestsWithin(bytes, k, depth) && reached <= depth
  {
    var i: nat :| i <= k + 1 && Excess(bytes, i, k + 1) == reached;
    if NestsWithin(bytes, k, depth) && reached <= depth {
      forall g, h | 0 <= g <= h <= k + 1 ensures Excess(bytes, g, h) <= depth {
        if h == k + 1 { assert Excess(bytes, g, k + 1) <= reached; }
      }
    }
  }

  lemma ScalarsNext(bytes: seq<byte>, k: nat, length: nat)
    requires k < |bytes|
    ensures ScalarsWithin(bytes, k + 1, length) <==>
              ScalarsWithin(bytes, k, length) && ScalarLength(bytes, k + 1) <= length
  {
  }

  /**
   The estimator on any bytes, on the bytes themselves. They are accepted exactly when the weighted sum
   of bytes and items is within the estimate limit, no stretch nests deeper than the depth limit, and no
   scalar is longer than the scalar limit; the snapshot then holds those counts.
   */
  lemma EstimateExactly(lim: Limits, bytes: seq<byte>)
    ensures var v, n := FeedSpec(lim, FRESH, bytes), |bytes|;
            && (v.Accepted? <==>
                  && n * lim.rawMultiplier + Items(bytes, n) * lim.tokenBytes <= lim.maxEstimated
                  && NestsWithin(bytes, n, lim.maxDepth) && ScalarsWithin(bytes, n, lim.maxScalarBytes))
            && (v.Accepted? ==>
                  && v.scan.raw == n && v.scan.tokens == Items(bytes, n) && IsDepth(bytes, n, v.scan.depth)
                  && (v.scan.inString <==> InString(bytes, n)) && v.scan.scalarBytes == ScalarLength(bytes, n))
  {
    hide InString, Items, ScalarLength, IsDepth, NestsWithin, ScalarsWithin;
    var n := |bytes|;
    assert bytes[..n] == bytes;
    FeedExact(lim, FRESH, bytes);
    EndingAt(FRESH, bytes, n);
    CountersExactly(bytes, n);
    StringsExactly(bytes, n);
    MaximaExactly(bytes, n, lim.maxDepth, lim.maxScalarBytes);
  }

  /** What a rejection shows: the first value above the limit that it names. */
  predicate Shows(lim: Limits, v: Verdict) {
    v.Rejected? ==>
      match v.reason
      case MaxDepth => v.scan.depth == v.scan.peak == lim.maxDepth + 1
      case MaxScalarBytes => v.scan.scalarBytes == lim.maxScalarBytes + 1
      case MaxEstimatedBytes => v.scan.raw * lim.rawMultiplier + v.scan.tokens * lim.tokenBytes > lim.maxEstimated
  }

  lemma {:induction false} RunShows(lim: Limits, s: Scan, bytes: seq<byte>)
    requires s.depth <= s.peak <= lim.maxDepth && s.scalarBytes <= lim.maxScalarBytes
    ensures Shows(lim, Run(lim, s, bytes))
    ensures Run(lim, s, bytes).Rejected? ==> Run(lim, s, bytes).scan.raw == s.raw
    decreases |bytes|
  {
    if bytes != [] && Step(lim, s, bytes[0]).Accepted? { RunShows(lim, Step(lim, s, bytes[0]).scan, bytes[1..]); }
  }

  /** A rejected feed reports counters that show the limit broken, with all bytes of the chunk charged. */
  lemma RejectionShows(lim: Limits, s: Scan, chunk: seq<byte>)
    requires Ready(lim, s) && FeedSpec(lim, s, chunk).Rejected?
    ensures Shows(lim, FeedSpec(lim, s, chunk)) && FeedSpec(lim, s, chunk).scan.raw == s.raw + |chunk|
  {
    RunShows(lim, s.(raw := s.raw + |chunk|), chunk);
  }
}
