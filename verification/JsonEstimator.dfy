/**
 The incremental estimator object: a run-skipping scanner that jumps over string bodies and
 charges scalar runs in one step. Each feed is proved equal to the byte-at-a-time
 automaton, on acceptance and on rejection alike.
 */
module JsonEstimator {
  import opened Common
  import opened JsonScan

  /** Bytes without string specials leave an open, unescaped string untouched. */
  lemma {:induction false} SkipStringRun(lim: Limits, s: Scan, bytes: seq<byte>, n: nat)
    requires s.inString && !s.escaped && n <= |bytes|
    requires forall k :: 0 <= k < n ==> !StringSpecial(bytes[k])
    ensures Run(lim, s, bytes) == Run(lim, s, bytes[n..])
    decreases n
  {
    if n == 0 {
      assert bytes[0..] == bytes;
    } else {
      SkipStringRun(lim, s, bytes[1..], n - 1);
      assert bytes[1..][n - 1..] == bytes[n..];
    }
  }

  /** A run of scalar bytes in an already counted scalar is one bounded addition. */
  lemma {:induction false} SkipScalarRun(lim: Limits, s: Scan, bytes: seq<byte>, n: nat)
    requires !s.inString && s.scalarActive && 0 < n <= |bytes|
    requires forall k :: 0 <= k < n ==> !OutsideSpecial(bytes[k])
    ensures Run(lim, s, bytes)
         == if s.scalarBytes + n > lim.maxScalarBytes
            then Rejected(MaxScalarBytes, ScalarScan, s.(scalarBytes := lim.maxScalarBytes + 1))
            else Run(lim, s.(scalarBytes := s.scalarBytes + n), bytes[n..])
    decreases n
  {
    var t := Step(lim, s, bytes[0]);
    if n > 1 && t.Accepted? {
      SkipScalarRun(lim, s.(scalarBytes := s.scalarBytes + 1), bytes[1..], n - 1);
      assert bytes[1..][n - 1..] == bytes[n..];
    }
  }

  /** The two-byte jump over an escape. */
  lemma SkipEscape(lim: Limits, s: Scan, bytes: seq<byte>)
    requires s.inString && !s.escaped && |bytes| >= 1 && bytes[0] == BACKSLASH
    ensures |bytes| >= 2 ==> Run(lim, s, bytes) == Run(lim, s, bytes[2..])
    ensures |bytes| == 1 ==> Run(lim, s, bytes) == Accepted(s.(escaped := true))
  {
    var t := s.(escaped := true);
    assert Run(lim, s, bytes) == Run(lim, t, bytes[1..]);
    if |bytes| >= 2 {
      assert t.(escaped := false) == s;
      assert bytes[1..][1..] == bytes[2..];
    }
  }

  /** The regular-expression searches: the first special byte at or after a position. */
  method SearchStringSpecial(chunk: seq<byte>, from: nat) returns (at: nat)
    requires from <= |chunk|
    ensures from <= at <= |chunk|
    ensures forall k :: from <= k < at ==> !StringSpecial(chunk[k])
    ensures at < |chunk| ==> StringSpecial(chunk[at])
  {
    at := from;
    while at < |chunk| && !StringSpecial(chunk[at])
      invariant from <= at <= |chunk|
      invariant forall k :: from <= k < at ==> !StringSpecial(chunk[k])
    {
      at := at + 1;
    }
  }

  method SearchOutsideSpecial(chunk: seq<byte>, from: nat) returns (at: nat)
    requires from <= |chunk|
    ensures from <= at <= |chunk|
    ensures forall k :: from <= k < at ==> !OutsideSpecial(chunk[k])
    ensures at < |chunk| ==> OutsideSpecial(chunk[at])
  {
    at := from;
    while at < |chunk| && !OutsideSpecial(chunk[at])
      invariant from <= at <= |chunk|
      invariant forall k :: from <= k < at ==> !OutsideSpecial(chunk[k])
    {
      at := at + 1;
    }
  }

  class IncrementalEstimator {
    const lim: Limits
    var rawBytes: nat
    var tokens: nat
    var depth: nat
    var peakDepth: nat
    var inString: bool
    var escaped: bool
    var scalarActive: bool
    var scalarBytes: nat

    function View(): Scan
      reads this
    {
      Scan(rawBytes, tokens, depth, peakDepth, inString, escaped, scalarActive, scalarBytes)
    }

    constructor (lim: Limits)
      ensures this.lim == lim && View() == FRESH
    {
      this.lim := lim;
      rawBytes, tokens, depth, peakDepth := 0, 0, 0, 0;
      inString, escaped, scalarActive, scalarBytes := false, false, false, 0;
    }

    method FinishScalar()
      modifies this
      ensures View() == Unscalar(old(View()))
    {
      scalarActive, scalarBytes := false, 0;
    }

    /** Counts one structural item; `ok` is false when the estimate is now too large. */
    method CountToken() returns (ok: bool)
      modifies this
      ensures View() == old(View()).(tokens := old(tokens) + 1)
      ensures ok <==> Estimated(lim, View()) <= lim.maxEstimated
    {
      tokens := tokens + 1;
      ok := rawBytes * lim.rawMultiplier + tokens * lim.tokenBytes <= lim.maxEstimated;
    }

    /** The structural bytes outside strings, after any scalar run has been charged. */
    method Structural(value: byte) returns (v: Verdict)
      requires !inString && OutsideSpecial(value)
      modifies this
      ensures v == Step(lim, old(View()), value)
      ensures View() == v.scan
    {
      FinishScalar();
      if value == QUOTE {
        var ok := CountToken();
        if !ok { return Rejected(MaxEstimatedBytes, StructuralItemScan, View()); }
        inString := true;
      } else if Opens(value) {
        var ok := CountToken();
        if !ok { return Rejected(MaxEstimatedBytes, StructuralItemScan, View()); }
        depth := depth + 1;
        peakDepth := Max(peakDepth, depth);
        if depth > lim.maxDepth { return Rejected(MaxDepth, DepthScan, View()); }
      } else if Closes(value) {
        depth := Max(0, depth - 1);
      }
      return Accepted(View());
    }

    /** A non-empty scalar run, charged in one step. */
    method ScalarRun(length: nat) returns (v: Verdict)
      requires !inString && length > 0
      modifies this
      ensures forall bytes: seq<byte> ::
                length <= |bytes| && (forall k :: 0 <= k < length ==> !OutsideSpecial(bytes[k])) ==>
                Run(lim, old(View()), bytes) == if v.Rejected? then v else Run(lim, v.scan, bytes[length..])
      ensures View() == v.scan
      ensures v.Accepted? ==> !v.scan.inString
    {
      ghost var before := View();
      ghost var counted := before;
      if !scalarActive {
        scalarActive, scalarBytes := true, 0;
        var ok := CountToken();
        counted := View();
        if !ok { return Rejected(MaxEstimatedBytes, StructuralItemScan, View()); }
      }
      var grown := scalarBytes + length;
      if grown > lim.maxScalarBytes {
        scalarBytes := lim.maxScalarBytes + 1;
        v := Rejected(MaxScalarBytes, ScalarScan, View());
      } else {
        scalarBytes := grown;
        v := Accepted(View());
      }
      forall bytes: seq<byte> |
        length <= |bytes| && (forall k :: 0 <= k < length ==> !OutsideSpecial(bytes[k]))
        ensures Run(lim, before, bytes) == if v.Rejected? then v else Run(lim, v.scan, bytes[length..])
      {
        SkipScalarRun(lim, counted, bytes, length);
        assert Step(lim, before, bytes[0]) == Step(lim, counted, bytes[0]);
      }
    }

    /** One iteration inside a string: skip an escaped byte, or jump past the next special. */
    method StringStretch(chunk: seq<byte>, position: nat) returns (next: nat)
      requires inString && position < |chunk|
      modifies this
      ensures position < next <= |chunk|
      ensures Run(lim, old(View()), chunk[position..]) == Run(lim, View(), chunk[next..])
    {
      ghost var rest := chunk[position..];
      if escaped {
        escaped := false;
        next := position + 1;
        assert rest[1..] == chunk[next..];
        return;
      }
      var at := SearchStringSpecial(chunk, position);
      SkipStringRun(lim, View(), rest, at - position);
      assert rest[at - position..] == chunk[at..];
      if at == |chunk| { return at; }
      next := at + 1;
      assert chunk[at..][1..] == chunk[next..];
      if chunk[at] == BACKSLASH {
        SkipEscape(lim, View(), chunk[at..]);
        if next < |chunk| {
          next := next + 1;
          assert chunk[at..][2..] == chunk[next..];
        } else {
          escaped := true;
          assert chunk[next..] == [];
        }
      } else {
        inString := false;
      }
    }

    /** One iteration outside strings: charge a scalar run, then handle one structural byte. */
    method OutsideStretch(chunk: seq<byte>, position: nat) returns (v: Verdict, next: nat)
      requires !inString && position < |chunk|
      modifies this
      ensures position < next <= |chunk|
      ensures Run(lim, old(View()), chunk[position..])
           == if v.Rejected? then v else Run(lim, v.scan, chunk[next..])
      ensures View() == v.scan
    {
      ghost var rest := chunk[position..];
      var end := SearchOutsideSpecial(chunk, position);
      v, next := Accepted(View()), end;
      if end > position {
        v := ScalarRun(end - position);
        assert forall k :: 0 <= k < end - position ==> !OutsideSpecial(rest[k]);
        if v.Rejected? { return; }
      }
      assert rest[end - position..] == chunk[end..];
      if end < |chunk| {
        v := Structural(chunk[end]);
        next := end + 1;
        assert chunk[end..][1..] == chunk[next..];
      }
    }

    /** Feeds one chunk: the run-skipping loop is the byte-at-a-time automaton. */
    method Feed(chunk: seq<byte>) returns (v: Verdict)
      modifies this
      ensures v == FeedSpec(lim, old(View()), chunk)
      ensures View() == v.scan
    {
      rawBytes := rawBytes + |chunk|;
      v := Accepted(View());
      if rawBytes * lim.rawMultiplier + tokens * lim.tokenBytes > lim.maxEstimated {
        return Rejected(MaxEstimatedBytes, ChunkRawCharge, View());
      }
      ghost var charged := View();
      var position := 0;
      assert chunk[0..] == chunk;
      while position < |chunk|
        invariant position <= |chunk|
        invariant v == Accepted(View())
        invariant Run(lim, charged, chunk) == Run(lim, View(), chunk[position..])
      {
        if inString {
          position := StringStretch(chunk, position);
          v := Accepted(View());
        } else {
          v, position := OutsideStretch(chunk, position);
          if v.Rejected? { return; }
        }
      }
      assert chunk[position..] == [];
    }
  }

  datatype Estimate =
    | Snapshot(scan: Scan)
    | TooComplex(verdict: Verdict)
    | InvalidLimits
    | UnencodableText

  /** Scans one payload with a fresh estimator; non-positive limits are refused. */
  method EstimateBytes(requested: RequestedLimits, payload: seq<byte>) returns (e: Estimate)
    ensures e == InvalidLimits <==> !requested.Valid()
    ensures e == InvalidLimits <==>
              || requested.rawMultiplier <= 0 || requested.tokenBytes <= 0 || requested.maxDepth <= 0
              || requested.maxScalarBytes <= 0 || requested.maxEstimated <= 0
    ensures requested.Valid() ==>
              var lim: Limits := requested;
              e == if Within(lim, Ending(FRESH, payload))
                   then Snapshot(Ending(FRESH, payload).scan)
                   else TooComplex(FeedSpec(lim, FRESH, payload))
  {
    if !requested.Valid() { return InvalidLimits; }
    var lim: Limits := requested;
    var estimator := new IncrementalEstimator(lim);
    var v := estimator.Feed(payload);
    FeedExact(lim, FRESH, payload);
    e := if v.Accepted? then Snapshot(v.scan) else TooComplex(v);
  }

  // ----- text input -----

  type CodePoint = c: int | 0 <= c <= 0x10FFFF

  const TEXT_SCAN_CHUNK_CHARACTERS := 256 * 1024

  /** Strict UTF-8 refuses surrogate code points. */
  predicate Encodable(c: CodePoint) { !(0xD800 <= c <= 0xDFFF) }

  predicate AllEncodable(text: seq<CodePoint>) { forall i :: 0 <= i < |text| ==> Encodable(text[i]) }

  function Utf8(c: CodePoint): seq<byte> {
    if c < 0x80 then [c as byte]
    else if c < 0x800 then [(0xC0 + c / 0x40) as byte, (0x80 + c % 0x40) as byte]
    else if c < 0x10000 then
      [(0xE0 + c / 0x1000) as byte, (0x80 + c / 0x40 % 0x40) as byte, (0x80 + c % 0x40) as byte]
    else
      [(0xF0 + c / 0x40000) as byte, (0x80 + c / 0x1000 % 0x40) as byte,
       (0x80 + c / 0x40 % 0x40) as byte, (0x80 + c % 0x40) as byte]
  }

  function Encode(text: seq<CodePoint>): seq<byte> {
    if text == [] then [] else Utf8(text[0]) + Encode(text[1..])
  }

  lemma {:induction false} EncodeAppend(a: seq<CodePoint>, b: seq<CodePoint>)
    ensures Encode(a + b) == Encode(a) + Encode(b)
    decreases |a|
  {
    if a == [] {
      assert a + b == b;
    } else {
      assert (a + b)[1..] == a[1..] + b;
      EncodeAppend(a[1..], b);
    }
  }

  /** The bytes of a code point as RFC 3629 (section 3) lays them out, from which it is read back. */
  lemma Utf8Exactly(c: CodePoint)
    requires Encodable(c)
    ensures var u := Utf8(c);
            if c < 0x80 then |u| == 1 && u[0] as int == c
            else if c < 0x800 then
              && |u| == 2 && 0xC2 <= u[0] < 0xE0 && Trails(u, 1)
              && (u[0] as int - 0xC0) * 64 + (u[1] as int - 0x80) == c
            else if c < 0x10000 then
              && |u| == 3 && 0xE0 <= u[0] < 0xF0 && Trails(u, 1)
              && ((u[0] as int - 0xE0) * 64 + (u[1] as int - 0x80)) * 64 + (u[2] as int - 0x80) == c
            else
              && |u| == 4 && 0xF0 <= u[0] < 0xF5 && Trails(u, 1)
              && (((u[0] as int - 0xF0) * 64 + (u[1] as int - 0x80)) * 64 + (u[2] as int - 0x80)) * 64
                 + (u[3] as int - 0x80) == c
  {
    assert c / 0x1000 == c / 0x40 / 0x40 && c / 0x40000 == c / 0x40 / 0x40 / 0x40;
  }

  /** All bytes from `i` on continue a character. */
  predicate Trails(u: seq<byte>, i: nat) { forall k :: i <= k < |u| ==> 0x80 <= u[k] < 0xC0 }

  /** The encodings of the text's pieces of 262144 characters, up to the first one that has none. */
  function Pieces(text: seq<CodePoint>): seq<seq<byte>>
    decreases |text|
  {
    var end := Min(0x40000, |text|);
    if text == [] || !AllEncodable(text[..end]) then [] else [Encode(text[..end])] + Pieces(text[end..])
  }

  /** The pieces of an encodable text are its encoding. */
  lemma {:induction false} PiecesWhole(text: seq<CodePoint>)
    requires AllEncodable(text)
    ensures Concat(Pieces(text)) == Encode(text)
    decreases |text|
  {
    if text != [] {
      var end := Min(0x40000, |text|);
      var first, rest := Encode(text[..end]), Pieces(text[end..]);
      PiecesWhole(text[end..]);
      assert text == text[..end] + text[end..];
      EncodeAppend(text[..end], text[end..]);
      assert Pieces(text) == [first] + rest;
      assert ([first] + rest)[0] == first && ([first] + rest)[1..] == rest;
    }
  }

  /** Fed piece by piece, an encodable text is accepted exactly as its encoding, to the same state. */
  lemma PiecesExact(lim: Limits, text: seq<CodePoint>)
    requires AllEncodable(text)
    ensures var v, whole := FeedAll(lim, FRESH, Pieces(text)), Ending(FRESH, Encode(text));
            (v.Accepted? <==> Within(lim, whole)) && (v.Accepted? ==> v.scan == whole.scan)
  {
    hide Pieces, AllEncodable, Encode;
    PiecesWhole(text);
    FeedAllExact(lim, FRESH, Pieces(text));
  }

  /** The first piece of a text, and the rest. */
  lemma FirstPiece(lim: Limits, s: Scan, text: seq<CodePoint>)
    requires text != []
    ensures var end := Min(0x40000, |text|);
            FeedAll(lim, s, Pieces(text)) ==
              if !AllEncodable(text[..end]) then Accepted(s)
              else
                var v := FeedSpec(lim, s, Encode(text[..end]));
                if v.Rejected? then v else FeedAll(lim, v.scan, Pieces(text[end..]))
  {
    var end := Min(0x40000, |text|);
    if AllEncodable(text[..end]) {
      var first, rest := Encode(text[..end]), Pieces(text[end..]);
      assert Pieces(text) == [first] + rest;
      assert ([first] + rest)[0] == first && ([first] + rest)[1..] == rest;
    }
  }

  /**
   Scans text in fixed-size pieces without building the whole encoding. On encodable text
   it agrees with the byte estimator on the encoded whole.
   */
  method EstimateText(requested: RequestedLimits, text: seq<CodePoint>) returns (e: Estimate)
    ensures e == InvalidLimits <==> !requested.Valid()
    ensures e == InvalidLimits <==>
              || requested.rawMultiplier <= 0 || requested.tokenBytes <= 0 || requested.maxDepth <= 0
              || requested.maxScalarBytes <= 0 || requested.maxEstimated <= 0
    ensures requested.Valid() && AllEncodable(text) ==>
              var lim: Limits := requested;
              if Within(lim, Ending(FRESH, Encode(text)))
              then e == Snapshot(Ending(FRESH, Encode(text)).scan)
              else e.TooComplex?
    ensures requested.Valid() ==>
              var lim: Limits := requested;
              var v := FeedAll(lim, FRESH, Pieces(text));
              e == if v.Rejected? then TooComplex(v)
                   else if AllEncodable(text) then Snapshot(v.scan) else UnencodableText
  {
    if !requested.Valid() { return InvalidLimits; }
    var lim: Limits := requested;
    if AllEncodable(text) { PiecesExact(lim, text); }
    e := ScanPieces(lim, text);
  }

  /** Feeds a text piece by piece to a fresh estimator. */
  method ScanPieces(lim: Limits, text: seq<CodePoint>) returns (e: Estimate)
    ensures var v := FeedAll(lim, FRESH, Pieces(text));
            e == if v.Rejected? then TooComplex(v)
                 else if AllEncodable(text) then Snapshot(v.scan) else UnencodableText
  {
    hide Pieces, Encode, FeedAll, FeedSpec;
    var estimator := new IncrementalEstimator(lim);
    var offset := 0;
    assert text[..0] == [] && text[0..] == text;
    while offset < |text|
      invariant offset <= |text| && estimator.lim == lim
      invariant fresh(estimator)
      invariant AllEncodable(text[..offset])
      invariant FeedAll(lim, FRESH, Pieces(text)) == FeedAll(lim, estimator.View(), Pieces(text[offset..]))
    {
      var end := Min(offset + TEXT_SCAN_CHUNK_CHARACTERS, |text|);
      var piece := text[offset..end];
      assert text[offset..][..end - offset] == piece && text[offset..][end - offset..] == text[end..];
      FirstPiece(lim, estimator.View(), text[offset..]);
      if !AllEncodable(piece) {
        assert exists i :: 0 <= i < |piece| && !Encodable(piece[i]) && piece[i] == text[offset + i];
        return UnencodableText;
      }
      assert text[..end] == text[..offset] + piece;
      var v := estimator.Feed(Encode(piece));
      if v.Rejected? { return TooComplex(v); }
      offset := end;
    }
    assert text[..offset] == text && text[offset..] == [];
    NoPieces(lim, estimator.View());
    e := Snapshot(estimator.View());
  }

  lemma NoPieces(lim: Limits, s: Scan)
    ensures FeedAll(lim, s, Pieces([])) == Accepted(s)
  {
  }
}
