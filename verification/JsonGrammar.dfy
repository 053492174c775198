/**
 JSON texts as trees, written with any whitespace and any string escapes that RFC 8259
 allows (sections 2 to 7), and what the scanner computes on them.
 */
module JsonGrammar {
  import opened Common
  import opened JsonScan

  /** A run of insignificant whitespace. */
  predicate Blank(w: seq<byte>) { forall i :: 0 <= i < |w| ==> IsSpace(w[i]) }

  type Whitespace = w: seq<byte> | Blank(w) witness []

  /** A decimal digit run, never empty. */
  predicate IsDigits(d: seq<byte>) { d != [] && forall i :: 0 <= i < |d| ==> 0x30 <= d[i] <= 0x39 }

  type Digits = d: seq<byte> | IsDigits(d) witness [0x30]

  /** An integer part has no leading zero unless it is zero. */
  type IntegerPart = d: Digits | |d| == 1 || d[0] != 0x30 witness [0x30]

  predicate IsHex(b: byte) { 0x30 <= b <= 0x39 || 0x41 <= b <= 0x46 || 0x61 <= b <= 0x66 }

  type HexDigit = b: byte | IsHex(b) witness 0x30

  /** A byte that may stand unescaped in a string: no control, quote or backslash. */
  type PlainByte = b: byte | b >= 0x20 && b != QUOTE && b != BACKSLASH witness 0x20

  /** The letter of a two-character escape: quote, backslash, slash, b, f, n, r or t. */
  type EscapeLetter = b: byte | b in {0x22, 0x5C, 0x2F, 0x62, 0x66, 0x6E, 0x72, 0x74} witness 0x22

  datatype Character =
    | Plain(plain: PlainByte)
    | Escape(letter: EscapeLetter)
    | Unicode(h1: HexDigit, h2: HexDigit, h3: HexDigit, h4: HexDigit)

  datatype Sign = Plus | Minus

  datatype Exponent = Exponent(capital: bool, sign: Option<Sign>, digits: Digits)

  datatype Atom =
    | True | False | Null
    | Number(negative: bool, whole: IntegerPart, fraction: Option<Digits>, exponent: Option<Exponent>)

  datatype Value =
    | Text(characters: seq<Character>)
    | Scalar(atom: Atom)
    | Array(items: Items)
    | Object(members: Members)

  /** Array contents; the blanks are the whitespace around the element. */
  datatype Items =
    | NoItems(blank: Whitespace)
    | Item(before: Whitespace, value: Value, after: Whitespace, rest: Items)

  datatype Members =
    | NoMembers(blank: Whitespace)
    | Member(before: Whitespace, key: seq<Character>, preColon: Whitespace, postColon: Whitespace,
             value: Value, after: Whitespace, rest: Members)

  // ----- rendering -----

  function RenderCharacter(c: Character): seq<byte> {
    match c
    case Plain(b) => [b]
    case Escape(letter) => [BACKSLASH, letter]
    case Unicode(a, b, c, d) => [BACKSLASH, 0x75, a, b, c, d]
  }

  function RenderCharacters(cs: seq<Character>): seq<byte> {
    if cs == [] then [] else RenderCharacter(cs[0]) + RenderCharacters(cs[1..])
  }

  function RenderText(cs: seq<Character>): seq<byte> {
    [QUOTE] + RenderCharacters(cs) + [QUOTE]
  }

  function RenderExponent(e: Exponent): seq<byte> {
    [if e.capital then 0x45 else 0x65]
    + (match e.sign case None => [] case Some(Plus) => [0x2B] case Some(Minus) => [0x2D])
    + e.digits
  }

  function RenderAtom(a: Atom): seq<byte> {
    match a
    case True => [0x74, 0x72, 0x75, 0x65]
    case False => [0x66, 0x61, 0x6C, 0x73, 0x65]
    case Null => [0x6E, 0x75, 0x6C, 0x6C]
    case Number(negative, whole, fraction, exponent) =>
      (if negative then [0x2D] else [])
      + whole
      + (match fraction case None => [] case Some(d) => [0x2E] + d)
      + (match exponent case None => [] case Some(e) => RenderExponent(e))
  }

  function Render(v: Value): seq<byte> {
    match v
    case Text(cs) => RenderText(cs)
    case Scalar(a) => RenderAtom(a)
    case Array(items) => [0x5B] + RenderItems(items, true) + [0x5D]
    case Object(members) => [0x7B] + RenderMembers(members, true) + [0x7D]
  }

  /** Contents after the opening bracket; every element but the first is preceded by a comma. */
  function RenderItems(items: Items, first: bool): seq<byte> {
    match items
    case NoItems(blank) => blank
    case Item(before, v, after, rest) =>
      (if first then [] else [0x2C]) + before + Render(v) + after + RenderItems(rest, false)
  }

  function RenderMembers(members: Members, first: bool): seq<byte> {
    match members
    case NoMembers(blank) => blank
    case Member(before, key, preColon, postColon, v, after, rest) =>
      (if first then [] else [0x2C]) + before + RenderText(key) + preColon + [0x3A] + postColon
      + Render(v) + after + RenderMembers(rest, false)
  }

  // ----- what a tree holds -----

  /** The number of values plus the number of object keys. */
  function Parts(v: Value): nat {
    match v
    case Text(_) => 1
    case Scalar(_) => 1
    case Array(items) => 1 + ItemParts(items)
    case Object(members) => 1 + MemberParts(members)
  }

  function ItemParts(items: Items): nat {
    match items
    case NoItems(_) => 0
    case Item(_, v, _, rest) => Parts(v) + ItemParts(rest)
  }

  function MemberParts(members: Members): nat {
    match members
    case NoMembers(_) => 0
    case Member(_, _, _, _, v, _, rest) => 1 + Parts(v) + MemberParts(rest)
  }

  /** How deeply containers nest. */
  function Height(v: Value): nat {
    match v
    case Text(_) => 0
    case Scalar(_) => 0
    case Array(items) => 1 + ItemHeight(items)
    case Object(members) => 1 + MemberHeight(members)
  }

  function ItemHeight(items: Items): nat {
    match items
    case NoItems(_) => 0
    case Item(_, v, _, rest) => Max(Height(v), ItemHeight(rest))
  }

  function MemberHeight(members: Members): nat {
    match members
    case NoMembers(_) => 0
    case Member(_, _, _, _, v, _, rest) => Max(Height(v), MemberHeight(rest))
  }

  /** The longest number or literal, in bytes. */
  function LongestAtom(v: Value): nat {
    match v
    case Text(_) => 0
    case Scalar(a) => |RenderAtom(a)|
    case Array(items) => ItemLongest(items)
    case Object(members) => MemberLongest(members)
  }

  function ItemLongest(items: Items): nat {
    match items
    case NoItems(_) => 0
    case Item(_, v, _, rest) => Max(LongestAtom(v), ItemLongest(rest))
  }

  function MemberLongest(members: Members): nat {
    match members
    case NoMembers(_) => 0
    case Member(_, _, _, _, v, _, rest) => Max(LongestAtom(v), MemberLongest(rest))
  }

  // ----- scanning a rendering -----

  /** Outside every string and scalar. */
  predicate Clean(tr: Trace) {
    && !tr.scan.inString && !tr.scan.escaped
    && !tr.scan.scalarActive && tr.scan.scalarBytes == 0
    && tr.scan.depth <= tr.scan.peak
  }

  /** The clean trace after `parts` more items reaching `height` deeper and a scalar of `longest`. */
  function Grown(tr: Trace, parts: nat, height: nat, longest: nat): Trace {
    Trace(tr.scan.(tokens := tr.scan.tokens + parts, peak := Max(tr.scan.peak, tr.scan.depth + height)),
          Max(tr.longest, longest))
  }

  /** After a value the scanner still stands in the scalar if the value is one. */
  function AfterValue(tr: Trace, v: Value): Trace {
    var g := Grown(tr, Parts(v), Height(v), LongestAtom(v));
    if v.Scalar? then g.(scan := g.scan.(scalarActive := true, scalarBytes := |RenderAtom(v.atom)|)) else g
  }

  /** One separator closes a pending scalar. */
  function Closed(tr: Trace): Trace { tr.(scan := Unscalar(tr.scan)) }

  lemma {:induction false} ScanBlank(tr: Trace, w: Whitespace)
    requires Clean(tr)
    ensures TraceAll(tr, w) == tr
    decreases |w|
  {
    if w != [] {
      assert Next(tr, w[0]) == tr;
      ScanBlank(tr, w[1..]);
    }
  }

  /** Whitespace after a value closes it and then does nothing. */
  lemma ScanBlankAfter(tr: Trace, v: Value, w: Whitespace)
    requires Clean(tr)
    ensures Closed(TraceAll(AfterValue(tr, v), w)) == Closed(AfterValue(tr, v))
    ensures !TraceAll(AfterValue(tr, v), w).scan.inString
  {
    if w != [] {
      assert Next(AfterValue(tr, v), w[0]) == Closed(AfterValue(tr, v));
      ScanBlank(Closed(AfterValue(tr, v)), w[1..]);
    }
  }

  lemma {:induction false} ScanCharacters(tr: Trace, cs: seq<Character>)
    requires tr.scan.inString && !tr.scan.escaped && tr.scan.scalarBytes <= tr.longest
    ensures TraceAll(tr, RenderCharacters(cs)) == tr
    decreases |cs|
  {
    if cs != [] {
      var one := RenderCharacter(cs[0]);
      TraceAppend(tr, one, RenderCharacters(cs[1..]));
      ScanCharacter(tr, cs[0]);
      ScanCharacters(tr, cs[1..]);
    }
  }

  lemma ScanCharacter(tr: Trace, c: Character)
    requires tr.scan.inString && !tr.scan.escaped && tr.scan.scalarBytes <= tr.longest
    ensures TraceAll(tr, RenderCharacter(c)) == tr
  {
    var escaping := tr.(scan := tr.scan.(escaped := true));
    match c
    case Plain(b) =>
      assert Next(tr, b) == tr;
      assert TraceAll(tr, [b]) == TraceAll(Next(tr, b), [b][1..]) == tr;
    case Escape(letter) =>
      assert Next(tr, BACKSLASH) == escaping && Next(escaping, letter) == tr;
      ScanPair(tr, letter);
    case Unicode(a, b, c, d) =>
      var tail := [a, b, c, d];
      assert [BACKSLASH, 0x75, a, b, c, d] == [BACKSLASH, 0x75] + tail;
      TraceAppend(tr, [BACKSLASH, 0x75], tail);
      ScanPair(tr, 0x75);
      ScanInert(tr, tail);
  }

  lemma ScanPair(tr: Trace, b: byte)
    requires tr.scan.inString && !tr.scan.escaped && tr.scan.scalarBytes <= tr.longest
    ensures TraceAll(tr, [BACKSLASH, b]) == tr
  {
    var escaping := tr.(scan := tr.scan.(escaped := true));
    var pair := [BACKSLASH, b];
    assert Next(tr, pair[0]) == escaping && Next(escaping, pair[1]) == tr;
    assert pair[1..][1..] == [];
    assert TraceAll(escaping, pair[1..]) == TraceAll(tr, pair[1..][1..]);
  }

  lemma {:induction false} ScanInert(tr: Trace, bytes: seq<byte>)
    requires tr.scan.inString && !tr.scan.escaped && tr.scan.scalarBytes <= tr.longest
    requires forall i :: 0 <= i < |bytes| ==> !StringSpecial(bytes[i])
    ensures TraceAll(tr, bytes) == tr
    decreases |bytes|
  {
    if bytes != [] { ScanInert(tr, bytes[1..]); }
  }

  lemma ScanOne(tr: Trace, b: byte)
    ensures TraceAll(tr, [b]) == Next(tr, b)
  {
    assert [b][1..] == [];
  }

  /** A whole string costs one item and leaves no other mark. */
  lemma ScanText(tr: Trace, cs: seq<Character>)
    requires !tr.scan.inString && !tr.scan.escaped
    ensures TraceAll(tr, RenderText(cs))
         == Grown(Closed(tr), 1, 0, 0).(scan := Unscalar(tr.scan).(tokens := tr.scan.tokens + 1))
  {
    var open := Next(tr, QUOTE);
    TraceAppend(tr, [QUOTE] + RenderCharacters(cs), [QUOTE]);
    TraceAppend(tr, [QUOTE], RenderCharacters(cs));
    ScanOne(tr, QUOTE);
    ScanCharacters(open, cs);
    ScanOne(open, QUOTE);
  }

  lemma {:induction false} ScanScalarTail(tr: Trace, bytes: seq<byte>)
    requires !tr.scan.inString && tr.scan.scalarActive && tr.scan.scalarBytes <= tr.longest
    requires forall i :: 0 <= i < |bytes| ==> !OutsideSpecial(bytes[i])
    ensures TraceAll(tr, bytes)
         == Trace(tr.scan.(scalarBytes := tr.scan.scalarBytes + |bytes|),
                  Max(tr.longest, tr.scan.scalarBytes + |bytes|))
    decreases |bytes|
  {
    if bytes != [] { ScanScalarTail(Next(tr, bytes[0]), bytes[1..]); }
  }

  /** No byte that the scanner reacts to. */
  predicate Inert(bytes: seq<byte>) { forall i :: 0 <= i < |bytes| ==> !OutsideSpecial(bytes[i]) }

  lemma InertConcat(a: seq<byte>, b: seq<byte>)
    requires Inert(a) && Inert(b)
    ensures Inert(a + b)
  {
  }

  lemma DigitsInert(d: Digits)
    ensures Inert(d)
  {
    assert forall i :: 0 <= i < |d| ==> 0x30 <= d[i] <= 0x39;
  }

  lemma ExponentInert(e: Exponent)
    ensures Inert(RenderExponent(e))
  {
    DigitsInert(e.digits);
    var sign := match e.sign case None => [] case Some(Plus) => [0x2B] case Some(Minus) => [0x2D];
    InertConcat([if e.capital then 0x45 else 0x65], sign);
    InertConcat([if e.capital then 0x45 else 0x65] + sign, e.digits);
  }

  /** Numbers and literals are never empty and hold no byte the scanner reacts to. */
  lemma AtomBytes(a: Atom)
    ensures RenderAtom(a) != [] && Inert(RenderAtom(a))
  {
    hide RenderExponent;
    if a.Number? {
      var minus := if a.negative then [0x2D] else [];
      var fraction := match a.fraction case None => [] case Some(d) => [0x2E] + d;
      var exponent := match a.exponent case None => [] case Some(e) => RenderExponent(e);
      DigitsInert(a.whole);
      if a.fraction.Some? { DigitsInert(a.fraction.value); InertConcat([0x2E], a.fraction.value); }
      if a.exponent.Some? { ExponentInert(a.exponent.value); }
      InertConcat(minus, a.whole);
      InertConcat(minus + a.whole, fraction);
      InertConcat(minus + a.whole + fraction, exponent);
    }
  }

  lemma ScanAtom(tr: Trace, a: Atom)
    requires Clean(tr)
    ensures TraceAll(tr, RenderAtom(a)) == AfterValue(tr, Scalar(a))
  {
    AtomBytes(a);
    var bytes := RenderAtom(a);
    var first := Next(tr, bytes[0]);
    ScanScalarTail(first, bytes[1..]);
  }

  /** Scanning a rendered value counts its parts and measures its height. */
  lemma {:induction false} ScanValue(tr: Trace, v: Value)
    requires Clean(tr)
    ensures TraceAll(tr, Render(v)) == AfterValue(tr, v)
    decreases v, 0
  {
    match v
    case Text(cs) => ScanText(tr, cs);
    case Scalar(a) => ScanAtom(tr, a);
    case Array(items) =>
      var inner := Next(tr, 0x5B);
      ScanBracketed(tr, 0x5B, RenderItems(items, true), 0x5D);
      ScanItems(inner, items, true);
    case Object(members) =>
      var inner := Next(tr, 0x7B);
      ScanBracketed(tr, 0x7B, RenderMembers(members, true), 0x7D);
      ScanMembers(inner, members, true);
  }

  lemma ScanBracketed(tr: Trace, open: byte, inside: seq<byte>, close: byte)
    ensures TraceAll(tr, [open] + inside + [close]) == Next(TraceAll(Next(tr, open), inside), close)
  {
    TraceAppend(tr, [open] + inside, [close]);
    TraceAppend(tr, [open], inside);
    ScanOne(tr, open);
    ScanOne(TraceAll(Next(tr, open), inside), close);
  }

  /** Inside a container, contents end clean up to a pending scalar. */
  lemma {:induction false} ScanItems(tr: Trace, items: Items, first: bool)
    requires Clean(Closed(tr)) && (first ==> Clean(tr))
    ensures var e := TraceAll(tr, RenderItems(items, first));
            && !e.scan.inString
            && Closed(e) == Grown(Closed(tr), ItemParts(items), ItemHeight(items), ItemLongest(items))
    decreases items, 1
  {
    hide TraceAll, Render, Next;
    match items
    case NoItems(blank) =>
      ScanBlankClosed(tr, blank);
    case Item(before, v, after, rest) =>
      var lead := (if first then [] else [0x2C]) + before;
      var tail := RenderItems(rest, false);
      ScanLead(tr, first, before);
      var mid := AfterValue(Closed(tr), v);
      ScanValue(Closed(tr), v);
      ScanBlankAfter(Closed(tr), v, after);
      var last := TraceAll(mid, after);
      ScanItems(last, rest, false);
      TraceAppend(tr, lead + Render(v) + after, tail);
      TraceAppend(tr, lead + Render(v), after);
      TraceAppend(tr, lead, Render(v));
  }

  lemma ScanBlankClosed(tr: Trace, w: Whitespace)
    requires Clean(Closed(tr))
    ensures Closed(TraceAll(tr, w)) == Closed(tr) && !TraceAll(tr, w).scan.inString
  {
    if w != [] {
      assert Next(tr, w[0]) == Closed(tr);
      ScanBlank(Closed(tr), w[1..]);
    }
  }

  /** A comma, when there is one, and the blank before an element bring the scanner to rest. */
  lemma ScanLead(tr: Trace, first: bool, before: Whitespace)
    requires Clean(Closed(tr)) && (first ==> Clean(tr))
    ensures TraceAll(tr, (if first then [] else [0x2C]) + before) == Closed(tr)
  {
    TraceAppend(tr, if first then [] else [0x2C], before);
    ScanOne(tr, 0x2C);
    ScanBlank(Closed(tr), before);
  }

  lemma {:induction false} ScanMembers(tr: Trace, members: Members, first: bool)
    requires Clean(Closed(tr)) && (first ==> Clean(tr))
    ensures var e := TraceAll(tr, RenderMembers(members, first));
            && !e.scan.inString
            && Closed(e) == Grown(Closed(tr), MemberParts(members), MemberHeight(members), MemberLongest(members))
    decreases members, 1
  {
    hide TraceAll, Render, RenderText, Next;
    match members
    case NoMembers(blank) =>
      ScanBlankClosed(tr, blank);
    case Member(before, key, preColon, postColon, v, after, rest) =>
      var tail := RenderMembers(rest, false);
      var head := (if first then [] else [0x2C]) + before + RenderText(key) + preColon + [0x3A] + postColon;
      ScanKey(tr, first, before, key, preColon, postColon);
      var named := TraceAll(tr, head);
      var mid := AfterValue(named, v);
      ScanValue(named, v);
      ScanBlankAfter(named, v, after);
      var last := TraceAll(mid, after);
      ScanMembers(last, rest, false);
      TraceAppend(tr, head + Render(v) + after, tail);
      TraceAppend(tr, head + Render(v), after);
      TraceAppend(tr, head, Render(v));
  }

  /** A key and its colon cost one item. */
  lemma ScanKey(tr: Trace, first: bool, before: Whitespace, key: seq<Character>,
                preColon: Whitespace, postColon: Whitespace)
    requires Clean(Closed(tr)) && (first ==> Clean(tr))
    ensures TraceAll(tr, (if first then [] else [0x2C]) + before + RenderText(key) + preColon + [0x3A] + postColon)
         == Grown(Closed(tr), 1, 0, 0)
  {
    hide TraceAll, RenderText;
    var lead := (if first then [] else [0x2C]) + before;
    var named := Grown(Closed(tr), 1, 0, 0);
    ScanLead(tr, first, before);
    ScanText(Closed(tr), key);
    ScanBlank(named, preColon);
    ScanOne(named, 0x3A);
    ScanBlank(named, postColon);
    TraceAppend(tr, lead + RenderText(key) + preColon + [0x3A], postColon);
    TraceAppend(tr, lead + RenderText(key) + preColon, [0x3A]);
    TraceAppend(tr, lead + RenderText(key), preColon);
    TraceAppend(tr, lead, RenderText(key));
  }

  /** A whole JSON text: one value with blanks around it. */
  function RenderDocument(before: Whitespace, v: Value, after: Whitespace): seq<byte> {
    before + Render(v) + after
  }

  /**
   The scanner on JSON. Whatever whitespace and escapes a tree is written with, the scanner
   accepts exactly when the tree is no higher than the depth limit, no number or literal is
   longer than the scalar limit, and the weighted sum of bytes and parts is within the
   estimate limit. It then stands at depth zero outside any string, having counted the
   values and keys and measured the height.
   */
  lemma ScansJson(lim: Limits, before: Whitespace, v: Value, after: Whitespace)
    ensures var text := RenderDocument(before, v, after);
            var verdict := FeedSpec(lim, FRESH, text);
            && (verdict.Accepted? <==>
                  && Height(v) <= lim.maxDepth
                  && LongestAtom(v) <= lim.maxScalarBytes
                  && |text| * lim.rawMultiplier + Parts(v) * lim.tokenBytes <= lim.maxEstimated)
            && (verdict.Accepted? ==>
                  && verdict.scan.tokens == Parts(v)
                  && verdict.scan.peak == Height(v)
                  && verdict.scan.raw == |text|
                  && verdict.scan.depth == 0
                  && !verdict.scan.inString && !verdict.scan.escaped)
  {
    hide Render, Ending, Parts, Height, LongestAtom;
    DocumentEnds(before, v, after);
    FeedExact(lim, FRESH, RenderDocument(before, v, after));
  }

  /** Where the unlimited scan of a document ends. */
  lemma DocumentEnds(before: Whitespace, v: Value, after: Whitespace)
    ensures var text := RenderDocument(before, v, after);
            var tr := Start(FRESH.(raw := |text|));
            Closed(Ending(FRESH, text)) == Closed(AfterValue(tr, v)) && !Ending(FRESH, text).scan.inString
  {
    hide TraceAll, Render;
    var text := RenderDocument(before, v, after);
    var tr := Start(FRESH.(raw := |text|));
    ScanBlank(tr, before);
    ScanValue(tr, v);
    ScanBlankAfter(tr, v, after);
    TraceAppend(tr, before + Render(v), after);
    TraceAppend(tr, before, Render(v));
    assert Ending(FRESH, text) == TraceAll(AfterValue(tr, v), after);
  }
}
