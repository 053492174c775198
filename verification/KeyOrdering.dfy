/**
 Smart key ordering: keys sorted by success rate and use, dealt in turn into groups, and the
 groups laid end to end, so that every group starts with the best keys.
 */
module KeyOrdering {
  import opened Common

  type Key = string

  datatype Stat = Stat(key: Key, rate: real, total: int)

  /** Success rate first, then number of requests. */
  datatype Rank = Rank(rate: real, total: int)

  type Ranking = map<Key, Rank>

  /** A key without statistics ranks below any key that has them. */
  function RankOf(m: Ranking, k: Key): Rank { if k in m then m[k] else Rank(-1.0, 0) }

  predicate NoWorse(a: Rank, b: Rank) { a.rate > b.rate || (a.rate == b.rate && a.total >= b.total) }

  /** A later row about the same key replaces an earlier one. */
  function RankingOf(stats: seq<Stat>): Ranking {
    if stats == [] then map[]
    else
      var x := stats[|stats| - 1];
      RankingOf(stats[..|stats| - 1])[x.key := Rank(x.rate, x.total)]
  }

  // ----- the sort -----

  /** `x` behind every key that is no worse. */
  function Insert(m: Ranking, s: seq<Key>, x: Key): seq<Key> {
    if s == [] then [x]
    else if NoWorse(RankOf(m, s[0]), RankOf(m, x)) then [s[0]] + Insert(m, s[1..], x)
    else [x] + s
  }

  /** Descending, and stable. */
  function Sort(m: Ranking, s: seq<Key>): seq<Key> {
    if s == [] then [] else Insert(m, Sort(m, s[..|s| - 1]), s[|s| - 1])
  }

  predicate Descending(m: Ranking, s: seq<Key>) {
    forall i, j :: 0 <= i < j < |s| ==> NoWorse(RankOf(m, s[i]), RankOf(m, s[j]))
  }

  lemma {:induction false} InsertMembers(m: Ranking, s: seq<Key>, x: Key)
    ensures multiset(Insert(m, s, x)) == multiset(s) + multiset{x}
  {
    if s != [] {
      assert s == [s[0]] + s[1..];
      if NoWorse(RankOf(m, s[0]), RankOf(m, x)) { InsertMembers(m, s[1..], x); }
    }
  }

  lemma {:induction false} InsertOk(m: Ranking, s: seq<Key>, x: Key)
    requires Descending(m, s)
    ensures Descending(m, Insert(m, s, x))
  {
    if s != [] && NoWorse(RankOf(m, s[0]), RankOf(m, x)) {
      var r := Insert(m, s[1..], x);
      InsertOk(m, s[1..], x);
      InsertMembers(m, s[1..], x);
      forall j | 0 <= j < |r| ensures NoWorse(RankOf(m, s[0]), RankOf(m, r[j])) {
        assert r[j] in multiset(r);
        if r[j] != x { assert r[j] in s[1..]; }
      }
    }
  }

  lemma {:induction false} SortOk(m: Ranking, s: seq<Key>)
    ensures Descending(m, Sort(m, s)) && multiset(Sort(m, s)) == multiset(s) && |Sort(m, s)| == |s|
  {
    if s != [] {
      var n := |s| - 1;
      SortOk(m, s[..n]);
      InsertOk(m, Sort(m, s[..n]), s[n]);
      InsertMembers(m, Sort(m, s[..n]), s[n]);
      assert s == s[..n] + [s[n]];
      assert |Sort(m, s)| == |multiset(Sort(m, s))| == |multiset(s)|;
    }
  }

  /** The keys of one rank, in order. */
  function Peers(m: Ranking, s: seq<Key>, r: Rank): seq<Key> {
    if s == [] then [] else
      Peers(m, s[..|s| - 1], r) + if RankOf(m, s[|s| - 1]) == r then [s[|s| - 1]] else []
  }

  lemma {:induction false} PeersConcat(m: Ranking, s: seq<Key>, t: seq<Key>, r: Rank)
    ensures Peers(m, s + t, r) == Peers(m, s, r) + Peers(m, t, r)
  {
    if t == [] {
      assert s + t == s;
    } else {
      var n := |t| - 1;
      assert (s + t)[..|s + t| - 1] == s + t[..n];
      PeersConcat(m, s, t[..n], r);
    }
  }

  lemma {:induction false} InsertStable(m: Ranking, s: seq<Key>, x: Key, r: Rank)
    requires Descending(m, s)
    ensures Peers(m, Insert(m, s, x), r) == Peers(m, s, r) + Peers(m, [x], r)
  {
    if s != [] {
      assert s == [s[0]] + s[1..];
      PeersConcat(m, [s[0]], s[1..], r);
      if NoWorse(RankOf(m, s[0]), RankOf(m, x)) {
        InsertStable(m, s[1..], x, r);
        PeersConcat(m, [s[0]], Insert(m, s[1..], x), r);
      } else {
        PeersConcat(m, [x], s, r);
        if RankOf(m, x) == r { NoPeers(m, s, r); }
      }
    }
  }

  lemma {:induction false} NoPeers(m: Ranking, s: seq<Key>, r: Rank)
    requires Descending(m, s) && s != [] && !NoWorse(RankOf(m, s[0]), r)
    ensures Peers(m, s, r) == []
  {
    var n := |s| - 1;
    if n > 0 {
      NoPeers(m, s[..n], r);
      assert NoWorse(RankOf(m, s[0]), RankOf(m, s[n]));
    }
  }

  /** Keys of equal rank keep their configured order. */
  lemma {:induction false} SortStable(m: Ranking, s: seq<Key>, r: Rank)
    ensures Peers(m, Sort(m, s), r) == Peers(m, s, r)
  {
    if s != [] {
      var n := |s| - 1;
      SortStable(m, s[..n], r);
      SortOk(m, s[..n]);
      InsertStable(m, Sort(m, s[..n]), s[n], r);
      assert s == s[..n] + [s[n]];
      PeersConcat(m, s[..n], [s[n]], r);
    }
  }

  // ----- dealing into groups -----

  function NoKeys(m: nat): seq<seq<Key>> { seq(m, _ => []) }

  /** Keys dealt in turn to `m` groups. */
  function Deal(s: seq<Key>, m: nat): (g: seq<seq<Key>>)
    requires m > 0
    ensures |g| == m
  {
    if s == [] then NoKeys(m)
    else
      var n := |s| - 1;
      var g := Deal(s[..n], m);
      g[n % m := g[n % m] + [s[n]]]
  }

  function Flatten(g: seq<seq<Key>>): seq<Key> {
    if g == [] then [] else Flatten(g[..|g| - 1]) + g[|g| - 1]
  }

  /** A group that has taken every `m`-th of `n` keys from `j` on has `c` of them. */
  predicate Fills(n: nat, m: nat, j: nat, c: nat) { n <= c * m + j && (c > 0 ==> (c - 1) * m + j < n) }

  lemma Below(m: nat, a: int, b: int)
    requires a * m < (b + 1) * m
    ensures a <= b
  {
    if a > b { Times(m, b + 1, a); }
  }

  lemma Times(m: nat, a: int, b: int)
    requires a <= b
    ensures a * m <= b * m
  {
  }

  /** Division with remainder is unique. */
  lemma Quotient(m: nat, n: nat, c: int, j: nat)
    requires j < m && n == c * m + j
    ensures n / m == c && n % m == j
  {
    var q := n / m;
    assert n == q * m + n % m;
    assert (q + 1) * m == q * m + m && (c + 1) * m == c * m + m;
    Below(m, q, c);
    Below(m, c, q);
  }

  lemma FillsNext(n: nat, m: nat, j: nat, c: nat)
    requires j < m && Fills(n, m, j, c)
    ensures j == n % m ==> c * m + j == n && Fills(n + 1, m, j, c + 1)
    ensures j != n % m ==> Fills(n + 1, m, j, c)
  {
    if j == n % m {
      var q := n / m;
      assert n == q * m + j;
      assert (c + 1) * m == c * m + m && (q - 1 + 1) * m == q * m;
      Below(m, q, c);
      if c > 0 { Below(m, c - 1, q - 1); }
    } else if n == c * m + j {
      Quotient(m, n, c, j);
    }
  }

  /** The key at position `p` of group `j` is the one at `p * m + j` in the sorted order. */
  lemma {:induction false} DealAt(s: seq<Key>, m: nat, j: nat)
    requires j < m
    ensures Fills(|s|, m, j, |Deal(s, m)[j]|)
    ensures forall p :: 0 <= p < |Deal(s, m)[j]| ==> 0 <= p * m + j < |s| && Deal(s, m)[j][p] == s[p * m + j]
  {
    if s != [] {
      var n := |s| - 1;
      var t := s[..n];
      DealAt(t, m, j);
      var c := |Deal(t, m)[j]|;
      FillsNext(n, m, j, c);
      forall p | 0 <= p < |Deal(s, m)[j]| ensures 0 <= p * m + j < |s| && Deal(s, m)[j][p] == s[p * m + j] {
        if p < c { assert Deal(s, m)[j][p] == Deal(t, m)[j][p]; }
      }
    }
  }

  lemma {:induction false} FlattenUpdate(g: seq<seq<Key>>, j: nat, x: Key)
    requires j < |g|
    ensures multiset(Flatten(g[j := g[j] + [x]])) == multiset(Flatten(g)) + multiset{x}
  {
    var n := |g| - 1;
    var h := g[j := g[j] + [x]];
    if j == n {
      assert h[..n] == g[..n];
    } else {
      assert h[..n] == g[..n][j := g[j] + [x]];
      FlattenUpdate(g[..n], j, x);
    }
  }

  lemma {:induction false} FlattenEmpty(m: nat)
    ensures Flatten(NoKeys(m)) == []
  {
    if m > 0 {
      assert NoKeys(m)[..m - 1] == NoKeys(m - 1);
      FlattenEmpty(m - 1);
    }
  }

  /** Dealing and laying the groups end to end loses nothing and adds nothing. */
  lemma {:induction false} DealPermutes(s: seq<Key>, m: nat)
    requires m > 0
    ensures multiset(Flatten(Deal(s, m))) == multiset(s)
  {
    hide Flatten, NoKeys;
    if s == [] {
      FlattenEmpty(m);
    } else {
      var n := |s| - 1;
      DealPermutes(s[..n], m);
      FlattenUpdate(Deal(s[..n], m), n % m, s[n]);
      assert s == s[..n] + [s[n]];
    }
  }

  // ----- the whole operation -----

  datatype Outcome = Ordered(keys: seq<Key>) | DivisionByZero | NoSuchGroup

  /** Division rounding down, for divisors of either sign. */
  function FloorDiv(a: int, b: int): int
    requires b != 0
  {
    if b > 0 then a / b else (-a) / (-b)
  }

  /** The number of groups as it is computed; it is a count only for a positive size. */
  function GroupCount(n: int, size: int): int
    requires size != 0
  {
    FloorDiv(n + size - 1, size)
  }

  function Arrange(sorted: seq<Key>, size: int): Outcome {
    if size == 0 then DivisionByZero
    else
      var m := GroupCount(|sorted|, size);
      if m == 0 then DivisionByZero
      else if m < 0 then NoSuchGroup
      else Ordered(Flatten(Deal(sorted, m)))
  }

  /** Without statistics the configured order stands. */
  function SortedApiKeys(keys: seq<Key>, stats: Option<seq<Stat>>, size: int): Outcome {
    if keys == [] then Ordered([])
    else match stats
      case None => Ordered(keys)
      case Some(rows) => Arrange(Sort(RankingOf(rows), keys), size)
  }

  method GetSortedApiKeys(keys: seq<Key>, stats: Option<seq<Stat>>, size: int) returns (r: Outcome)
    ensures r == SortedApiKeys(keys, stats, size)
  {
    if keys == [] { return Ordered([]); }
    if stats.None? { return Ordered(keys); }
    var keyStats: Ranking := map[];
    for i := 0 to |stats.value|
      invariant keyStats == RankingOf(stats.value[..i])
    {
      var row := stats.value[i];
      assert stats.value[..i + 1][..i] == stats.value[..i];
      keyStats := keyStats[row.key := Rank(row.rate, row.total)];
    }
    assert stats.value[..|stats.value|] == stats.value;
    var sorted := Sort(keyStats, keys);
    SortOk(keyStats, keys);
    if size == 0 { return DivisionByZero; }
    var count := GroupCount(|sorted|, size);
    if count == 0 { return DivisionByZero; }
    if count < 0 { return NoSuchGroup; }

    var groups := NoKeys(count);
    assert sorted[..0] == [] && groups == Deal([], count);
    for i := 0 to |sorted|
      invariant |groups| == count && groups == Deal(sorted[..i], count)
    {
      assert sorted[..i + 1][..i] == sorted[..i];
      groups := groups[i % count := groups[i % count] + [sorted[i]]];
    }
    assert sorted[..|sorted|] == sorted;
    var final := [];
    for j := 0 to |groups|
      invariant final == Flatten(groups[..j])
    {
      assert groups[..j + 1][..j] == groups[..j];
      final := final + groups[j];
    }
    assert groups[..|groups|] == groups;
    r := Ordered(final);
  }

  // ----- what it promises -----

  lemma CountPositive(n: nat, size: int)
    requires n > 0 && size != 0
    ensures GroupCount(n, size) > 0 <==> size > 0 || n == 1
    ensures size > 0 ==> (GroupCount(n, size) - 1) * size < n <= GroupCount(n, size) * size
    ensures size > 0 ==> GroupCount(n, size) <= n
  {
    if size > 0 {
      var q := (n + size - 1) / size;
      assert n + size - 1 == q * size + (n + size - 1) % size;
      assert (q - 1) * size == q * size - size;
      if q > n { Times(size, n + 1, q); assert (n + 1) * size == n * size + size; Times(n, 1, size); }
    } else {
      var a, b := -(n + size - 1), -size;
      if n == 1 { assert a == b; } else { assert a < b; }
    }
  }

  /** The operation succeeds exactly for these inputs; a size of zero never divides anything. */
  lemma OrderedExactly(keys: seq<Key>, stats: Option<seq<Stat>>, size: int)
    ensures SortedApiKeys(keys, stats, size).Ordered? <==>
              keys == [] || stats.None? || size > 0 || (size < 0 && |keys| == 1)
    ensures keys == [] || stats.None? ==> SortedApiKeys(keys, stats, size).keys == keys
  {
    hide Sort, Deal, RankingOf;
    if keys != [] && stats.Some? {
      SortOk(RankingOf(stats.value), keys);
      if size != 0 { CountPositive(|keys|, size); }
    }
  }

  /** Whatever it returns is a permutation of the configured keys. */
  lemma OrderingPermutes(keys: seq<Key>, stats: Option<seq<Stat>>, size: int)
    requires SortedApiKeys(keys, stats, size).Ordered?
    ensures multiset(SortedApiKeys(keys, stats, size).keys) == multiset(keys)
  {
    if keys != [] && stats.Some? {
      var sorted := Sort(RankingOf(stats.value), keys);
      SortOk(RankingOf(stats.value), keys);
      DealPermutes(sorted, GroupCount(|sorted|, size));
    }
  }

  /** The groups behind an ordering by statistics. */
  function Groups(keys: seq<Key>, rows: seq<Stat>, size: int): (g: seq<seq<Key>>)
    requires keys != [] && size > 0
  {
    SortOk(RankingOf(rows), keys);
    CountPositive(|keys|, size);
    Deal(Sort(RankingOf(rows), keys), GroupCount(|keys|, size))
  }

  /** The smallest number of groups of at most `size` keys. */
  predicate IsCeiling(count: int, n: int, size: int) { (count - 1) * size < n <= count * size }

  lemma SizesOk(n: nat, m: nat, size: int, j: nat, c: nat, k: nat, d: nat)
    requires 0 < m && 0 < size && j < m && k < m && IsCeiling(m, n, size) && m <= n
    requires Fills(n, m, j, c) && Fills(n, m, k, d)
    ensures 1 <= c <= size && c <= d + 1
  {
    assert 0 * m == 0 && m * size == size * m && (size - 1 + 1) * m == size * m && (d + 1) * m == d * m + m;
    if c > 0 {
      Below(m, c - 1, size - 1);
      Below(m, c - 1, d);
    }
  }

  /**
   The ordering is the groups end to end: as few groups as the size allows, none empty, none
   larger than the size, and no two differing by more than one key.
   */
  lemma GroupsBalanced(keys: seq<Key>, rows: seq<Stat>, size: int)
    requires keys != [] && size > 0
    ensures SortedApiKeys(keys, Some(rows), size) == Ordered(Flatten(Groups(keys, rows, size)))
    ensures IsCeiling(|Groups(keys, rows, size)|, |keys|, size)
    ensures forall j :: 0 <= j < |Groups(keys, rows, size)| ==> 1 <= |Groups(keys, rows, size)[j]| <= size
    ensures forall j, k :: 0 <= j < |Groups(keys, rows, size)| && 0 <= k < |Groups(keys, rows, size)| ==>
              |Groups(keys, rows, size)[j]| <= |Groups(keys, rows, size)[k]| + 1
  {
    hide Sort, RankingOf, Flatten, GroupCount, Deal;
    var m := RankingOf(rows);
    SortOk(m, keys);
    CountPositive(|keys|, size);
    var g := Groups(keys, rows, size);
    forall j, k | 0 <= j < |g| && 0 <= k < |g| ensures 1 <= |g[j]| <= size && |g[j]| <= |g[k]| + 1 {
      DealAt(Sort(m, keys), |g|, j);
      DealAt(Sort(m, keys), |g|, k);
      SizesOk(|keys|, |g|, size, j, |g[j]|, k, |g[k]|);
    }
  }

  lemma {:induction false} FlattenSplit(g: seq<seq<Key>>, h: seq<seq<Key>>)
    ensures Flatten(g + h) == Flatten(g) + Flatten(h)
  {
    if h == [] {
      assert g + h == g;
    } else {
      var n := |h| - 1;
      assert (g + h)[..|g + h| - 1] == g + h[..n];
      FlattenSplit(g, h[..n]);
      assert Flatten(g) + Flatten(h) == Flatten(g) + Flatten(h[..n]) + h[n];
    }
  }

  /** Every group stands whole in the ordering, behind all the keys of the groups before it. */
  lemma GroupsEndToEnd(keys: seq<Key>, rows: seq<Stat>, size: int, j: nat)
    requires keys != [] && size > 0 && j < |Groups(keys, rows, size)|
    ensures var g := Groups(keys, rows, size);
            SortedApiKeys(keys, Some(rows), size) == Ordered(Flatten(g[..j]) + g[j] + Flatten(g[j + 1..]))
    ensures Flatten(Groups(keys, rows, size)[..0]) == []
  {
    hide Groups, SortedApiKeys;
    var g := Groups(keys, rows, size);
    GroupsBalanced(keys, rows, size);
    assert g == g[..j] + ([g[j]] + g[j + 1..]);
    assert [g[j]][..0] == [];
    FlattenSplit(g[..j], [g[j]] + g[j + 1..]);
    FlattenSplit([g[j]], g[j + 1..]);
  }

  /** One place of the ordering comes before another: an earlier position, or the same one in an earlier group. */
  predicate Before(j: nat, p: nat, k: nat, q: nat) { p < q || (p == q && j < k) }

  /** A key ranks no worse than every key at a later position, or at its own position in a later group. */
  lemma EarlierRanksNoWorse(keys: seq<Key>, rows: seq<Stat>, size: int, j: nat, k: nat, p: nat, q: nat)
    requires keys != [] && size > 0
    requires j < |Groups(keys, rows, size)| && k < |Groups(keys, rows, size)|
    requires p < |Groups(keys, rows, size)[j]| && q < |Groups(keys, rows, size)[k]| && Before(j, p, k, q)
    ensures var m := RankingOf(rows);
            NoWorse(RankOf(m, Groups(keys, rows, size)[j][p]), RankOf(m, Groups(keys, rows, size)[k][q]))
  {
    hide RankingOf, Sort, NoWorse, Deal;
    SortOk(RankingOf(rows), keys);
    CountPositive(|keys|, size);
    DealtInOrder(RankingOf(rows), Sort(RankingOf(rows), keys), GroupCount(|keys|, size), j, k, p, q);
  }

  lemma DealtInOrder(r: Ranking, s: seq<Key>, m: nat, j: nat, k: nat, p: nat, q: nat)
    requires Descending(r, s) && j < m && k < m
    requires p < |Deal(s, m)[j]| && q < |Deal(s, m)[k]| && Before(j, p, k, q)
    ensures NoWorse(RankOf(r, Deal(s, m)[j][p]), RankOf(r, Deal(s, m)[k][q]))
  {
    hide NoWorse, Fills;
    DealAt(s, m, j);
    DealAt(s, m, k);
    if p < q { Times(m, p + 1, q); }
    assert (p + 1) * m == p * m + m;
    assert p * m + j < q * m + k;
  }

  // ----- what better means -----

  /** Row `i` is the last one about a key. */
  predicate LastRow(rows: seq<Stat>, k: Key, i: int) {
    0 <= i < |rows| && rows[i].key == k && forall j :: i < j < |rows| ==> rows[j].key != k
  }

  predicate NoRow(rows: seq<Stat>, k: Key) { forall i :: 0 <= i < |rows| ==> rows[i].key != k }

  /** The ranking holds the figures of the last row about each key that has one. */
  lemma {:induction false} RankingHolds(rows: seq<Stat>, k: Key)
    ensures k in RankingOf(rows) <==> !NoRow(rows, k)
    ensures forall i :: LastRow(rows, k, i) ==>
              k in RankingOf(rows) && RankingOf(rows)[k] == Rank(rows[i].rate, rows[i].total)
  {
    if rows != [] {
      var n := |rows| - 1;
      RankingHolds(rows[..n], k);
      if rows[n].key != k {
        forall i | LastRow(rows, k, i) ensures LastRow(rows[..n], k, i) && rows[..n][i] == rows[i] {
        }
        if i :| 0 <= i < |rows| && rows[i].key == k { assert rows[..n][i].key == k; }
        if i :| 0 <= i < n && rows[..n][i].key == k { assert rows[i].key == k; }
      }
    }
  }

  /**
   Which keys come first, on the rows themselves. Of two keys with statistics, the one placed before
   has the higher success rate in its last row, or the same rate and no fewer requests; and a key
   without statistics is never placed before one whose last row has a rate of at least zero.
   */
  lemma BetterKeysFirst(
      keys: seq<Key>, rows: seq<Stat>, size: int, j: nat, k: nat, p: nat, q: nat, x: int, y: int)
    requires keys != [] && size > 0
    requires j < |Groups(keys, rows, size)| && k < |Groups(keys, rows, size)|
    requires p < |Groups(keys, rows, size)[j]| && q < |Groups(keys, rows, size)[k]| && Before(j, p, k, q)
    requires LastRow(rows, Groups(keys, rows, size)[k][q], y)
    ensures LastRow(rows, Groups(keys, rows, size)[j][p], x) ==>
              rows[x].rate > rows[y].rate || (rows[x].rate == rows[y].rate && rows[x].total >= rows[y].total)
    ensures NoRow(rows, Groups(keys, rows, size)[j][p]) ==> rows[y].rate < 0.0
  {
    hide RankingOf, Groups;
    EarlierRanksNoWorse(keys, rows, size, j, k, p, q);
    RankingHolds(rows, Groups(keys, rows, size)[j][p]);
    RankingHolds(rows, Groups(keys, rows, size)[k][q]);
  }
}
