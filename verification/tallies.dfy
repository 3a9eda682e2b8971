/**
 * `Series.value_counts()` with pandas' defaults: missing values are dropped,
 * each distinct value is paired with how often it occurs, and the pairs are
 * sorted by descending count. Pairs with equal counts keep the order in which
 * their values first occur.
 */
module Tallies {
  import opened Wrappers

  datatype Tally = Tally(key: string, count: nat)

  /** The values that are not missing, in their original order. */
  function Present(cells: seq<Option<string>>): (s: seq<string>)
    ensures |s| <= |cells|
    ensures forall c :: c in s <==> Some(c) in cells
  {
    if cells == [] then []
    else (if cells[0].Some? then [cells[0].value] else []) + Present(cells[1..])
  }

  /**
   * Dropping missing values keeps every present value as often as it occurs
   * and in its place: dropping from a concatenation drops from each part, and
   * one cell contributes its value when present and nothing when missing.
   */
  lemma {:induction false} PresentAppend(cells: seq<Option<string>>, c: Option<string>)
    ensures Present([c]) == if c.Some? then [c.value] else []
    ensures Present(cells + [c]) == Present(cells) + Present([c])
  {
    PresentConcat(cells, [c]);
  }

  lemma {:induction false} PresentConcat(a: seq<Option<string>>, b: seq<Option<string>>)
    ensures Present(a + b) == Present(a) + Present(b)
  {
    if a == [] {
      assert a + b == b;
    } else {
      assert (a + b)[1..] == a[1..] + b;
      PresentConcat(a[1..], b);
    }
  }

  function Occurrences(s: seq<string>, c: string): (n: nat)
    ensures n <= |s|
    ensures n > 0 <==> c in s
  {
    if s == [] then 0 else (if s[0] == c then 1 else 0) + Occurrences(s[1..], c)
  }

  predicate Distinct(s: seq<string>) {
    forall i, j :: 0 <= i < j < |s| ==> s[i] != s[j]
  }

  /** The distinct values of `s`, in the order of their first occurrence. */
  function FirstSeen(s: seq<string>): (d: seq<string>)
    ensures Distinct(d)
    ensures forall c :: c in d <==> c in s
  {
    if s == [] then []
    else
      var prefix := s[..|s| - 1];
      var last := s[|s| - 1];
      assert s == prefix + [last];
      var d := FirstSeen(prefix);
      if last in d then d else d + [last]
  }

  /** One tally per value of `d`, counting its occurrences in `s`. */
  function Tallies(d: seq<string>, s: seq<string>): (ts: seq<Tally>)
    ensures |ts| == |d|
    ensures forall i :: 0 <= i < |d| ==> ts[i] == Tally(d[i], Occurrences(s, d[i]))
  {
    if d == [] then [] else [Tally(d[0], Occurrences(s, d[0]))] + Tallies(d[1..], s)
  }

  function Keys(ts: seq<Tally>): (r: seq<string>)
    ensures |r| == |ts|
    ensures forall i :: 0 <= i < |ts| ==> r[i] == ts[i].key
  {
    seq(|ts|, i requires 0 <= i < |ts| => ts[i].key)
  }

  /** No key is tallied twice. */
  predicate DistinctKeys(ts: seq<Tally>) {
    forall i, j :: 0 <= i < j < |ts| ==> ts[i].key != ts[j].key
  }

  function SumCounts(ts: seq<Tally>): nat {
    if ts == [] then 0 else ts[0].count + SumCounts(ts[1..])
  }

  predicate NonIncreasing(ts: seq<Tally>) {
    forall i, j :: 0 <= i < j < |ts| ==> ts[i].count >= ts[j].count
  }

  /** Puts `t` in front of the first tally whose count does not exceed its own. */
  function InsertByCount(t: Tally, ts: seq<Tally>): (r: seq<Tally>)
    ensures multiset(r) == multiset(ts) + multiset{t}
    ensures SumCounts(r) == SumCounts(ts) + t.count
  {
    if ts == [] || ts[0].count <= t.count then [t] + ts
    else
      assert ts == [ts[0]] + ts[1..];
      [ts[0]] + InsertByCount(t, ts[1..])
  }

  lemma {:induction false} InsertByCountBounded(t: Tally, ts: seq<Tally>, b: nat)
    requires t.count <= b
    requires forall k :: 0 <= k < |ts| ==> ts[k].count <= b
    ensures forall k :: 0 <= k < |InsertByCount(t, ts)| ==> InsertByCount(t, ts)[k].count <= b
  {
    if ts != [] && ts[0].count > t.count {
      InsertByCountBounded(t, ts[1..], b);
      var rest := InsertByCount(t, ts[1..]);
      var r := [ts[0]] + rest;
      assert r == InsertByCount(t, ts);
      forall k | 0 <= k < |r| ensures r[k].count <= b {
        if k > 0 {
          assert r[k] == rest[k - 1];
        } else {
          assert r[0] == ts[0] && ts[0].count <= b;
        }
      }
    }
  }

  lemma {:induction false} InsertByCountOrdered(t: Tally, ts: seq<Tally>)
    requires NonIncreasing(ts)
    ensures NonIncreasing(InsertByCount(t, ts))
  {
    if ts != [] && ts[0].count > t.count {
      var rest := InsertByCount(t, ts[1..]);
      InsertByCountOrdered(t, ts[1..]);
      InsertByCountBounded(t, ts[1..], ts[0].count);
      var r := [ts[0]] + rest;
      forall i, j | 0 <= i < j < |r| ensures r[i].count >= r[j].count {
        if i == 0 {
          assert r[j] == rest[j - 1];
        } else {
          assert r[i] == rest[i - 1] && r[j] == rest[j - 1];
        }
      }
    }
  }

  /** A stable sort of tallies into descending order of count. */
  function SortByCount(ts: seq<Tally>): (r: seq<Tally>)
    ensures multiset(r) == multiset(ts)
    ensures NonIncreasing(r)
    ensures SumCounts(r) == SumCounts(ts)
  {
    if ts == [] then []
    else
      assert ts == [ts[0]] + ts[1..];
      var rest := SortByCount(ts[1..]);
      InsertByCountOrdered(ts[0], rest);
      InsertByCount(ts[0], rest)
  }

  /**
   * `value_counts()` over a column that may hold missing values: the tallies
   * of the present values, each once, sorted by descending count; the counts
   * add up to the number of present values, which is at most the number of
   * cells.
   */
  function ValueCounts(cells: seq<Option<string>>): (vc: seq<Tally>)
    ensures NonIncreasing(vc)
    ensures DistinctKeys(vc)
    ensures SumCounts(vc) == |Present(cells)| <= |cells|
  {
    var s := Present(cells);
    var ts := Tallies(FirstSeen(s), s);
    SortByCountDistinct(ts);
    TalliesSum(FirstSeen(s), s);
    SortByCount(ts)
  }

  /** No tally in `ts` has key `k`. */
  predicate KeyAbsent(k: string, ts: seq<Tally>) {
    forall u <- ts :: u.key != k
  }

  lemma DistinctKeysCons(t: Tally, ts: seq<Tally>)
    ensures DistinctKeys([t] + ts) <==> KeyAbsent(t.key, ts) && DistinctKeys(ts)
  {
    var r := [t] + ts;
    if KeyAbsent(t.key, ts) && DistinctKeys(ts) {
      forall i, j | 0 <= i < j < |r| ensures r[i].key != r[j].key {
        assert r[j] == ts[j - 1];
        if i > 0 {
          assert r[i] == ts[i - 1];
        }
      }
    }
    if DistinctKeys(r) {
      forall u | u in ts ensures u.key != t.key {
        var q :| 0 <= q < |ts| && ts[q] == u;
        assert r[0] == t && r[q + 1] == u;
        assert r[0].key != r[q + 1].key;
      }
      forall i, j | 0 <= i < j < |ts| ensures ts[i].key != ts[j].key {
        assert r[i + 1] == ts[i] && r[j + 1] == ts[j];
      }
    }
  }

  lemma {:induction false} InsertByCountKeyAbsent(k: string, t: Tally, ts: seq<Tally>)
    requires t.key != k && KeyAbsent(k, ts)
    ensures KeyAbsent(k, InsertByCount(t, ts))
  {
    forall u | u in InsertByCount(t, ts) ensures u.key != k {
      assert u in multiset(InsertByCount(t, ts));
    }
  }

  lemma {:induction false} InsertByCountDistinct(t: Tally, ts: seq<Tally>)
    requires DistinctKeys(ts)
    requires KeyAbsent(t.key, ts)
    ensures DistinctKeys(InsertByCount(t, ts))
  {
    if ts == [] || ts[0].count <= t.count {
      DistinctKeysCons(t, ts);
    } else {
      assert ts == [ts[0]] + ts[1..];
      DistinctKeysCons(ts[0], ts[1..]);
      InsertByCountDistinct(t, ts[1..]);
      InsertByCountKeyAbsent(ts[0].key, t, ts[1..]);
      DistinctKeysCons(ts[0], InsertByCount(t, ts[1..]));
    }
  }

  lemma {:induction false} SortByCountDistinct(ts: seq<Tally>)
    requires DistinctKeys(ts)
    ensures DistinctKeys(SortByCount(ts))
  {
    if ts != [] {
      var rest := SortByCount(ts[1..]);
      SortByCountDistinct(ts[1..]);
      assert ts == [ts[0]] + ts[1..];
      DistinctKeysCons(ts[0], ts[1..]);
      forall u | u in rest ensures u.key != ts[0].key {
        assert u in multiset(ts[1..]);
      }
      InsertByCountDistinct(ts[0], rest);
    }
  }

  /** Tallying a distinct list of values counts `x` exactly when it is on the list. */
  lemma {:induction false} TalliesCountOne(d: seq<string>, x: string, s: seq<string>)
    requires Distinct(d)
    ensures SumCounts(Tallies(d, [x] + s)) == SumCounts(Tallies(d, s)) + (if x in d then 1 else 0)
  {
    if d != [] {
      TalliesCountOne(d[1..], x, s);
      assert ([x] + s)[1..] == s;
      assert x == d[0] ==> x !in d[1..];
      assert x in d <==> x == d[0] || x in d[1..];
    }
  }

  /** The counts of a tally over a distinct list holding every value add up to the number of values. */
  lemma {:induction false} TalliesSum(d: seq<string>, s: seq<string>)
    requires Distinct(d)
    requires forall x <- s :: x in d
    ensures SumCounts(Tallies(d, s)) == |s|
  {
    if s == [] {
      TalliesOfNothing(d);
    } else {
      assert s == [s[0]] + s[1..];
      TalliesSum(d, s[1..]);
      TalliesCountOne(d, s[0], s[1..]);
    }
  }

  lemma {:induction false} TalliesOfNothing(d: seq<string>)
    ensures SumCounts(Tallies(d, [])) == 0
  {
    if d != [] {
      TalliesOfNothing(d[1..]);
    }
  }

  /** Every count is positive and is the number of occurrences of its key. */
  lemma ValueCountsCounts(cells: seq<Option<string>>)
    ensures forall t <- ValueCounts(cells) :: 0 < t.count == Occurrences(Present(cells), t.key)
  {
    var s := Present(cells);
    var ts := Tallies(FirstSeen(s), s);
    forall t <- ValueCounts(cells) ensures 0 < t.count == Occurrences(s, t.key) {
      assert t in multiset(ts);
    }
  }

  /** The keys are exactly the values that occur at least once and are not missing. */
  lemma ValueCountsKeys(cells: seq<Option<string>>)
    ensures forall c :: c in Keys(ValueCounts(cells)) <==> Some(c) in cells
  {
    var s := Present(cells);
    var d := FirstSeen(s);
    var ts := Tallies(d, s);
    var vc := ValueCounts(cells);
    forall c ensures c in Keys(vc) <==> Some(c) in cells {
      if c in Keys(vc) {
        var i :| 0 <= i < |vc| && Keys(vc)[i] == c;
        assert vc[i] in multiset(ts);
      }
      if Some(c) in cells {
        assert c in d;
        var i :| 0 <= i < |d| && d[i] == c;
        assert ts[i] in multiset(vc);
        var k :| 0 <= k < |vc| && vc[k] == ts[i];
        assert Keys(vc)[k] == c;
      }
    }
  }

  /** The tallies whose count is `n`, in order. */
  function WithCount(ts: seq<Tally>, n: nat): (r: seq<Tally>)
    ensures forall t :: t in r <==> t in ts && t.count == n
  {
    if ts == [] then []
    else (if ts[0].count == n then [ts[0]] else []) + WithCount(ts[1..], n)
  }

  lemma {:induction false} InsertByCountStable(t: Tally, ts: seq<Tally>, n: nat)
    ensures WithCount(InsertByCount(t, ts), n) == (if t.count == n then [t] else []) + WithCount(ts, n)
  {
    if ts != [] && ts[0].count > t.count {
      InsertByCountStable(t, ts[1..], n);
      var r := InsertByCount(t, ts);
      assert r == [ts[0]] + InsertByCount(t, ts[1..]);
      assert r[1..] == InsertByCount(t, ts[1..]);
    } else {
      assert ([t] + ts)[1..] == ts;
    }
  }

  /** Sorting never reorders two tallies with the same count. */
  lemma {:induction false} SortByCountStable(ts: seq<Tally>, n: nat)
    ensures WithCount(SortByCount(ts), n) == WithCount(ts, n)
  {
    if ts != [] {
      SortByCountStable(ts[1..], n);
      InsertByCountStable(ts[0], SortByCount(ts[1..]), n);
    }
  }

  /** The position of the first occurrence of `c` in `s`. */
  function FirstIndex(s: seq<string>, c: string): (i: nat)
    requires c in s
    ensures i < |s| && s[i] == c
    ensures forall j :: 0 <= j < i ==> s[j] != c
  {
    if s[0] == c then 0 else 1 + FirstIndex(s[1..], c)
  }

  lemma {:induction false} FirstIndexOfPrefix(s: seq<string>, x: string, c: string)
    requires c in s
    ensures FirstIndex(s + [x], c) == FirstIndex(s, c)
  {
    if s[0] != c {
      assert (s + [x])[1..] == s[1..] + [x];
      FirstIndexOfPrefix(s[1..], x, c);
    }
  }

  /** `FirstSeen` lists the values in the order of their first occurrence. */
  lemma {:induction false} FirstSeenOrder(s: seq<string>)
    ensures forall i, j :: 0 <= i < j < |FirstSeen(s)| ==> FirstIndex(s, FirstSeen(s)[i]) < FirstIndex(s, FirstSeen(s)[j])
  {
    if s != [] {
      var prefix, last := s[..|s| - 1], s[|s| - 1];
      assert s == prefix + [last];
      FirstSeenOrder(prefix);
      var d0, d := FirstSeen(prefix), FirstSeen(s);
      forall c | c in prefix ensures FirstIndex(s, c) == FirstIndex(prefix, c) {
        FirstIndexOfPrefix(prefix, last, c);
      }
      forall i, j | 0 <= i < j < |d| ensures FirstIndex(s, d[i]) < FirstIndex(s, d[j]) {
        assert d[i] == d0[i] && d0[i] in d0 && d0[i] in prefix;
        if j == |d0| {
          assert last !in prefix && d[j] == last;
          assert FirstIndex(s, last) == |prefix|;
          assert FirstIndex(prefix, d0[i]) < |prefix|;
        } else {
          assert d[j] == d0[j] && d0[j] in d0 && d0[j] in prefix;
          assert FirstIndex(prefix, d0[i]) < FirstIndex(prefix, d0[j]);
          assert FirstIndex(s, d0[i]) == FirstIndex(prefix, d0[i]);
          assert FirstIndex(s, d0[j]) == FirstIndex(prefix, d0[j]);
        }
      }
    }
  }

  /**
   * Among tallies with equal counts, `value_counts()` lists first the value
   * that occurs first.
   */
  lemma ValueCountsTies(cells: seq<Option<string>>)
    ensures var s := Present(cells);
      forall n :: WithCount(ValueCounts(cells), n) == WithCount(Tallies(FirstSeen(s), s), n)
    ensures var s, d := Present(cells), FirstSeen(Present(cells));
      forall i, j :: 0 <= i < j < |d| ==> FirstIndex(s, d[i]) < FirstIndex(s, d[j])
  {
    var s := Present(cells);
    forall n ensures WithCount(ValueCounts(cells), n) == WithCount(Tallies(FirstSeen(s), s), n) {
      SortByCountStable(Tallies(FirstSeen(s), s), n);
    }
    FirstSeenOrder(s);
  }
}
