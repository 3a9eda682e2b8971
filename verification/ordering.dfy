/**
 * Python's ordering of strings (code point by code point, a proper prefix
 * first) and the sorted distinct keys that `groupby` produces with its
 * default `sort=True`.
 */
module Ordering {

  /** `a < b` on Python strings. */
  predicate Below(a: string, b: string) {
    if a == [] then b != []
    else b != [] && (a[0] < b[0] || (a[0] == b[0] && Below(a[1..], b[1..])))
  }

  lemma {:induction false} BelowIrreflexive(a: string)
    ensures !Below(a, a)
  {
    if a != [] {
      BelowIrreflexive(a[1..]);
    }
  }

  lemma {:induction false} BelowTransitive(a: string, b: string, c: string)
    requires Below(a, b) && Below(b, c)
    ensures Below(a, c)
  {
    if a != [] && a[0] == b[0] && b[0] == c[0] {
      BelowTransitive(a[1..], b[1..], c[1..]);
    }
  }

  lemma {:induction false} BelowTotal(a: string, b: string)
    ensures a == b || Below(a, b) || Below(b, a)
  {
    if a != [] && b != [] && a[0] == b[0] {
      BelowTotal(a[1..], b[1..]);
      if a[1..] == b[1..] {
        assert a == [a[0]] + a[1..] && b == [b[0]] + b[1..];
      }
    }
  }

  /** Every key comes strictly before every later one; in particular no key repeats. */
  predicate StrictlyAscending(s: seq<string>) {
    forall i, j :: 0 <= i < j < |s| ==> Below(s[i], s[j])
  }

  lemma AscendingIsDistinct(s: seq<string>)
    requires StrictlyAscending(s)
    ensures forall i, j :: 0 <= i < j < |s| ==> s[i] != s[j]
  {
    forall i, j | 0 <= i < j < |s|
      ensures s[i] != s[j]
    {
      BelowIrreflexive(s[i]);
    }
  }

  /** Adds `k` to a strictly ascending list of keys, unless it is already there. */
  function InsertKey(k: string, keys: seq<string>): (r: seq<string>)
    requires StrictlyAscending(keys)
    ensures StrictlyAscending(r)
    ensures forall x :: x in r <==> x == k || x in keys
  {
    if keys == [] then [k]
    else if k == keys[0] then keys
    else if Below(k, keys[0]) then
      assert forall j :: 0 < j < |keys| ==> Below(k, keys[j]) by {
        forall j | 0 < j < |keys| ensures Below(k, keys[j]) {
          BelowTransitive(k, keys[0], keys[j]);
        }
      }
      [k] + keys
    else
      BelowTotal(k, keys[0]);
      var tail := InsertKey(k, keys[1..]);
      assert forall x :: x in keys[1..] ==> Below(keys[0], x);
      [keys[0]] + tail
  }

  /** The distinct values of `s` in ascending order, as `groupby` lists its groups. */
  function SortedKeys(s: seq<string>): (r: seq<string>)
    ensures StrictlyAscending(r)
    ensures forall x :: x in r <==> x in s
  {
    if s == [] then []
    else
      var rest := SortedKeys(s[..|s| - 1]);
      assert s == s[..|s| - 1] + [s[|s| - 1]];
      InsertKey(s[|s| - 1], rest)
  }
}
