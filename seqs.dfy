/** Order-preserving selection from a sequence (a Python list comprehension
    with an `if`, or a loop that appends the elements it keeps). */
module Seqs {

  /** The elements of `s` satisfying `keep`, in their original order. */
  function Filter<T>(s: seq<T>, keep: T -> bool): seq<T>
    decreases |s|
  {
    if s == [] then [] else (if keep(s[0]) then [s[0]] else []) + Filter(s[1..], keep)
  }

  /** The filter is no longer than its input, and holds only kept elements of
      the input. */
  lemma {:induction false} FilterSound<T>(s: seq<T>, keep: T -> bool)
    ensures |Filter(s, keep)| <= |s|
    ensures forall k :: 0 <= k < |Filter(s, keep)| ==> Filter(s, keep)[k] in s && keep(Filter(s, keep)[k])
    decreases |s|
  {
    if s != [] {
      FilterSound(s[1..], keep);
      var r := Filter(s, keep);
      var t := Filter(s[1..], keep);
      forall k | 0 <= k < |r| ensures r[k] in s && keep(r[k]) {
        if keep(s[0]) && k == 0 {
        } else {
          var j := if keep(s[0]) then k - 1 else k;
          assert r[k] == t[j];
        }
      }
    }
  }

  /** Nothing that should be kept is dropped. */
  lemma {:induction false} FilterComplete<T>(s: seq<T>, keep: T -> bool, x: T)
    requires x in s && keep(x)
    ensures x in Filter(s, keep)
    decreases |s|
  {
    if s[0] != x {
      FilterComplete(s[1..], keep, x);
    }
  }

  /** Filtering commutes with concatenation, so the kept elements keep
      their relative order. */
  lemma {:induction false} FilterConcat<T>(a: seq<T>, b: seq<T>, keep: T -> bool)
    ensures Filter(a + b, keep) == Filter(a, keep) + Filter(b, keep)
    decreases |a|
  {
    if a == [] {
      assert a + b == b;
    } else {
      assert (a + b)[1..] == a[1..] + b;
      FilterConcat(a[1..], b, keep);
    }
  }

  /** A sequence whose every element is kept is its own filter. */
  lemma {:induction false} FilterKeepsAll<T>(s: seq<T>, keep: T -> bool)
    requires forall k :: 0 <= k < |s| ==> keep(s[k])
    ensures Filter(s, keep) == s
    decreases |s|
  {
    if s != [] {
      FilterKeepsAll(s[1..], keep);
    }
  }

  /** Extending the input by one element extends the filter by at most it. */
  lemma FilterSnoc<T>(s: seq<T>, x: T, keep: T -> bool)
    ensures Filter(s + [x], keep) == Filter(s, keep) + (if keep(x) then [x] else [])
  {
    FilterConcat(s, [x], keep);
    assert [x][1..] == [];
  }

  /** The filter around an element that is kept. */
  lemma FilterSplit<T>(s: seq<T>, i: nat, keep: T -> bool)
    requires i < |s| && keep(s[i])
    ensures Filter(s, keep) == Filter(s[..i], keep) + [s[i]] + Filter(s[i + 1..], keep)
  {
    assert s[..i + 1] == s[..i] + [s[i]];
    assert s[..i + 1] + s[i + 1..] == s;
    FilterConcat(s[..i + 1], s[i + 1..], keep);
    FilterSnoc(s[..i], s[i], keep);
  }
}
