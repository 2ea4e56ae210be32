/**
 * Sequence combinators that the TypeScript code gets from `Array.prototype`:
 * `filter` (Select), `find` (FindFirst), and the dictionary counting loop of
 * the statistics (Histogram), together with the facts about them that the rest
 * of the model relies on.
 */
module Sequences {
  import opened Options

  /** `a` can be obtained from `b` by deleting elements (relative order kept). */
  predicate IsSubseq<T(==)>(a: seq<T>, b: seq<T>)
    decreases |b|
  {
    if a == [] then true
    else if b == [] then false
    else (a[0] == b[0] && IsSubseq(a[1..], b[1..])) || IsSubseq(a, b[1..])
  }

  lemma {:induction false} SubseqRefl<T>(s: seq<T>)
    ensures IsSubseq(s, s)
    decreases |s|
  {
    if s != [] {
      SubseqRefl(s[1..]);
    }
  }

  /**
   * `s.filter(p)`: the elements of `s` that satisfy `p`, in their order in `s`.
   * Every occurrence that satisfies `p` is kept and every other one is dropped.
   */
  function Select<T(==)>(s: seq<T>, p: T -> bool): (r: seq<T>)
    ensures |r| <= |s|
    ensures IsSubseq(r, s)
    ensures forall i :: 0 <= i < |r| ==> p(r[i])
    decreases |s|
  {
    if s == [] then []
    else
      var rest := Select(s[1..], p);
      if p(s[0]) then [s[0]] + rest else rest
  }

  /** Select keeps every occurrence of a satisfying element and no other element. */
  lemma {:induction false} SelectMultiset<T(!new)>(s: seq<T>, p: T -> bool)
    ensures forall x :: multiset(Select(s, p))[x] == if p(x) then multiset(s)[x] else 0
    decreases |s|
  {
    if s != [] {
      SelectMultiset(s[1..], p);
      assert s == [s[0]] + s[1..];
    }
  }

  lemma SelectMembers<T(!new)>(s: seq<T>, p: T -> bool)
    ensures forall x :: x in Select(s, p) <==> x in s && p(x)
  {
    SelectMultiset(s, p);
    forall x ensures x in Select(s, p) <==> x in s && p(x) {
      assert x in Select(s, p) <==> multiset(Select(s, p))[x] > 0;
      assert x in s <==> multiset(s)[x] > 0;
    }
  }

  lemma {:induction false} SelectAppend<T(!new)>(a: seq<T>, b: seq<T>, p: T -> bool)
    ensures Select(a + b, p) == Select(a, p) + Select(b, p)
    decreases |a|
  {
    if a == [] {
      assert a + b == b;
    } else {
      assert (a + b)[1..] == a[1..] + b;
      SelectAppend(a[1..], b, p);
    }
  }

  /** Selecting the last element away or in, one step of a left-to-right loop. */
  lemma SelectSnoc<T(!new)>(s: seq<T>, x: T, p: T -> bool)
    ensures Select(s + [x], p) == Select(s, p) + (if p(x) then [x] else [])
  {
    SelectAppend(s, [x], p);
  }

  /** A predicate that holds on every element keeps everything. */
  lemma {:induction false} SelectAll<T>(s: seq<T>, p: T -> bool)
    requires forall i :: 0 <= i < |s| ==> p(s[i])
    ensures Select(s, p) == s
    decreases |s|
  {
    if s != [] {
      SelectAll(s[1..], p);
    }
  }

  /** A predicate that holds on no element selects nothing. */
  lemma {:induction false} SelectNone<T>(s: seq<T>, p: T -> bool)
    requires forall i :: 0 <= i < |s| ==> !p(s[i])
    ensures Select(s, p) == []
    decreases |s|
  {
    if s != [] {
      SelectNone(s[1..], p);
    }
  }

  /** Two predicates that agree everywhere select the same elements. */
  lemma {:induction false} SelectExt<T(!new)>(s: seq<T>, p: T -> bool, q: T -> bool)
    requires forall x :: p(x) == q(x)
    ensures Select(s, p) == Select(s, q)
    decreases |s|
  {
    if s != [] {
      SelectExt(s[1..], p, q);
    }
  }

  /** Filtering twice with the same predicate is filtering once. */
  lemma {:induction false} SelectIdempotent<T(!new)>(s: seq<T>, p: T -> bool)
    ensures Select(Select(s, p), p) == Select(s, p)
    decreases |s|
  {
    if s != [] {
      SelectIdempotent(s[1..], p);
      if p(s[0]) {
        var r := Select(s, p);
        assert r[0] == s[0] && r[1..] == Select(s[1..], p);
      }
    }
  }

  /** A predicate and its negation split a sequence: the two filters' lengths add up. */
  lemma {:induction false} SelectComplement<T(!new)>(s: seq<T>, p: T -> bool, q: T -> bool)
    requires forall x :: q(x) == !p(x)
    ensures |Select(s, p)| + |Select(s, q)| == |s|
    decreases |s|
  {
    if s != [] {
      SelectComplement(s[1..], p, q);
    }
  }

  /** `s.filter(p).length`: how many elements satisfy `p`. */
  function Count<T>(s: seq<T>, p: T -> bool): (n: nat)
    ensures n <= |s|
    ensures n == 0 <==> forall i :: 0 <= i < |s| ==> !p(s[i])
    ensures n == |s| <==> forall i :: 0 <= i < |s| ==> p(s[i])
    decreases |s|
  {
    if s == [] then 0 else (if p(s[0]) then 1 else 0) + Count(s[1..], p)
  }

  lemma {:induction false} CountIsSelectLength<T(!new)>(s: seq<T>, p: T -> bool)
    ensures Count(s, p) == |Select(s, p)|
    decreases |s|
  {
    if s != [] {
      CountIsSelectLength(s[1..], p);
    }
  }

  /** `s.find(p)`: the first element that satisfies `p`, if any. */
  function FindFirst<T>(s: seq<T>, p: T -> bool): (r: Option<T>)
    ensures r.None? <==> forall i :: 0 <= i < |s| ==> !p(s[i])
    ensures r.Some? ==> exists i :: 0 <= i < |s| && s[i] == r.value && p(s[i])
                          && forall j :: 0 <= j < i ==> !p(s[j])
    decreases |s|
  {
    if s == [] then None
    else if p(s[0]) then Some(s[0])
    else
      var r := FindFirst(s[1..], p);
      assert r.Some? ==> exists i :: 0 <= i < |s[1..]| && s[1..][i] == r.value && p(s[1..][i])
                          && forall j :: 0 <= j < i ==> !p(s[1..][j]);
      assert r.Some? ==> exists i :: 1 <= i < |s| && s[i] == r.value && p(s[i])
                          && forall j :: 1 <= j < i ==> !p(s[j]) by {
        if r.Some? {
          var i :| 0 <= i < |s[1..]| && s[1..][i] == r.value && p(s[1..][i])
                   && forall j :: 0 <= j < i ==> !p(s[1..][j]);
          assert s[i + 1] == r.value && p(s[i + 1]);
          forall j | 1 <= j < i + 1 ensures !p(s[j]) {
            assert s[j] == s[1..][j - 1];
          }
        }
      }
      r
  }

  /** The elements in order of first occurrence, each once. */
  function Distinct<T(==,!new)>(s: seq<T>): (r: seq<T>)
    ensures forall x :: x in r <==> x in s
    ensures forall i, j :: 0 <= i < j < |r| ==> r[i] != r[j]
    decreases |s|
  {
    if s == [] then []
    else
      var r := Distinct(s[..|s| - 1]);
      assert forall x :: x in s <==> x in s[..|s| - 1] || x == s[|s| - 1] by {
        assert s == s[..|s| - 1] + [s[|s| - 1]];
      }
      if s[|s| - 1] in r then r else r + [s[|s| - 1]]
  }

  /**
   * The dictionary built by `forEach(k => h[k] = (h[k] || 0) + 1)` over `keys`:
   * one entry per key that occurs, holding how often it occurs.
   */
  function Histogram<K(!new)>(keys: seq<K>): (h: map<K, nat>)
    ensures forall k :: k in h <==> k in keys
    ensures forall k :: k in h ==> h[k] == multiset(keys)[k]
    decreases |keys|
  {
    if keys == [] then map[]
    else
      var init := keys[..|keys| - 1];
      var k := keys[|keys| - 1];
      assert keys == init + [k];
      var h := Histogram(init);
      h[k := (if k in h then h[k] else 0) + 1]
  }

  /** One step of the counting loop: the histogram of a prefix one element longer. */
  lemma HistogramSnoc<K(!new)>(keys: seq<K>, k: K)
    ensures Histogram(keys + [k]) ==
            Histogram(keys)[k := (if k in Histogram(keys) then Histogram(keys)[k] else 0) + 1]
  {
    assert (keys + [k])[..|keys + [k]| - 1] == keys;
  }

  /** The sum of the values of a map (`Object.values(h).reduce(+)`). */
  ghost function MapSum<K>(m: map<K, nat>): nat
    decreases |m|
  {
    if m == map[] then 0
    else
      var k :| k in m;
      assert |m - {k}| < |m| by {
        assert (m - {k}).Keys == m.Keys - {k};
      }
      m[k] + MapSum(m - {k})
  }

  /** MapSum does not depend on the key it happens to pick first. */
  lemma {:induction false} MapSumRemove<K>(m: map<K, nat>, k: K)
    requires k in m
    ensures MapSum(m) == m[k] + MapSum(m - {k})
    decreases |m|
  {
    var k' :| k' in m && MapSum(m) == m[k'] + MapSum(m - {k'});
    if k' != k {
      assert (m - {k}).Keys == m.Keys - {k};
      assert (m - {k'}).Keys == m.Keys - {k'};
      MapSumRemove(m - {k'}, k);
      MapSumRemove(m - {k}, k');
      assert m - {k'} - {k} == m - {k} - {k'};
    }
  }

  /** Bumping one counter adds one to the sum. */
  lemma MapSumBump<K>(h: map<K, nat>, k: K)
    ensures MapSum(h[k := (if k in h then h[k] else 0) + 1]) == MapSum(h) + 1
  {
    var h' := h[k := (if k in h then h[k] else 0) + 1];
    MapSumRemove(h', k);
    if k in h {
      MapSumRemove(h, k);
      assert h' - {k} == h - {k};
    } else {
      assert h' - {k} == h;
    }
  }

  /** The histogram's counts add up to the number of keys counted. */
  lemma {:induction false} HistogramSum<K(!new)>(keys: seq<K>)
    ensures MapSum(Histogram(keys)) == |keys|
    decreases |keys|
  {
    if keys != [] {
      var init := keys[..|keys| - 1];
      var k := keys[|keys| - 1];
      var h := Histogram(init);
      HistogramSum(init);
      assert Histogram(keys) == h[k := (if k in h then h[k] else 0) + 1];
      MapSumBump(h, k);
    }
  }
}
