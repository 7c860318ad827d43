/**
 * Shared vocabulary of the recommender model: optional values, sums and
 * means over real scores, Python-style list truncation, and the stable
 * descending sort that Python's `sorted(..., reverse=True)` and
 * `list.sort(reverse=True)` perform.
 */
module Common {

  datatype Option<+T> = None | Some(value: T)

  /** Sum of a sequence of reals, accumulated left to right. */
  function Sum(s: seq<real>): real
  {
    if s == [] then 0.0 else Sum(s[..|s| - 1]) + s[|s| - 1]
  }

  /** Arithmetic mean (numpy.mean) of a non-empty sequence. */
  function Mean(s: seq<real>): real
    requires |s| > 0
  {
    Sum(s) / |s| as real
  }

  /** The sum of a sequence whose elements all lie in [lo, hi] lies in [|s|*lo, |s|*hi]. */
  lemma {:induction false} SumBounds(s: seq<real>, lo: real, hi: real)
    requires forall i :: 0 <= i < |s| ==> lo <= s[i] <= hi
    ensures |s| as real * lo <= Sum(s) <= |s| as real * hi
  {
    if s != [] {
      SumBounds(s[..|s| - 1], lo, hi);
    }
  }

  /** A sum of non-negative values is non-negative. */
  lemma {:induction false} SumNonNegative(s: seq<real>)
    requires forall i :: 0 <= i < |s| ==> s[i] >= 0.0
    ensures Sum(s) >= 0.0
  {
    if s != [] {
      SumNonNegative(s[..|s| - 1]);
    }
  }

  /** A mean lies between the smallest and largest bound of its elements. */
  lemma MeanBounds(s: seq<real>, lo: real, hi: real)
    requires |s| > 0
    requires forall i :: 0 <= i < |s| ==> lo <= s[i] <= hi
    ensures lo <= Mean(s) <= hi
  {
    SumBounds(s, lo, hi);
    var n := |s| as real;
    assert n * lo <= Sum(s) <= n * hi;
    assert Sum(s) / n >= lo by {
      assert Sum(s) / n * n == Sum(s);
    }
    assert Sum(s) / n <= hi by {
      assert Sum(s) / n * n == Sum(s);
    }
  }

  function Min(a: int, b: int): int { if a <= b then a else b }

  /** Python's `s[:n]` for a non-negative `n`. */
  function Take<T>(s: seq<T>, n: nat): (r: seq<T>)
    ensures |r| == Min(n, |s|)
    ensures forall i :: 0 <= i < |r| ==> r[i] == s[i]
  {
    if n <= |s| then s[..n] else s
  }

  /** Taking n from a list that starts with n elements, or with all of them, gives those. */
  lemma TakeAfterPrefix<T>(a: seq<T>, b: seq<T>, n: nat)
    requires |a| <= n && (|a| < n ==> b == [])
    ensures Take(a + b, n) == a
  {
    if |a| < n {
      assert a + b == a;
    } else {
      assert (a + b)[..n] == a;
    }
  }

  predicate Distinct<T(==)>(s: seq<T>)
  {
    forall i, j :: 0 <= i < j < |s| ==> s[i] != s[j]
  }

  /** Non-increasing order of `key` along `s`. */
  predicate SortedDesc<T>(s: seq<T>, key: T -> real)
  {
    forall i, j :: 0 <= i < j < |s| ==> key(s[i]) >= key(s[j])
  }

  /**
   * Places `x` just before the first element whose key is strictly smaller
   * than `x`'s, so that `x` stays behind every element of equal key.
   */
  function InsertDesc<T>(s: seq<T>, x: T, key: T -> real): seq<T>
  {
    if s == [] then [x]
    else if key(s[0]) >= key(x) then [s[0]] + InsertDesc(s[1..], x, key)
    else [x] + s
  }

  /**
   * Stable sort by descending key: each element, taken in input order, is
   * inserted behind the earlier elements whose key is at least its own.
   * This is the order `sorted(s, key=key, reverse=True)` produces.
   */
  function SortDesc<T>(s: seq<T>, key: T -> real): seq<T>
  {
    if s == [] then [] else InsertDesc(SortDesc(s[..|s| - 1], key), s[|s| - 1], key)
  }

  lemma {:induction false} InsertDescPermutes<T>(s: seq<T>, x: T, key: T -> real)
    ensures multiset(InsertDesc(s, x, key)) == multiset(s) + multiset{x}
    ensures |InsertDesc(s, x, key)| == |s| + 1
  {
    if s != [] && key(s[0]) >= key(x) {
      InsertDescPermutes(s[1..], x, key);
      assert s == [s[0]] + s[1..];
    }
  }

  lemma {:induction false} InsertDescSorted<T>(s: seq<T>, x: T, key: T -> real)
    requires SortedDesc(s, key)
    ensures SortedDesc(InsertDesc(s, x, key), key)
  {
    if s != [] && key(s[0]) >= key(x) {
      InsertDescSorted(s[1..], x, key);
      InsertDescPermutes(s[1..], x, key);
      var t := InsertDesc(s[1..], x, key);
      forall k | 0 <= k < |t| ensures key(s[0]) >= key(t[k]) {
        assert t[k] in multiset(t);
        assert t[k] in multiset(s[1..]) || t[k] == x;
        if t[k] != x {
          var m :| 0 <= m < |s[1..]| && s[1..][m] == t[k];
          assert s[1 + m] == t[k];
        }
      }
    }
  }

  /** The sort yields a non-increasing permutation of its input. */
  lemma {:induction false} SortDescCorrect<T>(s: seq<T>, key: T -> real)
    ensures SortedDesc(SortDesc(s, key), key)
    ensures multiset(SortDesc(s, key)) == multiset(s)
    ensures |SortDesc(s, key)| == |s|
  {
    if s != [] {
      var init := s[..|s| - 1];
      SortDescCorrect(init, key);
      InsertDescSorted(SortDesc(init, key), s[|s| - 1], key);
      InsertDescPermutes(SortDesc(init, key), s[|s| - 1], key);
      assert s == init + [s[|s| - 1]];
    }
  }

  /** An element whose key is at most every key of `s` is appended at the end. */
  lemma {:induction false} InsertDescAtEnd<T>(s: seq<T>, x: T, key: T -> real)
    requires forall i :: 0 <= i < |s| ==> key(s[i]) >= key(x)
    ensures InsertDesc(s, x, key) == s + [x]
  {
    if s != [] {
      InsertDescAtEnd(s[1..], x, key);
      assert s == [s[0]] + s[1..];
    }
  }

  /** Sorting a list that is already in non-increasing order changes nothing. */
  lemma {:induction false} SortDescIdentity<T>(s: seq<T>, key: T -> real)
    requires SortedDesc(s, key)
    ensures SortDesc(s, key) == s
  {
    if s != [] {
      var init := s[..|s| - 1];
      SortDescIdentity(init, key);
      InsertDescAtEnd(init, s[|s| - 1], key);
      assert init + [s[|s| - 1]] == s;
    }
  }

  /**
   * Where `x` lands: after the prefix of keys at least its own, in front of
   * the first strictly smaller key.
   */
  lemma {:induction false} InsertDescSplit<T>(s: seq<T>, x: T, key: T -> real, j: nat)
    requires j <= |s|
    requires forall k :: 0 <= k < j ==> key(s[k]) >= key(x)
    requires j == |s| || key(s[j]) < key(x)
    ensures InsertDesc(s, x, key) == s[..j] + [x] + s[j..]
  {
    if j > 0 {
      InsertDescSplit(s[1..], x, key, j - 1);
      assert s[1..][..j - 1] == s[1..j];
      assert s[1..][j - 1..] == s[j..];
      assert [s[0]] + s[1..j] == s[..j];
    }
  }

  lemma NonEmptyHasKey(m: map<int, real>)
    requires m != map[]
    ensures exists k :: k in m.Keys
  {
    assert (forall k :: k !in m) ==> m == map[];
  }

  /** Sequence of the entries of a map, in some fixed order. */
  ghost function Entries(m: map<int, real>): (es: seq<(int, real)>)
    ensures |es| == |m|
    ensures forall i :: 0 <= i < |es| ==> es[i].0 in m && es[i].1 == m[es[i].0]
    ensures forall k :: k in m ==> (k, m[k]) in es
    ensures forall i, j :: 0 <= i < j < |es| ==> es[i].0 != es[j].0
    decreases |m|
  {
    if m == map[] then []
    else
      NonEmptyHasKey(m);
      var k :| k in m.Keys;
      var rest := m - {k};
      assert rest.Keys == m.Keys - {k};
      assert |rest| == |m| - 1;
      var init := Entries(rest);
      EntriesExtend(m, k, rest, init);
      init + [(k, m[k])]
  }

  lemma EntriesExtend(m: map<int, real>, k: int, rest: map<int, real>, init: seq<(int, real)>)
    requires k in m && rest == m - {k}
    requires forall i :: 0 <= i < |init| ==> init[i].0 in rest && init[i].1 == rest[init[i].0]
    requires forall k' :: k' in rest ==> (k', rest[k']) in init
    requires forall i, j :: 0 <= i < j < |init| ==> init[i].0 != init[j].0
    ensures var es := init + [(k, m[k])];
      && (forall i :: 0 <= i < |es| ==> es[i].0 in m && es[i].1 == m[es[i].0])
      && (forall k' :: k' in m ==> (k', m[k']) in es)
      && (forall i, j :: 0 <= i < j < |es| ==> es[i].0 != es[j].0)
  {
    var es := init + [(k, m[k])];
    forall k' | k' in m ensures (k', m[k']) in es {
      if k' != k {
        assert k' in rest;
        var i :| 0 <= i < |init| && init[i] == (k', rest[k']);
        assert es[i] == (k', m[k']);
      } else {
        assert es[|es| - 1] == (k', m[k']);
      }
    }
  }

  /** Largest value of a non-empty map (Python's `max(d.values())`). */
  ghost function MaxValue(m: map<int, real>): (mx: real)
    requires m != map[]
    ensures exists k :: k in m && m[k] == mx
    ensures forall k :: k in m ==> m[k] <= mx
    decreases |m|
  {
    NonEmptyHasKey(m);
    var k :| k in m.Keys;
    var rest := m - {k};
    assert rest.Keys == m.Keys - {k};
    assert |rest| == |m| - 1;
    assert forall k' :: k' in m ==> k' == k || (k' in rest && rest[k'] == m[k']);
    if rest == map[] then m[k]
    else
      var r := MaxValue(rest);
      if m[k] >= r then m[k] else r
  }

  // ---------------------------------------------------------------------------
  // Insertion-ordered dictionaries
  // ---------------------------------------------------------------------------

  /** The keys of an association list, in order. */
  function KeysOf<K, V>(acc: seq<(K, V)>): (ks: seq<K>)
    ensures |ks| == |acc|
    ensures forall i :: 0 <= i < |acc| ==> ks[i] == acc[i].0
  {
    seq(|acc|, i requires 0 <= i < |acc| => acc[i].0)
  }

  /** `d.get(key, default)` on an association list. */
  function Lookup<K(==), V>(acc: seq<(K, V)>, key: K, default: V): V
  {
    if acc == [] then default
    else if acc[0].0 == key then acc[0].1
    else Lookup(acc[1..], key, default)
  }

  /** `d[key] = d.get(key, 0) + v` on an insertion-ordered dict: a new key goes at the end. */
  function AddTo<K(==)>(acc: seq<(K, real)>, key: K, v: real): seq<(K, real)>
  {
    if acc == [] then [(key, v)]
    else if acc[0].0 == key then [(key, acc[0].1 + v)] + acc[1..]
    else [acc[0]] + AddTo(acc[1..], key, v)
  }

  /** Sums per key of a sequence of (key, value) pairs, keys in order of first appearance. */
  function Accumulate<K(==)>(pairs: seq<(K, real)>): seq<(K, real)>
  {
    if pairs == [] then []
    else AddTo(Accumulate(pairs[..|pairs| - 1]), pairs[|pairs| - 1].0, pairs[|pairs| - 1].1)
  }

  /** Reference definition: the sum of the values paired with `key`. */
  function SumFor<K(==)>(pairs: seq<(K, real)>, key: K): real
  {
    if pairs == [] then 0.0
    else SumFor(pairs[..|pairs| - 1], key) + (if pairs[|pairs| - 1].0 == key then pairs[|pairs| - 1].1 else 0.0)
  }

  lemma AddToSpec<K>(acc: seq<(K, real)>, key: K, v: real)
    requires Distinct(KeysOf(acc))
    ensures var r := AddTo(acc, key, v);
      && Distinct(KeysOf(r))
      && (forall k :: k in KeysOf(r) <==> k in KeysOf(acc) || k == key)
      && Lookup(r, key, 0.0) == Lookup(acc, key, 0.0) + v
      && (forall k :: k != key ==> Lookup(r, k, 0.0) == Lookup(acc, k, 0.0))
  {
    AddToKeys(acc, key, v);
    if key !in KeysOf(acc) {
      DistinctSnoc(KeysOf(acc), key);
    }
    AddToLookup(acc, key, v);
  }

  lemma KeysCons<K, V>(head: (K, V), tail: seq<(K, V)>)
    ensures KeysOf([head] + tail) == [head.0] + KeysOf(tail)
  {
  }

  /** Replacing the value of the first pair keeps the keys, the first of which is that pair's key. */
  lemma KeysSameHead<K, V>(a: (K, V), b: (K, V), tail: seq<(K, V)>)
    requires a.0 == b.0
    ensures KeysOf([a] + tail) == KeysOf([b] + tail) && a.0 in KeysOf([a] + tail)
  {
    KeysCons(a, tail);
    KeysCons(b, tail);
  }

  /** A pair with another key in front of a list extended by `key` at most at its end. */
  lemma KeysStep<K, V>(head: (K, V), tail: seq<(K, V)>, key: K, r: seq<(K, V)>)
    requires head.0 != key
    requires KeysOf(r) == if key in KeysOf(tail) then KeysOf(tail) else KeysOf(tail) + [key]
    ensures KeysOf([head] + r) == if key in KeysOf([head] + tail) then KeysOf([head] + tail) else KeysOf([head] + tail) + [key]
  {
    KeysCons(head, tail);
    KeysCons(head, r);
    assert key in KeysOf([head] + tail) <==> key in KeysOf(tail);
    if key !in KeysOf(tail) {
      assert [head.0] + (KeysOf(tail) + [key]) == ([head.0] + KeysOf(tail)) + [key];
    }
  }

  /** Adding under a key keeps the key order and appends a key not yet present. */
  lemma {:induction false} AddToKeys<K>(acc: seq<(K, real)>, key: K, v: real)
    ensures KeysOf(AddTo(acc, key, v)) == if key in KeysOf(acc) then KeysOf(acc) else KeysOf(acc) + [key]
  {
    if acc == [] {
      assert KeysOf(AddTo(acc, key, v)) == [key];
    } else {
      var tail := acc[1..];
      assert acc == [acc[0]] + tail;
      if acc[0].0 == key {
        assert AddTo(acc, key, v) == [(key, acc[0].1 + v)] + tail;
        KeysSameHead(acc[0], (key, acc[0].1 + v), tail);
      } else {
        assert AddTo(acc, key, v) == [acc[0]] + AddTo(tail, key, v);
        AddToKeys(tail, key, v);
        KeysStep(acc[0], tail, key, AddTo(tail, key, v));
      }
    }
  }

  /** Adding under a key changes the value looked up under that key only. */
  lemma {:induction false} AddToLookup<K>(acc: seq<(K, real)>, key: K, v: real)
    ensures Lookup(AddTo(acc, key, v), key, 0.0) == Lookup(acc, key, 0.0) + v
    ensures forall k :: k != key ==> Lookup(AddTo(acc, key, v), k, 0.0) == Lookup(acc, k, 0.0)
  {
    if acc != [] && acc[0].0 != key {
      AddToLookup(acc[1..], key, v);
      assert AddTo(acc, key, v)[1..] == AddTo(acc[1..], key, v);
    } else if acc != [] {
      assert AddTo(acc, key, v)[1..] == acc[1..];
    }
  }

  /** Multiplying by a non-negative weight keeps the order. */
  lemma MulMono(w: real, x: real, y: real)
    requires w >= 0.0 && x <= y
    ensures w * x <= w * y
  {
    assert w * (y - x) >= 0.0;
  }

  /** Two duplicate-free lists with no element in common concatenate to a duplicate-free list. */
  lemma DistinctAppend<T>(u: seq<T>, v: seq<T>)
    requires Distinct(u) && Distinct(v) && (forall x :: x in u ==> x !in v)
    ensures Distinct(u + v)
  {
    var w := u + v;
    forall a, b | 0 <= a < b < |w| ensures w[a] != w[b] {
      if a < |u| && b >= |u| {
        assert w[a] in u && w[b] == v[b - |u|];
      }
    }
  }

  lemma DistinctSnoc<T>(s: seq<T>, x: T)
    requires x !in s && Distinct(s)
    ensures Distinct(s + [x])
  {
  }

  lemma {:induction false} LookupAbsent<K>(acc: seq<(K, real)>, key: K)
    requires key !in KeysOf(acc)
    ensures Lookup(acc, key, 0.0) == 0.0
  {
    if acc != [] {
      assert KeysOf(acc) == [acc[0].0] + KeysOf(acc[1..]);
      LookupAbsent(acc[1..], key);
    }
  }

  /**
   * The accumulated dictionary has each key once, exactly the keys that
   * occur in the input, and under each key the sum of that key's values.
   */
  lemma {:induction false} AccumulateSpec<K>(pairs: seq<(K, real)>)
    ensures var acc := Accumulate(pairs);
      && Distinct(KeysOf(acc))
      && (forall k :: k in KeysOf(acc) <==> exists i :: 0 <= i < |pairs| && pairs[i].0 == k)
      && (forall k :: Lookup(acc, k, 0.0) == SumFor(pairs, k))
  {
    if pairs != [] {
      var init := pairs[..|pairs| - 1];
      var last := pairs[|pairs| - 1];
      AccumulateSpec(init);
      AddToSpec(Accumulate(init), last.0, last.1);
      var acc := Accumulate(pairs);
      forall k ensures k in KeysOf(acc) <==> exists i :: 0 <= i < |pairs| && pairs[i].0 == k {
        if k in KeysOf(acc) && k != last.0 {
          var i :| 0 <= i < |init| && init[i].0 == k;
          assert pairs[i].0 == k;
        }
        if exists i :: 0 <= i < |pairs| && pairs[i].0 == k {
          var i :| 0 <= i < |pairs| && pairs[i].0 == k;
          if i < |init| {
            assert init[i].0 == k;
          }
        }
      }
    }
  }

  /** `d.setdefault(key, []).append(v)` on an insertion-ordered dict of lists. */
  function AppendTo<K(==)>(acc: seq<(K, seq<real>)>, key: K, v: real): (r: seq<(K, seq<real>)>)
    ensures (forall i :: 0 <= i < |acc| ==> |acc[i].1| > 0) ==> forall i :: 0 <= i < |r| ==> |r[i].1| > 0
  {
    if acc == [] then [(key, [v])]
    else if acc[0].0 == key then [(key, acc[0].1 + [v])] + acc[1..]
    else [acc[0]] + AppendTo(acc[1..], key, v)
  }

  /** The values of each key, in input order, keys in order of first appearance. */
  function Group<K(==)>(pairs: seq<(K, real)>): (g: seq<(K, seq<real>)>)
    ensures forall i :: 0 <= i < |g| ==> |g[i].1| > 0
  {
    if pairs == [] then []
    else AppendTo(Group(pairs[..|pairs| - 1]), pairs[|pairs| - 1].0, pairs[|pairs| - 1].1)
  }

  /** `{k: np.mean(v) for k, v in d.items()}`. */
  function Means<K>(g: seq<(K, seq<real>)>): (r: seq<(K, real)>)
    requires forall i :: 0 <= i < |g| ==> |g[i].1| > 0
    ensures |r| == |g| && KeysOf(r) == KeysOf(g)
    ensures forall i :: 0 <= i < |g| ==> r[i] == (g[i].0, Mean(g[i].1))
  {
    seq(|g|, i requires 0 <= i < |g| => (g[i].0, Mean(g[i].1)))
  }

  /** Reference definition: the values paired with `key`, in order. */
  function ValuesFor<K(==)>(pairs: seq<(K, real)>, key: K): seq<real>
  {
    if pairs == [] then []
    else ValuesFor(pairs[..|pairs| - 1], key) + (if pairs[|pairs| - 1].0 == key then [pairs[|pairs| - 1].1] else [])
  }

  lemma AppendToSpec<K>(acc: seq<(K, seq<real>)>, key: K, v: real)
    requires Distinct(KeysOf(acc))
    ensures var r := AppendTo(acc, key, v);
      && Distinct(KeysOf(r))
      && (forall k :: k in KeysOf(r) <==> k in KeysOf(acc) || k == key)
      && Lookup(r, key, []) == Lookup(acc, key, []) + [v]
      && (forall k :: k != key ==> Lookup(r, k, []) == Lookup(acc, k, []))
  {
    AppendToKeys(acc, key, v);
    if key !in KeysOf(acc) {
      DistinctSnoc(KeysOf(acc), key);
    }
    AppendToLookup(acc, key, v);
  }

  /** Appending under a key keeps the key order and appends a key not yet present. */
  lemma {:induction false} AppendToKeys<K>(acc: seq<(K, seq<real>)>, key: K, v: real)
    ensures KeysOf(AppendTo(acc, key, v)) == if key in KeysOf(acc) then KeysOf(acc) else KeysOf(acc) + [key]
  {
    if acc == [] {
      assert KeysOf(AppendTo(acc, key, v)) == [key];
    } else {
      var tail := acc[1..];
      assert acc == [acc[0]] + tail;
      if acc[0].0 == key {
        assert AppendTo(acc, key, v) == [(key, acc[0].1 + [v])] + tail;
        KeysSameHead(acc[0], (key, acc[0].1 + [v]), tail);
      } else {
        assert AppendTo(acc, key, v) == [acc[0]] + AppendTo(tail, key, v);
        AppendToKeys(tail, key, v);
        KeysStep(acc[0], tail, key, AppendTo(tail, key, v));
      }
    }
  }

  /** Appending under a key changes the list looked up under that key only. */
  lemma {:induction false} AppendToLookup<K>(acc: seq<(K, seq<real>)>, key: K, v: real)
    ensures Lookup(AppendTo(acc, key, v), key, []) == Lookup(acc, key, []) + [v]
    ensures forall k :: k != key ==> Lookup(AppendTo(acc, key, v), k, []) == Lookup(acc, k, [])
  {
    if acc != [] && acc[0].0 != key {
      AppendToLookup(acc[1..], key, v);
      assert AppendTo(acc, key, v)[1..] == AppendTo(acc[1..], key, v);
    } else if acc != [] {
      assert AppendTo(acc, key, v)[1..] == acc[1..];
    }
  }

  /**
   * Grouping keeps each key once, exactly the keys of the input, and under
   * each key the key's values in input order.
   */
  lemma {:induction false} GroupSpec<K>(pairs: seq<(K, real)>)
    ensures var g := Group(pairs);
      && Distinct(KeysOf(g))
      && (forall k :: k in KeysOf(g) <==> exists i :: 0 <= i < |pairs| && pairs[i].0 == k)
      && (forall k :: Lookup(g, k, []) == ValuesFor(pairs, k))
  {
    if pairs != [] {
      var init := pairs[..|pairs| - 1];
      var last := pairs[|pairs| - 1];
      GroupSpec(init);
      AppendToSpec(Group(init), last.0, last.1);
      var g := Group(pairs);
      forall k ensures k in KeysOf(g) <==> exists i :: 0 <= i < |pairs| && pairs[i].0 == k {
        if k in KeysOf(g) && k != last.0 {
          var i :| 0 <= i < |init| && init[i].0 == k;
          assert pairs[i].0 == k;
        }
        if exists i :: 0 <= i < |pairs| && pairs[i].0 == k {
          var i :| 0 <= i < |pairs| && pairs[i].0 == k;
          if i < |init| {
            assert init[i].0 == k;
          }
        }
      }
    }
  }

  /** The per-key sum is the sum of the per-key values. */
  lemma {:induction false} SumForValues<K>(pairs: seq<(K, real)>, key: K)
    ensures SumFor(pairs, key) == Sum(ValuesFor(pairs, key))
  {
    if pairs != [] {
      var init := pairs[..|pairs| - 1];
      SumForValues(init, key);
      var vs := ValuesFor(pairs, key);
      if pairs[|pairs| - 1].0 == key {
        assert vs[..|vs| - 1] == ValuesFor(init, key);
      } else {
        assert vs == ValuesFor(init, key);
      }
    }
  }

  /** A key has values exactly when it occurs in the input. */
  lemma {:induction false} ValuesForNonEmpty<K>(pairs: seq<(K, real)>, key: K)
    ensures |ValuesFor(pairs, key)| > 0 <==> exists i :: 0 <= i < |pairs| && pairs[i].0 == key
  {
    if pairs != [] {
      var init := pairs[..|pairs| - 1];
      ValuesForNonEmpty(init, key);
      if exists i :: 0 <= i < |pairs| && pairs[i].0 == key {
        var i :| 0 <= i < |pairs| && pairs[i].0 == key;
        if i < |init| {
          assert init[i].0 == key;
        }
      }
      if exists i :: 0 <= i < |init| && init[i].0 == key {
        var i :| 0 <= i < |init| && init[i].0 == key;
        assert pairs[i].0 == key;
      }
    }
  }

  /** Looking up a mean finds the mean of the list stored under the key. */
  lemma {:induction false} MeansLookup<K>(g: seq<(K, seq<real>)>, key: K)
    requires forall i :: 0 <= i < |g| ==> |g[i].1| > 0
    requires key in KeysOf(g)
    ensures |Lookup(g, key, [])| > 0
    ensures Lookup(Means(g), key, 0.0) == Mean(Lookup(g, key, []))
  {
    var means := Means(g);
    assert means[0] == (g[0].0, Mean(g[0].1));
    if g[0].0 != key {
      assert KeysOf(g) == [g[0].0] + KeysOf(g[1..]);
      assert means[1..] == Means(g[1..]);
      MeansLookup(g[1..], key);
    }
  }

  /** Each entry of a distinct-keyed association list is what `Lookup` finds under its key. */
  lemma {:induction false} LookupEntry<K, V>(acc: seq<(K, V)>, i: nat, default: V)
    requires Distinct(KeysOf(acc)) && i < |acc|
    ensures Lookup(acc, acc[i].0, default) == acc[i].1
  {
    if i > 0 {
      assert KeysOf(acc)[0] != KeysOf(acc)[i];
      assert Distinct(KeysOf(acc[1..])) by {
        forall a, b | 0 <= a < b < |acc| - 1 ensures KeysOf(acc[1..])[a] != KeysOf(acc[1..])[b] {
          assert KeysOf(acc)[a + 1] != KeysOf(acc)[b + 1];
        }
      }
      LookupEntry(acc[1..], i - 1, default);
    }
  }

  /** `max(s)` of a non-empty sequence. */
  function SeqMax(s: seq<real>): (mx: real)
    requires |s| > 0
    ensures mx in s
    ensures forall i :: 0 <= i < |s| ==> s[i] <= mx
  {
    if |s| == 1 then s[0]
    else
      var m := SeqMax(s[..|s| - 1]);
      assert forall i :: 0 <= i < |s| - 1 ==> s[..|s| - 1][i] == s[i];
      if s[|s| - 1] > m then s[|s| - 1] else m
  }

  function Second<K>(e: (K, real)): real { e.1 }

  /** `sorted(d.items(), key=lambda x: x[1], reverse=True)[:k]`. */
  function TopByValue<K>(acc: seq<(K, real)>, k: nat): seq<(K, real)>
  {
    Take(SortDesc(acc, Second), k)
  }

  /**
   * The top-k list has min(k, |acc|) entries of `acc`, in non-increasing
   * value order, and no entry whose key was left out has a larger value
   * than any kept entry.
   */
  lemma TopByValueSpec<K>(acc: seq<(K, real)>, k: nat)
    ensures var r := TopByValue(acc, k);
      && |r| == Min(k, |acc|)
      && SortedDesc(r, Second)
      && (forall i :: 0 <= i < |r| ==> r[i] in acc)
      && (forall e, i :: e in acc && e.0 !in KeysOf(r) && 0 <= i < |r| ==> e.1 <= r[i].1)
  {
    var t := SortDesc(acc, Second);
    SortDescCorrect(acc, Second);
    TakeOfPermutation(acc, t, k);
  }

  lemma TakeOfPermutation<K>(acc: seq<(K, real)>, t: seq<(K, real)>, k: nat)
    requires multiset(t) == multiset(acc) && SortedDesc(t, Second)
    ensures var r := Take(t, k);
      && (forall i :: 0 <= i < |r| ==> r[i] in acc)
      && (forall e, i :: e in acc && e.0 !in KeysOf(r) && 0 <= i < |r| ==> e.1 <= r[i].1)
  {
    var r := Take(t, k);
    forall i | 0 <= i < |r| ensures r[i] in acc {
      InPermutation(t, acc, r[i]);
    }
    forall e, i | e in acc && e.0 !in KeysOf(r) && 0 <= i < |r| ensures e.1 <= r[i].1 {
      InPermutation(acc, t, e);
      var p :| 0 <= p < |t| && t[p] == e;
    }
  }

  lemma InPermutation<T>(s: seq<T>, t: seq<T>, x: T)
    requires multiset(t) == multiset(s) && x in s
    ensures x in t
  {
    assert x in multiset(s);
  }

  /** `[x for x in s if p(x)]`. */
  function Filter<T>(s: seq<T>, p: T -> bool): (r: seq<T>)
    ensures |r| <= |s|
    ensures forall i :: 0 <= i < |r| ==> r[i] in s && p(r[i])
    ensures forall i :: 0 <= i < |s| && p(s[i]) ==> s[i] in r
  {
    if s == [] then []
    else
      var init := s[..|s| - 1];
      assert s == init + [s[|s| - 1]];
      var rest := Filter(init, p);
      if p(s[|s| - 1]) then rest + [s[|s| - 1]] else rest
  }

  /** The positions of `s` where `p` holds, in increasing order. */
  function KeptPositions<T>(s: seq<T>, p: T -> bool): seq<nat>
  {
    if s == [] then []
    else
      var rest := KeptPositions(s[..|s| - 1], p);
      if p(s[|s| - 1]) then rest + [|s| - 1] else rest
  }

  /**
   * The filtered list is the subsequence of `s` at the positions
   * `KeptPositions` lists, in their original order.
   */
  lemma {:induction false} FilterKeepsOrder<T>(s: seq<T>, p: T -> bool)
    ensures var idx := KeptPositions(s, p);
      && |idx| == |Filter(s, p)|
      && (forall k :: 0 <= k < |idx| ==> idx[k] < |s| && s[idx[k]] == Filter(s, p)[k])
      && (forall k, l :: 0 <= k < l < |idx| ==> idx[k] < idx[l])
  {
    if s != [] {
      var init := s[..|s| - 1];
      var last := |s| - 1;
      FilterKeepsOrder(init, p);
      var rest := KeptPositions(init, p);
      var f := Filter(init, p);
      assert forall j :: 0 <= j < |init| ==> s[j] == init[j];
      if p(s[last]) {
        assert Filter(s, p) == f + [s[last]];
        PositionsSnoc(s, rest, f);
      } else {
        assert Filter(s, p) == f;
      }
    }
  }

  /** Positions picking `f` out of all but the last element, extended by the last one. */
  lemma PositionsSnoc<T>(s: seq<T>, rest: seq<nat>, f: seq<T>)
    requires s != [] && |rest| == |f|
    requires forall k :: 0 <= k < |rest| ==> rest[k] < |s| && s[rest[k]] == f[k]
    requires forall k, l :: 0 <= k < l < |rest| ==> rest[k] < rest[l]
    requires forall k :: 0 <= k < |rest| ==> rest[k] < |s| - 1
    ensures var idx := rest + [|s| - 1];
      && (forall k :: 0 <= k < |idx| ==> idx[k] < |s| && s[idx[k]] == (f + [s[|s| - 1]])[k])
      && (forall k, l :: 0 <= k < l < |idx| ==> idx[k] < idx[l])
  {
    var idx := rest + [|s| - 1];
    forall k | 0 <= k < |idx| ensures idx[k] < |s| && s[idx[k]] == (f + [s[|s| - 1]])[k] {
      if k < |rest| {
        assert idx[k] == rest[k];
      }
    }
  }

  /** Every position where `p` holds is kept. */
  lemma {:induction false} FilterKeepsAll<T>(s: seq<T>, p: T -> bool)
    ensures forall j :: 0 <= j < |s| && p(s[j]) ==> j in KeptPositions(s, p)
  {
    if s != [] {
      var init := s[..|s| - 1];
      FilterKeepsAll(init, p);
      forall j | 0 <= j < |s| && p(s[j]) ensures j in KeptPositions(s, p) {
        if j < |init| {
          assert s[j] == init[j];
        }
      }
    }
  }

  /** Filtering a list extended by one element. */
  lemma FilterSnoc<T>(s: seq<T>, x: T, p: T -> bool)
    ensures Filter(s + [x], p) == Filter(s, p) + (if p(x) then [x] else [])
  {
    assert (s + [x])[..|s|] == s;
  }

  /** Two filters in a row keep what their conjunction keeps. */
  lemma {:induction false} FilterFilter<T>(s: seq<T>, p: T -> bool, q: T -> bool, pq: T -> bool)
    requires forall x :: pq(x) == (p(x) && q(x))
    ensures Filter(Filter(s, p), q) == Filter(s, pq)
  {
    if s != [] {
      var init := s[..|s| - 1];
      var x := s[|s| - 1];
      FilterFilter(init, p, q, pq);
      if p(x) {
        FilterSnoc(Filter(init, p), x, q);
      }
    }
  }

  /** Filters whose conditions agree keep the same elements. */
  lemma {:induction false} FilterSame<T>(s: seq<T>, p: T -> bool, q: T -> bool)
    requires forall x :: p(x) == q(x)
    ensures Filter(s, p) == Filter(s, q)
  {
    if s != [] {
      FilterSame(s[..|s| - 1], p, q);
    }
  }

  /** Pairs each key with a count of one. */
  function Ones<K>(keys: seq<K>): (pairs: seq<(K, real)>)
    ensures |pairs| == |keys|
    ensures forall i :: 0 <= i < |keys| ==> pairs[i] == (keys[i], 1.0)
  {
    seq(|keys|, i requires 0 <= i < |keys| => (keys[i], 1.0))
  }

  /**
   * `ks` lists keys in order of first appearance in `s`: before any
   * occurrence of a key, every key listed ahead of it has already occurred.
   */
  ghost predicate FirstAppearanceOrder<K>(ks: seq<K>, s: seq<K>)
  {
    forall a, b, j :: 0 <= a < b < |ks| && 0 <= j < |s| && s[j] == ks[b] ==> exists i :: 0 <= i < j && s[i] == ks[a]
  }

  /** The per-key sums list their keys in order of first appearance. */
  lemma {:induction false} AccumulateOrder<K>(pairs: seq<(K, real)>)
    ensures FirstAppearanceOrder(KeysOf(Accumulate(pairs)), KeysOf(pairs))
  {
    if pairs != [] {
      var init := pairs[..|pairs| - 1];
      var last := pairs[|pairs| - 1];
      AccumulateOrder(init);
      AccumulateSpec(init);
      AddToKeys(Accumulate(init), last.0, last.1);
      var ks0, s0 := KeysOf(Accumulate(init)), KeysOf(init);
      forall k ensures k in ks0 <==> k in s0 {
        if k in s0 {
          var i :| 0 <= i < |s0| && s0[i] == k;
          assert init[i].0 == k;
        }
      }
      assert KeysOf(pairs) == s0 + [last.0];
      FirstAppearanceSnoc(ks0, s0, last.0);
    }
  }

  /** Appending one occurrence keeps the order, the key going last when it is new. */
  lemma FirstAppearanceSnoc<K>(ks0: seq<K>, s0: seq<K>, x: K)
    requires FirstAppearanceOrder(ks0, s0)
    requires forall k :: k in ks0 <==> k in s0
    ensures FirstAppearanceOrder(if x in ks0 then ks0 else ks0 + [x], s0 + [x])
  {
    var ks := if x in ks0 then ks0 else ks0 + [x];
    var s := s0 + [x];
    forall a, b, j | 0 <= a < b < |ks| && 0 <= j < |s| && s[j] == ks[b] ensures exists i :: 0 <= i < j && s[i] == ks[a] {
      assert ks[a] == ks0[a] && ks0[a] in s0;
      if j < |s0| {
        assert s0[j] == ks[b] && b < |ks0|;
        var i :| 0 <= i < j && s0[i] == ks0[a];
        assert s[i] == ks[a];
      } else {
        var i :| 0 <= i < |s0| && s0[i] == ks0[a];
        assert s[i] == ks[a];
      }
    }
    assert FirstAppearanceOrder(ks, s);
  }

  /** Accumulating one more pair adds its value under its key. */
  lemma AccumulateSnoc<K>(pairs: seq<(K, real)>, x: (K, real))
    ensures Accumulate(pairs + [x]) == AddTo(Accumulate(pairs), x.0, x.1)
  {
    assert (pairs + [x])[..|pairs|] == pairs;
  }

  /** Summing ones per key counts the key's occurrences. */
  lemma {:induction false} CountOnes<K>(keys: seq<K>, key: K)
    ensures SumFor(Ones(keys), key) == multiset(keys)[key] as real
  {
    if keys != [] {
      var init := keys[..|keys| - 1];
      assert Ones(keys)[..|keys| - 1] == Ones(init);
      CountOnes(init, key);
      assert keys == init + [keys[|keys| - 1]];
    }
  }

  /**
   * A tally (`d[k] = d.get(k, 0) + 1` over `keys`) has each key once, in
   * order of first appearance, and under each key its number of occurrences.
   */
  lemma TallySpec<K>(keys: seq<K>)
    ensures var t := Accumulate(Ones(keys));
      && Distinct(KeysOf(t))
      && (forall k :: k in KeysOf(t) <==> k in keys)
      && FirstAppearanceOrder(KeysOf(t), keys)
      && (forall k :: Lookup(t, k, 0.0) == multiset(keys)[k] as real)
  {
    var t := Accumulate(Ones(keys));
    AccumulateSpec(Ones(keys));
    AccumulateOrder(Ones(keys));
    assert KeysOf(Ones(keys)) == keys;
    forall k ensures k in KeysOf(t) <==> k in keys {
      if k in keys {
        var i :| 0 <= i < |keys| && keys[i] == k;
        assert Ones(keys)[i].0 == k;
      }
    }
    forall k ensures Lookup(t, k, 0.0) == multiset(keys)[k] as real {
      CountOnes(keys, k);
    }
  }
}
