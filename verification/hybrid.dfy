/**
 * The design the four domain recommenders share: a user-item interaction
 * matrix (a pandas pivot table with 0 for "no interaction"), the ten
 * nearest neighbours picked from an argsort of user similarities, the
 * collaborative score (mean of strength x similarity over the neighbours
 * who interacted with an item), the per-map normalisation, the alpha blend,
 * and the "sort descending, keep the first n" ranking.
 *
 * The cosine similarities between users and their argsort are produced by
 * scikit-learn and numpy; here they are inputs, constrained only by what
 * argsort promises.
 */
module Hybrid {
  import opened Common

  datatype Domain = Movies | Products | Music | Courses

  /** One element of a domain's `recommend` result: item id, domain and hybrid score. */
  datatype Recommendation = Recommendation(itemId: int, domain: Domain, score: real)

  /**
   * A pivot table: `users` are the row labels, `items` the column labels and
   * `cells[r][c]` the interaction strength of user `users[r]` with item
   * `items[c]` (0 when there is none).
   */
  datatype Matrix = Matrix(users: seq<int>, items: seq<int>, cells: seq<seq<real>>)

  predicate WellFormed(m: Matrix)
  {
    && |m.cells| == |m.users|
    && (forall r :: 0 <= r < |m.cells| ==> |m.cells[r]| == |m.items|)
    && Distinct(m.users)
    && Distinct(m.items)
  }

  /** Position of the first occurrence of `x` (pandas `get_loc` on a unique index). */
  function IndexOf(s: seq<int>, x: int): (i: nat)
    requires x in s
    ensures i < |s| && s[i] == x
    ensures forall k :: 0 <= k < i ==> s[k] != x
  {
    if s[0] == x then 0 else 1 + IndexOf(s[1..], x)
  }

  lemma IndexOfDistinct(s: seq<int>, i: nat)
    requires Distinct(s) && i < |s|
    ensures IndexOf(s, s[i]) == i
  {
  }

  // ---------------------------------------------------------------------------
  // Neighbour selection: np.argsort(similarities)[-11:-1][::-1]
  // ---------------------------------------------------------------------------

  /**
   * `order` is an argsort of `sims`: a permutation of the row positions
   * listing them by non-decreasing similarity (ties in any order).
   */
  predicate IsArgsort(sims: seq<real>, order: seq<nat>)
  {
    && |order| == |sims|
    && (forall i :: 0 <= i < |order| ==> order[i] < |sims|)
    && Distinct(order)
    && (forall i, j :: 0 <= i < j < |order| ==> sims[order[i]] <= sims[order[j]])
  }

  function Reverse<T>(s: seq<T>): (r: seq<T>)
    ensures |r| == |s|
    ensures forall i :: 0 <= i < |s| ==> r[i] == s[|s| - 1 - i]
  {
    if s == [] then [] else [s[|s| - 1]] + Reverse(s[..|s| - 1])
  }

  function Max0(x: int): nat { if x < 0 then 0 else x }

  /** Python's `order[-11:-1][::-1]`. */
  function Neighbours(order: seq<nat>): seq<nat>
  {
    Reverse(order[Max0(|order| - 11)..Max0(|order| - 1)])
  }

  /**
   * The neighbours are at most ten row positions in non-increasing
   * similarity; the single last position of the argsort (the highest
   * similarity, normally the user itself) is never one of them, and every
   * position ranked below the slice has a similarity no larger than any
   * neighbour's.
   */
  lemma NeighboursAreNextTen(sims: seq<real>, order: seq<nat>)
    requires IsArgsort(sims, order)
    ensures var nb := Neighbours(order);
      && |nb| == (if |order| == 0 then 0 else Min(10, |order| - 1))
      && Distinct(nb)
      && (forall i :: 0 <= i < |nb| ==> nb[i] < |sims|)
      && (|order| > 0 ==> order[|order| - 1] !in nb)
      && (forall i, j :: 0 <= i < j < |nb| ==> sims[nb[i]] >= sims[nb[j]])
      && (forall p, i :: 0 <= p < |order| - 11 && 0 <= i < |nb| ==> sims[order[p]] <= sims[nb[i]])
  {
    var hi := Max0(|order| - 1);
    var nb := Neighbours(order);
    NeighbourIndex(order);
    if |order| > 0 {
      forall i | 0 <= i < |nb| ensures nb[i] != order[|order| - 1] {
        assert hi - 1 - i < |order| - 1;
      }
    }
  }

  /** The i-th neighbour is the i-th position counted back from just below the top of the argsort. */
  lemma NeighbourIndex(order: seq<nat>)
    ensures |Neighbours(order)| == Max0(|order| - 1) - Max0(|order| - 11)
    ensures forall i :: 0 <= i < |Neighbours(order)| ==> Neighbours(order)[i] == order[Max0(|order| - 1) - 1 - i]
  {
    var lo, hi := Max0(|order| - 11), Max0(|order| - 1);
    var slice := order[lo..hi];
    assert forall i :: 0 <= i < |slice| ==> slice[i] == order[lo + i];
  }

  // ---------------------------------------------------------------------------
  // Collaborative scores
  // ---------------------------------------------------------------------------

  /** Inputs of the collaborative step: `sims` has one similarity per matrix row. */
  predicate CfInputs(m: Matrix, sims: seq<real>, order: seq<nat>)
  {
    WellFormed(m) && |sims| == |m.users| && IsArgsort(sims, order)
  }

  predicate RowPositions(m: Matrix, nbs: seq<nat>)
  {
    forall k :: 0 <= k < |nbs| ==> nbs[k] < |m.users|
  }

  /** One neighbour's contribution to an item: interaction strength times similarity. */
  function Weighted(strength: real -> real, value: real, similarity: real): real
  {
    strength(value) * similarity
  }

  /**
   * What `cf_scores[item]` accumulates for column `c`: for each neighbour in
   * turn that interacted with the item, `strength(value) * similarity`.
   */
  function Contributions(m: Matrix, sims: seq<real>, nbs: seq<nat>, c: nat, strength: real -> real): seq<real>
    requires WellFormed(m) && |sims| == |m.users| && RowPositions(m, nbs) && c < |m.items|
  {
    if nbs == [] then []
    else
      var last := nbs[|nbs| - 1];
      var v := m.cells[last][c];
      Contributions(m, sims, nbs[..|nbs| - 1], c, strength)
        + (if v > 0.0 then [Weighted(strength, v, sims[last])] else [])
  }

  /** Column `c` is a candidate for user row `u`: the user has not interacted with it. */
  predicate Unseen(m: Matrix, u: nat, c: nat)
    requires WellFormed(m) && u < |m.users| && c < |m.items|
  {
    m.cells[u][c] <= 0.0
  }

  /**
   * The collaborative score map: {} for a user outside the matrix; otherwise
   * one entry per unseen item that at least one neighbour interacted with,
   * holding the mean of the contributions.
   */
  function CollaborativeScores(m: Matrix, user: int, sims: seq<real>, order: seq<nat>, strength: real -> real): map<int, real>
    requires CfInputs(m, sims, order)
  {
    if user !in m.users then map[]
    else
      var u := IndexOf(m.users, user);
      var nbs := Neighbours(order);
      NeighboursAreNextTen(sims, order);
      map id | id in m.items
                 && Unseen(m, u, IndexOf(m.items, id))
                 && |Contributions(m, sims, nbs, IndexOf(m.items, id), strength)| > 0
        :: Mean(Contributions(m, sims, nbs, IndexOf(m.items, id), strength))
  }

  /**
   * The per-item lists built so far, once the neighbours `done` have been
   * processed: an unseen item has a list exactly when one of them rated it,
   * and the list holds their contributions in order.
   */
  ghost predicate ListsAfter(m: Matrix, u: nat, sims: seq<real>, strength: real -> real,
                             lists: map<int, seq<real>>, done: seq<nat>)
    requires WellFormed(m) && |sims| == |m.users| && u < |m.users| && RowPositions(m, done)
  {
    && (forall id :: id in lists ==> id in m.items)
    && (forall c :: 0 <= c < |m.items| ==>
          (m.items[c] in lists <==> Unseen(m, u, c) && |Contributions(m, sims, done, c, strength)| > 0))
    && (forall c :: 0 <= c < |m.items| && m.items[c] in lists ==>
          lists[m.items[c]] == Contributions(m, sims, done, c, strength))
  }

  /**
   * `get_collaborative_scores`: for each neighbour, for each item it rated
   * that the user has not, append strength x similarity to the item's list;
   * then average every list.
   */
  method ComputeCollaborativeScores(m: Matrix, user: int, sims: seq<real>, order: seq<nat>, strength: real -> real)
    returns (scores: map<int, real>)
    requires CfInputs(m, sims, order)
    ensures scores == CollaborativeScores(m, user, sims, order, strength)
  {
    if user !in m.users {
      return map[];
    }
    var u := IndexOf(m.users, user);
    var nbs := Neighbours(order);
    NeighboursAreNextTen(sims, order);
    var lists := GatherLists(m, u, sims, strength, nbs);
    scores := map id | id in lists :: Mean(lists[id]);
    ListsGiveScores(m, user, sims, order, strength, lists);
  }

  /** The neighbour loop of `get_collaborative_scores`: every neighbour's contributions, appended in turn. */
  method GatherLists(m: Matrix, u: nat, sims: seq<real>, strength: real -> real, nbs: seq<nat>)
    returns (lists: map<int, seq<real>>)
    requires WellFormed(m) && |sims| == |m.users| && u < |m.users| && RowPositions(m, nbs)
    ensures ListsAfter(m, u, sims, strength, lists, nbs)
  {
    lists := map[];
    var k := 0;
    while k < |nbs|
      invariant 0 <= k <= |nbs|
      invariant ListsAfter(m, u, sims, strength, lists, nbs[..k])
    {
      lists := AccumulateNeighbour(m, u, sims, strength, nbs[..k], nbs[k], lists);
      assert nbs[..k] + [nbs[k]] == nbs[..k + 1];
      k := k + 1;
    }
    assert nbs[..|nbs|] == nbs;
  }

  lemma ListsGiveScores(m: Matrix, user: int, sims: seq<real>, order: seq<nat>, strength: real -> real,
                        lists: map<int, seq<real>>)
    requires CfInputs(m, sims, order) && user in m.users
    requires RowPositions(m, Neighbours(order))
    requires ListsAfter(m, IndexOf(m.users, user), sims, strength, lists, Neighbours(order))
    ensures forall id :: id in lists ==> |lists[id]| > 0
    ensures (map id | id in lists :: Mean(lists[id])) == CollaborativeScores(m, user, sims, order, strength)
  {
    var u := IndexOf(m.users, user);
    var nbs := Neighbours(order);
    var cf := CollaborativeScores(m, user, sims, order, strength);
    forall id | id in lists ensures |lists[id]| > 0 && id in cf && cf[id] == Mean(lists[id]) {
      var c := IndexOf(m.items, id);
      assert m.items[c] == id;
    }
    forall id | id in cf ensures id in lists {
      var c := IndexOf(m.items, id);
      assert m.items[c] == id;
    }
  }

  lemma ContributionsStep(m: Matrix, sims: seq<real>, done: seq<nat>, nb: nat, c: nat, strength: real -> real)
    requires WellFormed(m) && |sims| == |m.users| && RowPositions(m, done) && nb < |m.users| && c < |m.items|
    ensures RowPositions(m, done + [nb])
    ensures Contributions(m, sims, done + [nb], c, strength)
         == Contributions(m, sims, done, c, strength) + (if m.cells[nb][c] > 0.0 then [Weighted(strength, m.cells[nb][c], sims[nb])] else [])
  {
    var next := done + [nb];
    assert RowPositions(m, next);
    assert next[|next| - 1] == nb;
    assert next[..|next| - 1] == done;
  }

  /** The inner loop of `get_collaborative_scores`: one neighbour's row, column by column. */
  method AccumulateNeighbour(m: Matrix, u: nat, sims: seq<real>, strength: real -> real,
                             done: seq<nat>, nb: nat, lists: map<int, seq<real>>)
    returns (lists': map<int, seq<real>>)
    requires WellFormed(m) && |sims| == |m.users| && u < |m.users| && nb < |m.users| && RowPositions(m, done)
    requires ListsAfter(m, u, sims, strength, lists, done)
    ensures RowPositions(m, done + [nb])
    ensures ListsAfter(m, u, sims, strength, lists', done + [nb])
  {
    var next := done + [nb];
    assert next[..|next| - 1] == done;
    lists' := lists;
    var j := 0;
    while j < |m.items|
      invariant 0 <= j <= |m.items|
      invariant forall id :: id in lists' ==> id in m.items
      invariant forall c :: 0 <= c < j ==>
        (m.items[c] in lists' <==> Unseen(m, u, c) && |Contributions(m, sims, next, c, strength)| > 0)
      invariant forall c :: 0 <= c < j && m.items[c] in lists' ==>
        lists'[m.items[c]] == Contributions(m, sims, next, c, strength)
      invariant forall c :: j <= c < |m.items| ==>
        (m.items[c] in lists' <==> m.items[c] in lists) && (m.items[c] in lists ==> lists'[m.items[c]] == lists[m.items[c]])
    {
      var v := m.cells[nb][j];
      var id := m.items[j];
      ContributionsStep(m, sims, done, nb, j, strength);
      assert forall c :: 0 <= c < |m.items| && c != j ==> m.items[c] != id;
      if v > 0.0 && m.cells[u][j] <= 0.0 {
        var before := if id in lists' then lists'[id] else [];
        lists' := lists'[id := before + [Weighted(strength, v, sims[nb])]];
      }
      j := j + 1;
    }
  }

  // ---------------------------------------------------------------------------
  // Normalisation, blend and ranking
  // ---------------------------------------------------------------------------

  /**
   * `{k: v / max}` applied whenever the map is non-empty, as movies and
   * products do (there is no guard against a zero maximum).
   */
  ghost function Normalised(scores: map<int, real>): map<int, real>
    requires scores != map[] ==> MaxValue(scores) != 0.0
  {
    if scores == map[] then scores
    else map k | k in scores :: scores[k] / MaxValue(scores)
  }

  /** Music and courses divide only when the maximum is positive. */
  ghost function NormalisedIfPositive(scores: map<int, real>): map<int, real>
  {
    if scores != map[] && MaxValue(scores) > 0.0 then map k | k in scores :: scores[k] / MaxValue(scores)
    else scores
  }

  /**
   * With a positive maximum, normalisation keeps the keys, brings every
   * score to at most 1, sends the maximum to exactly 1 and keeps the
   * relative order of any two items.
   */
  lemma NormalisedProperties(scores: map<int, real>)
    requires scores != map[] && MaxValue(scores) > 0.0
    ensures var r := Normalised(scores);
      && r.Keys == scores.Keys
      && r == NormalisedIfPositive(scores)
      && (forall k :: k in r ==> r[k] <= 1.0)
      && (exists k :: k in r && r[k] == 1.0)
      && (forall a, b :: a in r && b in r && scores[a] <= scores[b] ==> r[a] <= r[b])
  {
    var mx := MaxValue(scores);
    var r := Normalised(scores);
    assert exists k :: k in scores && scores[k] == mx;
    var w :| w in scores && scores[w] == mx;
    assert r[w] == 1.0;
    forall a, b | a in r && b in r && scores[a] <= scores[b] ensures r[a] <= r[b] {
      DivideMonotone(scores[a], scores[b], mx);
    }
    forall k | k in r ensures r[k] <= 1.0 {
      DivideMonotone(scores[k], mx, mx);
    }
  }

  lemma DivideMonotone(a: real, b: real, d: real)
    requires d > 0.0 && a <= b
    ensures a / d <= b / d
  {
    assert a / d * d == a;
    assert b / d * d == b;
  }

  /**
   * The guarded form never leaves a score above 1, whatever the sign of the
   * maximum, and it keeps non-negative scores non-negative.
   */
  lemma NormalisedIfPositiveBounds(scores: map<int, real>)
    ensures var r := NormalisedIfPositive(scores);
      && r.Keys == scores.Keys
      && (forall k :: k in r ==> r[k] <= 1.0)
      && ((forall k :: k in scores ==> scores[k] >= 0.0) ==> forall k :: k in r ==> r[k] >= 0.0)
  {
    if scores != map[] && MaxValue(scores) > 0.0 {
      NormalisedProperties(scores);
      var mx := MaxValue(scores);
      forall k | k in scores && scores[k] >= 0.0 ensures scores[k] / mx >= 0.0 {
        DivideMonotone(0.0, scores[k], mx);
      }
    }
  }

  function Get(m: map<int, real>, k: int): real
  {
    if k in m then m[k] else 0.0
  }

  /** `alpha * cf.get(item, 0) + (1 - alpha) * content.get(item, 0)` over the union of keys. */
  function Blend(cf: map<int, real>, content: map<int, real>, alpha: real): map<int, real>
  {
    map k | k in cf.Keys + content.Keys :: alpha * Get(cf, k) + (1.0 - alpha) * Get(content, k)
  }

  /**
   * With alpha in [0, 1] and both inputs in [0, 1], every blended score is
   * in [0, 1]; alpha = 1 keeps only the collaborative signal, alpha = 0
   * only the content signal.
   */
  lemma BlendBounds(cf: map<int, real>, content: map<int, real>, alpha: real)
    requires 0.0 <= alpha <= 1.0
    requires forall k :: k in cf ==> 0.0 <= cf[k] <= 1.0
    requires forall k :: k in content ==> 0.0 <= content[k] <= 1.0
    ensures var h := Blend(cf, content, alpha);
      && h.Keys == cf.Keys + content.Keys
      && (forall k :: k in h ==> 0.0 <= h[k] <= 1.0)
      && (alpha == 1.0 ==> forall k :: k in h ==> h[k] == Get(cf, k))
      && (alpha == 0.0 ==> forall k :: k in h ==> h[k] == Get(content, k))
  {
    var h := Blend(cf, content, alpha);
    forall k | k in h ensures 0.0 <= h[k] <= 1.0 {
      var a, b := Get(cf, k), Get(content, k);
      assert 0.0 <= a <= 1.0 && 0.0 <= b <= 1.0;
      assert h[k] == alpha * a + (1.0 - alpha) * b;
      BlendPointBounds(a, b, alpha);
    }
    if alpha == 1.0 {
      forall k | k in h ensures h[k] == Get(cf, k) {
        assert h[k] == 1.0 * Get(cf, k) + 0.0 * Get(content, k);
      }
    }
    if alpha == 0.0 {
      forall k | k in h ensures h[k] == Get(content, k) {
        assert h[k] == 0.0 * Get(cf, k) + 1.0 * Get(content, k);
      }
    }
  }

  lemma BlendPointBounds(a: real, b: real, alpha: real)
    requires 0.0 <= alpha <= 1.0 && 0.0 <= a <= 1.0 && 0.0 <= b <= 1.0
    ensures 0.0 <= alpha * a + (1.0 - alpha) * b <= 1.0
  {
    var beta := 1.0 - alpha;
    MulUnit(alpha, a);
    MulUnit(beta, b);
    var p := alpha * a;
    var q := beta * b;
    assert p <= alpha && q <= beta;
  }

  /** A factor in [0, 1] scales a non-negative value down: 0 <= w*x <= w. */
  lemma MulUnit(w: real, x: real)
    requires w >= 0.0 && 0.0 <= x <= 1.0
    ensures 0.0 <= w * x <= w
  {
    assert w * (1.0 - x) >= 0.0;
  }

  function EntryScore(e: (int, real)): real { e.1 }

  /** `sorted(scores.items(), key=score, reverse=True)[:n]`; the dict's own order is not fixed. */
  ghost function RankTop(scores: map<int, real>, n: nat): seq<(int, real)>
  {
    Take(SortDesc(Entries(scores), EntryScore), n)
  }

  /**
   * `r` holds the min(n, |scores|) best entries of the map, each an entry of
   * the map and each item once, in non-increasing score order; no item left
   * out scores above any item kept.
   */
  ghost predicate BestEntries(r: seq<(int, real)>, scores: map<int, real>, n: nat)
  {
    && |r| == Min(n, |scores|)
    && SortedDesc(r, EntryScore)
    && (forall i :: 0 <= i < |r| ==> r[i].0 in scores && r[i].1 == scores[r[i].0])
    && (forall i, j :: 0 <= i < j < |r| ==> r[i].0 != r[j].0)
    && (forall k, i :: k in scores && 0 <= i < |r| && (forall j :: 0 <= j < |r| ==> r[j].0 != k) ==> scores[k] <= r[i].1)
  }

  /** The ranking is made of the map's best entries. */
  lemma RankTopIsTopN(scores: map<int, real>, n: nat)
    ensures BestEntries(RankTop(scores, n), scores, n)
  {
    SortedEntries(scores);
    TakeTopN(scores, SortDesc(Entries(scores), EntryScore), n);
  }

  /** Sorting a map's entries lists every entry exactly once, best first. */
  lemma SortedEntries(scores: map<int, real>)
    ensures var t := SortDesc(Entries(scores), EntryScore);
      && |t| == |scores| && SortedDesc(t, EntryScore)
      && (forall i :: 0 <= i < |t| ==> t[i].0 in scores && t[i].1 == scores[t[i].0])
      && (forall k :: k in scores ==> (k, scores[k]) in t)
      && (forall i, j :: 0 <= i < j < |t| ==> t[i].0 != t[j].0)
  {
    var es := Entries(scores);
    var t := SortDesc(es, EntryScore);
    SortDescCorrect(es, EntryScore);
    SortedEntriesBelong(scores, es, t);
    SortedEntriesCover(scores, es, t);
    PermutationKeepsEntries(es, t);
  }

  lemma SortedEntriesBelong(scores: map<int, real>, es: seq<(int, real)>, t: seq<(int, real)>)
    requires forall i :: 0 <= i < |es| ==> es[i].0 in scores && es[i].1 == scores[es[i].0]
    requires multiset(t) == multiset(es)
    ensures forall i :: 0 <= i < |t| ==> t[i].0 in scores && t[i].1 == scores[t[i].0]
  {
    forall i | 0 <= i < |t| ensures t[i].0 in scores && t[i].1 == scores[t[i].0] {
      InPermutation(t, es, t[i]);
      var p :| 0 <= p < |es| && es[p] == t[i];
    }
  }

  lemma SortedEntriesCover(scores: map<int, real>, es: seq<(int, real)>, t: seq<(int, real)>)
    requires forall k :: k in scores ==> (k, scores[k]) in es
    requires multiset(t) == multiset(es)
    ensures forall k :: k in scores ==> (k, scores[k]) in t
  {
    forall k | k in scores ensures (k, scores[k]) in t {
      InPermutation(es, t, (k, scores[k]));
    }
  }

  /** The first n entries of a sorted listing of a map are its n best entries. */
  lemma TakeTopN(scores: map<int, real>, t: seq<(int, real)>, n: nat)
    requires |t| == |scores| && SortedDesc(t, EntryScore)
    requires forall i :: 0 <= i < |t| ==> t[i].0 in scores && t[i].1 == scores[t[i].0]
    requires forall k :: k in scores ==> (k, scores[k]) in t
    requires forall i, j :: 0 <= i < j < |t| ==> t[i].0 != t[j].0
    ensures BestEntries(Take(t, n), scores, n)
  {
    var r := Take(t, n);
    forall k, i | k in scores && 0 <= i < |r| && (forall j :: 0 <= j < |r| ==> r[j].0 != k)
      ensures scores[k] <= r[i].1
    {
      var p :| 0 <= p < |t| && t[p] == (k, scores[k]);
      assert p >= |r|;
    }
  }

  /** A permutation of a key-distinct list of entries is key-distinct and holds only those entries. */
  lemma PermutationKeepsEntries(es: seq<(int, real)>, t: seq<(int, real)>)
    requires multiset(t) == multiset(es)
    requires forall i, j :: 0 <= i < j < |es| ==> es[i].0 != es[j].0
    ensures forall i :: 0 <= i < |t| ==> t[i] in es
    ensures forall i, j :: 0 <= i < j < |t| ==> t[i].0 != t[j].0
  {
    forall i | 0 <= i < |t| ensures t[i] in es {
      assert t[i] in multiset(t);
    }
    forall i, j | 0 <= i < j < |t| ensures t[i].0 != t[j].0 {
      if t[i].0 == t[j].0 {
        assert t[i] in es && t[j] in es;
        var p :| 0 <= p < |es| && es[p] == t[i];
        var q :| 0 <= q < |es| && es[q] == t[j];
        assert p == q;
        MultisetCountTwo(t, i, j);
        DistinctKeysCountOne(es, t[i]);
        assert false;
      }
    }
  }

  lemma MultisetCountTwo<T>(s: seq<T>, i: nat, j: nat)
    requires i < j < |s| && s[i] == s[j]
    ensures multiset(s)[s[i]] >= 2
  {
    assert s == s[..i] + [s[i]] + s[i + 1..j] + [s[j]] + s[j + 1..];
  }

  lemma {:induction false} DistinctKeysCountOne(es: seq<(int, real)>, e: (int, real))
    requires forall i, j :: 0 <= i < j < |es| ==> es[i].0 != es[j].0
    ensures multiset(es)[e] <= 1
  {
    if es != [] {
      var init := es[..|es| - 1];
      DistinctKeysCountOne(init, e);
      assert es == init + [es[|es| - 1]];
      if es[|es| - 1] == e {
        forall q | 0 <= q < |init| ensures init[q] != e {
          assert es[q].0 != es[|es| - 1].0;
        }
        assert e !in init;
      }
    }
  }

  /**
   * The final loop of every `recommend`: keep the ranked entries whose item
   * is found in the catalog, in ranked order.
   */
  function InCatalog(ranked: seq<(int, real)>, catalogIds: seq<int>, d: Domain): (r: seq<Recommendation>)
    ensures |r| <= |ranked|
    ensures forall i :: 0 <= i < |r| ==>
      r[i].itemId in catalogIds && r[i].domain == d && (r[i].itemId, r[i].score) in ranked
  {
    if ranked == [] then []
    else
      var init := InCatalog(ranked[..|ranked| - 1], catalogIds, d);
      var e := ranked[|ranked| - 1];
      assert forall x :: x in ranked[..|ranked| - 1] ==> x in ranked;
      if e.0 in catalogIds then init + [Recommendation(e.0, d, e.1)] else init
  }

  function RecScore(r: Recommendation): real { r.score }

  /** Filtering by catalog keeps order: a ranked input gives a ranked output. */
  lemma {:induction false} InCatalogKeepsOrder(ranked: seq<(int, real)>, catalogIds: seq<int>, d: Domain)
    requires SortedDesc(ranked, EntryScore)
    ensures SortedDesc(InCatalog(ranked, catalogIds, d), RecScore)
  {
    if ranked != [] {
      var init := ranked[..|ranked| - 1];
      var e := ranked[|ranked| - 1];
      assert SortedDesc(init, EntryScore);
      InCatalogKeepsOrder(init, catalogIds, d);
      var ri := InCatalog(init, catalogIds, d);
      forall i | 0 <= i < |ri| ensures ri[i].score >= e.1 {
        var q :| 0 <= q < |init| && init[q] == (ri[i].itemId, ri[i].score);
      }
    }
  }

  /** No item is recommended twice. */
  predicate DistinctItems(r: seq<Recommendation>)
  {
    forall i, j :: 0 <= i < j < |r| ==> r[i].itemId != r[j].itemId
  }

  /** Filtering a key-distinct ranking yields distinct items. */
  lemma {:induction false} InCatalogDistinct(ranked: seq<(int, real)>, catalogIds: seq<int>, d: Domain)
    requires forall i, j :: 0 <= i < j < |ranked| ==> ranked[i].0 != ranked[j].0
    ensures DistinctItems(InCatalog(ranked, catalogIds, d))
  {
    if ranked != [] {
      var init := ranked[..|ranked| - 1];
      InCatalogDistinct(init, catalogIds, d);
      var ri := InCatalog(init, catalogIds, d);
      var e := ranked[|ranked| - 1];
      forall i | 0 <= i < |ri| ensures ri[i].itemId != e.0 {
        var q :| 0 <= q < |init| && init[q] == (ri[i].itemId, ri[i].score);
      }
      var r := InCatalog(ranked, catalogIds, d);
      if e.0 in catalogIds {
        assert r == ri + [Recommendation(e.0, d, e.1)];
        forall i, j | 0 <= i < j < |r| ensures r[i].itemId != r[j].itemId {
          assert r[i] == ri[i];
          if j < |ri| {
            assert r[j] == ri[j];
          } else {
            assert r[j].itemId == e.0;
          }
        }
      }
    }
  }

  lemma {:induction false} InCatalogKeepsAll(ranked: seq<(int, real)>, catalogIds: seq<int>, d: Domain)
    ensures forall e :: e in ranked && e.0 in catalogIds ==> Recommendation(e.0, d, e.1) in InCatalog(ranked, catalogIds, d)
  {
    if ranked != [] {
      var init := ranked[..|ranked| - 1];
      var e := ranked[|ranked| - 1];
      InCatalogKeepsAll(init, catalogIds, d);
      forall x | x in ranked && x.0 in catalogIds ensures Recommendation(x.0, d, x.1) in InCatalog(ranked, catalogIds, d) {
        if x != e {
          var q :| 0 <= q < |ranked| && ranked[q] == x;
          assert q < |init| && init[q] == x;
        }
      }
    }
  }


  // ---------------------------------------------------------------------------
  // Profile embeddings built in `train`
  // ---------------------------------------------------------------------------

  /** Column `c` of the selected rows. */
  function Column(rows: seq<seq<real>>, idx: seq<nat>, c: nat): seq<real>
    requires forall t :: 0 <= t < |idx| ==> idx[t] < |rows| && c < |rows[idx[t]]|
  {
    seq(|idx|, t requires 0 <= t < |idx| => rows[idx[t]][c])
  }

  predicate Rectangular(rows: seq<seq<real>>, width: nat)
  {
    forall r :: 0 <= r < |rows| ==> |rows[r]| == width
  }

  predicate Selects(rows: seq<seq<real>>, idx: seq<nat>)
  {
    forall t :: 0 <= t < |idx| ==> idx[t] < |rows|
  }

  /** `np.mean(rows[idx], axis=0)`. */
  function MeanRows(rows: seq<seq<real>>, idx: seq<nat>, width: nat): (e: seq<real>)
    requires Rectangular(rows, width) && Selects(rows, idx) && |idx| > 0
    ensures |e| == width
  {
    seq(width, c requires 0 <= c < width => Mean(Column(rows, idx, c)))
  }

  function WeightedSum(xs: seq<real>, ws: seq<real>): real
    requires |xs| == |ws|
  {
    if xs == [] then 0.0
    else WeightedSum(xs[..|xs| - 1], ws[..|ws| - 1]) + ws[|ws| - 1] * xs[|xs| - 1]
  }

  function Scale(ws: seq<real>, d: real): seq<real>
    requires d != 0.0
  {
    seq(|ws|, i requires 0 <= i < |ws| => ws[i] / d)
  }

  /**
   * `weights = weights / weights.sum()` followed by
   * `np.average(rows[idx], axis=0, weights=weights)`.
   */
  function WeightedAverageRows(rows: seq<seq<real>>, idx: seq<nat>, ws: seq<real>, width: nat): (e: seq<real>)
    requires Rectangular(rows, width) && Selects(rows, idx) && |ws| == |idx|
    requires Sum(ws) != 0.0 && Sum(Scale(ws, Sum(ws))) != 0.0
    ensures |e| == width
  {
    var nw := Scale(ws, Sum(ws));
    seq(width, c requires 0 <= c < width => WeightedSum(Column(rows, idx, c), nw) / Sum(nw))
  }

  lemma {:induction false} SumScale(ws: seq<real>, d: real)
    requires d != 0.0
    ensures Sum(Scale(ws, d)) == Sum(ws) / d
  {
    if ws != [] {
      var init := ws[..|ws| - 1];
      SumScale(init, d);
      assert Scale(ws, d)[..|ws| - 1] == Scale(init, d);
    }
  }

  lemma {:induction false} SumPositive(ws: seq<real>)
    requires |ws| > 0 && forall i :: 0 <= i < |ws| ==> ws[i] > 0.0
    ensures Sum(ws) > 0.0
  {
    if |ws| > 1 {
      SumPositive(ws[..|ws| - 1]);
    }
  }

  lemma {:induction false} WeightedSumBounds(xs: seq<real>, ws: seq<real>, lo: real, hi: real)
    requires |xs| == |ws|
    requires forall i :: 0 <= i < |ws| ==> ws[i] >= 0.0 && lo <= xs[i] <= hi
    ensures lo * Sum(ws) <= WeightedSum(xs, ws) <= hi * Sum(ws)
  {
    WeightedSumMono(Constant(lo, |ws|), xs, ws);
    WeightedSumMono(xs, Constant(hi, |ws|), ws);
    WeightedSumConstant(lo, ws);
    WeightedSumConstant(hi, ws);
  }

  /** Raising the values under non-negative weights does not lower the weighted sum. */
  lemma {:induction false} WeightedSumMono(xs: seq<real>, ys: seq<real>, ws: seq<real>)
    requires |xs| == |ws| && |ys| == |ws|
    requires forall i :: 0 <= i < |ws| ==> ws[i] >= 0.0 && xs[i] <= ys[i]
    ensures WeightedSum(xs, ws) <= WeightedSum(ys, ws)
  {
    if ws != [] {
      var n := |ws| - 1;
      WeightedSumMono(xs[..n], ys[..n], ws[..n]);
      MulMono(ws[n], xs[n], ys[n]);
    }
  }

  function Constant(c: real, n: nat): (s: seq<real>)
    ensures |s| == n && forall i :: 0 <= i < n ==> s[i] == c
  {
    seq(n, _ => c)
  }

  /** Weighting a constant value gives that value times the total weight. */
  lemma {:induction false} WeightedSumConstant(c: real, ws: seq<real>)
    ensures WeightedSum(Constant(c, |ws|), ws) == c * Sum(ws)
  {
    if ws != [] {
      var n := |ws| - 1;
      assert Constant(c, |ws|)[..n] == Constant(c, n);
      WeightedSumConstant(c, ws[..n]);
      Distribute(c, Sum(ws[..n]), ws[n], Sum(ws));
    }
  }

  lemma Distribute(c: real, total: real, w: real, sum: real)
    requires sum == total + w
    ensures c * sum == c * total + w * c
  {
  }

  /**
   * The positive entries of a row, used as `np.average` weights, are
   * positive and sum to 1 once divided by their sum.
   */
  lemma PositiveWeights(m: Matrix, r: nat)
    requires WellFormed(m) && r < |m.users| && |Positive(m, r)| > 0
    ensures var ws := ValuesOf(Positive(m, r));
      && (forall i :: 0 <= i < |ws| ==> ws[i] > 0.0)
      && Sum(ws) > 0.0
      && Sum(Scale(ws, Sum(ws))) == 1.0
  {
    var ws := ValuesOf(Positive(m, r));
    assert forall i :: 0 <= i < |ws| ==> ws[i] > 0.0;
    NormalisedWeights(ws);
  }

  /**
   * With positive weights the normalised weights sum to 1, so the weighted
   * average is well defined and, component by component, lies between the
   * smallest and the largest value of the selected rows.
   */
  lemma WeightedAverageBounds(rows: seq<seq<real>>, idx: seq<nat>, ws: seq<real>, width: nat, lo: real, hi: real)
    requires Rectangular(rows, width) && Selects(rows, idx) && |ws| == |idx| && |ws| > 0
    requires forall i :: 0 <= i < |ws| ==> ws[i] > 0.0
    requires forall t, c :: 0 <= t < |idx| && 0 <= c < width ==> lo <= rows[idx[t]][c] <= hi
    ensures Sum(ws) > 0.0 && Sum(Scale(ws, Sum(ws))) == 1.0
    ensures var e := WeightedAverageRows(rows, idx, ws, width);
      forall c :: 0 <= c < width ==> lo <= e[c] <= hi
  {
    NormalisedWeights(ws);
    var nw := Scale(ws, Sum(ws));
    forall c | 0 <= c < width
      ensures lo <= WeightedSum(Column(rows, idx, c), nw) / Sum(nw) <= hi
    {
      AverageBounds(Column(rows, idx, c), nw, lo, hi);
    }
  }

  /** Positive weights divided by their total are non-negative and sum to 1. */
  lemma NormalisedWeights(ws: seq<real>)
    requires |ws| > 0 && forall i :: 0 <= i < |ws| ==> ws[i] > 0.0
    ensures Sum(ws) > 0.0
    ensures var nw := Scale(ws, Sum(ws));
      Sum(nw) == 1.0 && forall i :: 0 <= i < |nw| ==> nw[i] >= 0.0
  {
    SumPositive(ws);
    var total := Sum(ws);
    SumScale(ws, total);
    assert total / total == 1.0;
    forall i | 0 <= i < |ws| ensures ws[i] / total >= 0.0 {
      DivideMonotone(0.0, ws[i], total);
    }
  }

  /** Under weights that sum to 1 the weighted average stays within the values' bounds. */
  lemma AverageBounds(xs: seq<real>, nw: seq<real>, lo: real, hi: real)
    requires |xs| == |nw| && Sum(nw) == 1.0
    requires forall i :: 0 <= i < |nw| ==> nw[i] >= 0.0 && lo <= xs[i] <= hi
    ensures lo <= WeightedSum(xs, nw) / Sum(nw) <= hi
  {
    WeightedSumBounds(xs, nw, lo, hi);
    assert lo * Sum(nw) == lo && hi * Sum(nw) == hi;
    assert WeightedSum(xs, nw) / Sum(nw) == WeightedSum(xs, nw);
  }

  /** The plain mean of the selected rows lies, component by component, within the rows' bounds. */
  lemma MeanRowsBounds(rows: seq<seq<real>>, idx: seq<nat>, width: nat, lo: real, hi: real)
    requires Rectangular(rows, width) && Selects(rows, idx) && |idx| > 0
    requires forall t, c :: 0 <= t < |idx| && 0 <= c < width ==> lo <= rows[idx[t]][c] <= hi
    ensures var e := MeanRows(rows, idx, width);
      forall c :: 0 <= c < width ==> lo <= e[c] <= hi
  {
    forall c | 0 <= c < width ensures lo <= Mean(Column(rows, idx, c)) <= hi {
      MeanBounds(Column(rows, idx, c), lo, hi);
    }
  }

  // ---------------------------------------------------------------------------
  // What training reads from a matrix row
  // ---------------------------------------------------------------------------

  /** `(id, value)` for the first `k` columns of row `r` holding a positive value, in column order. */
  function PositivePrefix(m: Matrix, r: nat, k: nat): (ps: seq<(int, real)>)
    requires WellFormed(m) && r < |m.users| && k <= |m.items|
    ensures |ps| <= k
    ensures forall i :: 0 <= i < |ps| ==> ps[i].1 > 0.0 && ps[i].0 in m.items[..k]
  {
    if k == 0 then []
    else
      var init := PositivePrefix(m, r, k - 1);
      assert m.items[..k - 1] <= m.items[..k];
      if m.cells[r][k - 1] > 0.0 then init + [(m.items[k - 1], m.cells[r][k - 1])] else init
  }

  /**
   * `row[row > 0]` as (item id, value) pairs: the items user row `r` has
   * interacted with, with the interaction strength.
   */
  function Positive(m: Matrix, r: nat): seq<(int, real)>
    requires WellFormed(m) && r < |m.users|
  {
    PositivePrefix(m, r, |m.items|)
  }

  /** Values of a list of pairs. */
  function ValuesOf(ps: seq<(int, real)>): (vs: seq<real>)
    ensures |vs| == |ps| && forall i :: 0 <= i < |ps| ==> vs[i] == ps[i].1
  {
    seq(|ps|, i requires 0 <= i < |ps| => ps[i].1)
  }

  /**
   * The positive part of a row lists, in column order, exactly the columns
   * with a positive value, each with its value.
   */
  lemma PositiveSpec(m: Matrix, r: nat, k: nat)
    requires WellFormed(m) && r < |m.users| && k <= |m.items|
    ensures var ps := PositivePrefix(m, r, k);
      && (forall i :: 0 <= i < |ps| ==> ps[i].0 in m.items && IndexOf(m.items, ps[i].0) < k
                                        && ps[i].1 == m.cells[r][IndexOf(m.items, ps[i].0)])
      && (forall c :: 0 <= c < k && m.cells[r][c] > 0.0 ==> m.items[c] in KeysOf(ps))
      && Distinct(KeysOf(ps))
  {
    PositiveEntries(m, r, k);
    var ps := PositivePrefix(m, r, k);
    forall i | 0 <= i < |ps|
      ensures ps[i].0 in m.items && IndexOf(m.items, ps[i].0) < k && ps[i].1 == m.cells[r][IndexOf(m.items, ps[i].0)]
    {
      assert PositiveEntry(m, r, k, ps[i]);
    }
    PositiveCovers(m, r, k);
    PositiveDistinct(m, r, k);
  }

  lemma {:induction false} PositiveEntries(m: Matrix, r: nat, k: nat)
    requires WellFormed(m) && r < |m.users| && k <= |m.items|
    ensures forall i :: 0 <= i < |PositivePrefix(m, r, k)| ==> PositiveEntry(m, r, k, PositivePrefix(m, r, k)[i])
  {
    if k > 0 {
      PositiveEntries(m, r, k - 1);
      IndexOfDistinct(m.items, k - 1);
      var init, ps := PositivePrefix(m, r, k - 1), PositivePrefix(m, r, k);
      if m.cells[r][k - 1] > 0.0 {
        assert ps == init + [(m.items[k - 1], m.cells[r][k - 1])];
        forall i | 0 <= i < |ps| ensures PositiveEntry(m, r, k, ps[i]) {
          if i < |init| {
            assert ps[i] == init[i] && PositiveEntry(m, r, k - 1, init[i]);
          } else {
            assert ps[i] == (m.items[k - 1], m.cells[r][k - 1]);
          }
        }
      } else {
        assert ps == init;
        forall i | 0 <= i < |ps| ensures PositiveEntry(m, r, k, ps[i]) {
          assert PositiveEntry(m, r, k - 1, init[i]);
        }
      }
    }
  }

  /** `e` is the id and value of one of the first `k` columns of row `r`. */
  predicate PositiveEntry(m: Matrix, r: nat, k: nat, e: (int, real))
    requires WellFormed(m) && r < |m.users|
  {
    e.0 in m.items && IndexOf(m.items, e.0) < k && e.1 == m.cells[r][IndexOf(m.items, e.0)]
  }

  lemma {:induction false} PositiveCovers(m: Matrix, r: nat, k: nat)
    requires WellFormed(m) && r < |m.users| && k <= |m.items|
    ensures forall c :: 0 <= c < k && m.cells[r][c] > 0.0 ==> m.items[c] in KeysOf(PositivePrefix(m, r, k))
  {
    if k > 0 {
      PositiveCovers(m, r, k - 1);
      var init := PositivePrefix(m, r, k - 1);
      if m.cells[r][k - 1] > 0.0 {
        assert KeysOf(PositivePrefix(m, r, k)) == KeysOf(init) + [m.items[k - 1]];
      }
    }
  }

  lemma {:induction false} PositiveDistinct(m: Matrix, r: nat, k: nat)
    requires WellFormed(m) && r < |m.users| && k <= |m.items|
    ensures Distinct(KeysOf(PositivePrefix(m, r, k)))
  {
    if k > 0 {
      PositiveDistinct(m, r, k - 1);
      var init := PositivePrefix(m, r, k - 1);
      if m.cells[r][k - 1] > 0.0 {
        NewPositiveKey(m, r, k);
        assert KeysOf(PositivePrefix(m, r, k)) == KeysOf(init) + [m.items[k - 1]];
        DistinctSnoc(KeysOf(init), m.items[k - 1]);
      }
    }
  }

  /** The item of column `k - 1` is not among the keys of the columns before it. */
  lemma NewPositiveKey(m: Matrix, r: nat, k: nat)
    requires WellFormed(m) && r < |m.users| && 0 < k <= |m.items|
    ensures m.items[k - 1] !in KeysOf(PositivePrefix(m, r, k - 1))
  {
    var init := PositivePrefix(m, r, k - 1);
    PositiveEntries(m, r, k - 1);
    IndexOfDistinct(m.items, k - 1);
    forall i | 0 <= i < |init| ensures init[i].0 != m.items[k - 1] {
      assert PositiveEntry(m, r, k - 1, init[i]);
    }
  }

  /** Catalog ids are unique and the similarity matrix is square over the catalog. */
  predicate Catalogued(catalog: seq<int>, similarity: seq<seq<real>>)
  {
    Distinct(catalog) && |similarity| == |catalog| && Rectangular(similarity, |catalog|)
  }

  /** The user of row `r` rated at least one catalog item positively. */
  predicate RatedSomeCatalogItem(m: Matrix, r: nat, catalog: seq<int>)
    requires WellFormed(m) && r < |m.users|
  {
    exists c :: 0 <= c < |m.items| && m.cells[r][c] > 0.0 && m.items[c] in catalog
  }

  /** Some positively rated item is in the catalog exactly when `movie_indices` is non-empty. */
  lemma ProfileExists(m: Matrix, r: nat, catalog: seq<int>)
    requires WellFormed(m) && r < |m.users|
    ensures |CatalogPositions(KeysOf(Positive(m, r)), catalog)| > 0 <==> RatedSomeCatalogItem(m, r, catalog)
  {
    var keys := KeysOf(Positive(m, r));
    RatedKeys(m, r);
    CatalogPositionsEmpty(keys, catalog);
    if RatedSomeCatalogItem(m, r, catalog) {
      var c :| 0 <= c < |m.items| && m.cells[r][c] > 0.0 && m.items[c] in catalog;
      var i :| 0 <= i < |keys| && keys[i] == m.items[c];
    }
    if |CatalogPositions(keys, catalog)| > 0 {
      var i :| 0 <= i < |keys| && keys[i] in catalog;
      var c := IndexOf(m.items, keys[i]);
      assert m.items[c] in keys;
    }
  }

  /** The rated ids of row `r` are exactly the columns holding a positive rating. */
  lemma RatedKeys(m: Matrix, r: nat)
    requires WellFormed(m) && r < |m.users|
    ensures forall c :: 0 <= c < |m.items| ==> (m.items[c] in KeysOf(Positive(m, r)) <==> m.cells[r][c] > 0.0)
    ensures forall id :: id in KeysOf(Positive(m, r)) ==> id in m.items
    ensures Distinct(KeysOf(Positive(m, r)))
  {
    var keys := KeysOf(Positive(m, r));
    PositiveSpec(m, r, |m.items|);
    forall c | 0 <= c < |m.items| && m.items[c] in keys ensures m.cells[r][c] > 0.0 {
      var i :| 0 <= i < |keys| && keys[i] == m.items[c];
      IndexOfDistinct(m.items, c);
    }
  }

  /** The mean of a non-empty positive part is positive. */
  lemma PositiveMean(m: Matrix, r: nat)
    requires WellFormed(m) && r < |m.users| && |Positive(m, r)| > 0
    ensures Mean(ValuesOf(Positive(m, r))) > 0.0
  {
    SumPositive(ValuesOf(Positive(m, r)));
  }

  // ---------------------------------------------------------------------------
  // Per-label aggregates built in `train`
  // ---------------------------------------------------------------------------

  /** The label (category, genre, artist...) of an item the catalog holds, read from its first catalog row. */
  function LabelOf(catalog: seq<int>, labels: seq<string>, id: int): string
    requires |labels| == |catalog| && id in catalog
  {
    labels[IndexOf(catalog, id)]
  }

  /**
   * The per-label loops of `train`: for each interacted item the catalog
   * holds, in interaction order, its label paired with the interaction
   * strength.
   */
  function Labelled(rated: seq<(int, real)>, catalog: seq<int>, labels: seq<string>): seq<(string, real)>
    requires |labels| == |catalog|
  {
    if rated == [] then []
    else
      var init := Labelled(rated[..|rated| - 1], catalog, labels);
      var e := rated[|rated| - 1];
      if e.0 in catalog then init + [(LabelOf(catalog, labels, e.0), e.1)] else init
  }

  /** Reference definition: the strengths of the interacted catalog items labelled `lab`, in order. */
  function StrengthsOf(rated: seq<(int, real)>, catalog: seq<int>, labels: seq<string>, lab: string): seq<real>
    requires |labels| == |catalog|
  {
    if rated == [] then []
    else
      var e := rated[|rated| - 1];
      StrengthsOf(rated[..|rated| - 1], catalog, labels, lab)
        + (if e.0 in catalog && LabelOf(catalog, labels, e.0) == lab then [e.1] else [])
  }

  /** The values the label loop pairs with `lab` are exactly that label's strengths. */
  lemma {:induction false} LabelledValues(rated: seq<(int, real)>, catalog: seq<int>, labels: seq<string>, lab: string)
    requires |labels| == |catalog|
    ensures ValuesFor(Labelled(rated, catalog, labels), lab) == StrengthsOf(rated, catalog, labels, lab)
  {
    if rated != [] {
      LabelledValues(rated[..|rated| - 1], catalog, labels, lab);
      var init := Labelled(rated[..|rated| - 1], catalog, labels);
      var e := rated[|rated| - 1];
      if e.0 in catalog {
        var pairs := init + [(LabelOf(catalog, labels, e.0), e.1)];
        assert pairs[..|pairs| - 1] == init;
      }
    }
  }

  /**
   * Summing per label (`d[label] = d.get(label, 0) + strength`) keeps each
   * label once, holds exactly the labels of interacted catalog items, and
   * holds under each label the sum of its strengths.
   */
  lemma LabelSumsSpec(rated: seq<(int, real)>, catalog: seq<int>, labels: seq<string>)
    requires |labels| == |catalog|
    ensures var acc := Accumulate(Labelled(rated, catalog, labels));
      && Distinct(KeysOf(acc))
      && forall lab ::
           && (lab in KeysOf(acc) <==> |StrengthsOf(rated, catalog, labels, lab)| > 0)
           && Lookup(acc, lab, 0.0) == Sum(StrengthsOf(rated, catalog, labels, lab))
  {
    var pairs := Labelled(rated, catalog, labels);
    AccumulateSpec(pairs);
    forall lab
      ensures lab in KeysOf(Accumulate(pairs)) <==> |StrengthsOf(rated, catalog, labels, lab)| > 0
      ensures Lookup(Accumulate(pairs), lab, 0.0) == Sum(StrengthsOf(rated, catalog, labels, lab))
    {
      LabelledValues(rated, catalog, labels, lab);
      ValuesForNonEmpty(pairs, lab);
      SumForValues(pairs, lab);
    }
  }

  /**
   * `[catalog.index(id) for id in ids if id in catalog]`: the catalog rows
   * of the listed ids, skipping ids the catalog does not hold.
   */
  function CatalogPositions(ids: seq<int>, catalogIds: seq<int>): (idx: seq<nat>)
    ensures |idx| <= |ids|
    ensures forall t :: 0 <= t < |idx| ==> idx[t] < |catalogIds| && catalogIds[idx[t]] in ids
  {
    if ids == [] then []
    else
      var init := CatalogPositions(ids[..|ids| - 1], catalogIds);
      var id := ids[|ids| - 1];
      assert forall x :: x in ids[..|ids| - 1] ==> x in ids;
      if id in catalogIds then init + [IndexOf(catalogIds, id)] else init
  }

  /** When every id is in the catalog, each id gets its own row, in order. */
  lemma {:induction false} CatalogPositionsAll(ids: seq<int>, catalogIds: seq<int>)
    requires forall i :: 0 <= i < |ids| ==> ids[i] in catalogIds
    ensures var idx := CatalogPositions(ids, catalogIds);
      |idx| == |ids| && forall t :: 0 <= t < |idx| ==> catalogIds[idx[t]] == ids[t]
  {
    if ids != [] {
      CatalogPositionsAll(ids[..|ids| - 1], catalogIds);
    }
  }

  /** Some listed id is in the catalog exactly when at least one row is selected. */
  lemma {:induction false} CatalogPositionsEmpty(ids: seq<int>, catalogIds: seq<int>)
    ensures |CatalogPositions(ids, catalogIds)| == 0 <==> forall i :: 0 <= i < |ids| ==> ids[i] !in catalogIds
  {
    if ids != [] {
      CatalogPositionsEmpty(ids[..|ids| - 1], catalogIds);
    }
  }

  // ---------------------------------------------------------------------------
  // The shared tail of every `recommend`
  // ---------------------------------------------------------------------------

  /**
   * Blend the two (already normalised) maps, keep the best n, and keep
   * those whose item the catalog holds.
   */
  ghost function HybridRanking(cf: map<int, real>, content: map<int, real>, alpha: real, n: nat,
                               catalogIds: seq<int>, d: Domain): seq<Recommendation>
  {
    InCatalog(RankTop(Blend(cf, content, alpha), n), catalogIds, d)
  }

  /**
   * At most n recommendations, in non-increasing score order, each for a
   * distinct catalog item of domain d that one of the maps scored, carrying
   * its blended score; every catalog item among the n best is recommended,
   * and a catalog item scored above a recommended one is itself recommended.
   */
  lemma HybridRankingIsRanked(cf: map<int, real>, content: map<int, real>, alpha: real, n: nat,
                              catalogIds: seq<int>, d: Domain)
    ensures var r := HybridRanking(cf, content, alpha, n, catalogIds, d);
      var h := Blend(cf, content, alpha);
      && |r| <= n
      && SortedDesc(r, RecScore)
      && (forall i :: 0 <= i < |r| ==> r[i].domain == d && r[i].itemId in catalogIds
                                         && r[i].itemId in h && r[i].score == h[r[i].itemId])
      && DistinctItems(r)
      && PicksBest(r, h, n, catalogIds, d)
  {
    var h := Blend(cf, content, alpha);
    RankTopIsTopN(h, n);
    FilterRanked(RankTop(h, n), h, n, catalogIds, d);
    InCatalogKeepsAll(RankTop(h, n), catalogIds, d);
    InCatalogNoneBetterLeftOut(RankTop(h, n), h, n, catalogIds, d);
  }

  /** Some recommendation is for item `k`. */
  predicate Recommends(r: seq<Recommendation>, k: int)
  {
    exists j :: 0 <= j < |r| && r[j].itemId == k
  }

  /**
   * `r` keeps every catalog item among the n best entries of `h`, and no
   * catalog item that `h` scores above a recommended one is missing.
   */
  ghost predicate PicksBest(r: seq<Recommendation>, h: map<int, real>, n: nat, catalogIds: seq<int>, d: Domain)
  {
    && (forall e :: e in RankTop(h, n) && e.0 in catalogIds ==> Recommendation(e.0, d, e.1) in r)
    && (forall k, i :: k in h && k in catalogIds && 0 <= i < |r| && h[k] > r[i].score ==> Recommends(r, k))
  }

  /** Filtering the best entries of a map by the catalog leaves out no catalog item that outscores one it keeps. */
  lemma InCatalogNoneBetterLeftOut(ranked: seq<(int, real)>, h: map<int, real>, n: nat, catalogIds: seq<int>, d: Domain)
    requires BestEntries(ranked, h, n)
    ensures var r := InCatalog(ranked, catalogIds, d);
      forall k, i :: k in h && k in catalogIds && 0 <= i < |r| && h[k] > r[i].score ==> Recommends(r, k)
  {
    var r := InCatalog(ranked, catalogIds, d);
    InCatalogKeepsAll(ranked, catalogIds, d);
    forall k, i | k in h && k in catalogIds && 0 <= i < |r| && h[k] > r[i].score ensures Recommends(r, k) {
      var q :| 0 <= q < |ranked| && ranked[q] == (r[i].itemId, r[i].score);
      BetterIsRanked(ranked, h, n, k, q);
      assert Recommendation(k, d, h[k]) in r;
      var j :| 0 <= j < |r| && r[j] == Recommendation(k, d, h[k]);
      assert r[j].itemId == k;
    }
  }

  /** An item of the map scored above a ranked entry is itself ranked. */
  lemma BetterIsRanked(ranked: seq<(int, real)>, h: map<int, real>, n: nat, k: int, q: nat)
    requires BestEntries(ranked, h, n) && k in h && q < |ranked| && h[k] > ranked[q].1
    ensures (k, h[k]) in ranked
  {
    assert exists p :: 0 <= p < |ranked| && ranked[p].0 == k;
    var p :| 0 <= p < |ranked| && ranked[p].0 == k;
    assert ranked[p] == (k, h[k]);
  }

  /** With nothing scored on either side there is nothing to recommend. */
  lemma HybridRankingOfNothing(alpha: real, n: nat, catalogIds: seq<int>, d: Domain)
    ensures HybridRanking(map[], map[], alpha, n, catalogIds, d) == []
  {
    var h := Blend(map[], map[], alpha);
    assert h.Keys == {};
    assert h == map[];
    RankTopIsTopN(h, n);
  }

  /**
   * With the guarded normalisation, alpha in [0, 1] and no negative raw
   * score, every recommended score lies in [0, 1].
   */
  lemma GuardedRankingBounds(cf: map<int, real>, content: map<int, real>, alpha: real, n: nat,
                             catalogIds: seq<int>, d: Domain)
    requires 0.0 <= alpha <= 1.0
    requires forall k :: k in cf ==> cf[k] >= 0.0
    requires forall k :: k in content ==> content[k] >= 0.0
    ensures var r := HybridRanking(NormalisedIfPositive(cf), NormalisedIfPositive(content), alpha, n, catalogIds, d);
      forall i :: 0 <= i < |r| ==> 0.0 <= r[i].score <= 1.0
  {
    var ncf, ncontent := NormalisedIfPositive(cf), NormalisedIfPositive(content);
    NormalisedIfPositiveBounds(cf);
    NormalisedIfPositiveBounds(content);
    BlendBounds(ncf, ncontent, alpha);
    HybridRankingIsRanked(ncf, ncontent, alpha, n, catalogIds, d);
  }

  lemma FilterRanked(ranked: seq<(int, real)>, h: map<int, real>, n: nat, catalogIds: seq<int>, d: Domain)
    requires |ranked| <= n && SortedDesc(ranked, EntryScore)
    requires forall i :: 0 <= i < |ranked| ==> ranked[i].0 in h && ranked[i].1 == h[ranked[i].0]
    requires forall i, j :: 0 <= i < j < |ranked| ==> ranked[i].0 != ranked[j].0
    ensures var r := InCatalog(ranked, catalogIds, d);
      && |r| <= n
      && SortedDesc(r, RecScore)
      && (forall i :: 0 <= i < |r| ==> r[i].domain == d && r[i].itemId in catalogIds
                                         && r[i].itemId in h && r[i].score == h[r[i].itemId])
      && DistinctItems(r)
  {
    InCatalogKeepsOrder(ranked, catalogIds, d);
    InCatalogDistinct(ranked, catalogIds, d);
    InCatalogScores(ranked, h, catalogIds, d);
  }

  lemma InCatalogScores(ranked: seq<(int, real)>, h: map<int, real>, catalogIds: seq<int>, d: Domain)
    requires forall i :: 0 <= i < |ranked| ==> ranked[i].0 in h && ranked[i].1 == h[ranked[i].0]
    ensures var r := InCatalog(ranked, catalogIds, d);
      forall i :: 0 <= i < |r| ==> r[i].itemId in h && r[i].score == h[r[i].itemId]
  {
    var r := InCatalog(ranked, catalogIds, d);
    forall i | 0 <= i < |r| ensures r[i].itemId in h && r[i].score == h[r[i].itemId] {
      var q :| 0 <= q < |ranked| && ranked[q] == (r[i].itemId, r[i].score);
    }
  }

  /**
   * The collaborative map is empty for a user outside the matrix; otherwise
   * an item is scored exactly when the user has not interacted with it and
   * a neighbour has, and its score averages at most ten contributions.
   */
  lemma CollaborativeScoresSpec(m: Matrix, user: int, sims: seq<real>, order: seq<nat>, strength: real -> real)
    requires CfInputs(m, sims, order)
    ensures var cf := CollaborativeScores(m, user, sims, order, strength);
      && (user !in m.users ==> cf == map[])
      && (user in m.users ==>
            var u := IndexOf(m.users, user);
            var nbs := Neighbours(order);
            && |nbs| <= 10
            && RowPositions(m, nbs)
            && forall c :: 0 <= c < |m.items| ==>
                 && (m.items[c] in cf <==> m.cells[u][c] <= 0.0 && exists k :: 0 <= k < |nbs| && m.cells[nbs[k]][c] > 0.0)
                 && (m.items[c] in cf ==>
                       var cs := Contributions(m, sims, nbs, c, strength);
                       0 < |cs| <= 10 && cf[m.items[c]] == Mean(cs)))
  {
    if user in m.users {
      var u := IndexOf(m.users, user);
      var nbs := Neighbours(order);
      NeighboursAreNextTen(sims, order);
      forall c | 0 <= c < |m.items|
        ensures |Contributions(m, sims, nbs, c, strength)| > 0 <==> exists k :: 0 <= k < |nbs| && m.cells[nbs[k]][c] > 0.0
        ensures |Contributions(m, sims, nbs, c, strength)| <= |nbs|
      {
        ContributionsNonEmpty(m, sims, nbs, c, strength);
        IndexOfDistinct(m.items, c);
      }
      forall c | 0 <= c < |m.items| ensures IndexOf(m.items, m.items[c]) == c {
        IndexOfDistinct(m.items, c);
      }
    }
  }

  lemma {:induction false} ContributionsNonEmpty(m: Matrix, sims: seq<real>, nbs: seq<nat>, c: nat, strength: real -> real)
    requires WellFormed(m) && |sims| == |m.users| && RowPositions(m, nbs) && c < |m.items|
    ensures |Contributions(m, sims, nbs, c, strength)| > 0 <==> exists k :: 0 <= k < |nbs| && m.cells[nbs[k]][c] > 0.0
    ensures |Contributions(m, sims, nbs, c, strength)| <= |nbs|
  {
    if nbs != [] {
      var init := nbs[..|nbs| - 1];
      assert RowPositions(m, init);
      ContributionsNonEmpty(m, sims, init, c, strength);
      if exists k :: 0 <= k < |nbs| && m.cells[nbs[k]][c] > 0.0 {
        var k :| 0 <= k < |nbs| && m.cells[nbs[k]][c] > 0.0;
        if k < |init| {
          assert m.cells[init[k]][c] > 0.0;
        }
      }
    }
  }

  // ---------------------------------------------------------------------------
  // The profile table `train` fills, one matrix row at a time
  // ---------------------------------------------------------------------------

  /**
   * The profiles written for the first `k` matrix rows: `rows[r]` is what
   * the training of row `r` produced (None when no profile is written).
   */
  function ProfileMap<P>(users: seq<int>, rows: seq<Option<P>>, k: nat): map<int, P>
    requires |rows| == |users| && k <= |users|
  {
    map u | u in users[..k] && rows[IndexOf(users, u)].Some? :: rows[IndexOf(users, u)].value
  }

  /** Training one more row writes that row's profile, if any, under its user id. */
  lemma ProfileMapStep<P>(users: seq<int>, rows: seq<Option<P>>, k: nat, base: map<int, P>)
    requires Distinct(users) && |rows| == |users| && k < |users|
    ensures base + ProfileMap(users, rows, k + 1)
         == if rows[k].Some? then (base + ProfileMap(users, rows, k))[users[k] := rows[k].value]
            else base + ProfileMap(users, rows, k)
  {
    ProfileMapExtend(users, rows, k);
    if rows[k].Some? {
      UnionUpdate(base, ProfileMap(users, rows, k), users[k], rows[k].value);
    }
  }

  lemma ProfileMapExtend<P>(users: seq<int>, rows: seq<Option<P>>, k: nat)
    requires Distinct(users) && |rows| == |users| && k < |users|
    ensures ProfileMap(users, rows, k + 1)
         == if rows[k].Some? then ProfileMap(users, rows, k)[users[k] := rows[k].value]
            else ProfileMap(users, rows, k)
  {
    IndexOfDistinct(users, k);
    assert users[..k + 1] == users[..k] + [users[k]];
    var next := ProfileMap(users, rows, k + 1);
    var prev := ProfileMap(users, rows, k);
    var want := if rows[k].Some? then prev[users[k] := rows[k].value] else prev;
    assert users[k] !in prev by {
      forall j | 0 <= j < k ensures users[j] != users[k] { }
    }
    assert next.Keys == want.Keys;
    forall u | u in next ensures next[u] == want[u] { }
  }

  lemma UnionUpdate<P>(a: map<int, P>, b: map<int, P>, x: int, v: P)
    ensures a + b[x := v] == (a + b)[x := v]
  {
  }

  /** The trained table maps exactly the users whose row produced a profile, to that profile. */
  lemma ProfileMapFull<P>(users: seq<int>, rows: seq<Option<P>>)
    requires Distinct(users) && |rows| == |users|
    ensures var pm := ProfileMap(users, rows, |users|);
      forall r :: 0 <= r < |users| ==>
        (users[r] in pm <==> rows[r].Some?) && (users[r] in pm ==> pm[users[r]] == rows[r].value)
  {
    assert users[..|users|] == users;
    forall r | 0 <= r < |users| ensures IndexOf(users, users[r]) == r {
      IndexOfDistinct(users, r);
    }
  }

  // ---------------------------------------------------------------------------
  // Content scores: one pass over the catalog
  // ---------------------------------------------------------------------------

  /**
   * The content map every domain builds: each catalog item the user has
   * not interacted with (`skip`) gets the value computed for its catalog
   * row.
   */
  function CatalogScores(catalogIds: seq<int>, skip: seq<int>, vals: seq<real>): map<int, real>
    requires |vals| == |catalogIds|
  {
    map id | id in catalogIds && id !in skip :: vals[IndexOf(catalogIds, id)]
  }

  /** The catalog loop of every `get_content_scores`: `for idx, row in catalog: if id not in seen: scores[id] = value`. */
  method ScoreCatalog(catalogIds: seq<int>, skip: seq<int>, vals: seq<real>) returns (scores: map<int, real>)
    requires Distinct(catalogIds) && |vals| == |catalogIds|
    ensures scores == CatalogScores(catalogIds, skip, vals)
  {
    scores := map[];
    var i := 0;
    while i < |catalogIds|
      invariant 0 <= i <= |catalogIds|
      invariant forall id :: id in scores ==> id in catalogIds[..i]
      invariant forall j :: 0 <= j < i ==>
        (catalogIds[j] in scores <==> catalogIds[j] !in skip) && (catalogIds[j] in scores ==> scores[catalogIds[j]] == vals[j])
    {
      assert forall j :: 0 <= j < |catalogIds| && j != i ==> catalogIds[j] != catalogIds[i];
      if catalogIds[i] !in skip {
        scores := scores[catalogIds[i] := vals[i]];
      }
      assert catalogIds[..i + 1] == catalogIds[..i] + [catalogIds[i]];
      i := i + 1;
    }
    CatalogScoresSpec(catalogIds, skip, vals);
    assert catalogIds[..i] == catalogIds;
    var want := CatalogScores(catalogIds, skip, vals);
    forall id | id in scores ensures id in want && scores[id] == want[id] {
      var j := IndexOf(catalogIds, id);
    }
  }

  /**
   * The content map holds exactly the catalog items outside `skip`, each
   * with the value of its own catalog row, and nothing else.
   */
  lemma CatalogScoresSpec(catalogIds: seq<int>, skip: seq<int>, vals: seq<real>)
    requires Distinct(catalogIds) && |vals| == |catalogIds|
    ensures var s := CatalogScores(catalogIds, skip, vals);
      && (forall id :: id in s ==> id in catalogIds && id !in skip)
      && (forall j :: 0 <= j < |catalogIds| ==>
            (catalogIds[j] in s <==> catalogIds[j] !in skip) && (catalogIds[j] in s ==> s[catalogIds[j]] == vals[j]))
  {
    forall j | 0 <= j < |catalogIds| ensures IndexOf(catalogIds, catalogIds[j]) == j {
      IndexOfDistinct(catalogIds, j);
    }
  }

  /** Filtering one more ranked entry appends it when its item is in the catalog. */
  lemma InCatalogSnoc(ranked: seq<(int, real)>, i: nat, catalogIds: seq<int>, d: Domain)
    requires i < |ranked|
    ensures InCatalog(ranked[..i + 1], catalogIds, d)
         == InCatalog(ranked[..i], catalogIds, d)
            + (if ranked[i].0 in catalogIds then [Recommendation(ranked[i].0, d, ranked[i].1)] else [])
  {
    assert ranked[..i + 1][..i] == ranked[..i];
    assert ranked[..i + 1][i] == ranked[i];
  }

  /**
   * The first n catalog entries of a key-distinct descending ranking: at
   * most n distinct items of domain d from the catalog, in descending
   * order, each an entry of the ranking.
   */
  lemma TakeInCatalog(ranked: seq<(int, real)>, catalogIds: seq<int>, d: Domain, n: nat)
    requires SortedDesc(ranked, EntryScore)
    requires forall i, j :: 0 <= i < j < |ranked| ==> ranked[i].0 != ranked[j].0
    ensures var r := Take(InCatalog(ranked, catalogIds, d), n);
      && |r| <= n
      && SortedDesc(r, RecScore)
      && DistinctItems(r)
      && forall i :: 0 <= i < |r| ==> r[i].domain == d && r[i].itemId in catalogIds && (r[i].itemId, r[i].score) in ranked
  {
    InCatalogKeepsOrder(ranked, catalogIds, d);
    InCatalogDistinct(ranked, catalogIds, d);
  }

  /**
   * Of a descending ranking, a catalog entry left out of the first n
   * catalog entries scores no higher than any entry taken.
   */
  lemma TakeInCatalogPassedOver(ranked: seq<(int, real)>, catalogIds: seq<int>, d: Domain, n: nat, e: (int, real), i: nat)
    requires SortedDesc(ranked, EntryScore) && e in ranked && e.0 in catalogIds
    requires !Recommends(Take(InCatalog(ranked, catalogIds, d), n), e.0)
    requires i < |Take(InCatalog(ranked, catalogIds, d), n)|
    ensures e.1 <= Take(InCatalog(ranked, catalogIds, d), n)[i].score
  {
    var ic := InCatalog(ranked, catalogIds, d);
    var r := Take(ic, n);
    InCatalogKeepsAll(ranked, catalogIds, d);
    InCatalogKeepsOrder(ranked, catalogIds, d);
    var q :| 0 <= q < |ic| && ic[q] == Recommendation(e.0, d, e.1);
    assert q >= |r|;
    assert r[i] == ic[i];
  }

  /** Fewer than n of the first n catalog entries means every catalog item of the ranking is among them. */
  lemma TakeInCatalogKeepsKeys(ranked: seq<(int, real)>, catalogIds: seq<int>, d: Domain, n: nat)
    ensures var r := Take(InCatalog(ranked, catalogIds, d), n);
      forall k :: k in KeysOf(ranked) && k in catalogIds && |r| < n ==> Recommends(r, k)
  {
    var r := Take(InCatalog(ranked, catalogIds, d), n);
    InCatalogKeepsAll(ranked, catalogIds, d);
    forall k | k in KeysOf(ranked) && k in catalogIds && |r| < n ensures Recommends(r, k) {
      var p :| 0 <= p < |ranked| && KeysOf(ranked)[p] == k;
      var e := ranked[p];
      assert e in ranked;
      assert Recommendation(k, d, e.1) in r;
    }
  }

  /** Filtering a ranking by the catalog distributes over concatenation. */
  lemma {:induction false} InCatalogAppend(a: seq<(int, real)>, b: seq<(int, real)>, catalogIds: seq<int>, d: Domain)
    ensures InCatalog(a + b, catalogIds, d) == InCatalog(a, catalogIds, d) + InCatalog(b, catalogIds, d)
  {
    if b == [] {
      assert a + b == a;
    } else {
      var b' := b[..|b| - 1];
      InCatalogAppend(a, b', catalogIds, d);
      assert (a + b)[..|a + b| - 1] == a + b';
      assert (a + b)[|a + b| - 1] == b[|b| - 1];
    }
  }
}
