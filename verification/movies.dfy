/**
 * The movie recommender (backend/movie_recommender.py): per-user profiles
 * built from the rating matrix and the genre similarity of the catalog,
 * collaborative and content score maps, the popularity ranking used for
 * cold start, and the hybrid `recommend`.
 *
 * The rating matrix, the catalog order of movie ids and the TF-IDF cosine
 * similarity between catalog movies are the state `prepare_data` leaves
 * behind; here they are the constructor's inputs. Titles and genre strings
 * only decorate the output and are not modelled.
 */
module MovieModel {
  import opened Common
  import opened Hybrid

  /** `user_profiles[user]`: the mean similarity row, every positively rated id, the mean positive rating. */
  datatype MovieProfile = MovieProfile(embedding: seq<real>, ratedItems: seq<int>, avgRating: real)

  /** A movie rating enters the collaborative score unchanged. */
  function Rating(v: real): real { v }

  /**
   * The body of `train` for matrix row `r`: a profile exists when the user
   * rated something positively and at least one of those movies is in the
   * catalog; its embedding is the mean of the catalog similarity rows of
   * those movies.
   */
  function TrainedProfile(m: Matrix, r: nat, catalog: seq<int>, similarity: seq<seq<real>>): Option<MovieProfile>
    requires WellFormed(m) && r < |m.users| && Catalogued(catalog, similarity)
  {
    var rated := Positive(m, r);
    var idx := CatalogPositions(KeysOf(rated), catalog);
    if |rated| == 0 || |idx| == 0 then None
    else Some(MovieProfile(MeanRows(similarity, idx, |catalog|), KeysOf(rated), Mean(ValuesOf(rated))))
  }

  function TrainedRows(m: Matrix, catalog: seq<int>, similarity: seq<seq<real>>): (rows: seq<Option<MovieProfile>>)
    requires WellFormed(m) && Catalogued(catalog, similarity)
    ensures |rows| == |m.users|
  {
    seq(|m.users|, r requires 0 <= r < |m.users| => TrainedProfile(m, r, catalog, similarity))
  }

  /** The profiles one full `train` pass writes. */
  function TrainedProfiles(m: Matrix, catalog: seq<int>, similarity: seq<seq<real>>): map<int, MovieProfile>
    requires WellFormed(m) && Catalogued(catalog, similarity)
  {
    ProfileMap(m.users, TrainedRows(m, catalog, similarity), |m.users|)
  }

  /**
   * A profile is written exactly for users with a positive rating of a
   * catalog movie; it lists every positively rated movie (in the catalog
   * or not) once, its average rating is positive, and its embedding has one
   * entry per catalog movie.
   */
  lemma TrainedProfileSpec(m: Matrix, r: nat, catalog: seq<int>, similarity: seq<seq<real>>)
    requires WellFormed(m) && r < |m.users| && Catalogued(catalog, similarity)
    ensures TrainedProfile(m, r, catalog, similarity).Some? <==> RatedSomeCatalogItem(m, r, catalog)
    ensures TrainedProfile(m, r, catalog, similarity).Some? ==>
      var p := TrainedProfile(m, r, catalog, similarity).value;
      && |p.embedding| == |catalog|
      && Distinct(p.ratedItems)
      && (forall c :: 0 <= c < |m.items| ==> (m.items[c] in p.ratedItems <==> m.cells[r][c] > 0.0))
      && (forall id :: id in p.ratedItems ==> id in m.items)
      && p.avgRating > 0.0
  {
    var rated := Positive(m, r);
    var idx := CatalogPositions(KeysOf(rated), catalog);
    ProfileExists(m, r, catalog);
    assert |idx| <= |rated|;
    if TrainedProfile(m, r, catalog, similarity).Some? {
      TrainedProfileContents(m, r, catalog, similarity);
    }
  }

  /** The contents of a written profile. */
  lemma TrainedProfileContents(m: Matrix, r: nat, catalog: seq<int>, similarity: seq<seq<real>>)
    requires WellFormed(m) && r < |m.users| && Catalogued(catalog, similarity)
    requires TrainedProfile(m, r, catalog, similarity).Some?
    ensures var p := TrainedProfile(m, r, catalog, similarity).value;
      && |p.embedding| == |catalog|
      && Distinct(p.ratedItems)
      && (forall c :: 0 <= c < |m.items| ==> (m.items[c] in p.ratedItems <==> m.cells[r][c] > 0.0))
      && (forall id :: id in p.ratedItems ==> id in m.items)
      && p.avgRating > 0.0
  {
    var rated := Positive(m, r);
    var p := TrainedProfile(m, r, catalog, similarity).value;
    assert p.ratedItems == KeysOf(rated);
    assert p.avgRating == Mean(ValuesOf(rated));
    RatedKeys(m, r);
    PositiveMean(m, r);
  }


  /**
   * Bounds carried by the profile: with similarities in [lo, hi] the
   * embedding lies in [lo, hi], and with ratings at most `top` the average
   * rating is at most `top`.
   */
  lemma TrainedProfileBounds(m: Matrix, r: nat, catalog: seq<int>, similarity: seq<seq<real>>, lo: real, hi: real, top: real)
    requires WellFormed(m) && r < |m.users| && Catalogued(catalog, similarity)
    requires forall i, c :: 0 <= i < |catalog| && 0 <= c < |catalog| ==> lo <= similarity[i][c] <= hi
    requires forall c :: 0 <= c < |m.items| ==> m.cells[r][c] <= top
    requires TrainedProfile(m, r, catalog, similarity).Some?
    ensures var p := TrainedProfile(m, r, catalog, similarity).value;
      && (forall c :: 0 <= c < |catalog| ==> lo <= p.embedding[c] <= hi)
      && p.avgRating <= top
  {
    var rated := Positive(m, r);
    var idx := CatalogPositions(KeysOf(rated), catalog);
    MeanRowsBounds(similarity, idx, |catalog|, lo, hi);
    PositiveSpec(m, r, |m.items|);
    MeanBounds(ValuesOf(rated), 0.0, top);
  }

  /** After `train`, a user has a profile exactly when their row produced one. */
  lemma TrainedProfilesSpec(m: Matrix, catalog: seq<int>, similarity: seq<seq<real>>)
    requires WellFormed(m) && Catalogued(catalog, similarity)
    ensures var pm := TrainedProfiles(m, catalog, similarity);
      forall r :: 0 <= r < |m.users| ==>
        (m.users[r] in pm <==> RatedSomeCatalogItem(m, r, catalog))
        && (m.users[r] in pm ==> Some(pm[m.users[r]]) == TrainedProfile(m, r, catalog, similarity))
  {
    var rows := TrainedRows(m, catalog, similarity);
    ProfileMapFull(m.users, rows);
    forall r | 0 <= r < |m.users|
      ensures TrainedProfile(m, r, catalog, similarity).Some? <==> RatedSomeCatalogItem(m, r, catalog)
    {
      TrainedProfileSpec(m, r, catalog, similarity);
    }
  }

  /** One movie's rating total, `user_item_matrix.sum(axis=0)[movie]`. */
  function ColumnTotal(m: Matrix, c: nat): real
    requires WellFormed(m) && c < |m.items|
  {
    Sum(seq(|m.users|, r requires 0 <= r < |m.users| => m.cells[r][c]))
  }

  /** The popularity series: (movie id, rating total) in column order. */
  function Popularity(m: Matrix): (pop: seq<(int, real)>)
    requires WellFormed(m)
    ensures |pop| == |m.items|
    ensures forall c :: 0 <= c < |m.items| ==> pop[c] == (m.items[c], ColumnTotal(m, c))
  {
    seq(|m.items|, c requires 0 <= c < |m.items| => (m.items[c], ColumnTotal(m, c)))
  }

  /** `item_popularity.max()`. */
  function MaxPopularity(m: Matrix): real
    requires WellFormed(m) && |m.items| > 0
  {
    SeqMax(ValuesOf(Popularity(m)))
  }

  /** `sort_values(ascending=False).head(2 * n)`. */
  function PopularHead(m: Matrix, n: nat): seq<(int, real)>
    requires WellFormed(m)
  {
    Take(SortDesc(Popularity(m), EntryScore), 2 * n)
  }

  /** Every score divided by `d`. */
  function DividedBy(es: seq<(int, real)>, d: real): (r: seq<(int, real)>)
    requires d != 0.0
    ensures |r| == |es| && forall i :: 0 <= i < |es| ==> r[i] == (es[i].0, es[i].1 / d)
  {
    seq(|es|, i requires 0 <= i < |es| => (es[i].0, es[i].1 / d))
  }

  /** Dividing by a positive number keeps a descending order. */
  lemma DividedByKeepsOrder(es: seq<(int, real)>, d: real)
    requires d > 0.0 && SortedDesc(es, EntryScore)
    ensures SortedDesc(DividedBy(es, d), EntryScore)
  {
    forall i, j | 0 <= i < j < |es| ensures es[j].1 / d <= es[i].1 / d {
      DivideMonotone(es[j].1, es[i].1, d);
    }
  }

  class MovieRecommender {
    /** The rating pivot table (None until `prepare_data` has run). */
    const matrix: Option<Matrix>
    /** Movie ids in catalog (`movies_df`) row order. */
    const catalog: seq<int>
    /** Genre similarity between catalog movies, by catalog row. */
    const similarity: seq<seq<real>>
    /** `user_profiles`. */
    var userProfiles: map<int, MovieProfile>

    ghost predicate Valid()
      reads this
    {
      && Catalogued(catalog, similarity)
      && (matrix.Some? ==> WellFormed(matrix.value))
      && forall u :: u in userProfiles ==> |userProfiles[u].embedding| == |catalog|
    }

    /** A recommender with the data `prepare_data` loads and no profiles yet. */
    constructor (matrix: Option<Matrix>, catalog: seq<int>, similarity: seq<seq<real>>)
      requires Catalogued(catalog, similarity) && (matrix.Some? ==> WellFormed(matrix.value))
      ensures Valid()
      ensures this.matrix == matrix && this.catalog == catalog && this.similarity == similarity
      ensures userProfiles == map[]
    {
      this.matrix := matrix;
      this.catalog := catalog;
      this.similarity := similarity;
      userProfiles := map[];
    }

    /** `train`: one pass over the matrix rows, writing each user's profile when one is built. */
    method Train()
      requires Valid() && matrix.Some?
      modifies this
      ensures Valid()
      ensures userProfiles == old(userProfiles) + TrainedProfiles(matrix.value, catalog, similarity)
    {
      var m := matrix.value;
      ghost var rows := TrainedRows(m, catalog, similarity);
      assert m.users[..0] == [];
      assert ProfileMap(m.users, rows, 0) == map[];
      var r := 0;
      while r < |m.users|
        invariant 0 <= r <= |m.users|
        invariant Valid()
        invariant userProfiles == old(userProfiles) + ProfileMap(m.users, rows, r)
      {
        var p := TrainedProfile(m, r, catalog, similarity);
        ProfileMapStep(m.users, rows, r, old(userProfiles));
        if p.Some? {
          userProfiles := userProfiles[m.users[r] := p.value];
        }
        r := r + 1;
      }
    }

    /** `get_collaborative_scores` with rating x similarity contributions. */
    method GetCollaborativeScores(user: int, sims: seq<real>, order: seq<nat>) returns (scores: map<int, real>)
      requires Valid() && matrix.Some? && CfInputs(matrix.value, sims, order)
      ensures scores == CollaborativeScores(matrix.value, user, sims, order, Rating)
    {
      scores := ComputeCollaborativeScores(matrix.value, user, sims, order, Rating);
    }

    /** What `get_content_scores` returns: every unrated catalog movie with its embedding entry. */
    function ContentScores(user: int): map<int, real>
      requires Valid()
      reads this
    {
      if user !in userProfiles then map[]
      else CatalogScores(catalog, userProfiles[user].ratedItems, userProfiles[user].embedding)
    }

    method GetContentScores(user: int) returns (scores: map<int, real>)
      requires Valid()
      ensures scores == ContentScores(user)
    {
      if user !in userProfiles {
        return map[];
      }
      var p := userProfiles[user];
      scores := ScoreCatalog(catalog, p.ratedItems, p.embedding);
    }

    /**
     * No profile, no content scores; with a profile, exactly the catalog
     * movies the user has not rated are scored, each with the embedding
     * entry at its catalog row.
     */
    lemma ContentScoresSpec(user: int)
      requires Valid()
      ensures user !in userProfiles ==> ContentScores(user) == map[]
      ensures user in userProfiles ==>
        var p := userProfiles[user];
        var cs := ContentScores(user);
        && (forall id :: id in cs ==> id in catalog && id !in p.ratedItems)
        && (forall j :: 0 <= j < |catalog| ==>
              (catalog[j] in cs <==> catalog[j] !in p.ratedItems) && (catalog[j] in cs ==> cs[catalog[j]] == p.embedding[j]))
    {
      if user in userProfiles {
        var p := userProfiles[user];
        CatalogScoresSpec(catalog, p.ratedItems, p.embedding);
      }
    }

    /** `get_user_embedding`: the profile embedding, or None for a user without a profile. */
    function GetUserEmbedding(user: int): (e: Option<seq<real>>)
      requires Valid()
      reads this
      ensures e.Some? <==> user in userProfiles
      ensures e.Some? ==> |e.value| == |catalog| && e.value == userProfiles[user].embedding
    {
      if user in userProfiles then Some(userProfiles[user].embedding) else None
    }

    /** Neither non-empty score map has a zero maximum, so both can be divided by it. */
    ghost predicate Normalisable(user: int, sims: seq<real>, order: seq<nat>)
      requires Valid() && matrix.Some? && CfInputs(matrix.value, sims, order)
      reads this
    {
      var cf := CollaborativeScores(matrix.value, user, sims, order, Rating);
      var content := ContentScores(user);
      && (cf != map[] ==> MaxValue(cf) != 0.0)
      && (content != map[] ==> MaxValue(content) != 0.0)
    }

    /**
     * `recommend` (defaults n = 10, alpha = 0.6): the popularity fallback
     * when neither map scores anything; otherwise both maps divided by
     * their maxima, blended, ranked and filtered by the catalog.
     */
    ghost function Recommend(user: int, n: nat, alpha: real, sims: seq<real>, order: seq<nat>): seq<Recommendation>
      requires Valid() && matrix.Some? && CfInputs(matrix.value, sims, order)
      requires PopularityDefined() && Normalisable(user, sims, order)
      reads this
    {
      var cf := CollaborativeScores(matrix.value, user, sims, order, Rating);
      var content := ContentScores(user);
      if cf == map[] && content == map[] then PopularItems(n)
      else HybridRanking(Normalised(cf), Normalised(content), alpha, n, catalog, Movies)
    }

    /**
     * The fallback is taken exactly when both maps are empty. Otherwise the
     * result has at most n distinct catalog movies in non-increasing score
     * order, each carrying alpha * cf / max(cf) + (1 - alpha) * content /
     * max(content), a missing side counting 0; every catalog movie among
     * the n best blended scores is kept, and no catalog movie scored above
     * a recommended one is left out.
     */
    lemma RecommendSpec(user: int, n: nat, alpha: real, sims: seq<real>, order: seq<nat>)
      requires Valid() && matrix.Some? && CfInputs(matrix.value, sims, order)
      requires PopularityDefined() && Normalisable(user, sims, order)
      ensures var cf := CollaborativeScores(matrix.value, user, sims, order, Rating);
        var content := ContentScores(user);
        var r := Recommend(user, n, alpha, sims, order);
        && |r| <= n
        && (cf == map[] && content == map[] ==> r == PopularItems(n))
        && (cf != map[] || content != map[] ==>
              var h := Blend(Normalised(cf), Normalised(content), alpha);
              && SortedDesc(r, RecScore)
              && DistinctItems(r)
              && PicksBest(r, h, n, catalog, Movies)
              && forall i :: 0 <= i < |r| ==>
                   r[i].domain == Movies && r[i].itemId in catalog && r[i].itemId in h && r[i].score == h[r[i].itemId])
    {
      var cf := CollaborativeScores(matrix.value, user, sims, order, Rating);
      var content := ContentScores(user);
      if cf != map[] || content != map[] {
        HybridRankingIsRanked(Normalised(cf), Normalised(content), alpha, n, catalog, Movies);
      }
    }

    /** The popularity maximum is usable as a divisor. */
    predicate PopularityDefined()
      reads this
    {
      matrix.Some? && WellFormed(matrix.value) && |matrix.value.items| > 0 ==> MaxPopularity(matrix.value) != 0.0
    }

    /**
     * `get_popular_items`: nothing without a matrix; otherwise the first n
     * catalog movies among the 2n most-rated ones, each scored by its
     * rating total over the largest total.
     */
    function PopularItems(n: nat): seq<Recommendation>
      requires Valid() && PopularityDefined()
      reads this
    {
      if matrix.None? || |matrix.value.items| == 0 then []
      else
        var m := matrix.value;
        PopularPick(m, n, catalog)
    }

    /** The loop of `get_popular_items`, which stops once n movies are collected. */
    method GetPopularItems(n: nat) returns (recs: seq<Recommendation>)
      requires Valid() && PopularityDefined()
      ensures recs == PopularItems(n)
    {
      if matrix.None? || |matrix.value.items| == 0 {
        return [];
      }
      var m := matrix.value;
      var top := DividedBy(PopularHead(m, n), MaxPopularity(m));
      recs := [];
      var i := 0;
      while i < |top|
        invariant 0 <= i <= |top|
        invariant recs == InCatalog(top[..i], catalog, Movies)
        invariant |recs| <= n
        invariant i < |top| ==> |recs| < n
      {
        InCatalogSnoc(top, i, catalog, Movies);
        if top[i].0 in catalog {
          recs := recs + [Recommendation(top[i].0, Movies, top[i].1)];
        }
        i := i + 1;
        if |recs| >= n {
          break;
        }
      }
      assert top == top[..i] + top[i..];
      InCatalogAppend(top[..i], top[i..], catalog, Movies);
      if i == |top| {
        assert top[i..] == [];
      }
      TakeAfterPrefix(recs, InCatalog(top[i..], catalog, Movies), n);
    }

    /**
     * With non-negative ratings: at most n distinct catalog movies, in
     * non-increasing popularity, each scored in [0, 1] as its rating total
     * over the largest total. Fewer than n only when every catalog movie of
     * the 2n-head is returned, and no catalog movie left out is more
     * popular than one returned.
     */
    lemma PopularItemsSpec(n: nat)
      requires Valid() && PopularityDefined()
      requires matrix.Some? ==> forall r, c :: 0 <= r < |matrix.value.users| && 0 <= c < |matrix.value.items| ==> matrix.value.cells[r][c] >= 0.0
      ensures matrix.None? ==> PopularItems(n) == []
      ensures var r := PopularItems(n);
        && |r| <= n
        && SortedDesc(r, RecScore)
        && DistinctItems(r)
        && (forall i :: 0 <= i < |r| ==> r[i].domain == Movies && r[i].itemId in catalog && 0.0 <= r[i].score <= 1.0)
        && (matrix.Some? ==> forall i :: 0 <= i < |r| ==>
              r[i].itemId in matrix.value.items
              && r[i].score == ColumnTotal(matrix.value, IndexOf(matrix.value.items, r[i].itemId)) / MaxPopularity(matrix.value))
      ensures matrix.Some? && |matrix.value.items| > 0 ==>
        KeepsHead(matrix.value, n, catalog, PopularItems(n)) && NoneMorePopularLeftOut(matrix.value, catalog, PopularItems(n))
    {
      if matrix.Some? && |matrix.value.items| > 0 {
        PopularPickSpec(matrix.value, n, catalog);
      }
    }
  }

  /** The first n catalog movies of the scaled head. */
  function PopularPick(m: Matrix, n: nat, catalog: seq<int>): seq<Recommendation>
    requires WellFormed(m) && |m.items| > 0 && MaxPopularity(m) != 0.0
  {
    Take(InCatalog(DividedBy(PopularHead(m, n), MaxPopularity(m)), catalog, Movies), n)
  }

  /** The picks of `get_popular_items` over a matrix with non-negative ratings and at least one movie. */
  lemma PopularPickSpec(m: Matrix, n: nat, catalog: seq<int>)
    requires WellFormed(m) && |m.items| > 0 && MaxPopularity(m) != 0.0
    requires forall r, c :: 0 <= r < |m.users| && 0 <= c < |m.items| ==> m.cells[r][c] >= 0.0
    ensures var r := PopularPick(m, n, catalog);
      && |r| <= n
      && SortedDesc(r, RecScore)
      && DistinctItems(r)
      && (forall i :: 0 <= i < |r| ==> r[i].domain == Movies && r[i].itemId in catalog && 0.0 <= r[i].score <= 1.0)
      && (forall i :: 0 <= i < |r| ==>
            r[i].itemId in m.items && r[i].score == ColumnTotal(m, IndexOf(m.items, r[i].itemId)) / MaxPopularity(m))
      && KeepsHead(m, n, catalog, r)
      && NoneMorePopularLeftOut(m, catalog, r)
  {
    var top := DividedBy(PopularHead(m, n), MaxPopularity(m));
    PopularTop(m, n);
    TakeInCatalog(top, catalog, Movies, n);
    PopularPicked(m, top, PopularPick(m, n, catalog));
    PopularKeepsHead(m, n, catalog);
    PopularNoneBetterLeftOut(m, n, catalog);
  }

  /** Fewer than n picks only when every catalog movie of the popularity head is picked. */
  ghost predicate KeepsHead(m: Matrix, n: nat, catalog: seq<int>, r: seq<Recommendation>)
    requires WellFormed(m)
  {
    forall c :: 0 <= c < |m.items| && m.items[c] in catalog && m.items[c] in KeysOf(PopularHead(m, n)) && |r| < n
      ==> Recommends(r, m.items[c])
  }

  /** No catalog movie left out of `r` has a larger scaled rating total than a movie in it. */
  ghost predicate NoneMorePopularLeftOut(m: Matrix, catalog: seq<int>, r: seq<Recommendation>)
    requires WellFormed(m) && |m.items| > 0 && MaxPopularity(m) != 0.0
  {
    forall c, i :: 0 <= c < |m.items| && m.items[c] in catalog && !Recommends(r, m.items[c]) && 0 <= i < |r|
      ==> ColumnTotal(m, c) / MaxPopularity(m) <= r[i].score
  }

  lemma PopularKeepsHead(m: Matrix, n: nat, catalog: seq<int>)
    requires WellFormed(m) && |m.items| > 0 && MaxPopularity(m) > 0.0
    ensures KeepsHead(m, n, catalog, PopularPick(m, n, catalog))
  {
    var head := PopularHead(m, n);
    var top := DividedBy(head, MaxPopularity(m));
    assert KeysOf(top) == KeysOf(head);
    TakeInCatalogKeepsKeys(top, catalog, Movies, n);
  }

  /** A catalog movie that is not picked scores no higher than any movie picked. */
  lemma PopularNoneBetterLeftOut(m: Matrix, n: nat, catalog: seq<int>)
    requires WellFormed(m) && |m.items| > 0 && MaxPopularity(m) > 0.0
    ensures NoneMorePopularLeftOut(m, catalog, PopularPick(m, n, catalog))
  {
    var r := PopularPick(m, n, catalog);
    forall c, i | 0 <= c < |m.items| && m.items[c] in catalog && !Recommends(r, m.items[c]) && 0 <= i < |r|
      ensures ColumnTotal(m, c) / MaxPopularity(m) <= r[i].score
    {
      PopularNotPicked(m, n, catalog, c, i);
    }
  }

  lemma PopularNotPicked(m: Matrix, n: nat, catalog: seq<int>, c: nat, i: nat)
    requires WellFormed(m) && c < |m.items| && MaxPopularity(m) > 0.0
    requires m.items[c] in catalog && !Recommends(PopularPick(m, n, catalog), m.items[c]) && i < |PopularPick(m, n, catalog)|
    ensures ColumnTotal(m, c) / MaxPopularity(m) <= PopularPick(m, n, catalog)[i].score
  {
    if m.items[c] in KeysOf(PopularHead(m, n)) {
      PassedOverInHead(m, n, catalog, c, i);
    } else {
      PassedOverOutsideHead(m, n, catalog, c, i);
    }
  }

  /** A catalog movie of the head that is not picked was passed over for better ones. */
  lemma PassedOverInHead(m: Matrix, n: nat, catalog: seq<int>, c: nat, i: nat)
    requires WellFormed(m) && c < |m.items| && MaxPopularity(m) > 0.0 && m.items[c] in KeysOf(PopularHead(m, n))
    requires m.items[c] in catalog && !Recommends(PopularPick(m, n, catalog), m.items[c]) && i < |PopularPick(m, n, catalog)|
    ensures ColumnTotal(m, c) / MaxPopularity(m) <= PopularPick(m, n, catalog)[i].score
  {
    var mx := MaxPopularity(m);
    var head := PopularHead(m, n);
    var top := DividedBy(head, mx);
    var r := PopularPick(m, n, catalog);
    var p :| 0 <= p < |head| && KeysOf(head)[p] == m.items[c];
    HeadTotal(m, n, p);
    IndexOfDistinct(m.items, c);
    var e := top[p];
    assert e == (m.items[c], ColumnTotal(m, c) / mx);
    assert e in top;
    HeadSorted(m, n);
    DividedByKeepsOrder(head, mx);
    assert r == Take(InCatalog(top, catalog, Movies), n);
    TakeInCatalogPassedOver(top, catalog, Movies, n, e, i);
  }

  /** A movie outside the head is no more popular than any pick, all of which come from the head. */
  lemma PassedOverOutsideHead(m: Matrix, n: nat, catalog: seq<int>, c: nat, i: nat)
    requires WellFormed(m) && c < |m.items| && MaxPopularity(m) > 0.0 && m.items[c] !in KeysOf(PopularHead(m, n))
    requires i < |PopularPick(m, n, catalog)|
    ensures ColumnTotal(m, c) / MaxPopularity(m) <= PopularPick(m, n, catalog)[i].score
  {
    var mx := MaxPopularity(m);
    var head := PopularHead(m, n);
    var top := DividedBy(head, mx);
    var r := PopularPick(m, n, catalog);
    var q :| 0 <= q < |top| && top[q] == (r[i].itemId, r[i].score);
    assert r[i].score == head[q].1 / mx;
    HeadNoneMorePopular(m, n);
    assert ColumnTotal(m, c) <= head[q].1;
    DivideMonotone(ColumnTotal(m, c), head[q].1, mx);
  }

  /** The popularity head is in descending order. */
  lemma HeadSorted(m: Matrix, n: nat)
    requires WellFormed(m)
    ensures SortedDesc(PopularHead(m, n), EntryScore)
  {
    SortDescCorrect(Popularity(m), EntryScore);
  }

  /** Entry p of the popularity head is a movie of the matrix with its rating total. */
  lemma HeadTotal(m: Matrix, n: nat, p: nat)
    requires WellFormed(m) && p < |PopularHead(m, n)|
    ensures PopularHead(m, n)[p].0 in m.items
    ensures PopularHead(m, n)[p].1 == ColumnTotal(m, IndexOf(m.items, PopularHead(m, n)[p].0))
  {
    SortedPopularity(m);
  }

  /** A movie of the matrix paired with its rating total over the largest total, a value in [0, 1]. */
  ghost predicate ScaledEntry(m: Matrix, e: (int, real))
    requires WellFormed(m) && |m.items| > 0 && MaxPopularity(m) != 0.0
  {
    e.0 in m.items && e.1 == ColumnTotal(m, IndexOf(m.items, e.0)) / MaxPopularity(m) && 0.0 <= e.1 <= 1.0
  }

  /** Recommendations drawn from the scaled head carry its movies' scaled totals. */
  lemma PopularPicked(m: Matrix, top: seq<(int, real)>, r: seq<Recommendation>)
    requires WellFormed(m) && |m.items| > 0 && MaxPopularity(m) != 0.0
    requires forall i :: 0 <= i < |top| ==> ScaledEntry(m, top[i])
    requires forall i :: 0 <= i < |r| ==> (r[i].itemId, r[i].score) in top
    ensures forall i :: 0 <= i < |r| ==> ScaledEntry(m, (r[i].itemId, r[i].score))
  {
    forall i | 0 <= i < |r| ensures ScaledEntry(m, (r[i].itemId, r[i].score)) {
      var q :| 0 <= q < |top| && top[q] == (r[i].itemId, r[i].score);
    }
  }

  /**
   * With non-negative ratings the largest total is positive, and the
   * scaled head lists distinct movies in descending order, each scored in
   * [0, 1] as its rating total over the largest total.
   */
  lemma PopularTop(m: Matrix, n: nat)
    requires WellFormed(m) && |m.items| > 0 && MaxPopularity(m) != 0.0
    requires forall r, c :: 0 <= r < |m.users| && 0 <= c < |m.items| ==> m.cells[r][c] >= 0.0
    ensures MaxPopularity(m) > 0.0
    ensures var top := DividedBy(PopularHead(m, n), MaxPopularity(m));
      && SortedDesc(top, EntryScore)
      && (forall i, j :: 0 <= i < j < |top| ==> top[i].0 != top[j].0)
      && (forall i :: 0 <= i < |top| ==>
            top[i].0 in m.items && top[i].1 == ColumnTotal(m, IndexOf(m.items, top[i].0)) / MaxPopularity(m)
            && 0.0 <= top[i].1 <= 1.0)
  {
    var mx := MaxPopularity(m);
    PopularTotals(m);
    var head := PopularHead(m, n);
    PopularHeadEntries(m, n);
    DividedByKeepsOrder(head, mx);
    forall i | 0 <= i < |head| ensures 0.0 <= head[i].1 / mx <= 1.0 {
      UnitRatio(ColumnTotal(m, IndexOf(m.items, head[i].0)), mx);
    }
  }

  /** With non-negative ratings every total lies between 0 and the (positive) largest total. */
  lemma PopularTotals(m: Matrix)
    requires WellFormed(m) && |m.items| > 0 && MaxPopularity(m) != 0.0
    requires forall r, c :: 0 <= r < |m.users| && 0 <= c < |m.items| ==> m.cells[r][c] >= 0.0
    ensures MaxPopularity(m) > 0.0
    ensures forall c :: 0 <= c < |m.items| ==> 0.0 <= ColumnTotal(m, c) <= MaxPopularity(m)
  {
    var mx := MaxPopularity(m);
    var pop := Popularity(m);
    forall c | 0 <= c < |m.items| ensures 0.0 <= ColumnTotal(m, c) <= mx {
      SumNonNegative(seq(|m.users|, r requires 0 <= r < |m.users| => m.cells[r][c]));
      assert ValuesOf(pop)[c] == ColumnTotal(m, c);
    }
    assert mx in ValuesOf(pop);
    var c :| 0 <= c < |m.items| && ValuesOf(pop)[c] == mx;
  }

  lemma UnitRatio(x: real, d: real)
    requires 0.0 <= x <= d && d > 0.0
    ensures 0.0 <= x / d <= 1.0
  {
    DivideMonotone(0.0, x, d);
    DivideMonotone(x, d, d);
    assert d / d == 1.0;
  }

  /**
   * The popularity head lists min(2n, |items|) distinct movies of the
   * matrix, each with its rating total, in descending order; no movie left
   * out has a larger total than one kept.
   */
  lemma PopularHeadEntries(m: Matrix, n: nat)
    requires WellFormed(m)
    ensures var head := PopularHead(m, n);
      && |head| == Min(2 * n, |m.items|)
      && SortedDesc(head, EntryScore)
      && (forall i, j :: 0 <= i < j < |head| ==> head[i].0 != head[j].0)
      && (forall i :: 0 <= i < |head| ==> head[i].0 in m.items && head[i].1 == ColumnTotal(m, IndexOf(m.items, head[i].0)))
      && (forall c, i :: 0 <= c < |m.items| && m.items[c] !in KeysOf(head) && 0 <= i < |head| ==> ColumnTotal(m, c) <= head[i].1)
  {
    SortedPopularity(m);
    SortDescCorrect(Popularity(m), EntryScore);
    HeadNoneMorePopular(m, n);
  }

  /** A movie outside the popularity head is no more popular than any movie in it. */
  lemma HeadNoneMorePopular(m: Matrix, n: nat)
    requires WellFormed(m)
    ensures var head := PopularHead(m, n);
      forall c, i :: 0 <= c < |m.items| && m.items[c] !in KeysOf(head) && 0 <= i < |head| ==> ColumnTotal(m, c) <= head[i].1
  {
    var pop := Popularity(m);
    var sorted := SortDesc(pop, EntryScore);
    var head := PopularHead(m, n);
    SortDescCorrect(pop, EntryScore);
    forall c, i | 0 <= c < |m.items| && m.items[c] !in KeysOf(head) && 0 <= i < |head| ensures ColumnTotal(m, c) <= head[i].1 {
      InPermutation(pop, sorted, pop[c]);
      var p :| 0 <= p < |sorted| && sorted[p] == pop[c];
      forall j | 0 <= j < |head| ensures head[j].0 != m.items[c] {
        assert KeysOf(head)[j] == head[j].0;
      }
      assert p >= |head|;
      assert head[i] == sorted[i];
    }
  }

  /** The whole popularity ranking: sorted, each movie once, each with its rating total. */
  lemma SortedPopularity(m: Matrix)
    requires WellFormed(m)
    ensures var sorted := SortDesc(Popularity(m), EntryScore);
      && SortedDesc(sorted, EntryScore)
      && (forall i, j :: 0 <= i < j < |sorted| ==> sorted[i].0 != sorted[j].0)
      && (forall i :: 0 <= i < |sorted| ==> sorted[i].0 in m.items && sorted[i].1 == ColumnTotal(m, IndexOf(m.items, sorted[i].0)))
  {
    var pop := Popularity(m);
    var sorted := SortDesc(pop, EntryScore);
    SortDescCorrect(pop, EntryScore);
    PermutationKeepsEntries(pop, sorted);
    forall i | 0 <= i < |sorted| ensures sorted[i].0 in m.items && sorted[i].1 == ColumnTotal(m, IndexOf(m.items, sorted[i].0)) {
      var c :| 0 <= c < |pop| && pop[c] == sorted[i];
      IndexOfDistinct(m.items, c);
    }
  }
}
