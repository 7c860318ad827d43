/**
 * The music recommender (backend/music_recommender.py): profiles built
 * from play counts (a play-weighted average of track embeddings, play sums
 * per genre and per artist), collaborative scores that weight plays by
 * log1p, embedding scores boosted by genre and artist, and a hybrid
 * `recommend` that divides a score map by its maximum only when that
 * maximum is positive.
 *
 * The play-count matrix, the catalog order of track ids with each track's
 * genre and artist, and the PCA track embeddings are the state
 * `prepare_data` leaves behind; numpy's `log1p` and scikit-learn's cosine
 * similarity between two vectors are fixed functions given to the
 * constructor, and the model relies on no property of them.
 */
module MusicModel {
  import opened Common
  import opened Hybrid

  /**
   * `user_profiles[user]`: weighted embedding, played track ids, total
   * plays, plays per genre and per artist (first-seen order) and the five
   * most played genres.
   */
  datatype MusicProfile = MusicProfile(
    embedding: seq<real>,
    playedTracks: seq<int>,
    totalPlays: real,
    genrePreferences: seq<(string, real)>,
    artistPreferences: seq<(string, real)>,
    topGenres: seq<(string, real)>)

  /** Track ids are unique; genre, artist and a `dim`-wide embedding per catalog row. */
  predicate TrackCatalog(catalog: seq<int>, genres: seq<string>, artists: seq<string>, embeddings: seq<seq<real>>, dim: nat)
  {
    && Distinct(catalog)
    && |genres| == |catalog| && |artists| == |catalog| && |embeddings| == |catalog|
    && Rectangular(embeddings, dim)
  }

  /**
   * Every track of the play matrix is in the catalog. `train` pairs the
   * weights of all played tracks with the embeddings of the catalogued
   * ones, and numpy rejects the call when the two lengths differ.
   */
  predicate AllTracksCatalogued(m: Matrix, catalog: seq<int>)
  {
    forall id :: id in m.items ==> id in catalog
  }

  /** With every track catalogued, each played track has its catalog row, in play order. */
  lemma PlayedRows(m: Matrix, r: nat, catalog: seq<int>)
    requires WellFormed(m) && r < |m.users| && AllTracksCatalogued(m, catalog)
    ensures var ids := KeysOf(Positive(m, r));
      var idx := CatalogPositions(ids, catalog);
      |idx| == |ids| && forall t :: 0 <= t < |idx| ==> catalog[idx[t]] == ids[t]
  {
    var ids := KeysOf(Positive(m, r));
    PositiveSpec(m, r, |m.items|);
    CatalogPositionsAll(ids, catalog);
  }

  /** The body of `train` for matrix row `r`. */
  function TrainedProfile(m: Matrix, r: nat, catalog: seq<int>, genres: seq<string>, artists: seq<string>,
                          embeddings: seq<seq<real>>, dim: nat): Option<MusicProfile>
    requires WellFormed(m) && r < |m.users| && TrackCatalog(catalog, genres, artists, embeddings, dim)
    requires AllTracksCatalogued(m, catalog)
  {
    var played := Positive(m, r);
    var idx := CatalogPositions(KeysOf(played), catalog);
    if |played| == 0 || |idx| == 0 then None
    else
      var ws := ValuesOf(played);
      PlayedRows(m, r, catalog);
      PositiveWeights(m, r);
      var genrePrefs := Accumulate(Labelled(played, catalog, genres));
      var artistPrefs := Accumulate(Labelled(played, catalog, artists));
      Some(MusicProfile(WeightedAverageRows(embeddings, idx, ws, dim), KeysOf(played), Sum(ws),
                        genrePrefs, artistPrefs, TopByValue(genrePrefs, 5)))
  }

  function TrainedRows(m: Matrix, catalog: seq<int>, genres: seq<string>, artists: seq<string>,
                       embeddings: seq<seq<real>>, dim: nat): (rows: seq<Option<MusicProfile>>)
    requires WellFormed(m) && TrackCatalog(catalog, genres, artists, embeddings, dim) && AllTracksCatalogued(m, catalog)
    ensures |rows| == |m.users|
  {
    seq(|m.users|, r requires 0 <= r < |m.users| => TrainedProfile(m, r, catalog, genres, artists, embeddings, dim))
  }

  /** The profiles one full `train` pass writes. */
  function TrainedProfiles(m: Matrix, catalog: seq<int>, genres: seq<string>, artists: seq<string>,
                           embeddings: seq<seq<real>>, dim: nat): map<int, MusicProfile>
    requires WellFormed(m) && TrackCatalog(catalog, genres, artists, embeddings, dim) && AllTracksCatalogued(m, catalog)
  {
    ProfileMap(m.users, TrainedRows(m, catalog, genres, artists, embeddings, dim), |m.users|)
  }

  /**
   * A profile is created exactly for users who played a catalogued track.
   * Its total is the (positive) sum of the plays; each genre and each
   * artist of a played track appears once, holding the sum of that label's
   * plays; and the top genres are at most five genre entries in
   * non-increasing order of plays, with no left-out genre played more.
   */
  lemma TrainedProfileSpec(m: Matrix, r: nat, catalog: seq<int>, genres: seq<string>, artists: seq<string>,
                           embeddings: seq<seq<real>>, dim: nat)
    requires WellFormed(m) && r < |m.users| && TrackCatalog(catalog, genres, artists, embeddings, dim)
    requires AllTracksCatalogued(m, catalog)
    ensures TrainedProfile(m, r, catalog, genres, artists, embeddings, dim).Some? <==> RatedSomeCatalogItem(m, r, catalog)
    ensures TrainedProfile(m, r, catalog, genres, artists, embeddings, dim).Some? ==>
      var played := Positive(m, r);
      var p := TrainedProfile(m, r, catalog, genres, artists, embeddings, dim).value;
      && |p.embedding| == dim
      && p.playedTracks == KeysOf(played)
      && p.totalPlays == Sum(ValuesOf(played)) && p.totalPlays > 0.0
      && Distinct(KeysOf(p.genrePreferences)) && Distinct(KeysOf(p.artistPreferences))
      && (forall g :: (g in KeysOf(p.genrePreferences) <==> |StrengthsOf(played, catalog, genres, g)| > 0)
                      && Lookup(p.genrePreferences, g, 0.0) == Sum(StrengthsOf(played, catalog, genres, g)))
      && (forall a :: (a in KeysOf(p.artistPreferences) <==> |StrengthsOf(played, catalog, artists, a)| > 0)
                      && Lookup(p.artistPreferences, a, 0.0) == Sum(StrengthsOf(played, catalog, artists, a)))
      && |p.topGenres| == Min(5, |p.genrePreferences|)
      && SortedDesc(p.topGenres, Second)
      && (forall i :: 0 <= i < |p.topGenres| ==> p.topGenres[i] in p.genrePreferences)
      && (forall e, i :: e in p.genrePreferences && e.0 !in KeysOf(p.topGenres) && 0 <= i < |p.topGenres|
            ==> e.1 <= p.topGenres[i].1)
  {
    var played := Positive(m, r);
    var idx := CatalogPositions(KeysOf(played), catalog);
    ProfileExists(m, r, catalog);
    if |played| > 0 && |idx| > 0 {
      PositiveWeights(m, r);
      LabelSumsSpec(played, catalog, genres);
      LabelSumsSpec(played, catalog, artists);
      TopByValueSpec(Accumulate(Labelled(played, catalog, genres)), 5);
    }
  }

  /**
   * The embedding is an average weighted by plays: component by component
   * it lies between the smallest and the largest value of the played
   * tracks' embeddings.
   */
  lemma TrainedEmbeddingBounds(m: Matrix, r: nat, catalog: seq<int>, genres: seq<string>, artists: seq<string>,
                               embeddings: seq<seq<real>>, dim: nat, lo: real, hi: real)
    requires WellFormed(m) && r < |m.users| && TrackCatalog(catalog, genres, artists, embeddings, dim)
    requires AllTracksCatalogued(m, catalog)
    requires TrainedProfile(m, r, catalog, genres, artists, embeddings, dim).Some?
    requires forall id, c :: id in KeysOf(Positive(m, r)) && 0 <= c < dim ==> lo <= embeddings[IndexOf(catalog, id)][c] <= hi
    ensures var p := TrainedProfile(m, r, catalog, genres, artists, embeddings, dim).value;
      forall c :: 0 <= c < dim ==> lo <= p.embedding[c] <= hi
  {
    var played := Positive(m, r);
    var ids := KeysOf(played);
    var idx := CatalogPositions(ids, catalog);
    PlayedRows(m, r, catalog);
    PositiveWeights(m, r);
    forall t, c | 0 <= t < |idx| && 0 <= c < dim ensures lo <= embeddings[idx[t]][c] <= hi {
      assert ids[t] in ids;
      IndexOfDistinct(catalog, idx[t]);
    }
    WeightedAverageBounds(embeddings, idx, ValuesOf(played), dim, lo, hi);
  }

  /** After `train`, a user has a profile exactly when their row produced one. */
  lemma TrainedProfilesSpec(m: Matrix, catalog: seq<int>, genres: seq<string>, artists: seq<string>,
                            embeddings: seq<seq<real>>, dim: nat)
    requires WellFormed(m) && TrackCatalog(catalog, genres, artists, embeddings, dim) && AllTracksCatalogued(m, catalog)
    ensures var pm := TrainedProfiles(m, catalog, genres, artists, embeddings, dim);
      forall r :: 0 <= r < |m.users| ==>
        (m.users[r] in pm <==> RatedSomeCatalogItem(m, r, catalog))
        && (m.users[r] in pm ==> Some(pm[m.users[r]]) == TrainedProfile(m, r, catalog, genres, artists, embeddings, dim))
  {
    var rows := TrainedRows(m, catalog, genres, artists, embeddings, dim);
    ProfileMapFull(m.users, rows);
    forall r | 0 <= r < |m.users|
      ensures TrainedProfile(m, r, catalog, genres, artists, embeddings, dim).Some? <==> RatedSomeCatalogItem(m, r, catalog)
    {
      TrainedProfileSpec(m, r, catalog, genres, artists, embeddings, dim);
    }
  }

  /** One track's embedding score: cosine + 0.2 x log1p(genre plays) / 10 + 0.1 x log1p(artist plays) / 10. */
  function EmbeddingValue(p: MusicProfile, trackEmbedding: seq<real>, genre: string, artist: string,
                          cosine: (seq<real>, seq<real>) -> real, log1p: real -> real): real
  {
    cosine(p.embedding, trackEmbedding)
      + 0.2 * (log1p(Lookup(p.genrePreferences, genre, 0.0)) / 10.0)
      + 0.1 * (log1p(Lookup(p.artistPreferences, artist, 0.0)) / 10.0)
  }

  class MusicRecommender {
    /** The play-count pivot table. */
    const matrix: Matrix
    /** Track ids in catalog (`tracks_df`) row order. */
    const catalog: seq<int>
    const genres: seq<string>
    const artists: seq<string>
    /** `track_embeddings`, one `dim`-wide row per catalog track. */
    const embeddings: seq<seq<real>>
    const dim: nat
    /** numpy's `log1p`. */
    const log1p: real -> real
    /** Cosine similarity of two vectors. */
    const cosine: (seq<real>, seq<real>) -> real
    /** `user_profiles`. */
    var userProfiles: map<int, MusicProfile>

    ghost predicate Valid()
      reads this
    {
      && TrackCatalog(catalog, genres, artists, embeddings, dim)
      && WellFormed(matrix)
      && AllTracksCatalogued(matrix, catalog)
      && forall u :: u in userProfiles ==> |userProfiles[u].embedding| == dim
    }

    /** A recommender with the data `prepare_data` loads and no profiles yet. */
    constructor (matrix: Matrix, catalog: seq<int>, genres: seq<string>, artists: seq<string>,
                 embeddings: seq<seq<real>>, dim: nat, log1p: real -> real, cosine: (seq<real>, seq<real>) -> real)
      requires TrackCatalog(catalog, genres, artists, embeddings, dim) && WellFormed(matrix)
      requires AllTracksCatalogued(matrix, catalog)
      ensures Valid()
      ensures this.matrix == matrix && this.catalog == catalog && this.genres == genres && this.artists == artists
      ensures this.embeddings == embeddings && this.dim == dim && this.log1p == log1p && this.cosine == cosine
      ensures userProfiles == map[]
    {
      this.matrix := matrix;
      this.catalog := catalog;
      this.genres := genres;
      this.artists := artists;
      this.embeddings := embeddings;
      this.dim := dim;
      this.log1p := log1p;
      this.cosine := cosine;
      userProfiles := map[];
    }

    /** `train`: one pass over the matrix rows, writing each user's profile when one is built. */
    method Train()
      requires Valid()
      modifies this
      ensures Valid()
      ensures userProfiles == old(userProfiles) + TrainedProfiles(matrix, catalog, genres, artists, embeddings, dim)
    {
      ghost var rows := TrainedRows(matrix, catalog, genres, artists, embeddings, dim);
      assert matrix.users[..0] == [];
      assert ProfileMap(matrix.users, rows, 0) == map[];
      var r := 0;
      while r < |matrix.users|
        invariant 0 <= r <= |matrix.users|
        invariant Valid()
        invariant userProfiles == old(userProfiles) + ProfileMap(matrix.users, rows, r)
      {
        var p := TrainedProfile(matrix, r, catalog, genres, artists, embeddings, dim);
        ProfileMapStep(matrix.users, rows, r, old(userProfiles));
        if p.Some? {
          userProfiles := userProfiles[matrix.users[r] := p.value];
        }
        r := r + 1;
      }
    }

    /** `get_collaborative_scores`: contributions are log1p(plays) x similarity. */
    method GetCollaborativeScores(user: int, sims: seq<real>, order: seq<nat>) returns (scores: map<int, real>)
      requires Valid() && CfInputs(matrix, sims, order)
      ensures scores == CollaborativeScores(matrix, user, sims, order, log1p)
    {
      scores := ComputeCollaborativeScores(matrix, user, sims, order, log1p);
    }

    function EmbeddingValues(p: MusicProfile): (vals: seq<real>)
      requires Valid()
      reads this
      ensures |vals| == |catalog|
    {
      var (emb, g, a, cos, lg) := (embeddings, genres, artists, cosine, log1p);
      seq(|catalog|, j requires 0 <= j < |catalog| => EmbeddingValue(p, emb[j], g[j], a[j], cos, lg))
    }

    /** What `get_embedding_scores` returns. */
    function EmbeddingScores(user: int): map<int, real>
      requires Valid()
      reads this
    {
      if user !in userProfiles then map[]
      else CatalogScores(catalog, userProfiles[user].playedTracks, EmbeddingValues(userProfiles[user]))
    }

    method GetEmbeddingScores(user: int) returns (scores: map<int, real>)
      requires Valid()
      ensures scores == EmbeddingScores(user)
    {
      if user !in userProfiles {
        return map[];
      }
      var p := userProfiles[user];
      scores := ScoreCatalog(catalog, p.playedTracks, EmbeddingValues(p));
    }

    /**
     * No profile, no scores. With a profile, exactly the catalog tracks the
     * user has not played are scored, by cosine similarity to the user's
     * embedding plus the genre and artist boosts; a genre or artist the
     * user never played contributes log1p(0).
     */
    lemma EmbeddingScoresSpec(user: int)
      requires Valid()
      ensures user !in userProfiles ==> EmbeddingScores(user) == map[]
      ensures user in userProfiles ==>
        var p := userProfiles[user];
        var es := EmbeddingScores(user);
        && (forall id :: id in es ==> id in catalog && id !in p.playedTracks)
        && (forall j :: 0 <= j < |catalog| ==>
              && (catalog[j] in es <==> catalog[j] !in p.playedTracks)
              && (catalog[j] in es ==>
                    es[catalog[j]] == cosine(p.embedding, embeddings[j])
                                      + 0.2 * (log1p(Lookup(p.genrePreferences, genres[j], 0.0)) / 10.0)
                                      + 0.1 * (log1p(Lookup(p.artistPreferences, artists[j], 0.0)) / 10.0))
              && (genres[j] !in KeysOf(p.genrePreferences) ==> Lookup(p.genrePreferences, genres[j], 0.0) == 0.0)
              && (artists[j] !in KeysOf(p.artistPreferences) ==> Lookup(p.artistPreferences, artists[j], 0.0) == 0.0))
    {
      if user in userProfiles {
        var p := userProfiles[user];
        CatalogScoresSpec(catalog, p.playedTracks, EmbeddingValues(p));
        forall j | 0 <= j < |catalog|
          ensures genres[j] !in KeysOf(p.genrePreferences) ==> Lookup(p.genrePreferences, genres[j], 0.0) == 0.0
          ensures artists[j] !in KeysOf(p.artistPreferences) ==> Lookup(p.artistPreferences, artists[j], 0.0) == 0.0
        {
          if genres[j] !in KeysOf(p.genrePreferences) {
            LookupAbsent(p.genrePreferences, genres[j]);
          }
          if artists[j] !in KeysOf(p.artistPreferences) {
            LookupAbsent(p.artistPreferences, artists[j]);
          }
        }
      }
    }

    /**
     * `recommend` (defaults n = 10, alpha = 0.4): each map divided by its
     * maximum only when that maximum is positive, then blended, ranked and
     * filtered by the catalog.
     */
    ghost function Recommend(user: int, n: nat, alpha: real, sims: seq<real>, order: seq<nat>): seq<Recommendation>
      requires Valid() && CfInputs(matrix, sims, order)
      reads this
    {
      HybridRanking(NormalisedIfPositive(CollaborativeScores(matrix, user, sims, order, log1p)),
                    NormalisedIfPositive(EmbeddingScores(user)), alpha, n, catalog, Music)
    }

    /**
     * At most n distinct catalog tracks, in non-increasing order of their
     * blended score (nothing when neither map scores a track), keeping every
     * catalog track among the n best and leaving out none scored above a
     * recommended one; with alpha
     * in [0, 1] and no negative raw score, every score is in [0, 1].
     */
    lemma RecommendSpec(user: int, n: nat, alpha: real, sims: seq<real>, order: seq<nat>)
      requires Valid() && CfInputs(matrix, sims, order)
      ensures var cf := CollaborativeScores(matrix, user, sims, order, log1p);
        var es := EmbeddingScores(user);
        var r := Recommend(user, n, alpha, sims, order);
        var h := Blend(NormalisedIfPositive(cf), NormalisedIfPositive(es), alpha);
        && (cf == map[] && es == map[] ==> r == [])
        && |r| <= n
        && SortedDesc(r, RecScore)
        && DistinctItems(r)
        && PicksBest(r, h, n, catalog, Music)
        && (forall i :: 0 <= i < |r| ==>
              r[i].domain == Music && r[i].itemId in catalog && r[i].itemId in h && r[i].score == h[r[i].itemId])
        && ((0.0 <= alpha <= 1.0 && (forall k :: k in cf ==> cf[k] >= 0.0) && (forall k :: k in es ==> es[k] >= 0.0))
              ==> forall i :: 0 <= i < |r| ==> 0.0 <= r[i].score <= 1.0)
    {
      var cf := CollaborativeScores(matrix, user, sims, order, log1p);
      var es := EmbeddingScores(user);
      HybridRankingIsRanked(NormalisedIfPositive(cf), NormalisedIfPositive(es), alpha, n, catalog, Music);
      if cf == map[] && es == map[] {
        HybridRankingOfNothing(alpha, n, catalog, Music);
      }
      if 0.0 <= alpha <= 1.0 && (forall k :: k in cf ==> cf[k] >= 0.0) && (forall k :: k in es ==> es[k] >= 0.0) {
        GuardedRankingBounds(cf, es, alpha, n, catalog, Music);
      }
    }

    /** `get_user_embedding`: the profile embedding, or None for a user without a profile. */
    function GetUserEmbedding(user: int): (e: Option<seq<real>>)
      requires Valid()
      reads this
      ensures e.Some? <==> user in userProfiles
      ensures e.Some? ==> |e.value| == dim && e.value == userProfiles[user].embedding
    {
      if user in userProfiles then Some(userProfiles[user].embedding) else None
    }
  }
}
