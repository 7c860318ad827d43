/**
 * The product recommender (backend/product_recommender.py): profiles that
 * add per-category mean ratings to the movie design, a content score
 * boosted by the user's preference for the product's category, and a
 * hybrid `recommend` with no cold-start path.
 *
 * The rating matrix, the catalog order of product ids with each product's
 * category, and the TF-IDF cosine similarity between catalog products are
 * the state `prepare_data` leaves behind; here they are constructor
 * inputs. Titles, brands and prices only decorate the output.
 */
module ProductModel {
  import opened Common
  import opened Hybrid

  /**
   * `user_profiles[user]`: mean similarity row, positively rated ids, mean
   * positive rating, mean rating per category (first-seen order) and the
   * three best categories.
   */
  datatype ProductProfile = ProductProfile(
    embedding: seq<real>,
    ratedItems: seq<int>,
    avgRating: real,
    categoryPreferences: seq<(string, real)>,
    preferredCategories: seq<(string, real)>)

  /** What `get_user_embedding` returns for a user with a profile. */
  datatype ProductEmbedding = ProductEmbedding(embedding: seq<real>, preferences: seq<(string, real)>)

  /** A product rating enters the collaborative score unchanged. */
  function Rating(v: real): real { v }

  predicate ProductCatalog(catalog: seq<int>, categories: seq<string>, similarity: seq<seq<real>>)
  {
    Catalogued(catalog, similarity) && |categories| == |catalog|
  }

  /** `category_prefs = {k: np.mean(v) for k, v in category_prefs.items()}`. */
  function CategoryPreferences(rated: seq<(int, real)>, catalog: seq<int>, categories: seq<string>): seq<(string, real)>
    requires |categories| == |catalog|
  {
    Means(Group(Labelled(rated, catalog, categories)))
  }

  /**
   * The preferences hold each category once; a category is present
   * exactly when some rated catalog product belongs to it, and then holds
   * the mean of those products' ratings.
   */
  lemma CategoryPreferencesSpec(rated: seq<(int, real)>, catalog: seq<int>, categories: seq<string>)
    requires |categories| == |catalog|
    ensures var prefs := CategoryPreferences(rated, catalog, categories);
      && Distinct(KeysOf(prefs))
      && forall cat ::
           && (cat in KeysOf(prefs) <==> |StrengthsOf(rated, catalog, categories, cat)| > 0)
           && (cat in KeysOf(prefs) ==> Lookup(prefs, cat, 0.0) == Mean(StrengthsOf(rated, catalog, categories, cat)))
           && (cat !in KeysOf(prefs) ==> Lookup(prefs, cat, 0.0) == 0.0)
  {
    var pairs := Labelled(rated, catalog, categories);
    var g := Group(pairs);
    GroupSpec(pairs);
    forall cat
      ensures cat in KeysOf(g) <==> |StrengthsOf(rated, catalog, categories, cat)| > 0
      ensures cat in KeysOf(g) ==> Lookup(Means(g), cat, 0.0) == Mean(StrengthsOf(rated, catalog, categories, cat))
      ensures cat !in KeysOf(g) ==> Lookup(Means(g), cat, 0.0) == 0.0
    {
      LabelledValues(rated, catalog, categories, cat);
      ValuesForNonEmpty(pairs, cat);
      if cat in KeysOf(g) {
        MeansLookup(g, cat);
      } else {
        LookupAbsent(Means(g), cat);
      }
    }
  }

  /** The body of `train` for matrix row `r`. */
  function TrainedProfile(m: Matrix, r: nat, catalog: seq<int>, categories: seq<string>, similarity: seq<seq<real>>)
    : Option<ProductProfile>
    requires WellFormed(m) && r < |m.users| && ProductCatalog(catalog, categories, similarity)
  {
    var rated := Positive(m, r);
    var idx := CatalogPositions(KeysOf(rated), catalog);
    if |rated| == 0 || |idx| == 0 then None
    else
      var prefs := CategoryPreferences(rated, catalog, categories);
      Some(ProductProfile(MeanRows(similarity, idx, |catalog|), KeysOf(rated), Mean(ValuesOf(rated)),
                          prefs, TopByValue(prefs, 3)))
  }

  function TrainedRows(m: Matrix, catalog: seq<int>, categories: seq<string>, similarity: seq<seq<real>>)
    : (rows: seq<Option<ProductProfile>>)
    requires WellFormed(m) && ProductCatalog(catalog, categories, similarity)
    ensures |rows| == |m.users|
  {
    seq(|m.users|, r requires 0 <= r < |m.users| => TrainedProfile(m, r, catalog, categories, similarity))
  }

  /** The profiles one full `train` pass writes. */
  function TrainedProfiles(m: Matrix, catalog: seq<int>, categories: seq<string>, similarity: seq<seq<real>>)
    : map<int, ProductProfile>
    requires WellFormed(m) && ProductCatalog(catalog, categories, similarity)
  {
    ProfileMap(m.users, TrainedRows(m, catalog, categories, similarity), |m.users|)
  }

  /**
   * A profile is created exactly for users with a positive rating of a
   * catalog product. It lists every positively rated product, has a
   * positive average rating, keeps the mean rating of every category it
   * has seen, and names at most three best categories in non-increasing
   * order of mean rating, with no left-out category rated higher.
   */
  lemma TrainedProfileSpec(m: Matrix, r: nat, catalog: seq<int>, categories: seq<string>, similarity: seq<seq<real>>)
    requires WellFormed(m) && r < |m.users| && ProductCatalog(catalog, categories, similarity)
    ensures TrainedProfile(m, r, catalog, categories, similarity).Some? <==> RatedSomeCatalogItem(m, r, catalog)
    ensures TrainedProfile(m, r, catalog, categories, similarity).Some? ==>
      var p := TrainedProfile(m, r, catalog, categories, similarity).value;
      && |p.embedding| == |catalog|
      && p.ratedItems == KeysOf(Positive(m, r))
      && p.avgRating > 0.0
      && p.categoryPreferences == CategoryPreferences(Positive(m, r), catalog, categories)
      && |p.preferredCategories| == Min(3, |p.categoryPreferences|)
      && SortedDesc(p.preferredCategories, Second)
      && (forall i :: 0 <= i < |p.preferredCategories| ==> p.preferredCategories[i] in p.categoryPreferences)
      && (forall e, i :: e in p.categoryPreferences && e.0 !in KeysOf(p.preferredCategories) && 0 <= i < |p.preferredCategories|
            ==> e.1 <= p.preferredCategories[i].1)
  {
    var rated := Positive(m, r);
    var idx := CatalogPositions(KeysOf(rated), catalog);
    ProfileExists(m, r, catalog);
    if |rated| > 0 && |idx| > 0 {
      PositiveMean(m, r);
      TopByValueSpec(CategoryPreferences(rated, catalog, categories), 3);
    }
  }

  /** After `train`, a user has a profile exactly when their row produced one. */
  lemma TrainedProfilesSpec(m: Matrix, catalog: seq<int>, categories: seq<string>, similarity: seq<seq<real>>)
    requires WellFormed(m) && ProductCatalog(catalog, categories, similarity)
    ensures var pm := TrainedProfiles(m, catalog, categories, similarity);
      forall r :: 0 <= r < |m.users| ==>
        (m.users[r] in pm <==> RatedSomeCatalogItem(m, r, catalog))
        && (m.users[r] in pm ==> Some(pm[m.users[r]]) == TrainedProfile(m, r, catalog, categories, similarity))
  {
    var rows := TrainedRows(m, catalog, categories, similarity);
    ProfileMapFull(m.users, rows);
    forall r | 0 <= r < |m.users|
      ensures TrainedProfile(m, r, catalog, categories, similarity).Some? <==> RatedSomeCatalogItem(m, r, catalog)
    {
      TrainedProfileSpec(m, r, catalog, categories, similarity);
    }
  }

  /** One catalog row's content score: similarity plus 0.3 x (category preference / 5). */
  function ContentValue(p: ProductProfile, categories: seq<string>, j: nat): real
    requires j < |p.embedding| && j < |categories|
  {
    p.embedding[j] + 0.3 * (Lookup(p.categoryPreferences, categories[j], 0.0) / 5.0)
  }

  class ProductRecommender {
    /** The rating pivot table. */
    const matrix: Matrix
    /** Product ids in catalog (`products_df`) row order. */
    const catalog: seq<int>
    /** Each catalog product's category, by catalog row. */
    const categories: seq<string>
    /** Text similarity between catalog products, by catalog row. */
    const similarity: seq<seq<real>>
    /** `user_profiles`. */
    var userProfiles: map<int, ProductProfile>

    ghost predicate Valid()
      reads this
    {
      && ProductCatalog(catalog, categories, similarity)
      && WellFormed(matrix)
      && forall u :: u in userProfiles ==> |userProfiles[u].embedding| == |catalog|
    }

    /** A recommender with the data `prepare_data` loads and no profiles yet. */
    constructor (matrix: Matrix, catalog: seq<int>, categories: seq<string>, similarity: seq<seq<real>>)
      requires ProductCatalog(catalog, categories, similarity) && WellFormed(matrix)
      ensures Valid()
      ensures this.matrix == matrix && this.catalog == catalog
      ensures this.categories == categories && this.similarity == similarity
      ensures userProfiles == map[]
    {
      this.matrix := matrix;
      this.catalog := catalog;
      this.categories := categories;
      this.similarity := similarity;
      userProfiles := map[];
    }

    /** `train`: one pass over the matrix rows, writing each user's profile when one is built. */
    method Train()
      requires Valid()
      modifies this
      ensures Valid()
      ensures userProfiles == old(userProfiles) + TrainedProfiles(matrix, catalog, categories, similarity)
    {
      ghost var rows := TrainedRows(matrix, catalog, categories, similarity);
      assert matrix.users[..0] == [];
      assert ProfileMap(matrix.users, rows, 0) == map[];
      var r := 0;
      while r < |matrix.users|
        invariant 0 <= r <= |matrix.users|
        invariant Valid()
        invariant userProfiles == old(userProfiles) + ProfileMap(matrix.users, rows, r)
      {
        var p := TrainedProfile(matrix, r, catalog, categories, similarity);
        ProfileMapStep(matrix.users, rows, r, old(userProfiles));
        if p.Some? {
          userProfiles := userProfiles[matrix.users[r] := p.value];
        }
        r := r + 1;
      }
    }

    /** `get_collaborative_scores` with rating x similarity contributions. */
    method GetCollaborativeScores(user: int, sims: seq<real>, order: seq<nat>) returns (scores: map<int, real>)
      requires Valid() && CfInputs(matrix, sims, order)
      ensures scores == CollaborativeScores(matrix, user, sims, order, Rating)
    {
      scores := ComputeCollaborativeScores(matrix, user, sims, order, Rating);
    }

    function ContentValues(p: ProductProfile): (vals: seq<real>)
      requires Valid() && |p.embedding| == |catalog|
      reads this
      ensures |vals| == |catalog|
    {
      seq(|catalog|, j requires 0 <= j < |catalog| => ContentValue(p, categories, j))
    }

    /** What `get_content_scores` returns. */
    function ContentScores(user: int): map<int, real>
      requires Valid()
      reads this
    {
      if user !in userProfiles then map[]
      else CatalogScores(catalog, userProfiles[user].ratedItems, ContentValues(userProfiles[user]))
    }

    method GetContentScores(user: int) returns (scores: map<int, real>)
      requires Valid()
      ensures scores == ContentScores(user)
    {
      if user !in userProfiles {
        return map[];
      }
      var p := userProfiles[user];
      scores := ScoreCatalog(catalog, p.ratedItems, ContentValues(p));
    }

    /**
     * No profile, no content scores. With a profile, exactly the unrated
     * catalog products are scored: similarity + 0.3 x (category preference
     * / 5), the preference counting 0 for a category the user never rated.
     */
    lemma ContentScoresSpec(user: int)
      requires Valid()
      ensures user !in userProfiles ==> ContentScores(user) == map[]
      ensures user in userProfiles ==>
        var p := userProfiles[user];
        var cs := ContentScores(user);
        && (forall id :: id in cs ==> id in catalog && id !in p.ratedItems)
        && (forall j :: 0 <= j < |catalog| ==>
              && (catalog[j] in cs <==> catalog[j] !in p.ratedItems)
              && (catalog[j] in cs ==> cs[catalog[j]] == p.embedding[j] + 0.3 * (Lookup(p.categoryPreferences, categories[j], 0.0) / 5.0))
              && (catalog[j] in cs && categories[j] !in KeysOf(p.categoryPreferences) ==> cs[catalog[j]] == p.embedding[j]))
    {
      if user in userProfiles {
        var p := userProfiles[user];
        CatalogScoresSpec(catalog, p.ratedItems, ContentValues(p));
        forall j | 0 <= j < |catalog| && categories[j] !in KeysOf(p.categoryPreferences)
          ensures ContentValue(p, categories, j) == p.embedding[j]
        {
          LookupAbsent(p.categoryPreferences, categories[j]);
        }
      }
    }

    /** Neither non-empty score map has a zero maximum. */
    ghost predicate Normalisable(user: int, sims: seq<real>, order: seq<nat>)
      requires Valid() && CfInputs(matrix, sims, order)
      reads this
    {
      var cf := CollaborativeScores(matrix, user, sims, order, Rating);
      var content := ContentScores(user);
      && (cf != map[] ==> MaxValue(cf) != 0.0)
      && (content != map[] ==> MaxValue(content) != 0.0)
    }

    /** `recommend` (defaults n = 10, alpha = 0.5): normalise both maps, blend, rank, filter by the catalog. */
    ghost function Recommend(user: int, n: nat, alpha: real, sims: seq<real>, order: seq<nat>): seq<Recommendation>
      requires Valid() && CfInputs(matrix, sims, order) && Normalisable(user, sims, order)
      reads this
    {
      HybridRanking(Normalised(CollaborativeScores(matrix, user, sims, order, Rating)), Normalised(ContentScores(user)),
                    alpha, n, catalog, Products)
    }

    /**
     * With both maps empty the result is empty (there is no cold-start
     * path); otherwise at most n distinct catalog products in
     * non-increasing order of their blended normalised score, keeping
     * every catalog product among the n best and leaving out none scored
     * above a recommended one.
     */
    lemma RecommendSpec(user: int, n: nat, alpha: real, sims: seq<real>, order: seq<nat>)
      requires Valid() && CfInputs(matrix, sims, order) && Normalisable(user, sims, order)
      ensures var cf := CollaborativeScores(matrix, user, sims, order, Rating);
        var content := ContentScores(user);
        var r := Recommend(user, n, alpha, sims, order);
        var h := Blend(Normalised(cf), Normalised(content), alpha);
        && (cf == map[] && content == map[] ==> r == [])
        && |r| <= n
        && SortedDesc(r, RecScore)
        && DistinctItems(r)
        && PicksBest(r, h, n, catalog, Products)
        && forall i :: 0 <= i < |r| ==>
             r[i].domain == Products && r[i].itemId in catalog && r[i].itemId in h && r[i].score == h[r[i].itemId]
    {
      var cf := CollaborativeScores(matrix, user, sims, order, Rating);
      var content := ContentScores(user);
      HybridRankingIsRanked(Normalised(cf), Normalised(content), alpha, n, catalog, Products);
      if cf == map[] && content == map[] {
        HybridRankingOfNothing(alpha, n, catalog, Products);
      }
    }

    /** `get_user_embedding`: embedding and category preferences, or None without a profile. */
    function GetUserEmbedding(user: int): (e: Option<ProductEmbedding>)
      requires Valid()
      reads this
      ensures e.Some? <==> user in userProfiles
      ensures e.Some? ==> |e.value.embedding| == |catalog| && e.value.preferences == userProfiles[user].categoryPreferences
    {
      if user in userProfiles
      then Some(ProductEmbedding(userProfiles[user].embedding, userProfiles[user].categoryPreferences))
      else None
    }
  }
}
