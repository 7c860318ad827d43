/**
 * The course recommender (backend/course_recommender.py): enrolment
 * interaction scores, profiles built from them (an interaction-weighted
 * average of TF-IDF similarity rows, interest sums per category and
 * subcategory, a skill level averaged over the difficulty of the courses
 * taken), content scores that add interest boosts and subtract a
 * difficulty penalty, and a hybrid `recommend` that favours content.
 *
 * The interaction matrix, the catalog order of course ids with each
 * course's category, subcategory and difficulty, and the course-to-course
 * similarity matrix are the state `prepare_data` leaves behind.
 */
module CourseModel {
  import opened Common
  import opened Hybrid

  /**
   * The interaction score of one enrolment: 1 for enrolling, plus the
   * completion flag, plus a fifth of the rating; a missing completion flag
   * or rating counts as 0. With a non-negative flag and rating the score is
   * at least 1, so `train` counts every enrolled course; a 0/1 flag and a
   * rating out of 5 keep it in [1, 3].
   */
  function InteractionScore(completed: Option<real>, rating: Option<real>): (score: real)
    ensures (completed.Some? ==> completed.value >= 0.0) && (rating.Some? ==> rating.value >= 0.0)
      ==> score >= 1.0
    ensures (completed.Some? ==> 0.0 <= completed.value <= 1.0) && (rating.Some? ==> 0.0 <= rating.value <= 5.0)
      ==> score <= 3.0
    ensures completed.None? && rating.None? ==> score == 1.0
  {
    1.0 + (if completed.Some? then completed.value else 0.0) + (if rating.Some? then rating.value else 0.0) / 5.0
  }

  /** `difficulty_map.get(difficulty, 1)`: Beginner 1, Intermediate 2, Advanced 3, anything else 1. */
  function DifficultyLevel(difficulty: string): (level: real)
    ensures 1.0 <= level <= 3.0
    ensures level == 1.0 <==> difficulty != "Intermediate" && difficulty != "Advanced"
    ensures level == 2.0 <==> difficulty == "Intermediate"
    ensures level == 3.0 <==> difficulty == "Advanced"
  {
    if difficulty == "Beginner" then 1.0
    else if difficulty == "Intermediate" then 2.0
    else if difficulty == "Advanced" then 3.0
    else 1.0
  }

  /** The difficulty levels of the enrolled courses found in the catalog, in enrolment order. */
  function Levels(enrolled: seq<(int, real)>, catalog: seq<int>, difficulties: seq<string>): seq<real>
    requires |difficulties| == |catalog|
  {
    if enrolled == [] then []
    else
      var rest := Levels(enrolled[1..], catalog, difficulties);
      if enrolled[0].0 in catalog then [DifficultyLevel(LabelOf(catalog, difficulties, enrolled[0].0))] + rest
      else rest
  }

  /** Every level is between 1 and 3. */
  lemma {:induction false} LevelsBounds(enrolled: seq<(int, real)>, catalog: seq<int>, difficulties: seq<string>)
    requires |difficulties| == |catalog|
    ensures forall i :: 0 <= i < |Levels(enrolled, catalog, difficulties)| ==>
      1.0 <= Levels(enrolled, catalog, difficulties)[i] <= 3.0
  {
    if enrolled != [] {
      LevelsBounds(enrolled[1..], catalog, difficulties);
    }
  }

  /** `np.mean(difficulty_levels) if difficulty_levels else 1`. */
  function SkillLevel(levels: seq<real>): real
  {
    if |levels| > 0 then Mean(levels) else 1.0
  }

  /** The skill level lies between Beginner (1) and Advanced (3). */
  lemma SkillLevelBounds(enrolled: seq<(int, real)>, catalog: seq<int>, difficulties: seq<string>)
    requires |difficulties| == |catalog|
    ensures 1.0 <= SkillLevel(Levels(enrolled, catalog, difficulties)) <= 3.0
  {
    var levels := Levels(enrolled, catalog, difficulties);
    if |levels| > 0 {
      LevelsBounds(enrolled, catalog, difficulties);
      MeanBounds(levels, 1.0, 3.0);
    }
  }

  /**
   * `user_profiles[user]`: weighted embedding, enrolled course ids, interest
   * sums per category and per subcategory (first-seen order), skill level
   * and the three categories of highest interest.
   */
  datatype CourseProfile = CourseProfile(
    embedding: seq<real>,
    enrolledCourses: seq<int>,
    categoryInterests: seq<(string, real)>,
    subcategoryInterests: seq<(string, real)>,
    skillLevel: real,
    topCategories: seq<(string, real)>)

  /** What `get_user_embedding` returns for a user with a profile. */
  datatype CourseEmbedding = CourseEmbedding(embedding: seq<real>, skillLevel: real, interests: seq<(string, real)>)

  /**
   * Course ids are unique; category, subcategory and difficulty per catalog
   * row; the similarity matrix is square over the catalog.
   */
  predicate CourseCatalog(catalog: seq<int>, categories: seq<string>, subcategories: seq<string>,
                          difficulties: seq<string>, similarity: seq<seq<real>>)
  {
    && Catalogued(catalog, similarity)
    && |categories| == |catalog| && |subcategories| == |catalog| && |difficulties| == |catalog|
  }

  /**
   * Every course of the interaction matrix is in the catalog. `train` pairs
   * the weights of all enrolled courses with the similarity rows of the
   * catalogued ones, and numpy rejects the call when the two lengths differ.
   */
  predicate AllCoursesCatalogued(m: Matrix, catalog: seq<int>)
  {
    forall id :: id in m.items ==> id in catalog
  }

  /** With every course catalogued, each enrolled course has its catalog row, in enrolment order. */
  lemma EnrolledRows(m: Matrix, r: nat, catalog: seq<int>)
    requires WellFormed(m) && r < |m.users| && AllCoursesCatalogued(m, catalog)
    ensures var ids := KeysOf(Positive(m, r));
      var idx := CatalogPositions(ids, catalog);
      |idx| == |ids| && forall t :: 0 <= t < |idx| ==> catalog[idx[t]] == ids[t]
  {
    var ids := KeysOf(Positive(m, r));
    PositiveSpec(m, r, |m.items|);
    CatalogPositionsAll(ids, catalog);
  }

  /** The body of `train` for matrix row `r`. */
  function TrainedProfile(m: Matrix, r: nat, catalog: seq<int>, categories: seq<string>, subcategories: seq<string>,
                          difficulties: seq<string>, similarity: seq<seq<real>>): (p: Option<CourseProfile>)
    requires WellFormed(m) && r < |m.users| && CourseCatalog(catalog, categories, subcategories, difficulties, similarity)
    requires AllCoursesCatalogued(m, catalog)
    ensures p.Some? ==> |p.value.embedding| == |catalog|
  {
    var enrolled := Positive(m, r);
    var idx := CatalogPositions(KeysOf(enrolled), catalog);
    if |enrolled| == 0 || |idx| == 0 then None
    else
      var ws := ValuesOf(enrolled);
      EnrolledRows(m, r, catalog);
      PositiveWeights(m, r);
      var categoryInterests := Accumulate(Labelled(enrolled, catalog, categories));
      Some(CourseProfile(WeightedAverageRows(similarity, idx, ws, |catalog|), KeysOf(enrolled),
                         categoryInterests, Accumulate(Labelled(enrolled, catalog, subcategories)),
                         SkillLevel(Levels(enrolled, catalog, difficulties)), TopByValue(categoryInterests, 3)))
  }

  function TrainedRows(m: Matrix, catalog: seq<int>, categories: seq<string>, subcategories: seq<string>,
                       difficulties: seq<string>, similarity: seq<seq<real>>): (rows: seq<Option<CourseProfile>>)
    requires WellFormed(m) && CourseCatalog(catalog, categories, subcategories, difficulties, similarity)
    requires AllCoursesCatalogued(m, catalog)
    ensures |rows| == |m.users|
  {
    seq(|m.users|, r requires 0 <= r < |m.users| =>
      TrainedProfile(m, r, catalog, categories, subcategories, difficulties, similarity))
  }

  /** The profiles one full `train` pass writes. */
  function TrainedProfiles(m: Matrix, catalog: seq<int>, categories: seq<string>, subcategories: seq<string>,
                           difficulties: seq<string>, similarity: seq<seq<real>>): map<int, CourseProfile>
    requires WellFormed(m) && CourseCatalog(catalog, categories, subcategories, difficulties, similarity)
    requires AllCoursesCatalogued(m, catalog)
  {
    ProfileMap(m.users, TrainedRows(m, catalog, categories, subcategories, difficulties, similarity), |m.users|)
  }

  /**
   * A profile is created exactly for users enrolled in a catalogued course.
   * Each category and subcategory of an enrolled course appears once,
   * holding the sum of its interaction scores; the skill level is in [1, 3];
   * the top categories are at most three category entries in non-increasing
   * order of interest, with no left-out category of higher interest.
   */
  lemma TrainedProfileSpec(m: Matrix, r: nat, catalog: seq<int>, categories: seq<string>, subcategories: seq<string>,
                           difficulties: seq<string>, similarity: seq<seq<real>>)
    requires WellFormed(m) && r < |m.users| && CourseCatalog(catalog, categories, subcategories, difficulties, similarity)
    requires AllCoursesCatalogued(m, catalog)
    ensures TrainedProfile(m, r, catalog, categories, subcategories, difficulties, similarity).Some?
      <==> RatedSomeCatalogItem(m, r, catalog)
    ensures TrainedProfile(m, r, catalog, categories, subcategories, difficulties, similarity).Some? ==>
      var enrolled := Positive(m, r);
      var p := TrainedProfile(m, r, catalog, categories, subcategories, difficulties, similarity).value;
      && |p.embedding| == |catalog|
      && p.enrolledCourses == KeysOf(enrolled)
      && 1.0 <= p.skillLevel <= 3.0
      && p.skillLevel == SkillLevel(Levels(enrolled, catalog, difficulties))
      && Distinct(KeysOf(p.categoryInterests)) && Distinct(KeysOf(p.subcategoryInterests))
      && (forall c :: (c in KeysOf(p.categoryInterests) <==> |StrengthsOf(enrolled, catalog, categories, c)| > 0)
                      && Lookup(p.categoryInterests, c, 0.0) == Sum(StrengthsOf(enrolled, catalog, categories, c)))
      && (forall s :: (s in KeysOf(p.subcategoryInterests) <==> |StrengthsOf(enrolled, catalog, subcategories, s)| > 0)
                      && Lookup(p.subcategoryInterests, s, 0.0) == Sum(StrengthsOf(enrolled, catalog, subcategories, s)))
      && |p.topCategories| == Min(3, |p.categoryInterests|)
      && SortedDesc(p.topCategories, Second)
      && (forall i :: 0 <= i < |p.topCategories| ==> p.topCategories[i] in p.categoryInterests)
      && (forall e, i :: e in p.categoryInterests && e.0 !in KeysOf(p.topCategories) && 0 <= i < |p.topCategories|
            ==> e.1 <= p.topCategories[i].1)
  {
    var enrolled := Positive(m, r);
    var idx := CatalogPositions(KeysOf(enrolled), catalog);
    ProfileExists(m, r, catalog);
    if |enrolled| > 0 && |idx| > 0 {
      SkillLevelBounds(enrolled, catalog, difficulties);
      LabelSumsSpec(enrolled, catalog, categories);
      LabelSumsSpec(enrolled, catalog, subcategories);
      TopByValueSpec(Accumulate(Labelled(enrolled, catalog, categories)), 3);
    }
  }

  /** After `train`, a user has a profile exactly when their row produced one. */
  lemma TrainedProfilesSpec(m: Matrix, catalog: seq<int>, categories: seq<string>, subcategories: seq<string>,
                            difficulties: seq<string>, similarity: seq<seq<real>>)
    requires WellFormed(m) && CourseCatalog(catalog, categories, subcategories, difficulties, similarity)
    requires AllCoursesCatalogued(m, catalog)
    ensures var pm := TrainedProfiles(m, catalog, categories, subcategories, difficulties, similarity);
      forall r :: 0 <= r < |m.users| ==>
        (m.users[r] in pm <==> RatedSomeCatalogItem(m, r, catalog))
        && (m.users[r] in pm ==>
              Some(pm[m.users[r]]) == TrainedProfile(m, r, catalog, categories, subcategories, difficulties, similarity))
  {
    var rows := TrainedRows(m, catalog, categories, subcategories, difficulties, similarity);
    ProfileMapFull(m.users, rows);
    forall r | 0 <= r < |m.users|
      ensures TrainedProfile(m, r, catalog, categories, subcategories, difficulties, similarity).Some?
        <==> RatedSomeCatalogItem(m, r, catalog)
    {
      TrainedProfileSpec(m, r, catalog, categories, subcategories, difficulties, similarity);
    }
  }

  /** The identity: collaborative contributions are interaction score x similarity. */
  function Interaction(v: real): real
  {
    v
  }

  /** The penalty for a course of `level` to a user of `skill`: 0.3 more than a level apart, none exactly one apart, 0.1 otherwise. */
  function Penalty(level: real, skill: real): real
  {
    var diff := if level >= skill then level - skill else skill - level;
    if diff > 1.0 then 0.3 else if diff == 1.0 then 0.0 else 0.1
  }

  /**
   * A course exactly one level from the user's skill is never penalised
   * more than any other ("perfect progression"); a course more than a level
   * away is penalised more than one within a level, and every penalty lies
   * in [0, 0.3].
   */
  lemma PenaltyOrder(skill: real, step: real, near: real, far: real)
    requires step == skill + 1.0 || step == skill - 1.0
    requires skill - 1.0 < near < skill + 1.0
    requires far > skill + 1.0 || far < skill - 1.0
    ensures Penalty(step, skill) == 0.0
    ensures Penalty(step, skill) < Penalty(near, skill) < Penalty(far, skill)
    ensures forall level :: 0.0 <= Penalty(level, skill) <= 0.3
  {
  }

  /**
   * One catalog row's content score: its similarity to the user, plus
   * 0.3 x category interest / 10 and 0.2 x subcategory interest / 10, minus
   * the difficulty penalty, and never below 0.
   */
  function ContentValue(p: CourseProfile, j: nat, category: string, subcategory: string, difficulty: string): (v: real)
    requires j < |p.embedding|
    ensures v >= 0.0
  {
    var score := p.embedding[j]
      + 0.3 * (Lookup(p.categoryInterests, category, 0.0) / 10.0)
      + 0.2 * (Lookup(p.subcategoryInterests, subcategory, 0.0) / 10.0)
      - Penalty(DifficultyLevel(difficulty), p.skillLevel);
    if score > 0.0 then score else 0.0
  }

  class CourseRecommender {
    /** The interaction-score pivot table. */
    const matrix: Matrix
    /** Course ids in catalog (`courses_df`) row order. */
    const catalog: seq<int>
    const categories: seq<string>
    /** The `subcategory` column ('N/A' where the course has none). */
    const subcategories: seq<string>
    /** The `difficulty` column ('Beginner' where the course has none). */
    const difficulties: seq<string>
    /** `item_similarity`: TF-IDF cosine similarity between catalog rows. */
    const similarity: seq<seq<real>>
    /** `user_profiles`. */
    var userProfiles: map<int, CourseProfile>

    ghost predicate Valid()
      reads this
    {
      && CourseCatalog(catalog, categories, subcategories, difficulties, similarity)
      && WellFormed(matrix)
      && AllCoursesCatalogued(matrix, catalog)
      && forall u :: u in userProfiles ==> |userProfiles[u].embedding| == |catalog|
    }

    /** A recommender with the data `prepare_data` loads and no profiles yet. */
    constructor (matrix: Matrix, catalog: seq<int>, categories: seq<string>, subcategories: seq<string>,
                 difficulties: seq<string>, similarity: seq<seq<real>>)
      requires CourseCatalog(catalog, categories, subcategories, difficulties, similarity) && WellFormed(matrix)
      requires AllCoursesCatalogued(matrix, catalog)
      ensures Valid()
      ensures this.matrix == matrix && this.catalog == catalog && this.categories == categories
      ensures this.subcategories == subcategories && this.difficulties == difficulties && this.similarity == similarity
      ensures userProfiles == map[]
    {
      this.matrix := matrix;
      this.catalog := catalog;
      this.categories := categories;
      this.subcategories := subcategories;
      this.difficulties := difficulties;
      this.similarity := similarity;
      userProfiles := map[];
    }

    /** `train`: one pass over the matrix rows, writing each user's profile when one is built. */
    method Train()
      requires Valid()
      modifies this
      ensures Valid()
      ensures userProfiles == old(userProfiles)
        + TrainedProfiles(matrix, catalog, categories, subcategories, difficulties, similarity)
    {
      ghost var rows := TrainedRows(matrix, catalog, categories, subcategories, difficulties, similarity);
      assert matrix.users[..0] == [];
      assert ProfileMap(matrix.users, rows, 0) == map[];
      var r := 0;
      while r < |matrix.users|
        invariant 0 <= r <= |matrix.users|
        invariant Valid()
        invariant userProfiles == old(userProfiles) + ProfileMap(matrix.users, rows, r)
      {
        var p := TrainRow(r);
        ProfileMapStep(matrix.users, rows, r, old(userProfiles));
        if p.Some? {
          userProfiles := userProfiles[matrix.users[r] := p.value];
        }
        r := r + 1;
      }
    }

    /** One iteration of the loop in `train`: the profile it builds from matrix row `r`, if any. */
    method TrainRow(r: nat) returns (p: Option<CourseProfile>)
      requires Valid() && r < |matrix.users|
      ensures p == TrainedRows(matrix, catalog, categories, subcategories, difficulties, similarity)[r]
      ensures p.Some? ==> |p.value.embedding| == |catalog|
    {
      p := TrainedProfile(matrix, r, catalog, categories, subcategories, difficulties, similarity);
    }

    /** `get_collaborative_scores`: contributions are interaction score x similarity. */
    method GetCollaborativeScores(user: int, sims: seq<real>, order: seq<nat>) returns (scores: map<int, real>)
      requires Valid() && CfInputs(matrix, sims, order)
      ensures scores == CollaborativeScores(matrix, user, sims, order, Interaction)
    {
      scores := ComputeCollaborativeScores(matrix, user, sims, order, Interaction);
    }

    function ContentValues(p: CourseProfile): (vals: seq<real>)
      requires Valid() && |p.embedding| == |catalog|
      reads this
      ensures |vals| == |catalog|
    {
      var (cats, subs, diffs) := (categories, subcategories, difficulties);
      seq(|catalog|, j requires 0 <= j < |catalog| => ContentValue(p, j, cats[j], subs[j], diffs[j]))
    }

    /** What `get_content_scores` returns. */
    function ContentScores(user: int): map<int, real>
      requires Valid()
      reads this
    {
      if user !in userProfiles then map[]
      else CatalogScores(catalog, userProfiles[user].enrolledCourses, ContentValues(userProfiles[user]))
    }

    method GetContentScores(user: int) returns (scores: map<int, real>)
      requires Valid()
      ensures scores == ContentScores(user)
    {
      if user !in userProfiles {
        return map[];
      }
      var p := userProfiles[user];
      scores := ScoreCatalog(catalog, p.enrolledCourses, ContentValues(p));
    }

    /**
     * No profile, no scores. With a profile, exactly the catalog courses the
     * user is not enrolled in are scored, each by its clamped content value,
     * and no score is negative.
     */
    lemma ContentScoresSpec(user: int)
      requires Valid()
      ensures user !in userProfiles ==> ContentScores(user) == map[]
      ensures forall id :: id in ContentScores(user) ==> ContentScores(user)[id] >= 0.0
      ensures user in userProfiles ==>
        var p := userProfiles[user];
        var cs := ContentScores(user);
        && (forall id :: id in cs ==> id in catalog && id !in p.enrolledCourses)
        && (forall j :: 0 <= j < |catalog| ==>
              && (catalog[j] in cs <==> catalog[j] !in p.enrolledCourses)
              && (catalog[j] in cs ==>
                    cs[catalog[j]] == ContentValue(p, j, categories[j], subcategories[j], difficulties[j])))
    {
      if user in userProfiles {
        var p := userProfiles[user];
        var vals := ContentValues(p);
        CatalogScoresSpec(catalog, p.enrolledCourses, vals);
        forall id | id in ContentScores(user) ensures ContentScores(user)[id] >= 0.0 {
          var j := IndexOf(catalog, id);
          assert ContentScores(user)[id] == vals[j];
        }
      }
    }

    /**
     * `recommend` (defaults n = 10, alpha = 0.3): each map divided by its
     * maximum only when that maximum is positive, then blended, ranked and
     * filtered by the catalog.
     */
    ghost function Recommend(user: int, n: nat, alpha: real, sims: seq<real>, order: seq<nat>): seq<Recommendation>
      requires Valid() && CfInputs(matrix, sims, order)
      reads this
    {
      HybridRanking(NormalisedIfPositive(CollaborativeScores(matrix, user, sims, order, Interaction)),
                    NormalisedIfPositive(ContentScores(user)), alpha, n, catalog, Courses)
    }

    /**
     * At most n distinct catalog courses, in non-increasing order of their
     * blended score (nothing when neither map scores a course), keeping
     * every catalog course among the n best and leaving out none scored
     * above a recommended one. Content
     * scores are never negative, so with alpha in [0, 1] and no negative
     * collaborative score every score is in [0, 1].
     */
    lemma RecommendSpec(user: int, n: nat, alpha: real, sims: seq<real>, order: seq<nat>)
      requires Valid() && CfInputs(matrix, sims, order)
      ensures var cf := CollaborativeScores(matrix, user, sims, order, Interaction);
        var cs := ContentScores(user);
        var r := Recommend(user, n, alpha, sims, order);
        var h := Blend(NormalisedIfPositive(cf), NormalisedIfPositive(cs), alpha);
        && (cf == map[] && cs == map[] ==> r == [])
        && |r| <= n
        && SortedDesc(r, RecScore)
        && DistinctItems(r)
        && PicksBest(r, h, n, catalog, Courses)
        && (forall i :: 0 <= i < |r| ==>
              r[i].domain == Courses && r[i].itemId in catalog && r[i].itemId in h && r[i].score == h[r[i].itemId])
        && ((0.0 <= alpha <= 1.0 && (forall k :: k in cf ==> cf[k] >= 0.0))
              ==> forall i :: 0 <= i < |r| ==> 0.0 <= r[i].score <= 1.0)
    {
      var cf := CollaborativeScores(matrix, user, sims, order, Interaction);
      var cs := ContentScores(user);
      HybridRankingIsRanked(NormalisedIfPositive(cf), NormalisedIfPositive(cs), alpha, n, catalog, Courses);
      if cf == map[] && cs == map[] {
        HybridRankingOfNothing(alpha, n, catalog, Courses);
      }
      if 0.0 <= alpha <= 1.0 && (forall k :: k in cf ==> cf[k] >= 0.0) {
        ContentScoresSpec(user);
        GuardedRankingBounds(cf, cs, alpha, n, catalog, Courses);
      }
    }

    /** `get_user_embedding`: embedding, skill level and category interests, or None without a profile. */
    function GetUserEmbedding(user: int): (e: Option<CourseEmbedding>)
      requires Valid()
      reads this
      ensures e.Some? <==> user in userProfiles
      ensures e.Some? ==> var p := userProfiles[user];
        && |e.value.embedding| == |catalog|
        && e.value == CourseEmbedding(p.embedding, p.skillLevel, p.categoryInterests)
    {
      if user in userProfiles then
        var p := userProfiles[user];
        Some(CourseEmbedding(p.embedding, p.skillLevel, p.categoryInterests))
      else None
    }
  }
}
