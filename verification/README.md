# UniRec scoring and ranking core, in Dafny

UniRec is a recommender backend for four domains: movies, products, music
and courses. This project models its scoring and ranking logic and proves
properties of it.

**The four per-domain hybrid recommenders** (`movies.dfy`, `products.dfy`,
`music.dfy`, `courses.dfy`, sharing `hybrid.dfy`).

Training builds one profile per user from the user-item matrix:
- the mean or weighted average of catalog similarity (or embedding) rows;
- per-label sums or means (category, genre, artist, subcategory);
- top-k label lists;
- for courses, a skill level.

Recommending then combines two scores:
- a collaborative score: the mean of strength x similarity over the ten
  neighbours picked by an argsort slice;
- a content score: a similarity lookup plus the domain's boosts, and for
  courses a difficulty penalty.

Each score map is divided by its maximum, the two are blended with weight
`alpha`, and the best `n` entries are ranked and filtered by the catalog.
Movies fall back to a popularity ranking for a user with no history.

**The cross-domain engine** (`unified.dfy`) fuses the four user embeddings
into a unified profile:
- engagement flags;
- fixed fusion weights;
- zero padding to the longest length;
- a weighted average.

It also derives cross-domain ranking features, merges the per-domain
candidate lists without a ranker, and dispatches domain-specific requests.

**The interaction tracker** (`tracker.dfy`, with `text.dfy` for
`str.split` and `str.strip`) is an append-only log of user actions. From it
the tracker derives:
- clamped per-item behaviour scores;
- preference updates from the last days' positive actions;
- exploration candidates;
- a diversity score;
- an in-place score boost followed by a stable re-sort;
- per-user statistics.

**The user table** (`auth.dfy`) holds accounts keyed by email. It assigns
sequential internal ids, maps quiz answers to preferences, merges
preference updates and authenticates users.

`common.dfy` holds the models of the Python built-ins the code relies on:
- `sorted(..., reverse=True)`, as a stable insertion sort;
- slicing;
- insertion-ordered dictionaries built by `d[k] = d.get(k, 0) + v` and
  `setdefault(k, []).append(v)`;
- `np.mean`;
- list comprehensions with a condition.

Numbers are Dafny `real`s. The user-item matrix, similarity matrices, track
embeddings and catalogs are inputs, as are each user's similarity vector
and its argsort. `np.log1p` and the cosine similarity of two vectors are
function values the music model is built with. Clock values are integer
timestamps passed as arguments. The password check is a function the user
table is built with.

Where the code mutates state, the model is imperative:
- the recommenders, the unified engine, the tracker and the user table are
  classes whose methods modify their fields;
- the boost re-sorts an `array` in place;
- the source's loops are `while` loops with invariants.

Each such method is proved equal to a pure specification function, and the
lemmas about that function state what the source promises.

## Model

| member | source | states |
|---|---|---|
| Common.Take | backend/movie_recommender.py:177 | `s[:n]` has min(n, \|s\|) elements and is a prefix of `s` |
| Common.SortDescCorrect | backend/movie_recommender.py:177 | the stable descending sort returns a permutation of its input in non-increasing key order |
| Common.SortDescIdentity | backend/unified_engine.py:270-272 | sorting a list already in non-increasing order leaves it unchanged (ties keep their order) |
| Common.InsertDescSplit | backend/interaction_tracker.py:267 | an inserted element lands after every key at least its own and before the first smaller key, so equal keys keep their list order |
| Common.MeanBounds | backend/movie_recommender.py:99 | a mean lies within any bounds of its elements |
| Common.AccumulateSpec | backend/music_recommender.py:96-105 | summing per key keeps each key once, holds exactly the keys that occur, and holds each key's total |
| Common.GroupSpec | backend/product_recommender.py:77-86 | grouping per key keeps each key once, holds exactly the keys that occur, and holds each key's values in input order |
| Common.MeansLookup | backend/product_recommender.py:88 | the per-key mean found under a key is the mean of that key's list |
| Common.SumForValues | backend/product_recommender.py:88 | a key's total is the sum of its grouped values |
| Common.TopByValueSpec | backend/product_recommender.py:95-97 | the top-k items are min(k, \|d\|) entries of the dictionary in non-increasing value order, and no entry left out has a larger value than one kept |
| Common.TallySpec | backend/interaction_tracker.py:290-291 | a tally keeps each key once, in order of first appearance, with its number of occurrences |
| Common.FilterKeepsOrder | backend/interaction_tracker.py:66 | a filtering comprehension keeps exactly the elements satisfying the condition, in their original order |
| Common.FilterKeepsAll | backend/interaction_tracker.py:66 | every element satisfying the condition is kept |
| Common.FilterFilter | backend/interaction_tracker.py:66-76 | two filters in a row keep what their conjunction keeps |
| Text.SplitJoin | backend/interaction_tracker.py:162 | no piece of `s.split(sep)` contains `sep`, and joining the pieces with `sep` gives back `s` |
| Text.SplitCount | backend/interaction_tracker.py:162 | `split` returns one more piece than there are separators |
| Text.StripSpec | backend/interaction_tracker.py:164 | `strip()` keeps a contiguous slice, drops only whitespace on either side, and leaves no whitespace at either end |
| Hybrid.IndexOf | backend/movie_recommender.py:89 | `get_loc` returns a row holding the given user id, and the first such row |
| Hybrid.NeighboursAreNextTen | backend/movie_recommender.py:81-82 | `argsort[-11:-1][::-1]` gives at most ten rows in non-increasing similarity; it never includes the top-ranked row, and no row ranked below the slice is more similar than a neighbour |
| Hybrid.ComputeCollaborativeScores | backend/movie_recommender.py:71-100 | the nested neighbour and item loops build exactly the collaborative score map |
| Hybrid.AccumulateNeighbour | backend/movie_recommender.py:92-96 | one neighbour's pass appends strength x similarity to the list of every unseen item it rated, and to no other list |
| Hybrid.CollaborativeScoresSpec | backend/movie_recommender.py:71-100 | {} for a user outside the matrix; otherwise an item is scored iff the user has not rated it and a neighbour has, and its score is the mean of at most ten contributions |
| Hybrid.NormalisedProperties | backend/movie_recommender.py:159-165 | with a positive maximum, dividing by it keeps the keys, caps every score at 1, sends the maximum to 1 and keeps the order of any two items |
| Hybrid.NormalisedIfPositiveBounds | backend/music_recommender.py:206-214 | the guarded division never leaves a score above 1, whatever the sign of the maximum, and keeps non-negative scores non-negative |
| Hybrid.BlendBounds | backend/movie_recommender.py:168-174 | the blend covers the union of keys; with alpha in [0, 1] and inputs in [0, 1] every score is in [0, 1]; alpha 1 keeps only the collaborative score and alpha 0 only the content score |
| Hybrid.RankTopIsTopN | backend/movie_recommender.py:177 | the ranking holds the min(n, \|scores\|) best entries, each item once, in non-increasing order; no item left out scores above one kept |
| Hybrid.InCatalogKeepsOrder | backend/movie_recommender.py:180-190 | keeping the ranked items found in the catalog preserves non-increasing score order |
| Hybrid.InCatalogDistinct | backend/movie_recommender.py:180-190 | the catalog filter of a key-distinct ranking recommends no item twice |
| Hybrid.PositiveSpec | backend/movie_recommender.py:52-53 | `row[row > 0]` lists exactly the positive columns, in column order, with their values |
| Hybrid.RatedKeys | backend/movie_recommender.py:57 | the rated ids of a row are exactly its positive columns |
| Hybrid.PositiveMean | backend/movie_recommender.py:66 | the mean of a non-empty positive part is positive |
| Hybrid.ProfileExists | backend/movie_recommender.py:58-61 | a positively rated item is in the catalog iff the list of catalog rows is non-empty |
| Hybrid.CatalogPositionsAll | backend/music_recommender.py:78-82 | when every id is catalogued, each id gets its own catalog row, in order |
| Hybrid.CatalogPositionsEmpty | backend/movie_recommender.py:58-61 | some listed id is catalogued iff at least one row is selected |
| Hybrid.MeanRowsBounds | backend/movie_recommender.py:62 | the column-wise mean of the selected rows lies within the rows' bounds |
| Hybrid.WeightedAverageBounds | backend/music_recommender.py:86-93 | positive weights normalised by their sum add up to 1, and the weighted average lies, component by component, within the rows' bounds |
| Hybrid.LabelSumsSpec | backend/music_recommender.py:96-117 | summing strengths per label keeps each label once, holds exactly the labels of interacted catalog items, and holds each label's total strength |
| Hybrid.ProfileMapFull | backend/movie_recommender.py:51-67 | after the training loop, exactly the users whose row produced a profile have one, namely that profile |
| Hybrid.ScoreCatalog | backend/movie_recommender.py:112-117 | the catalog loop builds exactly the content map |
| Hybrid.CatalogScoresSpec | backend/movie_recommender.py:112-119 | the content map holds exactly the catalog items the user has not interacted with, each with the value of its own catalog row |
| Hybrid.HybridRankingIsRanked | backend/movie_recommender.py:167-192 | at most n distinct catalog items, in non-increasing order, each carrying its blended score; every catalog entry of the top n of the score map is recommended, and a catalog item scored above a recommended one is itself recommended |
| Hybrid.HybridRankingOfNothing | backend/product_recommender.py:173-199 | with both maps empty nothing is recommended |
| Hybrid.GuardedRankingBounds | backend/music_recommender.py:205-226 | with guarded normalisation, alpha in [0, 1] and no negative raw score, every recommended score is in [0, 1] |
| MovieModel.TrainedProfileSpec | backend/movie_recommender.py:51-67 | a profile is written iff the user rated a catalog movie; a written profile lists exactly the positively rated movies, each once and each in the matrix, has a positive average rating, and has one embedding entry per catalog movie |
| MovieModel.TrainedProfileBounds | backend/movie_recommender.py:62-66 | with similarities in [lo, hi] the embedding is in [lo, hi]; with ratings at most `top` the average rating is at most `top` |
| MovieModel.TrainedProfilesSpec | backend/movie_recommender.py:48-69 | after training, a user has a profile iff their row produced one |
| MovieModel.MovieRecommender.constructor | backend/movie_recommender.py:15-21 | a recommender over the given matrix, catalog and similarity, with no profiles |
| MovieModel.MovieRecommender.Train | backend/movie_recommender.py:48-69 | the new profile table is the old one overwritten by the profiles of one pass over the matrix |
| MovieModel.MovieRecommender.GetCollaborativeScores | backend/movie_recommender.py:71-100 | returns the collaborative map with rating x similarity contributions |
| MovieModel.MovieRecommender.GetContentScores | backend/movie_recommender.py:102-119 | the loop returns the content map |
| MovieModel.MovieRecommender.ContentScoresSpec | backend/movie_recommender.py:102-119 | {} without a profile; otherwise exactly the unrated catalog movies, each with the embedding entry at its catalog row |
| MovieModel.MovieRecommender.GetUserEmbedding | backend/movie_recommender.py:194-198 | None iff the user has no profile; otherwise the profile's embedding, one entry per catalog movie |
| MovieModel.MovieRecommender.RecommendSpec | backend/movie_recommender.py:146-192 | the popularity fallback is taken iff both maps are empty; otherwise at most n distinct catalog movies in non-increasing order, each scored alpha x cf/max(cf) + (1 - alpha) x content/max(content), a missing side counting 0; every catalog item among the n best blended scores is recommended, and a catalog item scored above a recommended one is itself recommended |
| MovieModel.MovieRecommender.GetPopularItems | backend/movie_recommender.py:121-144 | the early-exit loop returns the popularity ranking |
| MovieModel.MovieRecommender.PopularItemsSpec | backend/movie_recommender.py:121-144 | [] without a matrix; with non-negative ratings, at most n distinct catalog movies in non-increasing popularity, each scored in [0, 1] as its total over the largest total; fewer than n only when every catalog movie of the 2n-head is returned, and no catalog movie left out is more popular than one returned |
| MovieModel.PopularPickSpec | backend/movie_recommender.py:127-144 | with a matrix and a positive largest total, the catalog filter over the 2n-head gives at most n distinct catalog movies in non-increasing popularity, each scored as its total over the largest total, and it keeps every head movie when short of n and passes over no more popular movie |
| MovieModel.DividedByKeepsOrder | backend/movie_recommender.py:138 | dividing by a positive maximum keeps a descending order |
| MovieModel.PopularHeadEntries | backend/movie_recommender.py:127-128 | the head of the popularity series holds min(2n, number of movies) distinct movies with their rating totals, in descending order, and no movie outside it has a larger total than one inside |
| ProductModel.CategoryPreferencesSpec | backend/product_recommender.py:77-88 | each category appears once; a category is present iff a rated catalog product belongs to it, and it holds the mean of those products' ratings |
| ProductModel.TrainedProfileSpec | backend/product_recommender.py:60-98 | a profile is written iff the user rated a catalog product; it lists the rated products, has a positive average, keeps every category mean, and names at most three best categories in non-increasing order with none better left out |
| ProductModel.TrainedProfilesSpec | backend/product_recommender.py:58-100 | after training, a user has a profile iff their row produced one |
| ProductModel.ProductRecommender.constructor | backend/product_recommender.py:13-19 | a recommender over the given data, with no profiles |
| ProductModel.ProductRecommender.Train | backend/product_recommender.py:58-100 | the new profile table is the old one overwritten by one pass's profiles |
| ProductModel.ProductRecommender.GetCollaborativeScores | backend/product_recommender.py:102-128 | returns the collaborative map with rating x similarity contributions |
| ProductModel.ProductRecommender.ContentValues | backend/product_recommender.py:141-151 | one content value per catalog row |
| ProductModel.ProductRecommender.GetContentScores | backend/product_recommender.py:130-153 | the loop returns the content map |
| ProductModel.ProductRecommender.ContentScoresSpec | backend/product_recommender.py:130-153 | {} without a profile; otherwise exactly the unrated catalog products, scored similarity + 0.3 x (category preference / 5), an unseen category counting 0 |
| ProductModel.ProductRecommender.RecommendSpec | backend/product_recommender.py:155-199 | [] when both maps are empty; otherwise at most n distinct catalog products in non-increasing order of the blended normalised score; every catalog item among the n best blended scores is recommended, and a catalog item scored above a recommended one is itself recommended |
| ProductModel.ProductRecommender.GetUserEmbedding | backend/product_recommender.py:201-209 | None iff the user has no profile; otherwise the embedding and the category preferences |
| Hybrid.PositiveWeights | backend/music_recommender.py:86-87 | a user's positive matrix cells (play counts, or interaction scores at backend/course_recommender.py:83-84) are positive weights that sum to 1 once divided by their sum |
| MusicModel.PlayedRows | backend/music_recommender.py:77-82 | with every track catalogued, each played track has its catalog row, in play order |
| MusicModel.TrainedProfileSpec | backend/music_recommender.py:72-128 | a profile is written iff the user played a catalogued track; the total is the positive sum of plays; genres and artists appear once each, with their play sums; at most five top genres, in non-increasing order, with none better left out |
| MusicModel.TrainedEmbeddingBounds | backend/music_recommender.py:89-93 | the play-weighted embedding lies, component by component, within the played tracks' embeddings |
| MusicModel.TrainedProfilesSpec | backend/music_recommender.py:70-130 | after training, a user has a profile iff their row produced one |
| MusicModel.MusicRecommender.constructor | backend/music_recommender.py:14-22 | a recommender over the given data, with no profiles |
| MusicModel.MusicRecommender.Train | backend/music_recommender.py:70-130 | the new profile table is the old one overwritten by one pass's profiles |
| MusicModel.MusicRecommender.GetCollaborativeScores | backend/music_recommender.py:132-161 | returns the collaborative map with log1p(plays) x similarity contributions |
| MusicModel.MusicRecommender.EmbeddingValues | backend/music_recommender.py:174-193 | one embedding score per catalog row |
| MusicModel.MusicRecommender.GetEmbeddingScores | backend/music_recommender.py:163-195 | the loop returns the embedding-score map |
| MusicModel.MusicRecommender.EmbeddingScoresSpec | backend/music_recommender.py:163-195 | {} without a profile; otherwise exactly the unplayed tracks, scored cosine + 0.2 x log1p(genre plays)/10 + 0.1 x log1p(artist plays)/10, an unplayed genre or artist counting log1p(0) |
| MusicModel.MusicRecommender.RecommendSpec | backend/music_recommender.py:197-244 | at most n distinct catalog tracks in non-increasing blended order; with alpha in [0, 1] and no negative raw score, every score is in [0, 1]; every catalog item among the n best blended scores is recommended, and a catalog item scored above a recommended one is itself recommended |
| MusicModel.MusicRecommender.GetUserEmbedding | backend/music_recommender.py:246-250 | None iff the user has no profile; otherwise the profile embedding |
| CourseModel.InteractionScore | backend/course_recommender.py:32-36 | the interaction score is at least 1 for non-negative inputs, at most 3 for a 0/1 flag and a rating out of 5, and exactly 1 when both are missing |
| CourseModel.DifficultyLevel | backend/course_recommender.py:118-119 | Advanced is 3 and Intermediate is 2; Beginner and every other label are 1; every level is in [1, 3] |
| CourseModel.LevelsBounds | backend/course_recommender.py:97-119 | every collected difficulty level is in [1, 3] |
| CourseModel.SkillLevelBounds | backend/course_recommender.py:122 | the skill level (1 when no level was collected) is in [1, 3] |
| CourseModel.EnrolledRows | backend/course_recommender.py:75-79 | with every course catalogued, each enrolled course has its catalog row, in order |
| CourseModel.TrainedProfile | backend/course_recommender.py:69-133 | a written profile's embedding has one entry per catalog course |
| CourseModel.TrainedProfileSpec | backend/course_recommender.py:69-133 | each category and subcategory appears once, holding its total interaction; the skill level is in [1, 3]; at most three top categories, in non-increasing order, with none better left out |
| CourseModel.TrainedProfilesSpec | backend/course_recommender.py:67-135 | after training, a user has a profile iff their row produced one |
| CourseModel.PenaltyOrder | backend/course_recommender.py:189-199 | a course exactly one level away is never penalised more than another; a course more than a level away is penalised more than one within a level; penalties are in [0, 0.3] |
| CourseModel.ContentValue | backend/course_recommender.py:179-208 | the content score is never negative, because of the max(0, ...) clamp |
| CourseModel.CourseRecommender.constructor | backend/course_recommender.py:13-19 | a recommender over the given data, with no profiles |
| CourseModel.CourseRecommender.Train | backend/course_recommender.py:67-135 | the new profile table is the old one overwritten by one pass's profiles |
| CourseModel.CourseRecommender.TrainRow | backend/course_recommender.py:69-133 | one iteration of the loop in `train`: the profile written for row `r` is the row's entry in the specification table, with an embedding as long as the catalog |
| CourseModel.CourseRecommender.GetCollaborativeScores | backend/course_recommender.py:137-162 | returns the collaborative map with interaction x similarity contributions |
| CourseModel.CourseRecommender.ContentValues | backend/course_recommender.py:175-208 | one non-negative content value per catalog row |
| CourseModel.CourseRecommender.GetContentScores | backend/course_recommender.py:164-210 | the loop returns the content map |
| CourseModel.CourseRecommender.ContentScoresSpec | backend/course_recommender.py:164-210 | {} without a profile; otherwise exactly the courses the user is not enrolled in, each with its clamped content value, never negative |
| CourseModel.CourseRecommender.RecommendSpec | backend/course_recommender.py:212-260 | at most n distinct catalog courses in non-increasing blended order; with alpha in [0, 1] and no negative collaborative score, every score is in [0, 1]; every catalog item among the n best blended scores is recommended, and a catalog item scored above a recommended one is itself recommended |
| CourseModel.CourseRecommender.GetUserEmbedding | backend/course_recommender.py:262-271 | None iff the user has no profile; otherwise the embedding, skill level and category interests |
| Tracker.UserInteractionsSpec | backend/interaction_tracker.py:63-78 | keeps, in original order, exactly the user's records that meet the domain filter and the strictly-after-cutoff window, each applied only when its argument is truthy |
| Tracker.UserInteractionsAfterLog | backend/interaction_tracker.py:37-78 | a newly logged record that meets a query's conditions is returned last by that query, after the earlier results |
| Tracker.ActionWeight | backend/interaction_tracker.py:98-109 | every action weight is in [-0.8, 1.0], and exactly purchase and complete earn the full 1.0 |
| Tracker.ActionScore | backend/interaction_tracker.py:112-125 | one record's contribution (the rating rule, the time-spent rule or the action weight) is in [-1, 1] for a rating in [1, 5] and a non-negative duration |
| Tracker.Clamp | backend/interaction_tracker.py:128 | the clamp is in [-1, 1] and leaves values already in that range unchanged |
| Tracker.ItemScore | backend/interaction_tracker.py:80-128 | 0 when no record matches the (user, item, domain) triple; always in [-1, 1] |
| Tracker.ItemScoreAfterLog | backend/interaction_tracker.py:80-128 | logging a record of another triple leaves the score unchanged; logging one of the same triple adds its contribution before the clamp |
| Tracker.Contribution | backend/interaction_tracker.py:149-176 | a record counts labels only when its action is positive (like, purchase, enroll, complete, rate), and then under one of the four update keys |
| Tracker.CountAll | backend/interaction_tracker.py:141-176 | the counting loop yields, for each of the four keys, the count dictionary of that key's labels |
| Tracker.CountLabels | backend/interaction_tracker.py:163-166 | adding one per label turns the counts of a prefix into the counts of the prefix followed by the labels |
| Tracker.CountsSpec | backend/interaction_tracker.py:148-176 | each counted label appears once with its number of occurrences; a count dictionary is empty iff nothing was counted under its key |
| Tracker.TopLabelsSpec | backend/interaction_tracker.py:179-183 | at most five distinct counted labels, in non-increasing count order, none left out counted more often than a kept one |
| Tracker.UpdatesFromSpec | backend/interaction_tracker.py:136-188 | {} without recent records; otherwise a key is present iff something was counted under it, and it holds that key's top labels |
| Tracker.LeastExploredSpec | backend/interaction_tracker.py:206-212 | min(m, \|items\|) distinct interacted items, fewest interactions first, none left out with fewer interactions than one taken |
| Tracker.ExplorationCandidatesSpec | backend/interaction_tracker.py:190-214 | the deterministic branch applies iff fewer than n items are unexplored; it returns every unexplored item in catalog order, then interacted items only; n items when enough exist, and no duplicates given a duplicate-free catalog |
| Tracker.DiversitySpec | backend/interaction_tracker.py:216-236 | the score is positive iff some recommendation names a genre or category; it is at most 1 when none lists '\|'-separated genres |
| Tracker.ItemKey | backend/interaction_tracker.py:253-256 | the first truthy id among id, track_id, movie_id, product_id and course_id; absent iff none is truthy |
| Tracker.BoostSpec | backend/interaction_tracker.py:252-264 | only score and rl_boost change; a record without a truthy id or without a score is unchanged; factor 0 changes no score; a non-negative factor moves a score by at most the factor |
| Tracker.BoostedRanking | backend/interaction_tracker.py:266-267 | the re-sorted list is a non-increasing permutation of the boosted records |
| Tracker.SortInPlace | backend/interaction_tracker.py:267 | the in-place insertion sort leaves the array in the stable descending order of the sort specification |
| Tracker.InsertBackward | backend/interaction_tracker.py:267 | one backward pass inserts the next element into the sorted prefix, exactly where the stable sort puts it, and leaves the rest of the array unchanged |
| Tracker.DaysActiveBounds | backend/interaction_tracker.py:304-314 | no records give no days; otherwise between 1 and one day per record |
| Tracker.CalculateDaysActive | backend/interaction_tracker.py:304-314 | the loop counts the distinct calendar days of the records |
| Tracker.Engagement | backend/interaction_tracker.py:294 | min(1, n/100): in [0, 1], and 1 from a hundred records on |
| Tracker.InteractionStatsSpec | backend/interaction_tracker.py:271-302 | the total is the number of records; per domain and per action each value appears once with its count; engagement reaches 1 at a hundred; days active is between 1 and the number of records |
| Tracker.InteractionTracker.constructor | backend/interaction_tracker.py:17-19 | a tracker holding the loaded records |
| Tracker.InteractionTracker.LogInteraction | backend/interaction_tracker.py:37-61 | appends exactly one record, stamped `now` and with empty metadata by default, leaves earlier records unchanged, and returns the record |
| Tracker.InteractionTracker.CalculateItemScore | backend/interaction_tracker.py:80-128 | the accumulating loop returns the item score, in [-1, 1] |
| Tracker.InteractionTracker.GetPreferenceUpdates | backend/interaction_tracker.py:130-188 | the counting loops and the top-five cut return the preference updates of the recent records |
| Tracker.InteractionTracker.ApplyReinforcementBoost | backend/interaction_tracker.py:238-269 | the array ends as the stable descending sort of the boosted records |
| Tracker.InteractionTracker.GetInteractionStats | backend/interaction_tracker.py:271-302 | the counting loop returns the statistics of the user's records |
| Unified.EngagedDomains | backend/unified_engine.py:42-92 | lists each domain whose model returned an embedding, and each only once |
| Unified.MaxLength | backend/unified_engine.py:97 | the maximum length is at least every embedding's length and equals one of them |
| Unified.PadSpec | backend/unified_engine.py:98-104 | padding gives every embedding the common length, keeps its prefix and fills the rest with zeros |
| Unified.FuseEmbeddings | backend/unified_engine.py:95-109 | the padding loop and the weighted average return the fused embedding |
| Unified.ProfileFlagsSpec | backend/unified_engine.py:31-92 | all four flags are present; a flag is true iff its model returned an embedding; preferences exist exactly for engaged domains; the engaged count is the number of true flags |
| Unified.FusionWeightsSpec | backend/unified_engine.py:106-108 | one fixed positive weight per engaged domain, in visiting order; the normalised weights sum to 1 |
| Unified.UnifiedEmbeddingSpec | backend/unified_engine.py:94-109 | None iff no domain is engaged; otherwise as long as the longest embedding, and within [lo, hi] whenever every collected component is and 0 is in range |
| Unified.CollectionOfSpec | backend/unified_engine.py:38-92 | the four domain visits in turn yield the profile's flags, preferences, embeddings and weights |
| Unified.DomainIndex | backend/unified_engine.py:133 | the index of the name in [movies, products, music, courses], absent for any other name |
| Unified.CountEngagedSpec | backend/unified_engine.py:129 | the flag sum equals the number of engaged domains, at most four |
| Unified.FeaturesSpec | backend/unified_engine.py:114-155 | features exist iff the domain name is known; the index names it; the total counts the engaged domains; each boost is set iff its domain pair holds, so at most one is set |
| Unified.GatheredFrom | backend/unified_engine.py:193-245 | every gathered recommendation comes from the list of an engaged domain |
| Unified.MergeRankingSpec | backend/unified_engine.py:268-272 | at most n_total recommendations, highest score first, each drawn from an engaged domain's list; none left out scores above one kept |
| Unified.ResultSummarySpec | backend/unified_engine.py:274-281 | domains_engaged counts the engaged domains; has_unified_embedding holds iff some domain is engaged |
| Unified.UnifiedRecommender.constructor | backend/unified_engine.py:14-25 | an engine over the four models, with an empty profile cache |
| Unified.UnifiedRecommender.BuildUnifiedProfile | backend/unified_engine.py:27-112 | returns the profile of the four models' embeddings and stores it in the cache, leaving other cached users unchanged |
| Unified.UnifiedRecommender.CollectEmbeddings | backend/unified_engine.py:38-92 | the four visits return the flags, preferences, embeddings and weights of the engaged domains |
| Unified.UnifiedRecommender.ExtractCrossDomainFeatures | backend/unified_engine.py:114-155 | builds the profile only when none is cached, then returns the features of the cached profile |
| Unified.UnifiedRecommender.GetUnifiedRecommendations | backend/unified_engine.py:184-281 | rebuilds the profile, then returns the merge of the engaged domains' lists with the profile summary |
| Unified.UnifiedRecommender.DomainSpecificSpec | backend/unified_engine.py:283-296 | [] for any unknown domain name; at most n items; for products, music and courses the items are distinct and in non-increasing order |
| Auth.ExtractPreferencesSpec | backend/auth.py:105-115 | exactly the six preference keys, each taken from its quiz key or defaulted ([] for the four lists, 'beginner', 'medium') |
| Auth.Merge | backend/auth.py:127 | the merge holds the keys of both sides; new answers win and other keys are kept |
| Auth.SequentialIds | backend/auth.py:44 | in a well-numbered table the id \|users\| + 1 is unused, and inserting it keeps the table well numbered |
| Auth.UserManager.constructor | backend/auth.py:18-20 | a manager over the loaded accounts |
| Auth.UserManager.CreateUser | backend/auth.py:35-61 | a registered email yields "Email already registered" and no change; otherwise the record with id \|users\| + 1 and the extracted preferences is inserted, every other account unchanged |
| Auth.UserManager.AuthenticateUser | backend/auth.py:63-78 | an unknown email yields "User not found" and a failed check "Incorrect password", both with no change; on success only last_login changes |
| Auth.UserManager.GetUser | backend/auth.py:101-103 | the stored record, or None iff the email is unknown |
| Auth.UserManager.GetUserRecommendationsId | backend/auth.py:117-122 | the stored internal id, or None iff the email is unknown |
| Auth.UserManager.UpdatePreferences | backend/auth.py:124-130 | True iff the email is known; then only that account's preferences change, by the merge; otherwise nothing changes |

## Left out

- `prepare_data` in every recommender is not modelled: CSV loading, `pivot_table` (including how it averages duplicate ratings), TF-IDF, scaling, PCA and cosine similarity. Their results are inputs.
- The user-versus-users cosine similarities and their `np.argsort` are inputs. `IsArgsort` states what the argsort must satisfy; ties may be ordered in any way.
- Floating point is not modelled. Scores are exact reals, and there is no rounding and no inf/NaN.
- MovieModel.MovieRecommender.RecommendSpec requires that neither non-empty score map has a zero maximum; with a zero maximum numpy would produce inf/NaN. ProductModel.ProductRecommender.RecommendSpec requires the same. The popularity fallback also requires a positive largest total.
- MusicModel and CourseModel require every track or course of the matrix to be in the catalog. The source averages with one weight per interacted item over the catalogued items only, and numpy raises when the two lengths differ.
- Unified.UnifiedRecommender.DomainSpecificSpec does not claim non-increasing order for movies. The cold-start popularity list is ordered by popularity, and the claim is proved separately in PopularItemsSpec.
- MovieModel.PopularHeadEntries orders ties of equal rating totals by a stable sort, keeping matrix column order. pandas `sort_values` uses quicksort by default, which does not promise any tie order, so the model fixes one order among those the source allows.
- `Entries` lists a score map's entries in one fixed but unspecified order. This order stands for the iteration order of the source's `all_items` set, which Python does not fix either. It matters only for ties of equal score, where both `sorted` and the model keep it.
- Hybrid.Catalogued requires a catalog without duplicate ids. The source does not check this; it reads its item tables as given, and a duplicated id would make the catalog lookups return several rows.
- Recommendation counts are `nat`. A negative `n_recommendations` would make Python's slices drop items from the end (and `head` drop them likewise), and the model does not cover that case.
- The ranker is not modelled: `train_ranker`, and the branch of `get_unified_recommendations` that predicts `unified_score` with LightGBM. Only the no-ranker merge is modelled.
- The calls to the domain `recommend` methods from `get_unified_recommendations` are not modelled. Those calls pass keyword arguments that the `recommend` methods do not accept, so as written the source raises TypeError at those calls for any user with an engaged domain. The modelled merge is what the code would do once the calls are fixed, taking the per-domain candidate lists as inputs.
- The source's recommendation records carry their id under `item_id`, while `apply_reinforcement_boost` looks only at `id`, `track_id`, `movie_id`, `product_id` and `course_id`. `ItemKey` models the keys the boost reads.
- The random branch of `get_exploration_candidates` is modelled as `None`. When at least n items are unexplored, the source draws a random sample with `np.random.choice`. The iteration order of the Python set of interacted items is an input.
- Display fields of recommendation records are not modelled: titles, genres, artists, brands, prices and durations.
- Persistence is not modelled: pickle save and load of the models, and the JSON files of users and interactions.
- bcrypt hashing is left out: the hash is an argument, and the password check is a function given to the user table. JWT `create_access_token` and `verify_token` are also left out.
- The clock is not modelled. `datetime.now()` is an argument: an integer timestamp, with `Day` mapping a timestamp to its calendar day. Sub-second ISO formatting is not modelled.
- Text.IsSpace covers only the ASCII whitespace that `str.strip()` removes, not Unicode spaces.
- The FastAPI layer, the frontend, the data generators and the start-up scripts are not modelled.
