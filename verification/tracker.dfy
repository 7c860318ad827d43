/**
 * The behavioural feedback store (backend/interaction_tracker.py): an
 * append-only list of interaction records and what is computed over it,
 * namely a clamped per-item behaviour score, "top categories" preference
 * updates over a time window, a score boost plus re-sort of a
 * recommendation list, per-user statistics, the diversity of a
 * recommendation list and the deterministic branch of exploration.
 *
 * The JSON file behind the list is not modelled: the constructor takes
 * the records it held. Timestamps are whole seconds on the local clock,
 * and the clock's current reading is a parameter (`now`).
 */
module Tracker {
  import opened Common
  import opened Text

  /** The metadata keys the tracker reads; `None` where the key is absent. */
  datatype Metadata = Metadata(
    rating: Option<real>,
    duration: Option<real>,
    genre: Option<string>,
    genres: Option<string>,
    category: Option<string>)

  /** `{}`. */
  const NoMetadata: Metadata := Metadata(None, None, None, None, None)

  /** One logged interaction. */
  datatype Interaction = Interaction(
    userId: int,
    itemId: int,
    domain: string,
    actionType: string,
    timestamp: int,
    metadata: Metadata)

  const SecondsPerDay: int := 86400

  /** The calendar day of a timestamp (`timestamp.date()`). */
  function Day(timestamp: int): int
  {
    timestamp / SecondsPerDay
  }

  // ---------------------------------------------------------------------
  // get_user_interactions

  function ByUser(userId: int): Interaction -> bool
  {
    (i: Interaction) => i.userId == userId
  }

  function ByDomain(domain: string): Interaction -> bool
  {
    (i: Interaction) => i.domain == domain
  }

  /** Strictly after the cutoff `days` days before `now`. */
  function Since(days: int, now: int): Interaction -> bool
  {
    (i: Interaction) => i.timestamp > now - days * SecondsPerDay
  }

  /**
   * The conditions `get_user_interactions` applies: the user always; the
   * domain and the window only when those arguments are truthy (not
   * absent, not "" and not 0).
   */
  predicate Selected(i: Interaction, userId: int, domain: Option<string>, days: Option<int>, now: int)
  {
    && i.userId == userId
    && (domain.Some? && domain.value != "" ==> i.domain == domain.value)
    && (days.Some? && days.value != 0 ==> i.timestamp > now - days.value * SecondsPerDay)
  }

  function SelectedBy(userId: int, domain: Option<string>, days: Option<int>, now: int): Interaction -> bool
  {
    i => Selected(i, userId, domain, days, now)
  }

  /** `get_user_interactions`: three filters applied one after the other. */
  function UserInteractions(recs: seq<Interaction>, userId: int, domain: Option<string>, days: Option<int>, now: int)
    : seq<Interaction>
  {
    var mine := Filter(recs, ByUser(userId));
    var inDomain := if domain.Some? && domain.value != "" then Filter(mine, ByDomain(domain.value)) else mine;
    if days.Some? && days.value != 0 then Filter(inDomain, Since(days.value, now)) else inDomain
  }

  /**
   * The three filters keep, in their original order, exactly the records
   * that meet every active condition.
   */
  lemma UserInteractionsSpec(recs: seq<Interaction>, userId: int, domain: Option<string>, days: Option<int>, now: int)
    ensures UserInteractions(recs, userId, domain, days, now) == Filter(recs, SelectedBy(userId, domain, days, now))
  {
    var mine := Filter(recs, ByUser(userId));
    var useDomain := domain.Some? && domain.value != "";
    var useDays := days.Some? && days.value != 0;
    var domainOnly: Interaction -> bool := i => Selected(i, userId, domain, None, now);
    if useDomain {
      FilterFilter(recs, ByUser(userId), ByDomain(domain.value), domainOnly);
    } else {
      FilterSame(recs, ByUser(userId), domainOnly);
    }
    var inDomain := Filter(recs, domainOnly);
    if useDays {
      FilterFilter(recs, domainOnly, Since(days.value, now), SelectedBy(userId, domain, days, now));
    } else {
      FilterSame(recs, domainOnly, SelectedBy(userId, domain, days, now));
    }
  }

  /** A record logged after the others is seen by every query it satisfies, at the end. */
  lemma UserInteractionsAfterLog(recs: seq<Interaction>, rec: Interaction, userId: int, domain: Option<string>,
                                 days: Option<int>, now: int)
    ensures UserInteractions(recs + [rec], userId, domain, days, now)
      == UserInteractions(recs, userId, domain, days, now)
         + (if Selected(rec, userId, domain, days, now) then [rec] else [])
  {
    UserInteractionsSpec(recs + [rec], userId, domain, days, now);
    UserInteractionsSpec(recs, userId, domain, days, now);
    FilterSnoc(recs, rec, SelectedBy(userId, domain, days, now));
  }

  // ---------------------------------------------------------------------
  // calculate_item_score

  /** `action_weights.get(action, 0.0)`. */
  function ActionWeight(action: string): (w: real)
    ensures -0.8 <= w <= 1.0
    ensures (action == "purchase" || action == "complete") <==> w == 1.0
  {
    if action == "view" then 0.1
    else if action == "click" then 0.3
    else if action == "like" then 0.8
    else if action == "dislike" then -0.8
    else if action == "rate" then 0.0
    else if action == "purchase" then 1.0
    else if action == "enroll" then 0.7
    else if action == "complete" then 1.0
    else if action == "skip" then -0.3
    else if action == "time_spent" then 0.0
    else 0.0
  }

  /**
   * One record's contribution: a rating maps 1..5 onto -1..1, time spent
   * earns up to 0.5 for five minutes or more, and any other record (a
   * rating or time without its value included) earns its action's weight.
   * With a rating in [1, 5] and a non-negative duration the contribution
   * lies in [-1, 1].
   */
  function ActionScore(i: Interaction): (v: real)
    ensures (i.metadata.rating.Some? ==> 1.0 <= i.metadata.rating.value <= 5.0)
         && (i.metadata.duration.Some? ==> i.metadata.duration.value >= 0.0)
         ==> -1.0 <= v <= 1.0
  {
    if i.actionType == "rate" && i.metadata.rating.Some? then (i.metadata.rating.value - 3.0) / 2.0
    else if i.actionType == "time_spent" && i.metadata.duration.Some? then
      var duration := if i.metadata.duration.value <= 300.0 then i.metadata.duration.value else 300.0;
      duration / 300.0 * 0.5
    else ActionWeight(i.actionType)
  }

  /** The running total over a list of records. */
  function TotalScore(recs: seq<Interaction>): real
  {
    if recs == [] then 0.0 else TotalScore(recs[..|recs| - 1]) + ActionScore(recs[|recs| - 1])
  }

  /** `max(-1.0, min(1.0, x))`. */
  function Clamp(x: real): (c: real)
    ensures -1.0 <= c <= 1.0
    ensures -1.0 <= x <= 1.0 ==> c == x
    ensures x > 1.0 ==> c == 1.0
    ensures x < -1.0 ==> c == -1.0
  {
    var upper := if x <= 1.0 then x else 1.0;
    if upper >= -1.0 then upper else -1.0
  }

  function SameItem(userId: int, itemId: int, domain: string): Interaction -> bool
  {
    (i: Interaction) => i.userId == userId && i.itemId == itemId && i.domain == domain
  }

  /** The records of one (user, item, domain) triple, in order. */
  function Matching(recs: seq<Interaction>, userId: int, itemId: int, domain: string): seq<Interaction>
  {
    Filter(recs, SameItem(userId, itemId, domain))
  }

  /**
   * `calculate_item_score`: 0 without history, otherwise the clamped total
   * of the triple's records; always in [-1, 1].
   */
  function ItemScore(recs: seq<Interaction>, userId: int, itemId: int, domain: string): (score: real)
    ensures -1.0 <= score <= 1.0
    ensures (forall k :: 0 <= k < |recs| ==> !SameItem(userId, itemId, domain)(recs[k])) ==> score == 0.0
  {
    var m := Matching(recs, userId, itemId, domain);
    if m == [] then 0.0 else Clamp(TotalScore(m))
  }

  /**
   * Logging a record of another triple leaves an item's score unchanged;
   * logging one of the same triple adds its contribution to the total
   * before the clamp.
   */
  lemma ItemScoreAfterLog(recs: seq<Interaction>, rec: Interaction, userId: int, itemId: int, domain: string)
    ensures !SameItem(userId, itemId, domain)(rec) ==>
      ItemScore(recs + [rec], userId, itemId, domain) == ItemScore(recs, userId, itemId, domain)
    ensures SameItem(userId, itemId, domain)(rec) ==>
      ItemScore(recs + [rec], userId, itemId, domain)
        == Clamp(TotalScore(Matching(recs, userId, itemId, domain)) + ActionScore(rec))
  {
    var m := Matching(recs, userId, itemId, domain);
    FilterSnoc(recs, rec, SameItem(userId, itemId, domain));
    if SameItem(userId, itemId, domain)(rec) {
      var grown := m + [rec];
      assert Matching(recs + [rec], userId, itemId, domain) == grown;
      assert TotalScore(grown) == TotalScore(m) + ActionScore(rec) by {
        assert grown[..|grown| - 1] == m;
      }
    } else {
      assert Matching(recs + [rec], userId, itemId, domain) == m;
    }
  }

  // ---------------------------------------------------------------------
  // get_preference_updates

  const MusicKey: string := "favorite_music_genres"
  const MovieKey: string := "favorite_genres"
  const ShoppingKey: string := "shopping_categories"
  const LearningKey: string := "learning_interests"

  /** The four keys of the `updates` dictionary. */
  const UpdateKeys: set<string> := {MusicKey, MovieKey, ShoppingKey, LearningKey}

  predicate UpdateKey(key: string)
  {
    key == MusicKey || key == MovieKey || key == ShoppingKey || key == LearningKey
  }

  /** The actions counted as positive feedback. */
  predicate PositiveAction(action: string)
  {
    action == "like" || action == "purchase" || action == "enroll" || action == "complete" || action == "rate"
  }

  function StripAll(parts: seq<string>): (r: seq<string>)
    ensures |r| == |parts|
    ensures forall k :: 0 <= k < |parts| ==> r[k] == Strip(parts[k])
  {
    seq(|parts|, k requires 0 <= k < |parts| => Strip(parts[k]))
  }

  /**
   * The update key and the labels one record counts, if any: a positive
   * record's music genre, its movie genres split on '|' and stripped, or
   * its product or course category.
   */
  function Contribution(i: Interaction): (c: Option<(string, seq<string>)>)
    ensures c.Some? ==> UpdateKey(c.value.0) && PositiveAction(i.actionType)
  {
    if !PositiveAction(i.actionType) then None
    else if i.domain == "music" && i.metadata.genre.Some? then Some((MusicKey, [i.metadata.genre.value]))
    else if i.domain == "movies" && i.metadata.genres.Some? then
      Some((MovieKey, StripAll(Split(i.metadata.genres.value, '|'))))
    else if i.domain == "products" && i.metadata.category.Some? then Some((ShoppingKey, [i.metadata.category.value]))
    else if i.domain == "courses" && i.metadata.category.Some? then Some((LearningKey, [i.metadata.category.value]))
    else None
  }

  /** The labels the records count under `key`, in order. */
  function Labels(recs: seq<Interaction>, key: string): seq<string>
  {
    if recs == [] then []
    else
      var c := Contribution(recs[|recs| - 1]);
      Labels(recs[..|recs| - 1], key) + (if c.Some? && c.value.0 == key then c.value.1 else [])
  }

  /** The count dictionary for `key`: each label once, first-seen order, with its count. */
  function Counts(recs: seq<Interaction>, key: string): seq<(string, real)>
  {
    Accumulate(Ones(Labels(recs, key)))
  }

  /** The names of the five most counted labels (`sorted(...)[:5]`, stable). */
  function TopLabels(counts: seq<(string, real)>): seq<string>
  {
    KeysOf(TopByValue(counts, 5))
  }

  /** The updates computed from a user's recent records. */
  function UpdatesFrom(recent: seq<Interaction>): map<string, seq<string>>
  {
    if recent == [] then map[]
    else map key | key in UpdateKeys && Counts(recent, key) != [] :: TopLabels(Counts(recent, key))
  }

  /** `get_preference_updates` over the records of the last `days` days. */
  function PreferenceUpdates(recs: seq<Interaction>, userId: int, days: int, now: int): map<string, seq<string>>
  {
    UpdatesFrom(UserInteractions(recs, userId, None, Some(days), now))
  }

  /** Counting one more record appends its labels under its key and nothing under the others. */
  lemma LabelsSnoc(recs: seq<Interaction>, k: nat, key: string)
    requires k < |recs|
    ensures Labels(recs[..k + 1], key)
      == Labels(recs[..k], key) + (var c := Contribution(recs[k]); if c.Some? && c.value.0 == key then c.value.1 else [])
  {
    assert recs[..k + 1][..k] == recs[..k];
  }

  /**
   * The counting loop of `get_preference_updates`: one count dictionary per
   * update key, each record adding its labels under its own key.
   */
  method CountAll(recent: seq<Interaction>) returns (counts: map<string, seq<(string, real)>>)
    ensures CountedAs(counts, recent)
  {
    counts := map[MusicKey := [], MovieKey := [], ShoppingKey := [], LearningKey := []];
    var k := 0;
    while k < |recent|
      invariant 0 <= k <= |recent|
      invariant CountedAs(counts, recent[..k])
    {
      counts := CountRecord(counts, recent, k);
      k := k + 1;
    }
    assert recent[..k] == recent;
  }

  /** One pass of the counting loop: the record at `k` adds its labels under its own key. */
  method CountRecord(counts: map<string, seq<(string, real)>>, recent: seq<Interaction>, k: nat)
    returns (next: map<string, seq<(string, real)>>)
    requires k < |recent| && CountedAs(counts, recent[..k])
    ensures CountedAs(next, recent[..k + 1])
  {
    var c := Contribution(recent[k]);
    if c.None? {
      next := counts;
      CountedSkip(counts, recent, k);
    } else {
      var key := c.value.0;
      var acc := CountLabels(counts[key], c.value.1, Labels(recent[..k], key));
      next := counts[key := acc];
      CountedAdd(counts, recent, k, acc);
    }
  }

  /** A record that contributes nothing leaves every count dictionary as it was. */
  lemma CountedSkip(counts: map<string, seq<(string, real)>>, recent: seq<Interaction>, k: nat)
    requires k < |recent| && Contribution(recent[k]).None? && CountedAs(counts, recent[..k])
    ensures CountedAs(counts, recent[..k + 1])
  {
    CountsSnoc(recent, k, MusicKey);
    CountsSnoc(recent, k, MovieKey);
    CountsSnoc(recent, k, ShoppingKey);
    CountsSnoc(recent, k, LearningKey);
  }

  /** A contributing record replaces only its own key's dictionary, by the counts with its labels added. */
  lemma CountedAdd(counts: map<string, seq<(string, real)>>, recent: seq<Interaction>, k: nat, acc: seq<(string, real)>)
    requires k < |recent| && Contribution(recent[k]).Some? && CountedAs(counts, recent[..k])
    requires var (key, labels) := Contribution(recent[k]).value;
      acc == Accumulate(Ones(Labels(recent[..k], key) + labels))
    ensures CountedAs(counts[Contribution(recent[k]).value.0 := acc], recent[..k + 1])
  {
    CountsSnoc(recent, k, MusicKey);
    CountsSnoc(recent, k, MovieKey);
    CountsSnoc(recent, k, ShoppingKey);
    CountsSnoc(recent, k, LearningKey);
  }

  /** The four count dictionaries of some records, one per update key. */
  ghost predicate CountedAs(counts: map<string, seq<(string, real)>>, recs: seq<Interaction>)
  {
    && counts.Keys == UpdateKeys
    && counts[MusicKey] == Counts(recs, MusicKey)
    && counts[MovieKey] == Counts(recs, MovieKey)
    && counts[ShoppingKey] == Counts(recs, ShoppingKey)
    && counts[LearningKey] == Counts(recs, LearningKey)
  }

  /** Counting one more record changes only the count dictionary of its own key. */
  lemma CountsSnoc(recs: seq<Interaction>, k: nat, key: string)
    requires k < |recs|
    ensures var c := Contribution(recs[k]);
      Counts(recs[..k + 1], key)
        == if c.Some? && c.value.0 == key then Accumulate(Ones(Labels(recs[..k], key) + c.value.1))
           else Counts(recs[..k], key)
  {
    LabelsSnoc(recs, k, key);
    var c := Contribution(recs[k]);
    var before := Labels(recs[..k], key);
    if c.Some? && c.value.0 == key {
      assert Labels(recs[..k + 1], key) == before + c.value.1;
    } else {
      assert before + [] == before;
      assert Labels(recs[..k + 1], key) == before;
    }
  }

  /** The dictionary built from the loop's counts is the one `UpdatesFrom` describes. */
  lemma UpdatesFromCounts(recent: seq<Interaction>, counts: map<string, seq<(string, real)>>)
    requires recent != []
    requires CountedAs(counts, recent)
    ensures (map key | key in counts && counts[key] != [] :: TopLabels(counts[key])) == UpdatesFrom(recent)
  {
    var built := map key | key in counts && counts[key] != [] :: TopLabels(counts[key]);
    var u := UpdatesFrom(recent);
    forall key ensures key in built <==> key in u {
      CountedKey(recent, counts, key);
    }
    forall key | key in built ensures built[key] == u[key] {
      CountedKey(recent, counts, key);
    }
    assert built == u;
  }

  /** The loop's dictionary for one key is that key's count dictionary. */
  lemma CountedKey(recent: seq<Interaction>, counts: map<string, seq<(string, real)>>, key: string)
    requires CountedAs(counts, recent)
    ensures key in counts <==> key in UpdateKeys
    ensures key in counts ==> counts[key] == Counts(recent, key)
  {
    if key in UpdateKeys {
      assert UpdateKey(key);
    }
  }

  /**
   * The inner counting loop: adds one to the count of each label in turn,
   * so the counts of `prefix` become the counts of `prefix + labels`.
   */
  method CountLabels(acc: seq<(string, real)>, labels: seq<string>, ghost prefix: seq<string>)
    returns (out: seq<(string, real)>)
    requires acc == Accumulate(Ones(prefix))
    ensures out == Accumulate(Ones(prefix + labels))
  {
    out := acc;
    var j := 0;
    assert prefix + labels[..0] == prefix;
    while j < |labels|
      invariant 0 <= j <= |labels|
      invariant out == Accumulate(Ones(prefix + labels[..j]))
    {
      var before := prefix + labels[..j];
      assert before + [labels[j]] == prefix + labels[..j + 1];
      assert Ones(before + [labels[j]]) == Ones(before) + [(labels[j], 1.0)];
      AccumulateSnoc(Ones(before), (labels[j], 1.0));
      out := AddTo(out, labels[j], 1.0);
      j := j + 1;
    }
    assert labels[..j] == labels;
  }

  /**
   * The top labels are distinct counted labels, at most five, in
   * non-increasing order of count, and no label left out was counted more
   * often than a kept one.
   */
  lemma TopLabelsSpec(counts: seq<(string, real)>)
    requires Distinct(KeysOf(counts))
    ensures var top := TopLabels(counts);
      && |top| == Min(5, |counts|)
      && Distinct(top)
      && (forall l :: l in top ==> l in KeysOf(counts))
      && (forall a, b :: 0 <= a < b < |top| ==> Lookup(counts, top[a], 0.0) >= Lookup(counts, top[b], 0.0))
      && (forall l, a :: l in KeysOf(counts) && l !in top && 0 <= a < |top|
            ==> Lookup(counts, l, 0.0) <= Lookup(counts, top[a], 0.0))
  {
    var t := TopByValue(counts, 5);
    TopByValueSpec(counts, 5);
    TopEntriesLookup(counts, t);
    TopLabelsDistinct(counts);
    TopLabelsOmitted(counts, t);
  }

  /** Each kept entry is an entry of the counts, so its value is its label's count. */
  lemma TopEntriesLookup(counts: seq<(string, real)>, t: seq<(string, real)>)
    requires Distinct(KeysOf(counts))
    requires forall a :: 0 <= a < |t| ==> t[a] in counts
    ensures forall a :: 0 <= a < |t| ==> t[a].0 in KeysOf(counts) && Lookup(counts, t[a].0, 0.0) == t[a].1
  {
    forall a | 0 <= a < |t| ensures t[a].0 in KeysOf(counts) && Lookup(counts, t[a].0, 0.0) == t[a].1 {
      var i :| 0 <= i < |counts| && counts[i] == t[a];
      assert KeysOf(counts)[i] == t[a].0;
      LookupEntry(counts, i, 0.0);
    }
  }

  /** A label left out was counted no more often than a kept one. */
  lemma TopLabelsOmitted(counts: seq<(string, real)>, t: seq<(string, real)>)
    requires Distinct(KeysOf(counts))
    requires forall e, a :: e in counts && e.0 !in KeysOf(t) && 0 <= a < |t| ==> e.1 <= t[a].1
    ensures forall l, a :: l in KeysOf(counts) && l !in KeysOf(t) && 0 <= a < |t| ==> Lookup(counts, l, 0.0) <= t[a].1
  {
    forall l, a | l in KeysOf(counts) && l !in KeysOf(t) && 0 <= a < |t| ensures Lookup(counts, l, 0.0) <= t[a].1 {
      var i :| 0 <= i < |counts| && KeysOf(counts)[i] == l;
      LookupEntry(counts, i, 0.0);
      assert counts[i] in counts;
    }
  }

  lemma TopLabelsDistinct(counts: seq<(string, real)>)
    requires Distinct(KeysOf(counts))
    ensures Distinct(TopLabels(counts))
  {
    var sorted := SortDesc(counts, Second);
    SortDescCorrect(counts, Second);
    DistinctKeysPermutation(counts, sorted);
    var t := Take(sorted, 5);
    forall a, b | 0 <= a < b < |t| ensures KeysOf(t)[a] != KeysOf(t)[b] {
      assert t[a] == sorted[a] && t[b] == sorted[b];
      assert KeysOf(sorted)[a] != KeysOf(sorted)[b];
    }
  }

  /** A permutation of a distinct-keyed list is distinct-keyed. */
  lemma DistinctKeysPermutation(counts: seq<(string, real)>, sorted: seq<(string, real)>)
    requires Distinct(KeysOf(counts)) && multiset(sorted) == multiset(counts)
    ensures Distinct(KeysOf(sorted))
  {
    forall a, b | 0 <= a < b < |sorted| ensures KeysOf(sorted)[a] != KeysOf(sorted)[b] {
      assert sorted[a] in multiset(counts) && sorted[b] in multiset(counts);
      var i :| 0 <= i < |counts| && counts[i] == sorted[a];
      var j :| 0 <= j < |counts| && counts[j] == sorted[b];
      assert KeysOf(counts)[i] == sorted[a].0 && KeysOf(counts)[j] == sorted[b].0;
      DistinctKeysOnce(counts, i);
      TwoPositions(sorted, a, b);
    }
  }

  /** An element found at two positions occurs at least twice. */
  lemma TwoPositions<T>(s: seq<T>, a: nat, b: nat)
    requires a < b < |s|
    ensures s[a] == s[b] ==> multiset(s)[s[a]] >= 2
  {
    assert s == s[..a] + [s[a]] + s[a + 1..];
    assert s[a + 1..][b - a - 1] == s[b];
    assert multiset(s) == multiset(s[..a]) + multiset{s[a]} + multiset(s[a + 1..]);
  }

  /** In a distinct-keyed list each entry occurs once. */
  lemma DistinctKeysOnce(counts: seq<(string, real)>, i: nat)
    requires Distinct(KeysOf(counts)) && i < |counts|
    ensures multiset(counts)[counts[i]] == 1
  {
    var e := counts[i];
    assert counts == counts[..i] + [e] + counts[i + 1..];
    assert e !in counts[..i] by {
      forall k | 0 <= k < i ensures counts[k] != e {
        assert KeysOf(counts)[k] != KeysOf(counts)[i];
      }
    }
    assert e !in counts[i + 1..] by {
      forall k | i < k < |counts| ensures counts[k] != e {
        assert KeysOf(counts)[k] != KeysOf(counts)[i];
      }
    }
    assert multiset(counts) == multiset(counts[..i]) + multiset{e} + multiset(counts[i + 1..]);
  }

  /**
   * The count dictionary of a key lists each counted label once, is empty
   * exactly when nothing was counted, and holds each label's number of
   * occurrences.
   */
  lemma CountsSpec(recent: seq<Interaction>, key: string)
    ensures Distinct(KeysOf(Counts(recent, key)))
    ensures |Counts(recent, key)| > 0 <==> |Labels(recent, key)| > 0
    ensures forall l :: Lookup(Counts(recent, key), l, 0.0) == multiset(Labels(recent, key))[l] as real
  {
    CountsKeys(recent, key);
    TallySpec(Labels(recent, key));
  }

  lemma CountsKeys(recent: seq<Interaction>, key: string)
    ensures Distinct(KeysOf(Counts(recent, key)))
    ensures |Counts(recent, key)| > 0 <==> |Labels(recent, key)| > 0
  {
    var labels := Labels(recent, key);
    TallySpec(labels);
    if |labels| > 0 {
      assert labels[0] in labels;
      assert labels[0] in KeysOf(Counts(recent, key));
    }
  }

  /**
   * No recent record, no updates. Otherwise a key is present exactly when
   * some recent positive record counted a label under it, and holds the
   * top labels of that key's counts (see `TopLabelsSpec` and `CountsSpec`).
   */
  lemma UpdatesFromSpec(recent: seq<Interaction>)
    ensures var u := UpdatesFrom(recent);
      && (recent == [] ==> u == map[])
      && (recent != [] ==> forall key :: key in u <==> UpdateKey(key) && |Labels(recent, key)| > 0)
      && (forall key :: key in u ==> u[key] == TopLabels(Counts(recent, key)) && Distinct(KeysOf(Counts(recent, key))))
  {
    var u := UpdatesFrom(recent);
    if recent != [] {
      forall key ensures key in u <==> UpdateKey(key) && |Labels(recent, key)| > 0 {
        UpdateEntry(recent, key);
      }
      forall key | key in u ensures u[key] == TopLabels(Counts(recent, key)) && Distinct(KeysOf(Counts(recent, key))) {
        UpdateEntry(recent, key);
      }
    }
  }

  /** One key of the updates: present iff it counted a label, holding the top labels of its counts. */
  lemma UpdateEntry(recent: seq<Interaction>, key: string)
    requires recent != []
    ensures key in UpdatesFrom(recent) <==> UpdateKey(key) && |Labels(recent, key)| > 0
    ensures key in UpdatesFrom(recent) ==>
      UpdatesFrom(recent)[key] == TopLabels(Counts(recent, key)) && Distinct(KeysOf(Counts(recent, key)))
  {
    CountsKeys(recent, key);
    UpdateKeyIn(key);
  }

  lemma UpdateKeyIn(key: string)
    ensures key in UpdateKeys <==> UpdateKey(key)
  {
  }

  // ---------------------------------------------------------------------
  // get_exploration_candidates (the branch with too few unexplored items)

  function ItemIds(recs: seq<Interaction>): (ids: seq<int>)
    ensures |ids| == |recs|
    ensures forall k :: 0 <= k < |recs| ==> ids[k] == recs[k].itemId
  {
    seq(|recs|, k requires 0 <= k < |recs| => recs[k].itemId)
  }

  function NotIn(ids: seq<int>): int -> bool
  {
    x => x !in ids
  }

  /** Sorting key for "fewest interactions first", as a descending key. */
  function FewestFirst(ids: seq<int>): int -> real
  {
    x => -(multiset(ids)[x] as real)
  }

  /** The `m` interacted items with the fewest interactions (`sorted(..., key=count)[:m]`, stable). */
  function LeastExplored(interacted: seq<int>, order: seq<int>, m: nat): seq<int>
  {
    Take(SortDesc(order, FewestFirst(interacted)), m)
  }

  /**
   * The least explored items are min(m, |order|) distinct items of
   * `order`, fewest interactions first, and no item of `order` left out
   * has fewer interactions than one taken.
   */
  lemma LeastExploredSpec(interacted: seq<int>, order: seq<int>, m: nat)
    requires Distinct(order)
    ensures var rest := LeastExplored(interacted, order, m);
      && |rest| == Min(m, |order|)
      && Distinct(rest)
      && (forall k :: 0 <= k < |rest| ==> rest[k] in order)
      && (forall a, b :: 0 <= a < b < |rest| ==> multiset(interacted)[rest[a]] <= multiset(interacted)[rest[b]])
      && (forall x, a :: x in order && x !in rest && 0 <= a < |rest|
            ==> multiset(interacted)[rest[a]] <= multiset(interacted)[x])
  {
    var key := FewestFirst(interacted);
    var sorted := SortDesc(order, key);
    SortDescCorrect(order, key);
    PermutationDistinct(order, sorted);
    var rest := LeastExplored(interacted, order, m);
    assert rest == sorted[..|rest|];
    forall k | 0 <= k < |rest| ensures rest[k] in order {
      assert rest[k] in multiset(order);
    }
    forall a, b | 0 <= a < b < |rest| ensures multiset(interacted)[rest[a]] <= multiset(interacted)[rest[b]] {
      assert key(sorted[a]) >= key(sorted[b]);
    }
    forall x, a | x in order && x !in rest && 0 <= a < |rest|
      ensures multiset(interacted)[rest[a]] <= multiset(interacted)[x]
    {
      assert x in multiset(sorted);
      var j :| 0 <= j < |sorted| && sorted[j] == x;
      assert j >= |rest|;
      assert key(sorted[a]) >= key(sorted[j]);
    }
  }

  /**
   * The candidates for exploration given the user's interactions in the
   * domain: `None` when at least n catalog items are unexplored (that
   * branch draws at random); otherwise every unexplored item in catalog
   * order, then the least-interacted items. `order` is the iteration order
   * of the Python set of interacted ids, which `sorted` (stable) breaks
   * ties by.
   */
  function ExplorationCandidates(userRecs: seq<Interaction>, allItems: seq<int>, n: nat, order: seq<int>)
    : Option<seq<int>>
    requires Distinct(order) && (forall x :: x in order <==> x in ItemIds(userRecs))
  {
    var interacted := ItemIds(userRecs);
    var unexplored := Filter(allItems, NotIn(interacted));
    if |unexplored| >= n then None
    else Some(unexplored + LeastExplored(interacted, order, n - |unexplored|))
  }

  /**
   * When the branch applies, the list holds n items, or every candidate
   * there is; it starts with the unexplored items of `allItems`, in
   * order, followed by interacted items only (see `LeastExploredSpec`
   * for their order). No item appears twice when `allItems` has none
   * twice.
   */
  lemma ExplorationCandidatesSpec(userRecs: seq<Interaction>, allItems: seq<int>, n: nat, order: seq<int>)
    requires Distinct(order) && (forall x :: x in order <==> x in ItemIds(userRecs))
    ensures var interacted := ItemIds(userRecs);
      var unexplored := Filter(allItems, NotIn(interacted));
      var r := ExplorationCandidates(userRecs, allItems, n, order);
      && (r.None? <==> |unexplored| >= n)
      && (r.Some? ==>
        && r.value == unexplored + LeastExplored(interacted, order, n - |unexplored|)
        && |r.value| == Min(n, |unexplored| + |order|)
        && (forall k :: |unexplored| <= k < |r.value| ==> r.value[k] in interacted)
        && (Distinct(allItems) ==> Distinct(r.value)))
  {
    var interacted := ItemIds(userRecs);
    var unexplored := Filter(allItems, NotIn(interacted));
    if |unexplored| < n {
      var rest := LeastExplored(interacted, order, n - |unexplored|);
      LeastExploredSpec(interacted, order, n - |unexplored|);
      TailInteracted(unexplored, rest, interacted);
      if Distinct(allItems) {
        FilterDistinct(allItems, NotIn(interacted));
        UnexploredFirst(allItems, interacted, rest);
      }
    }
  }

  /** Every item after the unexplored ones comes from the interacted part. */
  lemma TailInteracted(unexplored: seq<int>, rest: seq<int>, interacted: seq<int>)
    requires forall x :: x in rest ==> x in interacted
    ensures forall k :: |unexplored| <= k < |unexplored + rest| ==> (unexplored + rest)[k] in interacted
  {
    var r := unexplored + rest;
    forall k | |unexplored| <= k < |r| ensures r[k] in interacted {
      assert r[k] == rest[k - |unexplored|];
    }
  }

  /** Unexplored items followed by interacted ones repeat nothing when neither part does. */
  lemma UnexploredFirst(allItems: seq<int>, interacted: seq<int>, rest: seq<int>)
    requires Distinct(Filter(allItems, NotIn(interacted))) && Distinct(rest)
    requires forall k :: 0 <= k < |rest| ==> rest[k] in interacted
    ensures Distinct(Filter(allItems, NotIn(interacted)) + rest)
  {
    var unexplored := Filter(allItems, NotIn(interacted));
    forall x | x in unexplored ensures x !in rest {
      var i :| 0 <= i < |unexplored| && unexplored[i] == x;
      assert NotIn(interacted)(unexplored[i]);
    }
    DistinctAppend(unexplored, rest);
  }

  /** Filtering keeps a list free of duplicates. */
  lemma {:induction false} FilterDistinct<T>(s: seq<T>, p: T -> bool)
    requires Distinct(s)
    ensures Distinct(Filter(s, p))
  {
    if s != [] {
      var init := s[..|s| - 1];
      assert Distinct(init);
      FilterDistinct(init, p);
      if p(s[|s| - 1]) {
        var f := Filter(init, p);
        assert s[|s| - 1] !in init;
        assert s[|s| - 1] !in f;
      }
    }
  }

  /** A permutation of a list free of duplicates is free of them. */
  lemma PermutationDistinct(s: seq<int>, t: seq<int>)
    requires Distinct(s) && multiset(t) == multiset(s)
    ensures Distinct(t)
  {
    forall a, b | 0 <= a < b < |t| ensures t[a] != t[b] {
      assert t[a] in multiset(s);
      var i :| 0 <= i < |s| && s[i] == t[a];
      OccursOnce(s, i);
      TwoPositions(t, a, b);
    }
  }

  /** In a list free of duplicates each element occurs once. */
  lemma OccursOnce<T>(s: seq<T>, i: nat)
    requires Distinct(s) && i < |s|
    ensures multiset(s)[s[i]] == 1
  {
    var x := s[i];
    assert s == s[..i] + [x] + s[i + 1..];
    assert x !in s[..i] by {
      forall k | 0 <= k < i ensures s[k] != x {}
    }
    assert x !in s[i + 1..] by {
      forall k | i < k < |s| ensures s[k] != x {}
    }
    assert multiset(s) == multiset(s[..i]) + multiset{x} + multiset(s[i + 1..]);
  }

  // ---------------------------------------------------------------------
  // calculate_diversity_score

  /** The id fields `apply_reinforcement_boost` looks up, in order. */
  datatype IdFields = IdFields(id: Option<int>, trackId: Option<int>, movieId: Option<int>,
                               productId: Option<int>, courseId: Option<int>)

  /** A recommendation record as the tracker sees it. */
  datatype ScoredRec = ScoredRec(ids: IdFields, score: Option<real>, rlBoost: Option<real>, metadata: Metadata)

  /** The categories one recommendation contributes: its genre, else its '|'-split genres, else its category. */
  function RecCategories(m: Metadata): set<string>
  {
    if m.genre.Some? then {m.genre.value}
    else if m.genres.Some? then set p | p in Split(m.genres.value, '|')
    else if m.category.Some? then {m.category.value}
    else {}
  }

  predicate HasCategory(m: Metadata)
  {
    m.genre.Some? || m.genres.Some? || m.category.Some?
  }

  function CategoriesOf(recs: seq<ScoredRec>): set<string>
  {
    if recs == [] then {} else CategoriesOf(recs[..|recs| - 1]) + RecCategories(recs[|recs| - 1].metadata)
  }

  /** `calculate_diversity_score`: distinct categories per recommendation, 0 for no recommendations. */
  function DiversityScore(recs: seq<ScoredRec>): (d: real)
    ensures d >= 0.0
  {
    if recs == [] then 0.0 else |CategoriesOf(recs)| as real / |recs| as real
  }

  /**
   * The score is positive exactly when some recommendation names a genre
   * or category, and it is at most 1 when none of them lists '|'-separated
   * genres (each then adds at most one category).
   */
  lemma {:induction false} DiversitySpec(recs: seq<ScoredRec>)
    ensures DiversityScore(recs) > 0.0 <==> exists k :: 0 <= k < |recs| && HasCategory(recs[k].metadata)
    ensures (forall k :: 0 <= k < |recs| ==> recs[k].metadata.genre.Some? || recs[k].metadata.genres.None?)
      ==> DiversityScore(recs) <= 1.0
  {
    CategoriesNonEmpty(recs);
    if forall k :: 0 <= k < |recs| ==> recs[k].metadata.genre.Some? || recs[k].metadata.genres.None? {
      CategoriesBound(recs);
    }
    if recs != [] {
      CountRatio(|CategoriesOf(recs)|, |recs|);
    }
  }

  /** A ratio of counts is positive exactly when the numerator is, and at most 1 when it is the smaller. */
  lemma CountRatio(a: nat, b: nat)
    requires b > 0
    ensures a as real / b as real > 0.0 <==> a > 0
    ensures a <= b ==> a as real / b as real <= 1.0
  {
    var q := a as real / b as real;
    assert q * b as real == a as real;
  }

  lemma {:induction false} CategoriesNonEmpty(recs: seq<ScoredRec>)
    ensures |CategoriesOf(recs)| > 0 <==> exists k :: 0 <= k < |recs| && HasCategory(recs[k].metadata)
  {
    if recs != [] {
      var init := recs[..|recs| - 1];
      var m := recs[|recs| - 1].metadata;
      CategoriesNonEmpty(init);
      if HasCategory(m) {
        if m.genre.Some? {
          assert m.genre.value in RecCategories(m);
        } else if m.genres.Some? {
          assert Split(m.genres.value, '|')[0] in RecCategories(m);
        } else {
          assert m.category.value in RecCategories(m);
        }
      } else {
        assert RecCategories(m) == {};
      }
      if exists k :: 0 <= k < |init| && HasCategory(init[k].metadata) {
        var k :| 0 <= k < |init| && HasCategory(init[k].metadata);
        assert recs[k] == init[k];
      }
      if exists k :: 0 <= k < |recs| && HasCategory(recs[k].metadata) {
        var k :| 0 <= k < |recs| && HasCategory(recs[k].metadata);
        if k < |init| {
          assert init[k] == recs[k];
        }
      }
    }
  }

  lemma {:induction false} CategoriesBound(recs: seq<ScoredRec>)
    requires forall k :: 0 <= k < |recs| ==> recs[k].metadata.genre.Some? || recs[k].metadata.genres.None?
    ensures |CategoriesOf(recs)| <= |recs|
  {
    if recs != [] {
      var init := recs[..|recs| - 1];
      var m := recs[|recs| - 1].metadata;
      CategoriesBound(init);
      assert |RecCategories(m)| <= 1;
    }
  }

  // ---------------------------------------------------------------------
  // apply_reinforcement_boost

  /** Python truthiness of an optional id: present and non-zero. */
  predicate Truthy(v: Option<int>)
  {
    v.Some? && v.value != 0
  }

  /** `rec.get('id') or rec.get('track_id') or ...`, kept only when truthy. */
  function ItemKey(ids: IdFields): (k: Option<int>)
    ensures k.Some? ==> k.value != 0
    ensures k.None? <==> !Truthy(ids.id) && !Truthy(ids.trackId) && !Truthy(ids.movieId)
                         && !Truthy(ids.productId) && !Truthy(ids.courseId)
  {
    if Truthy(ids.id) then ids.id
    else if Truthy(ids.trackId) then ids.trackId
    else if Truthy(ids.movieId) then ids.movieId
    else if Truthy(ids.productId) then ids.productId
    else if Truthy(ids.courseId) then ids.courseId
    else None
  }

  /** `rl_score * boost_factor`. */
  function BoostAmount(rl: real, factor: real): real
  {
    rl * factor
  }

  /** One recommendation after the boost: a scored record gains rl_score x boost_factor. */
  function BoostOne(recs: seq<Interaction>, r: ScoredRec, userId: int, domain: string, factor: real): ScoredRec
  {
    var key := ItemKey(r.ids);
    if key.Some? && r.score.Some? then
      var boost := BoostAmount(ItemScore(recs, userId, key.value, domain), factor);
      r.(score := Some(r.score.value + boost), rlBoost := Some(boost))
    else r
  }

  function BoostAll(recs: seq<Interaction>, rs: seq<ScoredRec>, userId: int, domain: string, factor: real)
    : (out: seq<ScoredRec>)
    ensures |out| == |rs|
  {
    seq(|rs|, k requires 0 <= k < |rs| => BoostOne(recs, rs[k], userId, domain, factor))
  }

  /** `x.get('score', 0)`. */
  function SortScore(r: ScoredRec): real
  {
    if r.score.Some? then r.score.value else 0.0
  }

  /**
   * The boost changes nothing but scores and boosts: a record without a
   * truthy id or without a score is left as it was, a zero factor leaves
   * every score unchanged, and a non-negative factor moves a score by at
   * most the factor.
   */
  lemma BoostSpec(recs: seq<Interaction>, r: ScoredRec, userId: int, domain: string, factor: real)
    ensures var b := BoostOne(recs, r, userId, domain, factor);
      && b.ids == r.ids && b.metadata == r.metadata && b.score.Some? == r.score.Some?
      && (ItemKey(r.ids).None? || r.score.None? ==> b == r)
      && (factor == 0.0 ==> b.score == r.score)
      && (factor >= 0.0 && r.score.Some? ==> r.score.value - factor <= b.score.value <= r.score.value + factor)
  {
    var key := ItemKey(r.ids);
    if key.Some? && r.score.Some? {
      var rl := ItemScore(recs, userId, key.value, domain);
      var boost := BoostAmount(rl, factor);
      assert BoostOne(recs, r, userId, domain, factor) == r.(score := Some(r.score.value + boost), rlBoost := Some(boost));
      if factor == 0.0 {
        assert boost == 0.0;
      }
      if factor >= 0.0 {
        BoostBound(rl, factor);
      }
    }
  }

  /** A score in [-1, 1] times a non-negative factor moves by at most the factor. */
  lemma BoostBound(x: real, f: real)
    requires -1.0 <= x <= 1.0 && f >= 0.0
    ensures -f <= BoostAmount(x, f) <= f
  {
    MulMono(f, x, 1.0);
    MulMono(f, -1.0, x);
    assert -f <= x * f <= f;
  }

  /** The boosted list is re-sorted: a non-increasing permutation of the boosted records. */
  lemma BoostedRanking(recs: seq<Interaction>, rs: seq<ScoredRec>, userId: int, domain: string, factor: real)
    ensures var out := SortDesc(BoostAll(recs, rs, userId, domain, factor), SortScore);
      && SortedDesc(out, SortScore)
      && multiset(out) == multiset(BoostAll(recs, rs, userId, domain, factor))
      && |out| == |rs|
  {
    SortDescCorrect(BoostAll(recs, rs, userId, domain, factor), SortScore);
  }

  /**
   * `list.sort(key=..., reverse=True)` in place: a stable insertion sort
   * that leaves the array as `SortDesc` orders it.
   */
  method SortInPlace<T>(a: array<T>, key: T -> real)
    modifies a
    ensures a[..] == SortDesc(old(a[..]), key)
  {
    ghost var input := a[..];
    var i := 0;
    while i < a.Length
      invariant 0 <= i <= a.Length
      invariant a[..i] == SortDesc(input[..i], key)
      invariant a[i..] == input[i..]
    {
      assert a[i] == input[i] by {
        assert a[i..][0] == input[i..][0];
      }
      ghost var rest := a[i + 1..];
      assert rest == input[i + 1..];
      SortDescCorrect(input[..i], key);
      InsertBackward(a, i, key, a[..i]);
      SortSnoc(input, i, key);
      i := i + 1;
    }
    assert a[..] == a[..a.Length];
    assert input == input[..a.Length];
  }

  /** Sorting one more element inserts it into the sorted prefix. */
  lemma SortSnoc<T>(input: seq<T>, i: nat, key: T -> real)
    requires i < |input|
    ensures SortDesc(input[..i + 1], key) == InsertDesc(SortDesc(input[..i], key), input[i], key)
  {
    assert input[..i + 1][..i] == input[..i];
  }

  /**
   * One pass of the insertion sort: `a[i]` moves left past the elements of
   * the sorted prefix whose key is strictly smaller than its own.
   */
  method InsertBackward<T>(a: array<T>, i: nat, key: T -> real, ghost sorted: seq<T>)
    requires i < a.Length && a[..i] == sorted && SortedDesc(sorted, key)
    modifies a
    ensures a[..i + 1] == InsertDesc(sorted, old(a[i]), key)
    ensures a[i + 1..] == old(a[i + 1..])
  {
    var x := a[i];
    var j := i;
    while j > 0 && key(a[j - 1]) < key(x)
      invariant 0 <= j <= i
      invariant forall k :: 0 <= k < j ==> a[k] == sorted[k]
      invariant forall k :: j < k <= i ==> a[k] == sorted[k - 1]
      invariant forall k :: i < k < a.Length ==> a[k] == old(a[k])
      invariant forall k :: j <= k < i ==> key(sorted[k]) < key(x)
    {
      a[j] := a[j - 1];
      j := j - 1;
    }
    a[j] := x;
    InsertPosition(sorted, x, key, j);
    Shifted(a[..i + 1], sorted, x, j);
    assert a[i + 1..] == old(a[i + 1..]);
  }

  /** A list that agrees with `sorted` before `j`, holds `x` at `j` and `sorted` shifted by one after it. */
  lemma Shifted<T>(t: seq<T>, sorted: seq<T>, x: T, j: nat)
    requires |t| == |sorted| + 1 && j <= |sorted|
    requires forall k :: 0 <= k < j ==> t[k] == sorted[k]
    requires t[j] == x
    requires forall k :: j < k < |t| ==> t[k] == sorted[k - 1]
    ensures t == sorted[..j] + [x] + sorted[j..]
  {
  }

  /** Where the backward scan stops is where `InsertDesc` puts the new element. */
  lemma InsertPosition<T>(sorted: seq<T>, x: T, key: T -> real, j: nat)
    requires SortedDesc(sorted, key) && j <= |sorted|
    requires j == 0 || key(sorted[j - 1]) >= key(x)
    requires forall k :: j <= k < |sorted| ==> key(sorted[k]) < key(x)
    ensures InsertDesc(sorted, x, key) == sorted[..j] + [x] + sorted[j..]
  {
    InsertDescSplit(sorted, x, key, j);
  }

  // ---------------------------------------------------------------------
  // get_interaction_stats and _calculate_days_active

  function Domains(recs: seq<Interaction>): (ds: seq<string>)
    ensures |ds| == |recs|
  {
    seq(|recs|, k requires 0 <= k < |recs| => recs[k].domain)
  }

  function Actions(recs: seq<Interaction>): (acts: seq<string>)
    ensures |acts| == |recs|
  {
    seq(|recs|, k requires 0 <= k < |recs| => recs[k].actionType)
  }

  /** The distinct days of the records. */
  function DaysOf(recs: seq<Interaction>): set<int>
  {
    set k | 0 <= k < |recs| :: Day(recs[k].timestamp)
  }

  /** A user active on some day was active at least one day and at most one per record. */
  lemma {:induction false} DaysActiveBounds(recs: seq<Interaction>)
    ensures |DaysOf(recs)| <= |recs|
    ensures recs != [] ==> |DaysOf(recs)| >= 1
  {
    if recs != [] {
      var init := recs[..|recs| - 1];
      DaysActiveBounds(init);
      DaysOfSnoc(init, recs[|recs| - 1]);
      assert recs == init + [recs[|recs| - 1]];
      assert Day(recs[|recs| - 1].timestamp) in DaysOf(recs);
    }
  }

  lemma DaysOfSnoc(recs: seq<Interaction>, rec: Interaction)
    ensures DaysOf(recs + [rec]) == DaysOf(recs) + {Day(rec.timestamp)}
  {
    var s := recs + [rec];
    forall d | d in DaysOf(s) ensures d in DaysOf(recs) + {Day(rec.timestamp)} {
      var k :| 0 <= k < |s| && Day(s[k].timestamp) == d;
      if k < |recs| {
        assert s[k] == recs[k];
      }
    }
    forall d | d in DaysOf(recs) ensures d in DaysOf(s) {
      var k :| 0 <= k < |recs| && Day(recs[k].timestamp) == d;
      assert s[k] == recs[k];
    }
    assert s[|recs|] == rec;
  }

  /** `_calculate_days_active`: the number of distinct days, gathered in a set. */
  method CalculateDaysActive(recs: seq<Interaction>) returns (days: nat)
    ensures days == |DaysOf(recs)|
  {
    if recs == [] {
      return 0;
    }
    var dates: set<int> := {};
    var k := 0;
    while k < |recs|
      invariant 0 <= k <= |recs|
      invariant dates == DaysOf(recs[..k])
    {
      DaysOfSnoc(recs[..k], recs[k]);
      assert recs[..k + 1] == recs[..k] + [recs[k]];
      dates := dates + {Day(recs[k].timestamp)};
      k := k + 1;
    }
    assert recs[..k] == recs;
    days := |dates|;
  }

  /** What `get_interaction_stats` returns; `daysActive` is absent for a user without records. */
  datatype Stats = Stats(
    total: nat,
    byDomain: seq<(string, real)>,
    byAction: seq<(string, real)>,
    engagement: real,
    daysActive: Option<nat>)

  /** `min(1.0, n / 100)`. */
  function Engagement(n: nat): (e: real)
    ensures 0.0 <= e <= 1.0
    ensures e == 1.0 <==> n >= 100
  {
    if 1.0 <= n as real / 100.0 then 1.0 else n as real / 100.0
  }

  /** One more record adds one to its domain's and its action's counts. */
  lemma TallyStep(recs: seq<Interaction>, k: nat)
    requires k < |recs|
    ensures Accumulate(Ones(Domains(recs[..k + 1]))) == AddTo(Accumulate(Ones(Domains(recs[..k]))), recs[k].domain, 1.0)
    ensures Accumulate(Ones(Actions(recs[..k + 1]))) == AddTo(Accumulate(Ones(Actions(recs[..k]))), recs[k].actionType, 1.0)
  {
    assert Ones(Domains(recs[..k + 1])) == Ones(Domains(recs[..k])) + [(recs[k].domain, 1.0)];
    assert Ones(Actions(recs[..k + 1])) == Ones(Actions(recs[..k])) + [(recs[k].actionType, 1.0)];
    AccumulateSnoc(Ones(Domains(recs[..k])), (recs[k].domain, 1.0));
    AccumulateSnoc(Ones(Actions(recs[..k])), (recs[k].actionType, 1.0));
  }

  function InteractionStats(recs: seq<Interaction>): Stats
  {
    if recs == [] then Stats(0, [], [], 0.0, None)
    else Stats(|recs|, Accumulate(Ones(Domains(recs))), Accumulate(Ones(Actions(recs))),
               Engagement(|recs|), Some(|DaysOf(recs)|))
  }

  /**
   * The statistics count every record once: per domain and per action the
   * count is that value's number of records, each listed once; engagement
   * reaches 1 at a hundred records; and the user was active on between one
   * day and one day per record.
   */
  lemma InteractionStatsSpec(recs: seq<Interaction>)
    ensures var st := InteractionStats(recs);
      && st.total == |recs|
      && (recs == [] <==> st.daysActive.None?)
      && (st.daysActive.Some? ==> 1 <= st.daysActive.value <= |recs|)
      && Distinct(KeysOf(st.byDomain)) && Distinct(KeysOf(st.byAction))
      && (forall d :: Lookup(st.byDomain, d, 0.0) == multiset(Domains(recs))[d] as real)
      && (forall a :: Lookup(st.byAction, a, 0.0) == multiset(Actions(recs))[a] as real)
      && 0.0 <= st.engagement <= 1.0
      && (st.engagement == 1.0 <==> |recs| >= 100)
  {
    if recs != [] {
      TallySpec(Domains(recs));
      TallySpec(Actions(recs));
      DaysActiveBounds(recs);
    }
  }

  // ---------------------------------------------------------------------
  // The tracker

  class InteractionTracker {
    /** `self.interactions`, oldest first. */
    var interactions: seq<Interaction>

    /** A tracker holding the records loaded from its file. */
    constructor (loaded: seq<Interaction>)
      ensures interactions == loaded
    {
      interactions := loaded;
    }

    /**
     * `log_interaction`: appends one record stamped `now`, with empty
     * metadata when none is given, and returns it.
     */
    method LogInteraction(userId: int, itemId: int, domain: string, actionType: string, metadata: Option<Metadata>,
                          now: int) returns (rec: Interaction)
      modifies this
      ensures rec == Interaction(userId, itemId, domain, actionType, now,
                                 if metadata.Some? then metadata.value else NoMetadata)
      ensures interactions == old(interactions) + [rec]
    {
      rec := Interaction(userId, itemId, domain, actionType, now,
                         if metadata.Some? then metadata.value else NoMetadata);
      interactions := interactions + [rec];
    }

    /** `get_user_interactions`. */
    function GetUserInteractions(userId: int, domain: Option<string>, days: Option<int>, now: int)
      : seq<Interaction>
      reads this
    {
      UserInteractions(interactions, userId, domain, days, now)
    }

    /** `calculate_item_score`: the matching records' total, accumulated in a loop, then clamped. */
    method CalculateItemScore(userId: int, itemId: int, domain: string) returns (score: real)
      ensures score == ItemScore(interactions, userId, itemId, domain)
      ensures -1.0 <= score <= 1.0
    {
      var matching := Matching(interactions, userId, itemId, domain);
      if matching == [] {
        return 0.0;
      }
      var total := 0.0;
      var k := 0;
      while k < |matching|
        invariant 0 <= k <= |matching|
        invariant total == TotalScore(matching[..k])
      {
        assert matching[..k + 1][..k] == matching[..k];
        total := total + ActionScore(matching[k]);
        k := k + 1;
      }
      assert matching[..k] == matching;
      score := Clamp(total);
    }

    /**
     * `get_preference_updates`: counts labels of the recent positive
     * records into four dictionaries, then keeps the top five names of
     * each non-empty one.
     */
    method GetPreferenceUpdates(userId: int, days: int, now: int) returns (updates: map<string, seq<string>>)
      ensures updates == PreferenceUpdates(interactions, userId, days, now)
    {
      var recent := UserInteractions(interactions, userId, None, Some(days), now);
      if recent == [] {
        return map[];
      }
      var counts := CountAll(recent);
      updates := map key | key in counts && counts[key] != [] :: TopLabels(counts[key]);
      UpdatesFromCounts(recent, counts);
    }

    /** `get_exploration_candidates` for the user's interactions in `domain`. */
    function GetExplorationCandidates(userId: int, domain: string, allItems: seq<int>, n: nat, order: seq<int>)
      : Option<seq<int>>
      reads this
      requires Distinct(order)
      requires forall x :: x in order <==> x in ItemIds(UserInteractions(interactions, userId, Some(domain), None, 0))
    {
      ExplorationCandidates(UserInteractions(interactions, userId, Some(domain), None, 0), allItems, n, order)
    }

    /**
     * `apply_reinforcement_boost`: each scored record with an id is boosted
     * in place by its item score times the factor, then the list is
     * re-sorted by score, highest first, ties in list order.
     */
    method ApplyReinforcementBoost(userId: int, recs: array<ScoredRec>, domain: string, factor: real)
      modifies recs
      ensures recs[..] == SortDesc(BoostAll(interactions, old(recs[..]), userId, domain, factor), SortScore)
    {
      BoostInPlace(userId, recs, domain, factor);
      SortInPlace(recs, SortScore);
    }

    /** The boosting loop of `apply_reinforcement_boost`, record by record. */
    method BoostInPlace(userId: int, recs: array<ScoredRec>, domain: string, factor: real)
      modifies recs
      ensures recs[..] == BoostAll(interactions, old(recs[..]), userId, domain, factor)
    {
      ghost var original := recs[..];
      var k := 0;
      while k < recs.Length
        invariant 0 <= k <= recs.Length
        invariant forall j :: 0 <= j < k ==> recs[j] == BoostOne(interactions, original[j], userId, domain, factor)
        invariant forall j :: k <= j < recs.Length ==> recs[j] == original[j]
      {
        var boosted := BoostRecord(userId, recs[k], domain, factor);
        recs[k] := boosted;
        k := k + 1;
      }
    }

    /** The loop body of `apply_reinforcement_boost` for one record. */
    method BoostRecord(userId: int, r: ScoredRec, domain: string, factor: real) returns (boosted: ScoredRec)
      ensures boosted == BoostOne(interactions, r, userId, domain, factor)
    {
      var key := ItemKey(r.ids);
      boosted := r;
      if key.Some? && r.score.Some? {
        var rl := CalculateItemScore(userId, key.value, domain);
        var boost := BoostAmount(rl, factor);
        boosted := r.(score := Some(r.score.value + boost), rlBoost := Some(boost));
      }
    }

    /** `get_interaction_stats`: per-domain and per-action counts gathered in one loop. */
    method GetInteractionStats(userId: int) returns (stats: Stats)
      ensures stats == InteractionStats(UserInteractions(interactions, userId, None, None, 0))
    {
      var recs := UserInteractions(interactions, userId, None, None, 0);
      if recs == [] {
        return Stats(0, [], [], 0.0, None);
      }
      var byDomain: seq<(string, real)> := [];
      var byAction: seq<(string, real)> := [];
      var k := 0;
      while k < |recs|
        invariant 0 <= k <= |recs|
        invariant byDomain == Accumulate(Ones(Domains(recs[..k])))
        invariant byAction == Accumulate(Ones(Actions(recs[..k])))
      {
        TallyStep(recs, k);
        byDomain := AddTo(byDomain, recs[k].domain, 1.0);
        byAction := AddTo(byAction, recs[k].actionType, 1.0);
        k := k + 1;
      }
      assert recs[..k] == recs;
      var days := CalculateDaysActive(recs);
      stats := Stats(|recs|, byDomain, byAction, Engagement(|recs|), Some(days));
    }
  }
}
