/**
 * The cross-domain fuser of `unified_engine.py`: a unified profile built
 * from what the four domain recommenders know about a user, the feature
 * record a ranker would read, the plain merge of per-domain lists (sort by
 * score, keep the first `n_total`) and the per-domain dispatcher.
 */
module Unified {
  import opened Common
  import opened Hybrid
  import MovieModel
  import ProductModel
  import MusicModel
  import CourseModel

  const AllDomains: set<Domain> := {Movies, Products, Music, Courses}

  // ---------------------------------------------------------------------------
  // The unified profile
  // ---------------------------------------------------------------------------

  /** What each domain model's `get_user_embedding` returned for one user. */
  datatype DomainEmbeddings = DomainEmbeddings(
    movies: Option<seq<real>>,
    products: Option<ProductModel.ProductEmbedding>,
    music: Option<seq<real>>,
    courses: Option<CourseModel.CourseEmbedding>)

  /** The per-domain entry of `profile['preferences']`, present only for an engaged domain. */
  datatype DomainPreference =
    | MoviePreference(embeddingSize: nat)
    | ProductPreference(categories: seq<(string, real)>)
    | MusicPreference
    | CoursePreference(skillLevel: real, interests: seq<(string, real)>)

  /** `profile`: engagement flag per domain, fused embedding (None when nothing was engaged), preferences. */
  datatype UnifiedProfile = UnifiedProfile(
    userId: int,
    domains: map<Domain, bool>,
    unifiedEmbedding: Option<seq<real>>,
    preferences: map<Domain, DomainPreference>)

  /** The domain model returned an embedding for the user. */
  predicate Present(e: DomainEmbeddings, d: Domain)
  {
    match d
    case Movies => e.movies.Some?
    case Products => e.products.Some?
    case Music => e.music.Some?
    case Courses => e.courses.Some?
  }

  /** The fixed fusion weight of a domain: purchases count a little more, casual listening a little less. */
  function FusionWeight(d: Domain): (w: real)
    ensures w > 0.0
  {
    match d
    case Movies => 1.0
    case Products => 1.2
    case Music => 0.8
    case Courses => 1.1
  }

  /** The vector a present domain contributes (products and courses wrap theirs in a record). */
  function EmbeddingOf(e: DomainEmbeddings, d: Domain): seq<real>
    requires Present(e, d)
  {
    match d
    case Movies => e.movies.value
    case Products => e.products.value.embedding
    case Music => e.music.value
    case Courses => e.courses.value.embedding
  }

  function PreferenceOf(e: DomainEmbeddings, d: Domain): DomainPreference
    requires Present(e, d)
  {
    match d
    case Movies => MoviePreference(|e.movies.value|)
    case Products => ProductPreference(e.products.value.preferences)
    case Music => MusicPreference
    case Courses => CoursePreference(e.courses.value.skillLevel, e.courses.value.interests)
  }

  /** The engaged domains in the order the profile visits them: movies, products, music, courses. */
  function EngagedDomains(e: DomainEmbeddings): (ds: seq<Domain>)
    ensures forall d :: d in ds <==> d in AllDomains && Present(e, d)
    ensures Distinct(ds)
  {
    (if e.movies.Some? then [Movies] else [])
    + (if e.products.Some? then [Products] else [])
    + (if e.music.Some? then [Music] else [])
    + (if e.courses.Some? then [Courses] else [])
  }

  /** The collected embeddings, one per engaged domain. */
  function Collected(e: DomainEmbeddings): (embs: seq<seq<real>>)
    ensures |embs| == |EngagedDomains(e)|
  {
    var ds := EngagedDomains(e);
    seq(|ds|, i requires 0 <= i < |ds| => EmbeddingOf(e, ds[i]))
  }

  /** The collected weights, one per engaged domain. */
  function Weights(e: DomainEmbeddings): (ws: seq<real>)
    ensures |ws| == |EngagedDomains(e)|
  {
    var ds := EngagedDomains(e);
    seq(|ds|, i requires 0 <= i < |ds| => FusionWeight(ds[i]))
  }

  predicate AllPositive(ws: seq<real>)
  {
    forall i :: 0 <= i < |ws| ==> ws[i] > 0.0
  }

  /** `max(len(emb) for emb in embeddings)`. */
  function MaxLength(embs: seq<seq<real>>): (n: nat)
    requires |embs| > 0
    ensures forall i :: 0 <= i < |embs| ==> |embs[i]| <= n
    ensures exists i :: 0 <= i < |embs| && |embs[i]| == n
  {
    if |embs| == 1 then |embs[0]|
    else
      var rest := MaxLength(embs[1..]);
      assert forall i :: 1 <= i < |embs| ==> embs[i] == embs[1..][i - 1];
      if |embs[0]| >= rest then |embs[0]| else rest
  }

  function Zeros(n: nat): (z: seq<real>)
    ensures |z| == n && forall i :: 0 <= i < n ==> z[i] == 0.0
  {
    seq(n, i => 0.0)
  }

  /** `np.pad(emb, (0, n - len(emb)))` when shorter, else `emb[:n]`. */
  function Pad(emb: seq<real>, n: nat): seq<real>
  {
    if |emb| < n then emb + Zeros(n - |emb|) else emb[..n]
  }

  function PadAll(embs: seq<seq<real>>, n: nat): (padded: seq<seq<real>>)
    ensures |padded| == |embs|
  {
    seq(|embs|, i requires 0 <= i < |embs| => Pad(embs[i], n))
  }

  function Positions(n: nat): (idx: seq<nat>)
    ensures |idx| == n && forall i :: 0 <= i < n ==> idx[i] == i
  {
    seq(n, i => i)
  }

  /** `np.average(padded, axis=0, weights=weights / weights.sum())`. */
  function Average(padded: seq<seq<real>>, ws: seq<real>, width: nat): (avg: seq<real>)
    requires |padded| > 0 && |ws| == |padded| && AllPositive(ws) && Rectangular(padded, width)
    ensures |avg| == width
  {
    SumPositive(ws);
    SumScale(ws, Sum(ws));
    WeightedAverageRows(padded, Positions(|padded|), ws, width)
  }

  /** The unified embedding of some collected embeddings and weights. */
  function Fuse(embs: seq<seq<real>>, ws: seq<real>): (avg: seq<real>)
    requires |embs| > 0 && |ws| == |embs| && AllPositive(ws)
  {
    var width := MaxLength(embs);
    PadSpec(embs, width);
    Average(PadAll(embs, width), ws, width)
  }

  /** The padding loop and the weighted average of `build_unified_profile`. */
  method FuseEmbeddings(embeddings: seq<seq<real>>, weights: seq<real>) returns (fused: seq<real>)
    requires |embeddings| > 0 && |weights| == |embeddings| && AllPositive(weights)
    ensures fused == Fuse(embeddings, weights)
  {
    var width := MaxLength(embeddings);
    var padded: seq<seq<real>> := [];
    var k := 0;
    while k < |embeddings|
      invariant 0 <= k <= |embeddings|
      invariant padded == PadAll(embeddings[..k], width)
    {
      padded := padded + [Pad(embeddings[k], width)];
      k := k + 1;
    }
    assert embeddings[..k] == embeddings;
    PadSpec(embeddings, width);
    fused := Average(padded, weights, width);
  }

  /** All four flags, true exactly for the domains whose model knows the user. */
  function Flags(e: DomainEmbeddings): map<Domain, bool>
  {
    map d | d in AllDomains :: Present(e, d)
  }

  function Preferences(e: DomainEmbeddings): map<Domain, DomainPreference>
  {
    map d | d in AllDomains && Present(e, d) :: PreferenceOf(e, d)
  }

  function UnifiedEmbedding(e: DomainEmbeddings): Option<seq<real>>
  {
    if EngagedDomains(e) == [] then None
    else
      WeightsPositive(e);
      Some(Fuse(Collected(e), Weights(e)))
  }

  /** The profile `build_unified_profile` builds from the four embeddings. */
  function ProfileOf(userId: int, e: DomainEmbeddings): UnifiedProfile
  {
    UnifiedProfile(userId, Flags(e), UnifiedEmbedding(e), Preferences(e))
  }

  /** `sum(profile['domains'].values())`. */
  function CountEngaged(domains: map<Domain, bool>): nat
    requires domains.Keys == AllDomains
  {
    (if domains[Movies] then 1 else 0) + (if domains[Products] then 1 else 0)
    + (if domains[Music] then 1 else 0) + (if domains[Courses] then 1 else 0)
  }

  lemma WeightsPositive(e: DomainEmbeddings)
    ensures AllPositive(Weights(e))
  {
  }

  /** Padding reaches the common length, keeps the original prefix and fills with zeros. */
  lemma PadSpec(embs: seq<seq<real>>, n: nat)
    requires forall i :: 0 <= i < |embs| ==> |embs[i]| <= n
    ensures Rectangular(PadAll(embs, n), n)
    ensures forall i :: 0 <= i < |embs| ==> PadAll(embs, n)[i][..|embs[i]|] == embs[i]
    ensures forall i, c :: 0 <= i < |embs| && |embs[i]| <= c < n ==> PadAll(embs, n)[i][c] == 0.0
  {
  }

  /**
   * The profile always carries all four flags, a flag is set exactly when
   * that domain's model returned an embedding, preferences are recorded
   * exactly for the engaged domains, and the engaged count is the number of
   * set flags.
   */
  lemma ProfileFlagsSpec(userId: int, e: DomainEmbeddings)
    ensures var p := ProfileOf(userId, e);
      && p.userId == userId
      && p.domains.Keys == AllDomains
      && (forall d :: d in AllDomains ==> (p.domains[d] <==> Present(e, d)))
      && (forall d :: d in p.preferences <==> d in AllDomains && p.domains[d])
      && CountEngaged(p.domains) == |EngagedDomains(e)|
  {
  }

  /**
   * One positive fixed weight per engaged domain, in visiting order; the
   * normalised weights sum to 1.
   */
  lemma FusionWeightsSpec(e: DomainEmbeddings)
    ensures var ws := Weights(e);
      && |ws| == |Collected(e)| == |EngagedDomains(e)|
      && (forall i :: 0 <= i < |ws| ==> ws[i] == FusionWeight(EngagedDomains(e)[i]))
      && (forall i :: 0 <= i < |ws| ==> ws[i] == 1.0 || ws[i] == 1.2 || ws[i] == 0.8 || ws[i] == 1.1)
      && (ws != [] ==> Sum(ws) > 0.0 && Sum(Scale(ws, Sum(ws))) == 1.0)
  {
    var ws := Weights(e);
    forall i | 0 <= i < |ws| ensures ws[i] == 1.0 || ws[i] == 1.2 || ws[i] == 0.8 || ws[i] == 1.1 {
      match EngagedDomains(e)[i]
      case Movies =>
      case Products =>
      case Music =>
      case Courses =>
    }
    if ws != [] {
      WeightsPositive(e);
      NormalisedWeights(ws);
    }
  }

  /** Zero padding keeps every component of the embeddings within [lo, hi] when 0 is. */
  lemma PaddedBounds(embs: seq<seq<real>>, width: nat, lo: real, hi: real)
    requires forall i :: 0 <= i < |embs| ==> |embs[i]| <= width
    requires lo <= 0.0 <= hi
    requires forall i, c :: 0 <= i < |embs| && 0 <= c < |embs[i]| ==> lo <= embs[i][c] <= hi
    ensures forall t, c :: 0 <= t < |embs| && 0 <= c < width ==> lo <= PadAll(embs, width)[t][c] <= hi
  {
    var padded := PadAll(embs, width);
    PadSpec(embs, width);
    forall t, c | 0 <= t < |embs| && 0 <= c < width ensures lo <= padded[t][c] <= hi {
      if c < |embs[t]| {
        assert padded[t][..|embs[t]|] == embs[t];
        assert padded[t][c] == embs[t][c];
      }
    }
  }

  /**
   * The unified embedding is absent exactly when no domain is engaged;
   * otherwise it is as long as the longest collected embedding and, when
   * every collected component lies in [lo, hi] with 0 in that range (the
   * padding), every fused component does too.
   */
  lemma UnifiedEmbeddingSpec(e: DomainEmbeddings, lo: real, hi: real)
    ensures UnifiedEmbedding(e).None? <==> forall d :: d in AllDomains ==> !Present(e, d)
    ensures UnifiedEmbedding(e).Some? ==> |UnifiedEmbedding(e).value| == MaxLength(Collected(e))
    ensures UnifiedEmbedding(e).Some? && lo <= 0.0 <= hi
            && (forall i, c :: 0 <= i < |Collected(e)| && 0 <= c < |Collected(e)[i]| ==> lo <= Collected(e)[i][c] <= hi)
            ==> forall c :: 0 <= c < |UnifiedEmbedding(e).value| ==> lo <= UnifiedEmbedding(e).value[c] <= hi
  {
    var ds := EngagedDomains(e);
    if ds == [] {
      assert forall d :: d in AllDomains ==> !Present(e, d);
    } else {
      assert Present(e, ds[0]);
      var embs, ws := Collected(e), Weights(e);
      WeightsPositive(e);
      assert UnifiedEmbedding(e) == Some(Fuse(embs, ws));
      if lo <= 0.0 <= hi && (forall i, c :: 0 <= i < |embs| && 0 <= c < |embs[i]| ==> lo <= embs[i][c] <= hi) {
        FuseBounds(embs, ws, lo, hi);
      }
    }
  }

  /** Fusing embeddings whose components lie in [lo, hi], with 0 in that range, stays in [lo, hi]. */
  lemma FuseBounds(embs: seq<seq<real>>, ws: seq<real>, lo: real, hi: real)
    requires |embs| > 0 && |ws| == |embs| && AllPositive(ws)
    requires lo <= 0.0 <= hi
    requires forall i, c :: 0 <= i < |embs| && 0 <= c < |embs[i]| ==> lo <= embs[i][c] <= hi
    ensures forall c :: 0 <= c < |Fuse(embs, ws)| ==> lo <= Fuse(embs, ws)[c] <= hi
  {
    var width := MaxLength(embs);
    var padded := PadAll(embs, width);
    PadSpec(embs, width);
    PaddedBounds(embs, width, lo, hi);
    WeightedAverageBounds(padded, Positions(|padded|), ws, width, lo, hi);
  }

  // ---------------------------------------------------------------------------
  // Cross-domain features
  // ---------------------------------------------------------------------------

  /** The record `extract_cross_domain_features` hands to the ranker. */
  datatype Features = Features(
    moviesEngaged: nat, productsEngaged: nat, musicEngaged: nat, coursesEngaged: nat,
    totalDomainsEngaged: nat, itemScore: real, domain: nat,
    boostEducation: nat, boostAudio: nat, boostPractical: nat)

  const DomainNames: seq<string> := ["movies", "products", "music", "courses"]

  /** `['movies', 'products', 'music', 'courses'].index(name)`; None where Python raises ValueError. */
  function DomainIndex(name: string): (i: Option<nat>)
    ensures i.Some? ==> i.value < |DomainNames| && DomainNames[i.value] == name
    ensures i.None? <==> name !in DomainNames
  {
    if name == "movies" then Some(0)
    else if name == "products" then Some(1)
    else if name == "music" then Some(2)
    else if name == "courses" then Some(3)
    else None
  }

  function Indicator(b: bool): nat
  {
    if b then 1 else 0
  }

  function FeaturesOf(p: UnifiedProfile, itemScore: real, domain: string): Option<Features>
    requires p.domains.Keys == AllDomains
  {
    var index := DomainIndex(domain);
    if index.None? then None
    else
      Some(Features(
        Indicator(p.domains[Movies]), Indicator(p.domains[Products]),
        Indicator(p.domains[Music]), Indicator(p.domains[Courses]),
        CountEngaged(p.domains), itemScore, index.value,
        Indicator(domain == "movies" && p.domains[Courses]),
        Indicator(domain == "products" && p.domains[Music]),
        Indicator(domain == "courses" && p.domains[Products])))
  }

  /** The engaged domains of a flag map, as a set. */
  function EngagedSet(domains: map<Domain, bool>): set<Domain>
    requires domains.Keys == AllDomains
  {
    set d | d in AllDomains && domains[d]
  }

  /** The flag sum counts the engaged domains. */
  lemma CountEngagedSpec(domains: map<Domain, bool>)
    requires domains.Keys == AllDomains
    ensures CountEngaged(domains) == |EngagedSet(domains)| <= 4
  {
    var e1 := AddIfEngaged({}, Movies, domains[Movies]);
    var e2 := AddIfEngaged(e1, Products, domains[Products]);
    var e3 := AddIfEngaged(e2, Music, domains[Music]);
    var e4 := AddIfEngaged(e3, Courses, domains[Courses]);
    forall d ensures d in EngagedSet(domains) <==> d in e4 {
      match d
      case Movies => assert d in AllDomains && (d in e4 <==> domains[d]);
      case Products => assert d in AllDomains && (d in e4 <==> domains[d]);
      case Music => assert d in AllDomains && (d in e4 <==> domains[d]);
      case Courses => assert d in AllDomains && (d in e4 <==> domains[d]);
    }
    assert EngagedSet(domains) == e4;
  }

  /** The set grown by `d` when its flag is set: the size grows by the flag's indicator. */
  lemma AddIfEngaged(s: set<Domain>, d: Domain, flag: bool) returns (grown: set<Domain>)
    requires d !in s
    ensures forall x :: x in grown <==> x in s || (flag && x == d)
    ensures |grown| == |s| + Indicator(flag)
  {
    if flag {
      grown := s + {d};
      assert s * {d} == {};
    } else {
      grown := s;
    }
  }

  /**
   * Features exist exactly for the four domain names; the domain index
   * names the item's domain; the total counts the engaged domains; each
   * boost is set only for its own domain pair, so at most one is set.
   */
  lemma FeaturesSpec(p: UnifiedProfile, itemScore: real, domain: string)
    requires p.domains.Keys == AllDomains
    ensures var f := FeaturesOf(p, itemScore, domain);
      && (f.Some? <==> domain in DomainNames)
      && (f.Some? ==>
            && f.value.domain < 4 && DomainNames[f.value.domain] == domain
            && f.value.itemScore == itemScore
            && f.value.totalDomainsEngaged == |EngagedSet(p.domains)|
            && f.value.totalDomainsEngaged
               == f.value.moviesEngaged + f.value.productsEngaged + f.value.musicEngaged + f.value.coursesEngaged
            && (f.value.coursesEngaged == 1 <==> p.domains[Courses])
            && (f.value.boostEducation == 1 <==> domain == "movies" && p.domains[Courses])
            && (f.value.boostAudio == 1 <==> domain == "products" && p.domains[Music])
            && (f.value.boostPractical == 1 <==> domain == "courses" && p.domains[Products])
            && f.value.boostEducation + f.value.boostAudio + f.value.boostPractical <= 1)
  {
    CountEngagedSpec(p.domains);
  }

  // ---------------------------------------------------------------------------
  // Merging per-domain lists
  // ---------------------------------------------------------------------------

  /** The list each domain's `recommend` would contribute. */
  datatype Candidates = Candidates(
    movies: seq<Recommendation>, products: seq<Recommendation>,
    music: seq<Recommendation>, courses: seq<Recommendation>)

  function CandidatesFor(c: Candidates, d: Domain): seq<Recommendation>
  {
    match d
    case Movies => c.movies
    case Products => c.products
    case Music => c.music
    case Courses => c.courses
  }

  /** Each candidate list carries its own domain's recommendations. */
  predicate Labelled(c: Candidates)
  {
    forall d, i :: 0 <= i < |CandidatesFor(c, d)| ==> CandidatesFor(c, d)[i].domain == d
  }

  /** `all_recommendations` after the engaged domains' lists were appended, in domain order. */
  function Gathered(domains: map<Domain, bool>, c: Candidates): seq<Recommendation>
    requires domains.Keys == AllDomains
  {
    (if domains[Movies] then c.movies else [])
    + (if domains[Products] then c.products else [])
    + (if domains[Music] then c.music else [])
    + (if domains[Courses] then c.courses else [])
  }

  /** The loop over the engaged domains that appends each one's list to `all_recommendations`. */
  method GatherEngaged(domains: map<Domain, bool>, c: Candidates) returns (all: seq<Recommendation>)
    requires domains.Keys == AllDomains
    ensures all == Gathered(domains, c)
  {
    all := [];
    if domains[Movies] {
      all := all + c.movies;
    }
    assert all == (if domains[Movies] then c.movies else []);
    if domains[Products] {
      all := all + c.products;
    }
    assert all == (if domains[Movies] then c.movies else []) + (if domains[Products] then c.products else []);
    if domains[Music] {
      all := all + c.music;
    }
    assert all == (if domains[Movies] then c.movies else []) + (if domains[Products] then c.products else [])
                  + (if domains[Music] then c.music else []);
    if domains[Courses] {
      all := all + c.courses;
    }
  }

  /** `sorted(all_recommendations, key=score, reverse=True)[:n_total]`. */
  function MergeRanking(domains: map<Domain, bool>, c: Candidates, nTotal: nat): seq<Recommendation>
    requires domains.Keys == AllDomains
  {
    Take(SortDesc(Gathered(domains, c), RecScore), nTotal)
  }

  /** The answer of `get_unified_recommendations` (no ranker). */
  datatype UnifiedResult = UnifiedResult(
    userId: int, recommendations: seq<Recommendation>, domainsEngaged: nat, hasUnifiedEmbedding: bool)

  function ResultOf(p: UnifiedProfile, c: Candidates, nTotal: nat): UnifiedResult
    requires p.domains.Keys == AllDomains
  {
    UnifiedResult(p.userId, MergeRanking(p.domains, c, nTotal), CountEngaged(p.domains), p.unifiedEmbedding.Some?)
  }

  /** `x` is in the list of some engaged domain. */
  predicate FromEngaged(domains: map<Domain, bool>, c: Candidates, x: Recommendation)
    requires domains.Keys == AllDomains
  {
    exists d :: d in AllDomains && domains[d] && x in CandidatesFor(c, d)
  }

  /** A gathered recommendation comes from the list of an engaged domain. */
  lemma GatheredFrom(domains: map<Domain, bool>, c: Candidates, x: Recommendation)
    requires domains.Keys == AllDomains && x in Gathered(domains, c)
    ensures FromEngaged(domains, c, x)
  {
    if domains[Movies] && x in c.movies {
      assert x in CandidatesFor(c, Movies);
    } else if domains[Products] && x in c.products {
      assert x in CandidatesFor(c, Products);
    } else if domains[Music] && x in c.music {
      assert x in CandidatesFor(c, Music);
    } else {
      assert x in CandidatesFor(c, Courses);
    }
  }

  /**
   * The merge keeps at most `n_total` recommendations, highest score first,
   * each taken from an engaged domain's list (so, with labelled lists, of an
   * engaged domain), and no candidate it leaves out scores above one it keeps.
   */
  lemma MergeRankingSpec(domains: map<Domain, bool>, c: Candidates, nTotal: nat)
    requires domains.Keys == AllDomains
    ensures var g := Gathered(domains, c);
      var r := MergeRanking(domains, c, nTotal);
      && |r| == Min(nTotal, |g|)
      && SortedDesc(r, RecScore)
      && multiset(r) <= multiset(g)
      && (forall i :: 0 <= i < |r| ==> FromEngaged(domains, c, r[i]))
      && (Labelled(c) ==> forall i :: 0 <= i < |r| ==> r[i].domain in EngagedSet(domains))
      && (forall x, i :: x in multiset(g) - multiset(r) && 0 <= i < |r| ==> x.score <= r[i].score)
  {
    var g := Gathered(domains, c);
    var sorted := SortDesc(g, RecScore);
    SortDescCorrect(g, RecScore);
    var r := Take(sorted, nTotal);
    TakeSplits(sorted, nTotal);
    MergeFromEngaged(domains, c, r);
    TakeLeftOut(g, sorted, nTotal);
  }

  /** A prefix and the rest make up the whole, and so does their multiset. */
  lemma TakeSplits<T>(s: seq<T>, n: nat)
    ensures var r := Take(s, n);
      s == r + s[|r|..] && multiset(s) == multiset(r) + multiset(s[|r|..])
  {
    var r := Take(s, n);
    assert s == r + s[|r|..];
  }

  lemma MergeFromEngaged(domains: map<Domain, bool>, c: Candidates, r: seq<Recommendation>)
    requires domains.Keys == AllDomains && multiset(r) <= multiset(Gathered(domains, c))
    ensures forall i :: 0 <= i < |r| ==> FromEngaged(domains, c, r[i])
    ensures Labelled(c) ==> forall i :: 0 <= i < |r| ==> r[i].domain in EngagedSet(domains)
  {
    forall i | 0 <= i < |r|
      ensures FromEngaged(domains, c, r[i])
    {
      assert r[i] in multiset(r);
      assert multiset(r)[r[i]] <= multiset(Gathered(domains, c))[r[i]];
      assert r[i] in Gathered(domains, c);
      GatheredFrom(domains, c, r[i]);
    }
    forall i | 0 <= i < |r| && Labelled(c) ensures r[i].domain in EngagedSet(domains) {
      LabelledFrom(domains, c, r[i]);
    }
  }

  lemma LabelledFrom(domains: map<Domain, bool>, c: Candidates, x: Recommendation)
    requires domains.Keys == AllDomains && Labelled(c)
    requires FromEngaged(domains, c, x)
    ensures x.domain in EngagedSet(domains)
  {
    var d :| d in AllDomains && domains[d] && x in CandidatesFor(c, d);
    var j :| 0 <= j < |CandidatesFor(c, d)| && CandidatesFor(c, d)[j] == x;
  }

  /** Cutting a list sorted by score: whatever is cut off scores no higher than anything kept. */
  lemma TakeLeftOut(g: seq<Recommendation>, sorted: seq<Recommendation>, n: nat)
    requires SortedDesc(sorted, RecScore) && multiset(sorted) == multiset(g)
    ensures var r := Take(sorted, n);
      forall x, i :: x in multiset(g) - multiset(r) && 0 <= i < |r| ==> x.score <= r[i].score
  {
    var r := Take(sorted, n);
    var m := |r|;
    TakeSplits(sorted, n);
    forall x, i | x in multiset(g) - multiset(r) && 0 <= i < m ensures x.score <= r[i].score {
      assert x in multiset(sorted[m..]);
      CutOffBelow(sorted, m, x, i);
    }
  }

  lemma CutOffBelow(sorted: seq<Recommendation>, m: nat, x: Recommendation, i: nat)
    requires SortedDesc(sorted, RecScore) && m <= |sorted| && x in multiset(sorted[m..]) && i < m
    ensures x.score <= sorted[i].score
  {
    var j :| 0 <= j < |sorted| - m && sorted[m..][j] == x;
    assert sorted[m + j] == x;
  }

  /** The summary counts the engaged domains and reports a unified embedding exactly when one is engaged. */
  lemma ResultSummarySpec(userId: int, e: DomainEmbeddings, c: Candidates, nTotal: nat)
    ensures var p := ProfileOf(userId, e);
      var res := ResultOf(p, c, nTotal);
      && res.userId == userId
      && res.domainsEngaged == |EngagedSet(p.domains)| == |EngagedDomains(e)|
      && (res.hasUnifiedEmbedding <==> res.domainsEngaged > 0)
  {
    var p := ProfileOf(userId, e);
    ProfileFlagsSpec(userId, e);
    CountEngagedSpec(p.domains);
  }

  // ---------------------------------------------------------------------------
  // The engine
  // ---------------------------------------------------------------------------

  class UnifiedRecommender {
    const movieModel: MovieModel.MovieRecommender
    const productModel: ProductModel.ProductRecommender
    const musicModel: MusicModel.MusicRecommender
    const courseModel: CourseModel.CourseRecommender

    /** `self.unified_profiles`, the cache of built profiles by user id. */
    var unifiedProfiles: map<int, UnifiedProfile>

    ghost predicate Valid()
      reads this, movieModel, productModel, musicModel, courseModel
    {
      && movieModel.Valid() && productModel.Valid() && musicModel.Valid() && courseModel.Valid()
      && forall u :: u in unifiedProfiles ==> unifiedProfiles[u].domains.Keys == AllDomains
    }

    constructor (movieModel: MovieModel.MovieRecommender, productModel: ProductModel.ProductRecommender,
                 musicModel: MusicModel.MusicRecommender, courseModel: CourseModel.CourseRecommender)
      requires movieModel.Valid() && productModel.Valid() && musicModel.Valid() && courseModel.Valid()
      ensures Valid()
      ensures this.movieModel == movieModel && this.productModel == productModel
      ensures this.musicModel == musicModel && this.courseModel == courseModel
      ensures unifiedProfiles == map[]
    {
      this.movieModel := movieModel;
      this.productModel := productModel;
      this.musicModel := musicModel;
      this.courseModel := courseModel;
      unifiedProfiles := map[];
    }

    /** The four models' `get_user_embedding(user_id)`. */
    function EmbeddingsFor(userId: int): DomainEmbeddings
      requires Valid()
      reads this, movieModel, productModel, musicModel, courseModel
    {
      DomainEmbeddings(
        movieModel.GetUserEmbedding(userId), productModel.GetUserEmbedding(userId),
        musicModel.GetUserEmbedding(userId), courseModel.GetUserEmbedding(userId))
    }

    /**
     * `build_unified_profile`: visits the four domains, collecting each
     * engaged one's embedding and weight, pads and averages them, and
     * stores the profile in the cache.
     */
    method BuildUnifiedProfile(userId: int) returns (profile: UnifiedProfile)
      requires Valid()
      modifies this
      ensures Valid()
      ensures profile == ProfileOf(userId, EmbeddingsFor(userId))
      ensures unifiedProfiles == old(unifiedProfiles)[userId := profile]
    {
      profile := ComputeProfile(userId);
      unifiedProfiles := unifiedProfiles[userId := profile];
    }

    /** The profile `build_unified_profile` assembles before caching it. */
    method ComputeProfile(userId: int) returns (profile: UnifiedProfile)
      requires Valid()
      ensures profile == ProfileOf(userId, EmbeddingsFor(userId))
    {
      var domains, preferences, embeddings, weights := CollectEmbeddings(userId);
      ghost var e := EmbeddingsFor(userId);
      var fused: Option<seq<real>> := None;
      if embeddings != [] {
        WeightsPositive(e);
        var average := FuseEmbeddings(embeddings, weights);
        fused := Some(average);
      }
      profile := UnifiedProfile(userId, domains, fused, preferences);
    }

    /**
     * The four domain visits of `build_unified_profile`: each engaged
     * domain's flag, preference entry, embedding and weight.
     */
    method CollectEmbeddings(userId: int)
      returns (domains: map<Domain, bool>, preferences: map<Domain, DomainPreference>,
               embeddings: seq<seq<real>>, weights: seq<real>)
      requires Valid()
      ensures var e := EmbeddingsFor(userId);
        && domains == Flags(e) && preferences == Preferences(e)
        && embeddings == Collected(e) && weights == Weights(e)
    {
      ghost var e := EmbeddingsFor(userId);
      domains, preferences, embeddings, weights := map[], map[], [], [];

      var movieEmb := movieModel.GetUserEmbedding(userId);
      if movieEmb.Some? {
        embeddings := embeddings + [movieEmb.value];
        weights := weights + [1.0];
        domains := domains[Movies := true];
        preferences := preferences[Movies := MoviePreference(|movieEmb.value|)];
      } else {
        domains := domains[Movies := false];
      }
      ghost var c1 := Collection(domains, preferences, embeddings, weights);
      assert c1 == Step(NoCollection, e, Movies);

      var productData := productModel.GetUserEmbedding(userId);
      if productData.Some? {
        embeddings := embeddings + [productData.value.embedding];
        weights := weights + [1.2];
        domains := domains[Products := true];
        preferences := preferences[Products := ProductPreference(productData.value.preferences)];
      } else {
        domains := domains[Products := false];
      }
      ghost var c2 := Collection(domains, preferences, embeddings, weights);
      assert c2 == Step(c1, e, Products);

      var musicEmb := musicModel.GetUserEmbedding(userId);
      if musicEmb.Some? {
        embeddings := embeddings + [musicEmb.value];
        weights := weights + [0.8];
        domains := domains[Music := true];
        preferences := preferences[Music := MusicPreference];
      } else {
        domains := domains[Music := false];
      }
      ghost var c3 := Collection(domains, preferences, embeddings, weights);
      assert c3 == Step(c2, e, Music);

      var courseData := courseModel.GetUserEmbedding(userId);
      if courseData.Some? {
        embeddings := embeddings + [courseData.value.embedding];
        weights := weights + [1.1];
        domains := domains[Courses := true];
        preferences := preferences[Courses := CoursePreference(courseData.value.skillLevel, courseData.value.interests)];
      } else {
        domains := domains[Courses := false];
      }
      assert Collection(domains, preferences, embeddings, weights) == Step(c3, e, Courses);
      CollectionOfSpec(e);
    }

    /**
     * `extract_cross_domain_features`: builds and caches the profile only
     * when none is cached, then reads the (possibly older) cached one.
     */
    method ExtractCrossDomainFeatures(userId: int, itemScore: real, domain: string) returns (f: Option<Features>)
      requires Valid()
      modifies this
      ensures Valid()
      ensures old(userId in unifiedProfiles) ==> unifiedProfiles == old(unifiedProfiles)
      ensures old(userId !in unifiedProfiles) ==>
                unifiedProfiles == old(unifiedProfiles)[userId := ProfileOf(userId, EmbeddingsFor(userId))]
      ensures userId in unifiedProfiles && f == FeaturesOf(unifiedProfiles[userId], itemScore, domain)
    {
      if userId !in unifiedProfiles {
        var _ := BuildUnifiedProfile(userId);
      }
      f := FeaturesOf(unifiedProfiles[userId], itemScore, domain);
    }

    /**
     * `get_unified_recommendations` without a ranker: a fresh profile, the
     * engaged domains' lists appended in domain order, sorted by score and
     * cut to `n_total`.
     */
    method GetUnifiedRecommendations(userId: int, nTotal: nat, candidates: Candidates) returns (result: UnifiedResult)
      requires Valid()
      modifies this
      ensures Valid()
      ensures result == ResultOf(ProfileOf(userId, EmbeddingsFor(userId)), candidates, nTotal)
      ensures unifiedProfiles == old(unifiedProfiles)[userId := ProfileOf(userId, EmbeddingsFor(userId))]
    {
      var profile := BuildUnifiedProfile(userId);
      ProfileFlagsSpec(userId, EmbeddingsFor(userId));
      var all := GatherEngaged(profile.domains, candidates);
      var ranked := Take(SortDesc(all, RecScore), nTotal);
      result := UnifiedResult(userId, ranked, CountEngaged(profile.domains), profile.unifiedEmbedding.Some?);
      assert profile == ProfileOf(userId, EmbeddingsFor(userId));
      assert result == ResultOf(profile, candidates, nTotal);
    }

    /**
     * `get_domain_specific_recommendations`: the named domain's `recommend`
     * with its default blend weight (0.6, 0.5, 0.4, 0.3), nothing for any
     * other name.
     */
    ghost function DomainSpecificRecommendations(userId: int, domain: string, n: nat, sims: seq<real>, order: seq<nat>)
      : seq<Recommendation>
      requires Valid()
      requires domain == "movies" ==> movieModel.matrix.Some? && CfInputs(movieModel.matrix.value, sims, order)
                                      && movieModel.PopularityDefined() && movieModel.Normalisable(userId, sims, order)
      requires domain == "products" ==> CfInputs(productModel.matrix, sims, order)
                                        && productModel.Normalisable(userId, sims, order)
      requires domain == "music" ==> CfInputs(musicModel.matrix, sims, order)
      requires domain == "courses" ==> CfInputs(courseModel.matrix, sims, order)
      reads this, movieModel, productModel, musicModel, courseModel
    {
      if domain == "movies" then movieModel.Recommend(userId, n, 0.6, sims, order)
      else if domain == "products" then productModel.Recommend(userId, n, 0.5, sims, order)
      else if domain == "music" then musicModel.Recommend(userId, n, 0.4, sims, order)
      else if domain == "courses" then courseModel.Recommend(userId, n, 0.3, sims, order)
      else []
    }

    /** Any other domain name gets nothing; a known one gets at most n distinct items, highest score first. */
    lemma DomainSpecificSpec(userId: int, domain: string, n: nat, sims: seq<real>, order: seq<nat>)
      requires Valid()
      requires domain == "movies" ==> movieModel.matrix.Some? && CfInputs(movieModel.matrix.value, sims, order)
                                      && movieModel.PopularityDefined() && movieModel.Normalisable(userId, sims, order)
      requires domain == "products" ==> CfInputs(productModel.matrix, sims, order)
                                        && productModel.Normalisable(userId, sims, order)
      requires domain == "music" ==> CfInputs(musicModel.matrix, sims, order)
      requires domain == "courses" ==> CfInputs(courseModel.matrix, sims, order)
      ensures var r := DomainSpecificRecommendations(userId, domain, n, sims, order);
        && (domain !in DomainNames ==> r == [])
        && |r| <= n
        && (domain != "movies" ==> SortedDesc(r, RecScore) && DistinctItems(r))
    {
      if domain == "movies" {
        movieModel.RecommendSpec(userId, n, 0.6, sims, order);
      } else if domain == "products" {
        productModel.RecommendSpec(userId, n, 0.5, sims, order);
      } else if domain == "music" {
        musicModel.RecommendSpec(userId, n, 0.4, sims, order);
      } else if domain == "courses" {
        courseModel.RecommendSpec(userId, n, 0.3, sims, order);
      }
    }
  }

  /** What the profile builder has gathered after some domain visits. */
  datatype Collection = Collection(
    domains: map<Domain, bool>, preferences: map<Domain, DomainPreference>,
    embeddings: seq<seq<real>>, weights: seq<real>)

  const NoCollection := Collection(map[], map[], [], [])

  /** One domain visit: an engaged domain adds its flag, preference, embedding and weight; any other only its flag. */
  function Step(c: Collection, e: DomainEmbeddings, d: Domain): Collection
  {
    if Present(e, d) then
      Collection(c.domains[d := true], c.preferences[d := PreferenceOf(e, d)],
                 c.embeddings + [EmbeddingOf(e, d)], c.weights + [FusionWeight(d)])
    else c.(domains := c.domains[d := false])
  }

  function CollectionOf(e: DomainEmbeddings): Collection
  {
    Step(Step(Step(Step(NoCollection, e, Movies), e, Products), e, Music), e, Courses)
  }

  /** Visiting the four domains in turn yields the flags, preferences, embeddings and weights of the profile. */
  lemma CollectionOfSpec(e: DomainEmbeddings)
    ensures CollectionOf(e) == Collection(Flags(e), Preferences(e), Collected(e), Weights(e))
  {
    CollectionFlags(e);
    CollectionPreferences(e);
    CollectionLists(e);
  }

  lemma CollectionFlags(e: DomainEmbeddings)
    ensures CollectionOf(e).domains == Flags(e)
  {
    var c1 := Step(NoCollection, e, Movies);
    var c2 := Step(c1, e, Products);
    var c3 := Step(c2, e, Music);
    StepMaps(NoCollection, e, Movies);
    StepMaps(c1, e, Products);
    StepMaps(c2, e, Music);
    StepMaps(c3, e, Courses);
    var c4 := Step(c3, e, Courses);
    forall d ensures (d in c4.domains <==> d in Flags(e)) && (d in Flags(e) ==> c4.domains[d] == Flags(e)[d]) {
      match d
      case Movies => assert d in AllDomains;
      case Products => assert d in AllDomains;
      case Music => assert d in AllDomains;
      case Courses => assert d in AllDomains;
    }
    assert c4.domains == Flags(e);
  }

  lemma CollectionPreferences(e: DomainEmbeddings)
    ensures CollectionOf(e).preferences == Preferences(e)
  {
    var c1 := Step(NoCollection, e, Movies);
    var c2 := Step(c1, e, Products);
    var c3 := Step(c2, e, Music);
    var c4 := Step(c3, e, Courses);
    StepMaps(NoCollection, e, Movies);
    StepMaps(c1, e, Products);
    StepMaps(c2, e, Music);
    StepMaps(c3, e, Courses);
    forall d ensures (d in c4.preferences <==> d in Preferences(e))
      && (d in Preferences(e) ==> c4.preferences[d] == Preferences(e)[d])
    {
      match d
      case Movies => assert d in AllDomains;
      case Products => assert d in AllDomains;
      case Music => assert d in AllDomains;
      case Courses => assert d in AllDomains;
    }
    assert c4.preferences == Preferences(e);
  }

  /** One visit sets the domain's flag and, for an engaged domain, its preference. */
  lemma StepMaps(c: Collection, e: DomainEmbeddings, d: Domain)
    ensures Step(c, e, d).domains == c.domains[d := Present(e, d)]
    ensures Step(c, e, d).preferences == if Present(e, d) then c.preferences[d := PreferenceOf(e, d)] else c.preferences
  {
  }

  lemma CollectionLists(e: DomainEmbeddings)
    ensures CollectionOf(e).embeddings == Collected(e)
    ensures CollectionOf(e).weights == Weights(e)
  {
    CollectionMatches(e);
    MatchesCollected(e, CollectionOf(e));
  }

  /** The four visits collect, in order, the embeddings and weights of exactly the engaged domains. */
  lemma CollectionMatches(e: DomainEmbeddings)
    ensures Matches(e, EngagedDomains(e), CollectionOf(e))
  {
    var c1 := Step(NoCollection, e, Movies);
    var c2 := Step(c1, e, Products);
    var c3 := Step(c2, e, Music);
    var c4 := Step(c3, e, Courses);
    var ds1 := if Present(e, Movies) then [Movies] else [];
    var ds2 := ds1 + (if Present(e, Products) then [Products] else []);
    var ds3 := ds2 + (if Present(e, Music) then [Music] else []);
    var ds4 := ds3 + (if Present(e, Courses) then [Courses] else []);
    StepMatches(e, [], NoCollection, Movies);
    assert [] + ds1 == ds1;
    StepMatches(e, ds1, c1, Products);
    StepMatches(e, ds2, c2, Music);
    StepMatches(e, ds3, c3, Courses);
    assert ds4 == EngagedDomains(e);
  }

  lemma MatchesCollected(e: DomainEmbeddings, c: Collection)
    requires Matches(e, EngagedDomains(e), c)
    ensures c.embeddings == Collected(e) && c.weights == Weights(e)
  {
  }

  /** The collection lists, position by position, the embeddings and weights of the visited engaged domains. */
  ghost predicate Matches(e: DomainEmbeddings, ds: seq<Domain>, c: Collection)
  {
    && |c.embeddings| == |c.weights| == |ds|
    && (forall i :: 0 <= i < |ds| ==> Present(e, ds[i]) && c.embeddings[i] == EmbeddingOf(e, ds[i]))
    && (forall i :: 0 <= i < |ds| ==> c.weights[i] == FusionWeight(ds[i]))
  }

  lemma StepMatches(e: DomainEmbeddings, ds: seq<Domain>, c: Collection, d: Domain)
    requires Matches(e, ds, c)
    ensures Matches(e, ds + (if Present(e, d) then [d] else []), Step(c, e, d))
  {
  }
}
