/**
 * The recommendation pipeline of recommendations.js.
 *
 * `UserTopTracks` gathers the listener's top tracks, drops repeated ids,
 * builds their profiles and averages them into a centroid profile.
 * `RecommendedTracks` asks for recommendations seeded by each top track,
 * keeps each new id once, scores every candidate against the centroid,
 * sorts by score with `mergeSort` and reverses the result. `RecommendTracks`
 * keeps the first 150.
 *
 * The Web API is a set of parameters: `fetch` answers an audio-features
 * request, `recommend` answers a recommendations request for one seed track,
 * and `similarity` is the cosine similarity of two feature vectors, rounded
 * to hundredths (`toFixed(2)`).
 */
module Recommendations {
  import opened Options
  import opened Sorting
  import opened Tracks
  import opened Batching
  import opened FeatureStats
  import opened Dedup

  /** The profiles `Track.createTracks(tracks)` builds: track i with feature record i of the response. */
  function CreatedTracks(tracks: seq<RawTrack>, fetch: seq<string> -> seq<Features>): seq<Track>
    requires LengthPreserving(fetch)
  {
    AudioFeaturesLength(tracks, fetch);
    var features := AudioFeatures(tracks, fetch);
    seq(|tracks|, i requires 0 <= i < |tracks| => NewTrack(tracks[i], features[i]))
  }

  /** `Track.createTracks`: one request batch after another, then one profile per track. */
  method CreateTracks(tracks: seq<RawTrack>, fetch: seq<string> -> seq<Features>) returns (profiles: seq<Track>)
    requires LengthPreserving(fetch)
    ensures profiles == CreatedTracks(tracks, fetch)
  {
    var tracksAudioFeatures, _ := GetTracksAudioFeatures(tracks, fetch);
    AudioFeaturesLength(tracks, fetch);
    profiles := seq(|tracks|, i requires 0 <= i < |tracks| => NewTrack(tracks[i], tracksAudioFeatures[i]));
  }

  lemma PointwiseIsLengthPreserving(fetch: seq<string> -> seq<Features>, one: string -> Features)
    requires Pointwise(fetch, one)
    ensures LengthPreserving(fetch)
  {
    forall ids: seq<string>
      ensures |fetch(ids)| == |ids|
    {
      assert fetch(ids) == seq(|ids|, i requires 0 <= i < |ids| => one(ids[i]));
    }
  }

  /**
   * Profile i describes track i with that track's own features, however the
   * ids were split into requests: a record is never paired with another track.
   */
  lemma CreatedTracksAligned(tracks: seq<RawTrack>, fetch: seq<string> -> seq<Features>, one: string -> Features)
    requires Pointwise(fetch, one)
    ensures LengthPreserving(fetch)
    ensures |CreatedTracks(tracks, fetch)| == |tracks|
    ensures forall i :: 0 <= i < |tracks| ==> CreatedTracks(tracks, fetch)[i] == NewTrack(tracks[i], one(tracks[i].id))
  {
    PointwiseIsLengthPreserving(fetch, one);
    AudioFeaturesAligned(tracks, fetch, one);
  }

  /** The id and name of the centroid profile. */
  const CentroidId := "userTopTracks"

  /** The values of one feature over the profiles, in order (`featureValues`). */
  function Column(tracks: seq<Track>, feature: FeatureName): (values: seq<real>)
    ensures |values| == |tracks|
    ensures forall i :: 0 <= i < |tracks| ==> values[i] == Get(tracks[i].features, feature)
  {
    seq(|tracks|, i requires 0 <= i < |tracks| => Get(tracks[i].features, feature))
  }

  /** Each feature of the centroid is `calculateAverageFeature` of that feature's values. */
  function CentroidFeatures(tracks: seq<Track>): Features
    requires |tracks| > 0
  {
    Features(
      AverageFeature(Column(tracks, Acousticness)),
      AverageFeature(Column(tracks, Danceability)),
      AverageFeature(Column(tracks, Energy)),
      AverageFeature(Column(tracks, Instrumentalness)),
      AverageFeature(Column(tracks, Loudness)),
      AverageFeature(Column(tracks, Valence)))
  }

  /**
   * The profile `getAverageTrackFeatures` stores. It is built from a record
   * with only a name and an id, so it has no artists, no album and no score.
   */
  function Centroid(tracks: seq<Track>): Track
    requires |tracks| > 0
  {
    Track(CentroidId, CentroidId, [], "", CentroidFeatures(tracks), None)
  }

  /**
   * The centroid is named and identified `userTopTracks`, and each of its
   * features lies within any interval holding that feature for every top
   * track (between its smallest and largest value).
   */
  lemma CentroidWithin(tracks: seq<Track>, feature: FeatureName, lo: real, hi: real)
    requires |tracks| > 0
    requires forall t :: t in tracks ==> lo <= Get(t.features, feature) <= hi
    ensures Centroid(tracks).id == CentroidId && Centroid(tracks).name == CentroidId
    ensures lo <= Get(Centroid(tracks).features, feature) <= hi
  {
    var column := Column(tracks, feature);
    forall i | 0 <= i < |column|
      ensures lo <= column[i] <= hi
    {
      assert tracks[i] in tracks;
    }
    AverageFeatureWithin(column, lo, hi);
    CentroidFeature(tracks, feature);
  }

  /** If every top track has all six features in [0, 1], so does the centroid. */
  lemma CentroidInUnitRange(tracks: seq<Track>)
    requires |tracks| > 0
    requires forall t, f :: t in tracks ==> 0.0 <= Get(t.features, f) <= 1.0
    ensures forall f :: 0.0 <= Get(Centroid(tracks).features, f) <= 1.0
  {
    forall f: FeatureName
      ensures 0.0 <= Get(Centroid(tracks).features, f) <= 1.0
    {
      CentroidWithin(tracks, f, 0.0, 1.0);
    }
  }

  /** Each feature of the centroid is the trimmed mean of that feature's values. */
  lemma CentroidFeature(tracks: seq<Track>, feature: FeatureName)
    requires |tracks| > 0
    ensures Get(CentroidFeatures(tracks), feature) == AverageFeature(Column(tracks, feature))
  {
  }

  /** The listener's top tracks, and their centroid once computed. */
  class UserTopTracks {
    var tracks: seq<Track>
    var averageTrackFeatures: Option<Track>

    constructor()
      ensures tracks == [] && averageTrackFeatures == None
    {
      tracks := [];
      averageTrackFeatures := None;
    }

    /**
     * `getTopTracks`, given the three top-track lists (40 long-term, 40
     * medium-term and 10 short-term tracks are requested): concatenates them,
     * keeps the first occurrence of each id and builds the profiles.
     */
    method GetTopTracks(
      longTermTracks: seq<RawTrack>, mediumTermTracks: seq<RawTrack>, shortTermTracks: seq<RawTrack>,
      fetch: seq<string> -> seq<Features>)
      requires LengthPreserving(fetch)
      modifies this
      ensures tracks == CreatedTracks(TopTracks(longTermTracks + mediumTermTracks + shortTermTracks), fetch)
      ensures averageTrackFeatures == old(averageTrackFeatures)
    {
      var allTracks := longTermTracks + mediumTermTracks + shortTermTracks;
      var topTracks := [];
      for index := 0 to |allTracks|
        invariant topTracks == FirstOccurrences(allTracks, index)
      {
        if FindIndex(allTracks, allTracks[index].id) == index {
          topTracks := topTracks + [allTracks[index]];
        }
      }
      tracks := CreateTracks(topTracks, fetch);
    }

    /**
     * `getAverageTrackFeatures`: for each feature name in turn, collects the
     * values of the top tracks, averages them and stores the average in the
     * centroid. With no top tracks the source sorts an empty array, which
     * recurses until the engine throws a RangeError, so the tracks must be
     * there.
     */
    method GetAverageTrackFeatures()
      requires |tracks| > 0
      modifies this
      ensures tracks == old(tracks)
      ensures averageTrackFeatures == Some(Centroid(tracks))
    {
      // The record starts without features; all six are overwritten below.
      var features := Features(0.0, 0.0, 0.0, 0.0, 0.0, 0.0);
      ghost var target := CentroidFeatures(tracks);
      for k := 0 to |FeatureNames|
        invariant tracks == old(tracks)
        invariant forall m :: 0 <= m < k ==> Get(features, FeatureNames[m]) == Get(target, FeatureNames[m])
      {
        var feature := FeatureNames[k];
        var featureValues := FeatureValues(feature);
        var averageFeatureValue := CalculateAverageFeature(featureValues);
        CentroidFeature(tracks, feature);
        SetNextFeature(features, k, target);
        features := Set(features, feature, averageFeatureValue);
      }
      FeaturesByName(features, target);
      averageTrackFeatures := Some(Track(CentroidId, CentroidId, [], "", features, None));
    }

    /** The inner loop of `getAverageTrackFeatures`: the values of one feature, track by track. */
    method FeatureValues(feature: FeatureName) returns (featureValues: seq<real>)
      ensures featureValues == Column(tracks, feature)
    {
      featureValues := [];
      for j := 0 to |tracks|
        invariant featureValues == Column(tracks[..j], feature)
      {
        assert Column(tracks[..j + 1], feature) == Column(tracks[..j], feature) + [Get(tracks[j].features, feature)];
        featureValues := featureValues + [Get(tracks[j].features, feature)];
      }
      assert tracks[..|tracks|] == tracks;
    }

    /** `generate`: the top tracks, then their centroid. */
    method Generate(
      longTermTracks: seq<RawTrack>, mediumTermTracks: seq<RawTrack>, shortTermTracks: seq<RawTrack>,
      fetch: seq<string> -> seq<Features>)
      requires LengthPreserving(fetch)
      requires |longTermTracks + mediumTermTracks + shortTermTracks| > 0
      modifies this
      ensures tracks == CreatedTracks(TopTracks(longTermTracks + mediumTermTracks + shortTermTracks), fetch)
      ensures |tracks| > 0 && averageTrackFeatures == Some(Centroid(tracks))
    {
      GetTopTracks(longTermTracks, mediumTermTracks, shortTermTracks, fetch);
      TopTracksFirstOccurrences(longTermTracks + mediumTermTracks + shortTermTracks);
      GetAverageTrackFeatures();
    }
  }

  /** The ids of the seed tracks. */
  function TrackIds(tracks: seq<Track>): seq<string>
  {
    seq(|tracks|, i requires 0 <= i < |tracks| => tracks[i].id)
  }

  /** Everything recommended for the first `n` seeds, in the order received. */
  function Recommended(seeds: seq<Track>, recommend: Track -> seq<RawTrack>, n: nat): seq<RawTrack>
    requires n <= |seeds|
  {
    if n == 0 then [] else Recommended(seeds, recommend, n - 1) + recommend(seeds[n - 1])
  }

  /** The candidates `getSimilarTracks` has collected after the first `n` seeds. */
  function CandidatesUpTo(seeds: seq<Track>, recommend: Track -> seq<RawTrack>, n: nat): seq<RawTrack>
    requires n <= |seeds|
  {
    if n == 0 then []
    else Collect(CandidatesUpTo(seeds, recommend, n - 1), recommend(seeds[n - 1]), TrackIds(seeds))
  }

  /** The candidates `getSimilarTracks` collects over all seeds. */
  function SimilarTracks(seeds: seq<Track>, recommend: Track -> seq<RawTrack>): seq<RawTrack>
  {
    CandidatesUpTo(seeds, recommend, |seeds|)
  }

  lemma {:induction false} CandidatesAreCollected(seeds: seq<Track>, recommend: Track -> seq<RawTrack>, n: nat)
    requires n <= |seeds|
    ensures CandidatesUpTo(seeds, recommend, n) == Collect([], Recommended(seeds, recommend, n), TrackIds(seeds))
  {
    if n > 0 {
      var earlier, recs, excluded := Recommended(seeds, recommend, n - 1), recommend(seeds[n - 1]), TrackIds(seeds);
      assert Recommended(seeds, recommend, n) == earlier + recs;
      assert CandidatesUpTo(seeds, recommend, n) == Collect(CandidatesUpTo(seeds, recommend, n - 1), recs, excluded);
      CandidatesAreCollected(seeds, recommend, n - 1);
      CollectAppend([], earlier, recs, excluded);
    }
  }

  /**
   * The candidates are the first occurrence of every recommended id that is
   * not a seed id, in order of first appearance across the seeds.
   */
  lemma SimilarTracksAreFirstAdmitted(seeds: seq<Track>, recommend: Track -> seq<RawTrack>)
    ensures SimilarTracks(seeds, recommend)
      == TopTracks(Admitted(Recommended(seeds, recommend, |seeds|), TrackIds(seeds)))
  {
    CandidatesAreCollected(seeds, recommend, |seeds|);
    CollectIsFirstAdmitted(Recommended(seeds, recommend, |seeds|), TrackIds(seeds));
  }

  /**
   * The candidates have pairwise distinct ids, none of them a seed id; each
   * was recommended; and every recommended track whose id is not a seed id
   * has its id among the candidates.
   */
  lemma SimilarTracksProperties(seeds: seq<Track>, recommend: Track -> seq<RawTrack>)
    ensures DistinctIds(SimilarTracks(seeds, recommend))
    ensures forall i :: 0 <= i < |SimilarTracks(seeds, recommend)| ==>
      SimilarTracks(seeds, recommend)[i].id !in TrackIds(seeds)
      && SimilarTracks(seeds, recommend)[i] in Recommended(seeds, recommend, |seeds|)
    ensures forall t :: t in Recommended(seeds, recommend, |seeds|) && t.id !in TrackIds(seeds) ==>
      t.id in Ids(SimilarTracks(seeds, recommend))
  {
    var all := Recommended(seeds, recommend, |seeds|);
    var admitted := Admitted(all, TrackIds(seeds));
    SimilarTracksAreFirstAdmitted(seeds, recommend);
    TopTracksFirstOccurrences(admitted);
    AdmittedMembers(all, TrackIds(seeds));
    var s := SimilarTracks(seeds, recommend);
    forall i | 0 <= i < |s|
      ensures s[i].id !in TrackIds(seeds) && s[i] in all
    {
      assert s[i] in admitted;
    }
    forall t | t in all && t.id !in TrackIds(seeds)
      ensures t.id in Ids(s)
    {
      var k :| 0 <= k < |admitted| && admitted[k] == t;
    }
  }

  /** The candidates with their similarity to the centroid written into `similarityScore`. */
  function Scored(tracks: seq<Track>, average: Features, similarity: (Features, Features) -> int): seq<Track>
  {
    seq(|tracks|, i requires 0 <= i < |tracks| =>
      tracks[i].(similarityScore := Some(similarity(average, tracks[i].features))))
  }

  /**
   * Scoring keeps the candidates and their order and changes nothing but
   * the score of each, which becomes its similarity to the centroid.
   */
  lemma ScoredChangesOnlyScore(tracks: seq<Track>, average: Features, similarity: (Features, Features) -> int)
    ensures |Scored(tracks, average, similarity)| == |tracks|
    ensures forall i :: 0 <= i < |tracks| ==>
      Scored(tracks, average, similarity)[i].(similarityScore := tracks[i].similarityScore) == tracks[i]
    ensures forall i :: 0 <= i < |tracks| ==>
      Scored(tracks, average, similarity)[i].similarityScore == Some(similarity(average, tracks[i].features))
  {
  }

  /** The ranking `generate` leaves in `this.tracks`: `mergeSort` by score, then reversed. */
  function Ranked(scored: seq<Track>): seq<Track>
    requires |scored| > 0
  {
    Reverse(MergeSort(scored, ScoreKey))
  }

  /** The ranking holds exactly the scored candidates, best score string first. */
  lemma RankedIsDescendingPermutation(scored: seq<Track>)
    requires |scored| > 0
    ensures |Ranked(scored)| == |scored| && multiset(Ranked(scored)) == multiset(scored)
    ensures SortedDescendingBy(Ranked(scored), ScoreKey)
  {
    ReverseMultiset(MergeSort(scored, ScoreKey));
    ReverseAt(MergeSort(scored, ScoreKey));
    ReverseSortedDescending(MergeSort(scored, ScoreKey), ScoreKey);
  }

  /**
   * Candidates with equal scores appear in the ranking in the order they
   * were encountered: the sort reverses them and the reversal restores them.
   */
  lemma RankedKeepsTieOrder(scored: seq<Track>, k: Key)
    requires |scored| > 0
    ensures WithKey(Ranked(scored), ScoreKey, k) == WithKey(scored, ScoreKey, k)
  {
    var sorted := MergeSort(scored, ScoreKey);
    MergeSortReversesTies(scored, ScoreKey, k);
    WithKeyReverse(sorted, ScoreKey, k);
    ReverseReverse(WithKey(scored, ScoreKey, k));
  }

  /** Every score lies in [0, 1], that is, in [0, 100] hundredths. */
  ghost predicate UnitScores(tracks: seq<Track>)
  {
    forall t :: t in tracks ==> t.similarityScore.Some? && 0 <= t.similarityScore.value <= 100
  }

  /** Every track has a score, and the scores do not increase along the list. */
  ghost predicate DescendingScores(r: seq<Track>)
  {
    forall i, j :: 0 <= i < j < |r| ==>
      r[i].similarityScore.Some? && r[j].similarityScore.Some? &&
      r[i].similarityScore.value >= r[j].similarityScore.value
  }

  /** With scores in [0, 1] the ranking is descending by the scores as numbers. */
  lemma RankedByScore(scored: seq<Track>)
    requires |scored| > 0 && UnitScores(scored)
    ensures |Ranked(scored)| == |scored|
    ensures DescendingScores(Ranked(scored))
  {
    var r := Ranked(scored);
    RankedIsDescendingPermutation(scored);
    UnitScoresPermuted(scored, r);
    forall i, j | 0 <= i < j < |r|
      ensures r[i].similarityScore.Some? && r[j].similarityScore.Some?
      ensures r[i].similarityScore.value >= r[j].similarityScore.value
    {
      assert r[i] in r && r[j] in r;
      UnitScoreKeyOrder(r[i], r[j]);
    }
  }

  lemma UnitScoresPermuted(a: seq<Track>, b: seq<Track>)
    requires UnitScores(a) && multiset(a) == multiset(b)
    ensures UnitScores(b)
  {
    forall t | t in b
      ensures t.similarityScore.Some? && 0 <= t.similarityScore.value <= 100
    {
      assert t in multiset(b);
      assert t in a;
    }
  }

  /** For scores in [0, 1], a score string not below another means a score not below it. */
  lemma UnitScoreKeyOrder(x: Track, y: Track)
    requires x.similarityScore.Some? && 0 <= x.similarityScore.value <= 100
    requires y.similarityScore.Some? && 0 <= y.similarityScore.value <= 100
    requires !KeyLess(ScoreKey(x), ScoreKey(y))
    ensures x.similarityScore.value >= y.similarityScore.value
  {
    ScoreKeyOrder(x.similarityScore.value, y.similarityScore.value);
  }

  /** How many tracks `recommendTracks` keeps. */
  const RecommendationLimit: nat := 150

  /** `tracks.slice(0, 150)` */
  function TopRecommendations(ranked: seq<Track>): seq<Track>
  {
    ranked[..Min(RecommendationLimit, |ranked|)]
  }

  /**
   * The list shown holds min(150, n) of the n scored candidates, from the
   * start of the ranking, and with scores in [0, 1] every track kept scores
   * at least as high as every track cut.
   */
  lemma TopRecommendationsAreBest(scored: seq<Track>)
    requires |scored| > 0 && UnitScores(scored)
    ensures |Ranked(scored)| == |scored|
    ensures |TopRecommendations(Ranked(scored))| == Min(RecommendationLimit, |scored|)
    ensures multiset(TopRecommendations(Ranked(scored))) <= multiset(scored)
    ensures forall i, j :: 0 <= i < |TopRecommendations(Ranked(scored))| <= j < |Ranked(scored)| ==>
      Ranked(scored)[i].similarityScore.Some? && Ranked(scored)[j].similarityScore.Some? &&
      Ranked(scored)[i].similarityScore.value >= Ranked(scored)[j].similarityScore.value
  {
    var r := Ranked(scored);
    RankedIsDescendingPermutation(scored);
    RankedByScore(scored);
    TopIsBest(r, scored);
  }

  /**
   * The first 150 of a list descending by score (a permutation of `whole`)
   * are part of `whole` and outscore the rest of the list.
   */
  lemma TopIsBest(r: seq<Track>, whole: seq<Track>)
    requires multiset(r) == multiset(whole) && DescendingScores(r)
    ensures |TopRecommendations(r)| == Min(RecommendationLimit, |r|)
    ensures multiset(TopRecommendations(r)) <= multiset(whole)
    ensures forall i, j :: 0 <= i < |TopRecommendations(r)| <= j < |r| ==>
      r[i].similarityScore.Some? && r[j].similarityScore.Some? &&
      r[i].similarityScore.value >= r[j].similarityScore.value
  {
    var n := Min(RecommendationLimit, |r|);
    assert r == r[..n] + r[n..];
    assert multiset(r) == multiset(r[..n]) + multiset(r[n..]);
  }

  /** The recommendations derived from the listener's top tracks. */
  class RecommendedTracks {
    var tracks: seq<Track>
    var userTopTracks: seq<Track>
    var userAverageFeatures: Option<Track>

    constructor(userTop: UserTopTracks)
      ensures tracks == [] && userTopTracks == userTop.tracks
      ensures userAverageFeatures == userTop.averageTrackFeatures
    {
      tracks := [];
      userTopTracks := userTop.tracks;
      userAverageFeatures := userTop.averageTrackFeatures;
    }

    /**
     * `getSimilarTracks`: for each seed, each recommended track is appended
     * unless a collected track or a seed has its id; then the profiles of
     * the collected tracks are built.
     */
    method GetSimilarTracks(recommend: Track -> seq<RawTrack>, fetch: seq<string> -> seq<Features>)
      returns (recommendedTracks: seq<Track>)
      requires LengthPreserving(fetch)
      ensures recommendedTracks == CreatedTracks(SimilarTracks(userTopTracks, recommend), fetch)
    {
      var seedIds := TrackIds(userTopTracks);
      var similarTracksArray := [];
      for n := 0 to |userTopTracks|
        invariant similarTracksArray == CandidatesUpTo(userTopTracks, recommend, n)
      {
        var similarTracks := recommend(userTopTracks[n]);
        for k := 0 to |similarTracks|
          invariant similarTracksArray == Collect(CandidatesUpTo(userTopTracks, recommend, n), similarTracks[..k], seedIds)
        {
          var track := similarTracks[k];
          assert similarTracks[..k + 1][..k] == similarTracks[..k];
          if track.id !in Ids(similarTracksArray) && track.id !in seedIds {
            similarTracksArray := similarTracksArray + [track];
          }
        }
        assert similarTracks[..|similarTracks|] == similarTracks;
      }
      recommendedTracks := CreateTracks(similarTracksArray, fetch);
    }

    /**
     * `calculateSimilarityScore`: writes each candidate's similarity to the
     * centroid into its score. The centroid must have been computed.
     */
    method CalculateSimilarityScore(candidates: seq<Track>, similarity: (Features, Features) -> int)
      returns (scored: seq<Track>)
      requires userAverageFeatures.Some?
      ensures scored == Scored(candidates, userAverageFeatures.value.features, similarity)
    {
      var average := userAverageFeatures.value.features;
      scored := candidates;
      for i := 0 to |candidates|
        invariant |scored| == |candidates|
        invariant forall k :: 0 <= k < i ==> scored[k] == Scored(candidates, average, similarity)[k]
        invariant forall k :: i <= k < |candidates| ==> scored[k] == candidates[k]
      {
        var track := scored[i];
        scored := scored[i := track.(similarityScore := Some(similarity(average, track.features)))];
      }
    }

    /**
     * `generate`: collect, score, sort ascending by score and reverse in
     * place. Sorting an empty array recurses until the engine throws a
     * RangeError, so there must be at least one candidate.
     */
    method Generate(
      recommend: Track -> seq<RawTrack>, fetch: seq<string> -> seq<Features>,
      similarity: (Features, Features) -> int)
      requires LengthPreserving(fetch)
      requires userAverageFeatures.Some?
      requires |SimilarTracks(userTopTracks, recommend)| > 0
      modifies this
      ensures userTopTracks == old(userTopTracks) && userAverageFeatures == old(userAverageFeatures)
      ensures tracks == Ranked(Scored(CreatedTracks(SimilarTracks(userTopTracks, recommend), fetch),
                                      userAverageFeatures.value.features, similarity))
    {
      var recommendedTracks := GetSimilarTracks(recommend, fetch);
      recommendedTracks := CalculateSimilarityScore(recommendedTracks, similarity);
      recommendedTracks := MergeSort(recommendedTracks, ScoreKey);
      var sorted := new Track[|recommendedTracks|](i requires 0 <= i < |recommendedTracks| => recommendedTracks[i]);
      assert sorted[..] == recommendedTracks;
      ReverseInPlace(sorted);
      tracks := sorted[..];
    }
  }

  /** The list `recommendTracks` displays, as a function of what the Web API answers. */
  function Recommendations(
    longTermTracks: seq<RawTrack>, mediumTermTracks: seq<RawTrack>, shortTermTracks: seq<RawTrack>,
    recommend: Track -> seq<RawTrack>, fetch: seq<string> -> seq<Features>,
    similarity: (Features, Features) -> int): seq<Track>
    requires LengthPreserving(fetch)
    requires |longTermTracks + mediumTermTracks + shortTermTracks| > 0
    requires |SimilarTracks(CreatedTracks(TopTracks(longTermTracks + mediumTermTracks + shortTermTracks), fetch), recommend)| > 0
  {
    var topTracks := CreatedTracks(TopTracks(longTermTracks + mediumTermTracks + shortTermTracks), fetch);
    TopTracksFirstOccurrences(longTermTracks + mediumTermTracks + shortTermTracks);
    var candidates := CreatedTracks(SimilarTracks(topTracks, recommend), fetch);
    TopRecommendations(Ranked(Scored(candidates, CentroidFeatures(topTracks), similarity)))
  }

  /**
   * `recommendTracks`: the top tracks and their centroid, the ranked
   * recommendations, and the first 150 of them.
   */
  method RecommendTracks(
    longTermTracks: seq<RawTrack>, mediumTermTracks: seq<RawTrack>, shortTermTracks: seq<RawTrack>,
    recommend: Track -> seq<RawTrack>, fetch: seq<string> -> seq<Features>,
    similarity: (Features, Features) -> int) returns (shown: seq<Track>)
    requires LengthPreserving(fetch)
    requires |longTermTracks + mediumTermTracks + shortTermTracks| > 0
    requires |SimilarTracks(CreatedTracks(TopTracks(longTermTracks + mediumTermTracks + shortTermTracks), fetch), recommend)| > 0
    ensures shown == Recommendations(longTermTracks, mediumTermTracks, shortTermTracks, recommend, fetch, similarity)
    ensures |shown| <= RecommendationLimit
  {
    var userTopTracks := new UserTopTracks();
    userTopTracks.Generate(longTermTracks, mediumTermTracks, shortTermTracks, fetch);
    var recommendedTracks := new RecommendedTracks(userTopTracks);
    recommendedTracks.Generate(recommend, fetch, similarity);
    recommendedTracks.tracks := recommendedTracks.tracks[..Min(RecommendationLimit, |recommendedTracks.tracks|)];
    shown := recommendedTracks.tracks;
  }
}
