# Spotistats recommendation engine, modelled in Dafny

Spotistats is a browser application that shows a Spotify listener their top
tracks and artists and recommends new tracks. This project models its
algorithmic core and proves properties of that model:

- **Merge sort** (`mergeSort` and `merge`, in api_calls.js and again in
  functions.js).
  - The recursive split is a function; the merge loop is a method proved
    against it.
  - JavaScript's `<` on the compared values is modelled by a key order: numbers,
    `undefined`, and strings compared by their UTF-16 code units (a character
    above U+FFFF counts as its surrogate pair).
- **Audio-feature batching** (`getTracksAudioFeatures`). Ids are split into
  requests of at most 100. The request itself is a parameter.
- **Track profiles** (`Track`). The similarity score is the string `toFixed(2)`
  gives, kept as a whole number of hundredths and compared as that string.
- **The top-track centroid** (`UserTopTracks`).
  - Duplicate ids are removed by `findIndex`.
  - Each feature is averaged after sorting and after removing outliers outside
    the interquartile fences (`removeOutliers` and its splice loop).
- **Candidate collection and ranking** (`RecommendedTracks`, `recommendTracks`).
  - Recommended tracks are collected once per id, and seed ids are skipped.
  - Candidates are scored, sorted, reversed in place and cut to 150.
- **The statistics page** (statistics_viewer.js): the options check, table
  rows and their ranks, `convertToList`, sorting the table by a column, and the
  table title.
- **The quiz classes** (quiz.js).

The Web API is represented by parameters. The same goes for the form controls,
and the conversion of the quantity text to a number:

| parameter | what it stands for |
|---|---|
| `fetch` | answers one audio-features request |
| `recommend` | answers one recommendations request for a seed track |
| `similarity` | the rounded cosine similarity of two feature vectors |
| the three top-track lists | the answers to the three top-items requests |
| `toNumber` | JavaScript's `Number` on the quantity text |

Some behaviours of the code shape the rest of the model:

- **Ties in the sort.** The sort is not stable. The merge tests `left < right`
  and otherwise takes the right head (api_calls.js:221-224), so equal keys
  leave `mergeSort` in reverse input order (`Sorting.MergeSortReversesTies`).
  The `.reverse()` after the ranking sort (recommendations.js:135) turns this
  into equal scores in encounter order (`Recommendations.RankedKeepsTieOrder`).
- **The empty array.** `mergeSort` stops only at length 1
  (api_calls.js:205-207). On an empty array it recurses until the engine throws
  a RangeError. Every caller of the sort therefore requires a non-empty input.
- **Outlier removal never empties a feature.** For sorted input both quartiles
  always survive (`FeatureStats.QuartileRangeSurvives`). So the mean never
  divides by zero once there is a top track.
- **The score is ranked as a string.** The ranking sort compares the
  `toFixed(2)` string (recommendations.js:134). For scores in [0, 1] the string
  order agrees with the numeric order (`Tracks.ScoreKeyOrder`,
  `Recommendations.RankedByScore`).
- **Strings sort by UTF-16 code unit.** A character above U+FFFF sorts by its
  high surrogate, so U+1D11E sorts before U+FF71
  (`Sorting.SurrogatePairSortsBelowHalfwidth`). This matters for the name,
  artists, album and genres columns of the statistics table.

## Model

| member | source | states |
|---|---|---|
| Sorting.KeyLessTotal | api_calls.js:221-225 | two different keys are always ordered one way or the other, so the merge's `<` test decides every pair |
| Sorting.CodeUnitsInjective | api_calls.js:221 | different strings have different UTF-16 code units, so comparing code units orders any two different strings |
| Sorting.SurrogatePairSortsBelowHalfwidth | api_calls.js:221 | example: "\u{1D11E}" < "\uFF71" holds and the reverse does not, although the first code point is the larger |
| Sorting.KeyLessTransitive | api_calls.js:221-225 | the comparison the merge uses is transitive |
| Sorting.Merged | api_calls.js:217-235 | the merge of two halves has the length of both together and is a permutation of their concatenation |
| Sorting.MergedExhausted | api_calls.js:234 | when one side is empty, the other side is returned unchanged, in order |
| Sorting.MergedSorted | api_calls.js:217-235 | merging two ascending sequences gives an ascending sequence |
| Sorting.MergedWithKey | api_calls.js:221-225 | among elements with equal keys, the merge emits all those of the right half first, then those of the left half, each in its own order |
| Sorting.Merge | api_calls.js:217-235 | the shift/push loop returns exactly the merge of the two halves (functions.js:126-144 is an identical copy) |
| Sorting.MergeSort | api_calls.js:204-216 | for a non-empty array, the result has the same length, is a permutation of the input and is ascending by the key (functions.js:113-125 is an identical copy) |
| Sorting.MergeSortSingleton | api_calls.js:205-207 | an array of length 1 is returned unchanged |
| Sorting.MergeSortUnfold | api_calls.js:208-215 | helper, unfolding the definition: a longer array is split at floor(n/2), both halves are sorted and then merged |
| Sorting.MergeSortReversesTies | api_calls.js:221-231 | elements with equal keys come out in the reverse of their input order |
| Sorting.ReverseSortedDescending | recommendations.js:134-135 | reversing an ascending sequence gives a descending one |
| Sorting.ReverseInPlace | recommendations.js:135 | `reverse()` leaves the array holding the reverse of its old contents |
| Tracks.Set | recommendations.js:76 | assigning one feature sets it and leaves the other five as they were |
| Tracks.FeatureNamesComplete | recommendations.js:67 | the list of feature names holds each of the six features exactly once |
| Tracks.NewTrackProfile | recommendations.js:4-22 | the profile keeps name, id, artists and album. It copies five features unchanged and stores loudness as (l+60)/60, which can be inverted and maps [-60, 0] dB into [0, 1]. Its score is null |
| Tracks.ToFixed2Unit | recommendations.js:193 | a score in [0, 1] is printed as the four characters d.dd |
| Tracks.ScoreKeyOrder | recommendations.js:193 | for scores in [0, 1], comparing the printed strings agrees with comparing the numbers, and equal strings mean equal scores |
| Batching.Ids | api_calls.js:164 | the id list has one entry per track, the id of that track |
| Batching.BatchesCover | api_calls.js:156-162 | concatenating the requests gives back every id once, in order |
| Batching.BatchesShape | api_calls.js:156-164 | up to 100 ids go in one request holding all of them. Beyond that there are ceil(n/100) requests, and request k is the slice [100k, 100k+100), so each holds 1 to 100 ids |
| Batching.AudioFeaturesLength | api_calls.js:155-174 | when the endpoint answers each request with one record per id, the result has one record per track |
| Batching.AudioFeaturesAligned | api_calls.js:155-174 | when the endpoint answers each id on its own, record i is the answer for track i, however the ids were split |
| Batching.GetTracksAudioFeatures | api_calls.js:155-174 | the recursive loop issues exactly the requests described above, in order, and concatenates their answers in that order (functions.js:63-87 is a copy) |
| FeatureStats.WithinMembers | recommendations.js:105-111 | a value is kept iff it lies within the fences, and nothing is added |
| FeatureStats.WithinAscending | recommendations.js:105-111 | what is kept of an ascending array is still ascending |
| FeatureStats.RemoveOutliers | recommendations.js:94-113 | the splice/i-- loop returns exactly the elements within [Q1-1.5 IQR, Q3+1.5 IQR], in their original order. It skips none and removes none that is in bounds |
| FeatureStats.QuartileRangeSurvives | recommendations.js:96-102 | on an ascending non-empty array, every element from position floor(n/4) to floor(3n/4) survives, so the result is non-empty and ascending |
| FeatureStats.AverageFeatureIsMean | recommendations.js:82-91 | the average is the sum of the surviving values divided by their number, which is never zero |
| FeatureStats.AverageFeatureWithin | recommendations.js:82-91 | the average lies within any interval that holds every value, so it is between the smallest and the largest value |
| FeatureStats.CalculateAverageFeature | recommendations.js:82-91 | sorting, removing outliers and summing in a loop gives the trimmed mean above |
| Dedup.FindIndex | recommendations.js:59 | returns the first index holding the id, or -1 exactly when no track has it |
| Dedup.FirstOccurrencesAreFirst | recommendations.js:58-60 | every track kept is the first one in the input with its id |
| Dedup.FirstOccurrencesOrdered | recommendations.js:58-60 | kept tracks appear in the order of their first occurrences |
| Dedup.FirstOccurrencesCover | recommendations.js:58-60 | every input id is kept |
| Dedup.TopTracksFirstOccurrences | recommendations.js:57-60 | the filter keeps exactly the first occurrence of each id, in input order. The kept ids are pairwise distinct, every input id appears, and the result is no longer than the input |
| Dedup.CollectAppend | recommendations.js:142-150 | collecting one recommendation list after another is collecting their concatenation |
| Dedup.CollectAdmitted | recommendations.js:146 | skipping excluded ids while collecting is the same as collecting only the tracks whose ids are not excluded |
| Dedup.TopTracksAreCollected | recommendations.js:58-60 | the findIndex filter and the collector with nothing excluded give the same list |
| Dedup.CollectIsFirstAdmitted | recommendations.js:141-150 | the collector yields the first occurrence of every admitted id, in order of first appearance |
| Recommendations.CreateTracks | recommendations.js:25-28 | builds profile i from track i and feature record i of the batched request |
| Recommendations.CreatedTracksAligned | recommendations.js:25-28 | when the endpoint answers each id on its own, profile i carries track i's own features |
| Recommendations.Column | recommendations.js:71-74 | the feature values hold one value per top track, the value of that track's feature |
| Recommendations.CentroidFeature | recommendations.js:70-77 | helper, unfolding the definition: each feature of the centroid is the trimmed mean of that feature's values over the top tracks |
| Recommendations.CentroidWithin | recommendations.js:66-80 | the centroid is named and identified userTopTracks, and each feature lies within any interval that holds that feature for every top track |
| Recommendations.CentroidInUnitRange | recommendations.js:66-80 | if every top track has all six features in [0, 1], so does the centroid |
| Recommendations.UserTopTracks.constructor | recommendations.js:40-43 | a new object has no tracks and no centroid |
| Recommendations.UserTopTracks.GetTopTracks | recommendations.js:52-63 | the tracks become the profiles of the first occurrences of each id in long-term, medium-term and short-term order |
| Recommendations.UserTopTracks.GetAverageTrackFeatures | recommendations.js:66-80 | for a non-empty track list, the stored centroid has each of the six features set to the trimmed mean of that feature, and the tracks are unchanged |
| Recommendations.UserTopTracks.FeatureValues | recommendations.js:71-74 | the inner loop collects one feature's values, track by track |
| Recommendations.UserTopTracks.Generate | recommendations.js:45-48 | it stores the deduplicated profiles, and then their centroid |
| Recommendations.CandidatesAreCollected | recommendations.js:140-150 | the nested loops collect, with the seed ids excluded, the concatenation of all recommendation lists |
| Recommendations.SimilarTracksAreFirstAdmitted | recommendations.js:140-150 | the candidates are the first occurrence of every recommended id that is not a seed id, in order of first appearance across seeds |
| Recommendations.SimilarTracksProperties | recommendations.js:140-150 | candidate ids are pairwise distinct and none is a seed id. Every candidate was recommended, and every recommended track with a non-seed id is among the candidates |
| Recommendations.ScoredChangesOnlyScore | recommendations.js:160-169 | scoring keeps the candidates and their order and changes only each candidate's score, which becomes its similarity to the centroid |
| Recommendations.RankedIsDescendingPermutation | recommendations.js:131-137 | the ranking is a permutation of the scored candidates, in descending score order |
| Recommendations.RankedKeepsTieOrder | recommendations.js:131-137 | candidates with equal scores appear in the order they were encountered |
| Recommendations.RankedByScore | recommendations.js:131-137 | with scores in [0, 1], the ranking is descending by the numeric score |
| Recommendations.TopRecommendationsAreBest | recommendations.js:255 | the slice holds min(150, n) tracks from the start of the ranking. With scores in [0, 1], every kept track scores at least as high as every track cut |
| Recommendations.RecommendedTracks.constructor | recommendations.js:121-126 | starts with no tracks and takes the seed tracks and the centroid from the UserTopTracks object |
| Recommendations.RecommendedTracks.GetSimilarTracks | recommendations.js:140-154 | the nested loops and the profile building return the profiles of the candidate list characterised above |
| Recommendations.RecommendedTracks.CalculateSimilarityScore | recommendations.js:160-169 | the loop writes each candidate's similarity to the centroid into its score |
| Recommendations.RecommendedTracks.Generate | recommendations.js:131-137 | the stored tracks are the scored candidates, sorted by score and reversed in place. The seeds and the centroid are unchanged |
| Recommendations.RecommendTracks | recommendations.js:244-256 | the list shown is the first 150 of the ranking computed from the top tracks, and it has at most 150 entries |
| StatisticsViewer.ValidateOptions | statistics_viewer.js:3-17 | a missing type, time range or quantity is reported first, whatever the quantity. Otherwise the table is shown iff the quantity is a number between 1 and 50, and an error text is written iff it is not shown |
| StatisticsViewer.ConvertToList | statistics_viewer.js:30-40 | the loop builds the text `StatisticsViewer.ListText` defines: each entry, followed by ", " unless it equals the last entry |
| StatisticsViewer.ConvertToListJoins | statistics_viewer.js:30-40 | when no earlier entry equals the last one (for distinct entries in particular), the result is the entries joined by ", " with no trailing separator, and "" for no entries |
| StatisticsViewer.ConvertToListRepeatedLast | statistics_viewer.js:30-40 | when an earlier entry equals the last one, that entry loses its separator wherever it stands, so the text is at least two characters shorter than the ", "-join and differs from it; with ConvertToListJoins, the text is the join iff no earlier entry equals the last |
| StatisticsViewer.ConvertToListExample | statistics_viewer.js:33 | example: ["a", "b", "a"] gives "ab, a" where the join is "a, b, a" |
| StatisticsViewer.TopTrackRows | statistics_viewer.js:22-27 | the track row built at index i has rank i+1 and the track's name and popularity |
| StatisticsViewer.TopArtistRows | statistics_viewer.js:53-59 | the artist row built at index i has rank i+1 and the artist's name and popularity |
| StatisticsViewer.SortedRowsOrder | statistics_viewer.js:105-109 | sorting shows the same rows. They are ascending by the attribute (strings by UTF-16 code unit), with equal rows reversed, except popularity: it is descending, and rows of equal popularity keep the table's order |
| StatisticsViewer.PopularityDescending | statistics_viewer.js:105-109 | sorted by popularity, the rows go from most to least popular |
| StatisticsViewer.TopItemsTable.constructor | statistics_viewer.js:65-68 | the table holds the given items |
| StatisticsViewer.TopItemsTable.SortTableByAttribute | statistics_viewer.js:105-109 | returns the rows sorted as above, reversing in place only for popularity, while this.items keeps its order |
| StatisticsViewer.UpdateTableTitle | statistics_viewer.js:157-166 | a known time range gives "Your Top {limit} {type} ({period})", and any other value leaves the title unchanged |
| StatisticsViewer.TitlesByTimeRange | statistics_viewer.js:157-166 | short_term maps to Last 4 Weeks, medium_term to Last 6 Months and long_term to All Time, and different time ranges give different titles |
| Quiz.Question.constructor | quiz.js:23-27 | stores text, choices and answer |
| Quiz.Question.OnlyAnswerIsCorrect | quiz.js:29-31 | a choice is correct iff it equals the stored answer |
| Quiz.Quiz.constructor | quiz.js:2-6 | a new quiz stores its questions and has score 0 and question index 0 |
| Quiz.Quiz.GetCurrentQuestion | quiz.js:8-10 | returns the question at the current index, or nothing past the end of the list |
| Quiz.Quiz.Guess | quiz.js:12-14 | changes nothing, the score included |
| Quiz.Quiz.NextQuestion | quiz.js:16-18 | increases the question index by exactly 1, with no bound check, and leaves score and questions unchanged |

## Left out

- **The network, authentication and storage.**
  - Left out: the `User` class, the token handling, the `fetch` bodies of
    `getTopItems`, `getTrackRecommendations` and the audio-features request,
    `handleApiError`, login.js, and the static file server in nea.js.
  - Their answers are parameters. Failed requests are not modelled.
- **Page rendering.** Left out: `displayRecommendations`, the DOM lines of
  `recommendTracks`, the table headers, the click listeners, the rendering and
  removal of rows, and the writing of the error and title elements. The model
  returns what would be written.
- **The cosine similarity arithmetic.** `calculateDotProduct`,
  `calculateMagnitude` and `calculateCosineSimilarity` are left out. This covers
  `Math.pow`, `Math.sqrt`, floating-point rounding in `toFixed`, and the NaN a
  zero magnitude gives. The `similarity` parameter supplies the rounded score
  in hundredths. Feature values are exact reals, not doubles.
- **JavaScript's `Number` on the quantity text.** This is the `toNumber`
  parameter.
- **Unpaired surrogates.** A JavaScript string may hold a lone surrogate code
  unit; a Dafny string cannot, so such names are not modelled.
- **Asynchronous execution.** Every `await` is treated as a sequential call.
- **Sharing of objects.** The profiles are values. `calculateSimilarityScore`
  writes the score into the shared track objects; the model returns updated
  copies.
- **Preconditions for sorting.** Sorting an empty array recurses until the
  engine throws a RangeError, and that error is not modelled, so:
  - the centroid needs at least one top track;
  - the ranking needs at least one candidate;
  - the table sort needs at least one row.
- **The three top-track requests.** Their sizes (40 long-term, 40 medium-term,
  10 short-term) are not enforced on the list parameters.
- **Equal record lengths.** The audio-features endpoint is assumed to answer
  with one record per requested id. The source would fail on a shorter answer.
- **The centroid's display fields.** `artists` and `album` are `undefined` in
  the source and are empty here. Its initial features are placeholders that
  the loop overwrites.
- Recommendations.RankedByScore: the agreement between string and numeric
  order is proved only for scores in [0, 1]. A negative score would be ranked
  by its string, so "-0.10" sorts below "-0.50".
- Recommendations.TopRecommendationsAreBest: the statement that kept tracks
  outrank cut ones is proved only for scores in [0, 1], for the same reason.
- Tracks.ToFixed2: a score that rounds to zero from below prints as "-0.00"
  in JavaScript. That case is not modelled.
- Quiz.Quiz.GetCurrentQuestion: the source returns `undefined` past the end of
  the list; the model returns `None`. Answers and choices are strings, not
  arbitrary values.
