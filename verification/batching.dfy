/**
 * `getTracksAudioFeatures` (api_calls.js, repeated in functions.js): the
 * audio-features endpoint accepts at most 100 ids per request, so a longer
 * list of tracks is cut into consecutive slices of at most 100, each slice
 * is fetched by a recursive call, and the results are concatenated in order.
 *
 * The request itself is the parameter `fetch`, which maps the ids of one
 * request to the feature records of the response.
 */
module Batching {
  import opened Tracks

  const BatchLimit: nat := 100

  function Min(a: int, b: int): int
  {
    if a < b then a else b
  }

  /** The ids of the tracks, in order (`tracks.map(track => track.id)`). */
  function Ids(tracks: seq<RawTrack>): (ids: seq<string>)
    ensures |ids| == |tracks|
    ensures forall i :: 0 <= i < |tracks| ==> ids[i] == tracks[i].id
  {
    seq(|tracks|, i requires 0 <= i < |tracks| => tracks[i].id)
  }

  lemma IdsSlice(tracks: seq<RawTrack>, lo: int, hi: int)
    requires 0 <= lo <= hi <= |tracks|
    ensures Ids(tracks[lo..hi]) == Ids(tracks)[lo..hi]
  {
  }

  /**
   * The id lists of the requests issued for `s`: all of it at once when it
   * has at most 100 ids, otherwise the next 100 and then the rest.
   */
  function Batches<T>(s: seq<T>): seq<seq<T>>
    decreases |s|
  {
    if |s| <= BatchLimit then [s] else [s[..BatchLimit]] + Batches(s[BatchLimit..])
  }

  /** The concatenation of the parts, in order (`trackArray.concat(...)`). */
  function Flatten<T>(parts: seq<seq<T>>): seq<T>
  {
    if parts == [] then [] else Flatten(parts[..|parts| - 1]) + parts[|parts| - 1]
  }

  lemma {:induction false} FlattenAppend<T>(a: seq<seq<T>>, b: seq<seq<T>>)
    ensures Flatten(a + b) == Flatten(a) + Flatten(b)
    decreases |b|
  {
    if b == [] {
      assert a + b == a;
    } else {
      var init := b[..|b| - 1];
      assert (a + b)[..|a + b| - 1] == a + init;
      FlattenAppend(a, init);
    }
  }

  /** Concatenating the requests gives back the ids, in order: nothing is dropped or repeated. */
  lemma {:induction false} BatchesCover<T>(s: seq<T>)
    ensures Flatten(Batches(s)) == s
    decreases |s|
  {
    if |s| <= BatchLimit {
      assert [s][..0] == [];
    } else {
      BatchesCover(s[BatchLimit..]);
      FlattenAppend([s[..BatchLimit]], Batches(s[BatchLimit..]));
      assert [s[..BatchLimit]][..0] == [];
      assert s == s[..BatchLimit] + s[BatchLimit..];
    }
  }

  /**
   * Up to 100 ids go in a single request holding all of them. Beyond that
   * there are ceil(n/100) requests, and request k holds the slice
   * [100k, 100k + 100) of the ids, so every request holds 1 to 100 ids.
   */
  lemma {:induction false} BatchesShape<T>(s: seq<T>)
    ensures |s| <= BatchLimit ==> Batches(s) == [s]
    ensures |s| > BatchLimit ==> |Batches(s)| == (|s| + 99) / 100
    ensures forall k :: 0 <= k < |Batches(s)| ==>
      100 * k < |s| + 100 && Batches(s)[k] == s[100 * k .. Min(100 * k + 100, |s|)]
    ensures |s| > 0 ==> forall k :: 0 <= k < |Batches(s)| ==> 0 < |Batches(s)[k]| <= BatchLimit
    decreases |s|
  {
    if |s| > BatchLimit {
      var rest := s[BatchLimit..];
      BatchesShape(rest);
      forall k | 0 <= k < |Batches(s)|
        ensures 100 * k < |s| + 100 && Batches(s)[k] == s[100 * k .. Min(100 * k + 100, |s|)]
      {
        if k > 0 {
          assert Batches(s)[k] == Batches(rest)[k - 1];
          var lo, hi := 100 * (k - 1), Min(100 * (k - 1) + 100, |rest|);
          assert BatchLimit + lo == 100 * k && BatchLimit + hi == Min(100 * k + 100, |s|);
          SuffixSlice(s, BatchLimit, lo, hi);
        }
      }
    }
  }

  lemma BatchesCount<T>(s: seq<T>)
    requires |s| > BatchLimit
    ensures |Batches(s)| == (|s| + 99) / 100
  {
    BatchesShape(s);
  }

  lemma SuffixSlice<T>(s: seq<T>, d: nat, lo: nat, hi: nat)
    requires d <= |s| && lo <= hi <= |s| - d
    ensures s[d..][lo..hi] == s[d + lo..d + hi]
  {
  }

  /** The responses to the requests, concatenated in order. */
  function FetchAll<F>(fetch: seq<string> -> seq<F>, requests: seq<seq<string>>): seq<F>
  {
    if requests == [] then [] else FetchAll(fetch, requests[..|requests| - 1]) + fetch(requests[|requests| - 1])
  }

  /** What `getTracksAudioFeatures(tracks)` returns. */
  function AudioFeatures(tracks: seq<RawTrack>, fetch: seq<string> -> seq<Features>): seq<Features>
  {
    FetchAll(fetch, Batches(Ids(tracks)))
  }

  /** The endpoint answers every request with one record per requested id. */
  ghost predicate LengthPreserving<F>(fetch: seq<string> -> seq<F>)
  {
    forall ids :: |fetch(ids)| == |ids|
  }

  /** The endpoint's answer for each id depends on that id alone. */
  ghost predicate Pointwise<F>(fetch: seq<string> -> seq<F>, one: string -> F)
  {
    forall ids :: fetch(ids) == seq(|ids|, i requires 0 <= i < |ids| => one(ids[i]))
  }

  lemma {:induction false} FetchAllLength<F>(fetch: seq<string> -> seq<F>, requests: seq<seq<string>>)
    requires LengthPreserving(fetch)
    ensures |FetchAll(fetch, requests)| == |Flatten(requests)|
  {
    if requests != [] {
      FetchAllLength(fetch, requests[..|requests| - 1]);
    }
  }

  lemma {:induction false} FetchAllPointwise<F>(fetch: seq<string> -> seq<F>, one: string -> F, requests: seq<seq<string>>)
    requires Pointwise(fetch, one)
    ensures var ids := Flatten(requests);
      FetchAll(fetch, requests) == seq(|ids|, i requires 0 <= i < |ids| => one(ids[i]))
  {
    if requests != [] {
      var init, last := requests[..|requests| - 1], requests[|requests| - 1];
      FetchAllPointwise(fetch, one, init);
      var ids, head := Flatten(requests), Flatten(init);
      var r, before, after := FetchAll(fetch, requests), FetchAll(fetch, init), fetch(last);
      assert ids == head + last && r == before + after;
      assert |after| == |last|;
      forall i | 0 <= i < |ids|
        ensures r[i] == one(ids[i])
      {
        if i >= |head| {
          assert r[i] == after[i - |head|] && ids[i] == last[i - |head|];
        }
      }
    }
  }

  /** The result has one feature record per track. */
  lemma AudioFeaturesLength(tracks: seq<RawTrack>, fetch: seq<string> -> seq<Features>)
    requires LengthPreserving(fetch)
    ensures |AudioFeatures(tracks, fetch)| == |tracks|
  {
    FetchAllLength(fetch, Batches(Ids(tracks)));
    BatchesCover(Ids(tracks));
  }

  /**
   * When the endpoint answers each id on its own, the batching is invisible:
   * record i of the result is the answer for track i, whatever the number
   * of tracks.
   */
  lemma AudioFeaturesAligned(tracks: seq<RawTrack>, fetch: seq<string> -> seq<Features>, one: string -> Features)
    requires Pointwise(fetch, one)
    ensures |AudioFeatures(tracks, fetch)| == |tracks|
    ensures forall i :: 0 <= i < |tracks| ==> AudioFeatures(tracks, fetch)[i] == one(tracks[i].id)
  {
    FetchAllPointwise(fetch, one, Batches(Ids(tracks)));
    BatchesCover(Ids(tracks));
  }

  /** The k-th group of 100 tracks is fetched with exactly the k-th request. */
  lemma NextRequest(tracks: seq<RawTrack>, k: nat)
    requires |tracks| > 0 && k < |Batches(Ids(tracks))|
    ensures 100 * k < |tracks|
    ensures Batches(Ids(tracks[100 * k..Min(100 * k + BatchLimit, |tracks|)])) == [Batches(Ids(tracks))[k]]
  {
    var ids := Ids(tracks);
    BatchesShape(ids);
    var hi := Min(100 * k + BatchLimit, |tracks|);
    IdsSlice(tracks, 100 * k, hi);
    assert Batches(Ids(tracks[100 * k..hi])) == [Ids(tracks[100 * k..hi])];
  }

  lemma TakeOneMore<T>(s: seq<T>, k: nat)
    requires k < |s|
    ensures s[..k + 1] == s[..k] + [s[k]]
  {
  }

  lemma FetchAllSingle<F>(fetch: seq<string> -> seq<F>, request: seq<string>)
    ensures FetchAll(fetch, [request]) == fetch(request)
  {
    assert [request][..0] == [];
    assert FetchAll(fetch, [request]) == FetchAll(fetch, []) + fetch(request);
    assert [] + fetch(request) == fetch(request);
  }

  lemma FetchAllSnoc<F>(fetch: seq<string> -> seq<F>, requests: seq<seq<string>>, request: seq<string>)
    ensures FetchAll(fetch, requests + [request]) == FetchAll(fetch, requests) + fetch(request)
  {
    var next := requests + [request];
    assert next[..|next| - 1] == requests && next[|next| - 1] == request;
  }

  /** While fewer than n ids are covered by r full requests, more requests follow. */
  lemma RequestCount(n: nat, r: nat)
    ensures 100 * r < n ==> r < (n + 99) / 100
  {
  }

  /**
   * `getTracksAudioFeatures`: returns the feature records together with the
   * id lists of the requests it issued, in the order it issued them.
   */
  method GetTracksAudioFeatures(tracks: seq<RawTrack>, fetch: seq<string> -> seq<Features>)
    returns (trackArray: seq<Features>, requests: seq<seq<string>>)
    ensures requests == Batches(Ids(tracks))
    ensures trackArray == FetchAll(fetch, requests)
    decreases |tracks|
  {
    var ids := Ids(tracks);
    if |tracks| > BatchLimit {
      BatchesCount(ids);
      var all := Batches(ids);
      trackArray, requests := [], [];
      var i := 0;
      while i < |tracks|
        invariant i == 100 * |requests| && |requests| <= |all|
        invariant requests == all[..|requests|]
        invariant trackArray == FetchAll(fetch, requests)
        invariant i < |tracks| ==> |requests| < |all|
      {
        var hi := Min(i + BatchLimit, |tracks|);
        var trackGroup := tracks[i..hi];
        var groupFeatures, groupRequests := GetTracksAudioFeatures(trackGroup, fetch);
        NextRequest(tracks, |requests|);
        FetchAllSingle(fetch, all[|requests|]);
        FetchAllSnoc(fetch, requests, all[|requests|]);
        TakeOneMore(all, |requests|);
        trackArray := trackArray + groupFeatures;
        requests := requests + groupRequests;
        RequestCount(|tracks|, |requests|);
        i := i + BatchLimit;
      }
      assert requests == all;
    } else {
      trackArray := fetch(ids);
      requests := [ids];
      assert requests[..0] == [];
    }
  }
}
