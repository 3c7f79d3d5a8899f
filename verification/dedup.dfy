/**
 * The two deduplications of recommendations.js, both keyed by track id:
 *
 *  - `getTopTracks` keeps a track only where `findIndex` of its id is its
 *    own index, that is, only the first occurrence of each id;
 *  - `getSimilarTracks` appends a recommended track only when no collected
 *    track and no seed track has its id.
 *
 * The second is `Collect`; the lemmas show that both yield the first
 * occurrence of every admitted id, in input order.
 */
module Dedup {
  import opened Tracks
  import opened Batching

  /** `s.findIndex(t => t.id === id)`: the first index holding `id`, or -1. */
  function FindIndex(s: seq<RawTrack>, id: string): (r: int)
    ensures -1 <= r < |s|
    ensures 0 <= r ==> s[r].id == id && forall j :: 0 <= j < r ==> s[j].id != id
    ensures r == -1 ==> forall j :: 0 <= j < |s| ==> s[j].id != id
  {
    if s == [] then -1
    else if s[0].id == id then 0
    else
      var r := FindIndex(s[1..], id);
      if r == -1 then -1 else r + 1
  }

  /** The tracks among the first `n` of `all` that pass the `filter` of `getTopTracks`. */
  function FirstOccurrences(all: seq<RawTrack>, n: nat): seq<RawTrack>
    requires n <= |all|
  {
    if n == 0 then []
    else
      var t := all[n - 1];
      FirstOccurrences(all, n - 1) + (if FindIndex(all, t.id) == n - 1 then [t] else [])
  }

  /** What `getTopTracks` keeps of the combined top tracks. */
  function TopTracks(all: seq<RawTrack>): seq<RawTrack>
  {
    FirstOccurrences(all, |all|)
  }

  ghost predicate DistinctIds(s: seq<RawTrack>)
  {
    forall i, j :: 0 <= i < j < |s| ==> s[i].id != s[j].id
  }

  /** Every kept track is the first occurrence of its id among the first `n`. */
  lemma {:induction false} FirstOccurrencesAreFirst(all: seq<RawTrack>, n: nat)
    requires n <= |all|
    ensures forall i :: 0 <= i < |FirstOccurrences(all, n)| ==> 0 <= FindIndex(all, FirstOccurrences(all, n)[i].id) < n
    ensures forall i :: 0 <= i < |FirstOccurrences(all, n)| ==>
      FirstOccurrences(all, n)[i] == all[FindIndex(all, FirstOccurrences(all, n)[i].id)]
  {
    if n > 0 {
      FirstOccurrencesAreFirst(all, n - 1);
      var prev, t := FirstOccurrences(all, n - 1), all[n - 1];
      var r := FirstOccurrences(all, n);
      if FindIndex(all, t.id) == n - 1 {
        assert r == prev + [t];
        forall i | 0 <= i < |r|
          ensures 0 <= FindIndex(all, r[i].id) < n && r[i] == all[FindIndex(all, r[i].id)]
        {
          if i < |prev| {
            assert r[i] == prev[i];
          }
        }
      } else {
        assert r == prev;
      }
    }
  }

  /** Kept tracks appear in the order of their first occurrences. */
  lemma {:induction false} FirstOccurrencesOrdered(all: seq<RawTrack>, n: nat)
    requires n <= |all|
    ensures forall i, j :: 0 <= i < j < |FirstOccurrences(all, n)| ==>
      FindIndex(all, FirstOccurrences(all, n)[i].id) < FindIndex(all, FirstOccurrences(all, n)[j].id)
  {
    if n > 0 {
      FirstOccurrencesOrdered(all, n - 1);
      FirstOccurrencesAreFirst(all, n - 1);
      var prev, t := FirstOccurrences(all, n - 1), all[n - 1];
      var r := FirstOccurrences(all, n);
      if FindIndex(all, t.id) == n - 1 {
        assert r == prev + [t];
        forall i, j | 0 <= i < j < |r|
          ensures FindIndex(all, r[i].id) < FindIndex(all, r[j].id)
        {
          assert r[i] == prev[i];
          if j < |prev| {
            assert r[j] == prev[j];
          } else {
            assert r[j] == t;
          }
        }
      } else {
        assert r == prev;
      }
    }
  }

  /** Every id among the first `n` tracks is kept. */
  lemma {:induction false} FirstOccurrencesCover(all: seq<RawTrack>, n: nat)
    requires n <= |all|
    ensures forall k :: 0 <= k < n ==> all[k].id in Ids(FirstOccurrences(all, n))
  {
    if n > 0 {
      FirstOccurrencesCover(all, n - 1);
      var prev, t := FirstOccurrences(all, n - 1), all[n - 1];
      var r := FirstOccurrences(all, n);
      var m := FindIndex(all, t.id);
      if m == n - 1 {
        assert r == prev + [t];
        assert Ids(r) == Ids(prev) + [t.id];
        forall k | 0 <= k < n
          ensures all[k].id in Ids(r)
        {
          if k < n - 1 {
            assert all[k].id in Ids(prev);
          } else {
            assert Ids(r)[|prev|] == t.id;
          }
        }
      } else {
        assert r == prev;
        assert all[m].id in Ids(prev);
      }
    }
  }

  /**
   * The top-track filter keeps exactly the first occurrence of each id, in
   * input order: every kept track is the first one with its id, kept tracks
   * appear in the order of their first occurrences (so their ids are
   * pairwise distinct), and every input id is kept.
   */
  lemma TopTracksFirstOccurrences(all: seq<RawTrack>)
    ensures forall i :: 0 <= i < |TopTracks(all)| ==> 0 <= FindIndex(all, TopTracks(all)[i].id)
    ensures forall i :: 0 <= i < |TopTracks(all)| ==> TopTracks(all)[i] == all[FindIndex(all, TopTracks(all)[i].id)]
    ensures forall i, j :: 0 <= i < j < |TopTracks(all)| ==>
      FindIndex(all, TopTracks(all)[i].id) < FindIndex(all, TopTracks(all)[j].id)
    ensures DistinctIds(TopTracks(all))
    ensures forall k :: 0 <= k < |all| ==> all[k].id in Ids(TopTracks(all))
    ensures |TopTracks(all)| <= |all|
  {
    FirstOccurrencesAreFirst(all, |all|);
    FirstOccurrencesOrdered(all, |all|);
    FirstOccurrencesCover(all, |all|);
    FirstOccurrencesLength(all, |all|);
  }

  lemma {:induction false} FirstOccurrencesLength(all: seq<RawTrack>, n: nat)
    requires n <= |all|
    ensures |FirstOccurrences(all, n)| <= n
  {
    if n > 0 {
      FirstOccurrencesLength(all, n - 1);
    }
  }

  /**
   * The collector of `getSimilarTracks`: each track in `recs` is appended to
   * `acc` unless a collected track or an excluded id already has its id.
   */
  function Collect(acc: seq<RawTrack>, recs: seq<RawTrack>, excluded: seq<string>): seq<RawTrack>
  {
    if recs == [] then acc
    else
      var prev := Collect(acc, recs[..|recs| - 1], excluded);
      var t := recs[|recs| - 1];
      if t.id in Ids(prev) || t.id in excluded then prev else prev + [t]
  }

  /** The tracks of `recs` whose id is not excluded, in order. */
  function Admitted(recs: seq<RawTrack>, excluded: seq<string>): seq<RawTrack>
  {
    if recs == [] then []
    else
      var t := recs[|recs| - 1];
      Admitted(recs[..|recs| - 1], excluded) + (if t.id in excluded then [] else [t])
  }

  /** Collecting two lists in turn is collecting their concatenation. */
  lemma {:induction false} CollectAppend(acc: seq<RawTrack>, a: seq<RawTrack>, b: seq<RawTrack>, excluded: seq<string>)
    ensures Collect(acc, a + b, excluded) == Collect(Collect(acc, a, excluded), b, excluded)
    decreases |b|
  {
    if b == [] {
      assert a + b == a;
    } else {
      assert (a + b)[..|a + b| - 1] == a + b[..|b| - 1];
      CollectAppend(acc, a, b[..|b| - 1], excluded);
    }
  }

  /** Excluding ids while collecting is collecting the admitted tracks. */
  lemma {:induction false} CollectAdmitted(acc: seq<RawTrack>, recs: seq<RawTrack>, excluded: seq<string>)
    ensures Collect(acc, recs, excluded) == Collect(acc, Admitted(recs, excluded), [])
  {
    if recs != [] {
      var init, t := recs[..|recs| - 1], recs[|recs| - 1];
      CollectAdmitted(acc, init, excluded);
      var a := Admitted(init, excluded);
      if t.id !in excluded {
        assert Admitted(recs, excluded)[..|a|] == a;
      } else {
        assert Admitted(recs, excluded) == a;
      }
    }
  }

  lemma {:induction false} AdmittedMembers(recs: seq<RawTrack>, excluded: seq<string>)
    ensures forall t :: t in Admitted(recs, excluded) <==> t in recs && t.id !in excluded
  {
    if recs != [] {
      AdmittedMembers(recs[..|recs| - 1], excluded);
      assert recs == recs[..|recs| - 1] + [recs[|recs| - 1]];
    }
  }

  /** With nothing collected and nothing excluded, the collector is the top-track filter. */
  lemma {:induction false} FirstOccurrencesAreCollected(all: seq<RawTrack>, n: nat)
    requires n <= |all|
    ensures FirstOccurrences(all, n) == Collect([], all[..n], [])
  {
    if n > 0 {
      FirstOccurrencesAreCollected(all, n - 1);
      var prev, t, s := FirstOccurrences(all, n - 1), all[n - 1], all[..n];
      assert s[..|s| - 1] == all[..n - 1] && s[|s| - 1] == t;
      assert Collect([], s[..|s| - 1], []) == prev;
      FirstKeptIffNew(all, n);
      if t.id in Ids(prev) {
        assert FirstOccurrences(all, n) == prev;
        assert Collect([], s, []) == prev;
      } else {
        assert FirstOccurrences(all, n) == prev + [t];
        assert Collect([], s, []) == prev + [t];
      }
    }
  }

  /** The n-th track is a first occurrence iff its id is not among those kept before it. */
  lemma FirstKeptIffNew(all: seq<RawTrack>, n: nat)
    requires 0 < n <= |all|
    ensures FindIndex(all, all[n - 1].id) == n - 1 <==> all[n - 1].id !in Ids(FirstOccurrences(all, n - 1))
  {
    FirstOccurrencesAreFirst(all, n - 1);
    FirstOccurrencesCover(all, n - 1);
    var prev := FirstOccurrences(all, n - 1);
    var id := all[n - 1].id;
    var m := FindIndex(all, id);
    if m != n - 1 {
      assert all[m].id in Ids(prev);
    }
  }

  lemma TopTracksAreCollected(all: seq<RawTrack>)
    ensures TopTracks(all) == Collect([], all, [])
  {
    FirstOccurrencesAreCollected(all, |all|);
    assert all[..|all|] == all;
  }

  /**
   * What the collector yields from nothing: the first occurrence of every
   * admitted id, in order of first appearance, none of them excluded.
   */
  lemma CollectIsFirstAdmitted(recs: seq<RawTrack>, excluded: seq<string>)
    ensures Collect([], recs, excluded) == TopTracks(Admitted(recs, excluded))
  {
    CollectAdmitted([], recs, excluded);
    TopTracksAreCollected(Admitted(recs, excluded));
  }
}
