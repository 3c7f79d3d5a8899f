/**
 * The track profile of recommendations.js (class `Track`): display fields
 * copied from a Web API track record, six audio features with loudness
 * normalised, and an optional similarity score.
 *
 * The score is produced by `toFixed(2)`, so the source stores and compares
 * it as a STRING. The model keeps the number of hundredths and compares the
 * string `ToFixed2` gives for it.
 */
module Tracks {
  import opened Options
  import opened Sorting

  /** A track record as the Web API returns it: only the fields the engine reads. */
  datatype RawTrack = RawTrack(name: string, id: string, artists: seq<string>, album: string)

  /** The six audio features the engine uses (raw loudness is in dB, roughly [-60, 0]). */
  datatype Features = Features(
    acousticness: real,
    danceability: real,
    energy: real,
    instrumentalness: real,
    loudness: real,
    valence: real)

  datatype FeatureName = Acousticness | Danceability | Energy | Instrumentalness | Loudness | Valence

  /** `listOfTrackFeatures`, in the source's order. */
  const FeatureNames: seq<FeatureName> :=
    [Acousticness, Danceability, Energy, Instrumentalness, Loudness, Valence]

  /** `features[name]` */
  function Get(f: Features, name: FeatureName): real
  {
    match name
    case Acousticness => f.acousticness
    case Danceability => f.danceability
    case Energy => f.energy
    case Instrumentalness => f.instrumentalness
    case Loudness => f.loudness
    case Valence => f.valence
  }

  /** `features[name] = v`: that feature becomes `v`, the other five stay. */
  function Set(f: Features, name: FeatureName, v: real): (g: Features)
    ensures Get(g, name) == v
    ensures forall other :: other != name ==> Get(g, other) == Get(f, other)
  {
    match name
    case Acousticness => f.(acousticness := v)
    case Danceability => f.(danceability := v)
    case Energy => f.(energy := v)
    case Instrumentalness => f.(instrumentalness := v)
    case Loudness => f.(loudness := v)
    case Valence => f.(valence := v)
  }

  /** Where a feature name stands in `FeatureNames`. */
  function Position(name: FeatureName): nat
  {
    match name
    case Acousticness => 0
    case Danceability => 1
    case Energy => 2
    case Instrumentalness => 3
    case Loudness => 4
    case Valence => 5
  }

  /** `FeatureNames` lists every feature exactly once. */
  lemma FeatureNamesComplete(name: FeatureName)
    ensures |FeatureNames| == 6
    ensures Position(name) < 6 && FeatureNames[Position(name)] == name
    ensures forall i :: 0 <= i < |FeatureNames| ==> Position(FeatureNames[i]) == i
  {
  }

  /** Two records that agree on every listed feature are the same record. */
  lemma FeaturesByName(f: Features, g: Features)
    requires forall m :: 0 <= m < |FeatureNames| ==> Get(f, FeatureNames[m]) == Get(g, FeatureNames[m])
    ensures f == g
  {
    assert Get(f, FeatureNames[0]) == Get(g, FeatureNames[0]);
    assert Get(f, FeatureNames[1]) == Get(g, FeatureNames[1]);
    assert Get(f, FeatureNames[2]) == Get(g, FeatureNames[2]);
    assert Get(f, FeatureNames[3]) == Get(g, FeatureNames[3]);
    assert Get(f, FeatureNames[4]) == Get(g, FeatureNames[4]);
    assert Get(f, FeatureNames[5]) == Get(g, FeatureNames[5]);
  }

  /**
   * Setting the k-th listed feature to its target value, after the first k
   * already hold theirs, leaves the first k + 1 holding their targets.
   */
  lemma SetNextFeature(before: Features, k: nat, target: Features)
    requires k < |FeatureNames|
    requires forall m :: 0 <= m < k ==> Get(before, FeatureNames[m]) == Get(target, FeatureNames[m])
    ensures forall m :: 0 <= m < k + 1 ==>
      Get(Set(before, FeatureNames[k], Get(target, FeatureNames[k])), FeatureNames[m]) == Get(target, FeatureNames[m])
  {
    var feature := FeatureNames[k];
    var after := Set(before, feature, Get(target, feature));
    forall m | 0 <= m < k + 1
      ensures Get(after, FeatureNames[m]) == Get(target, FeatureNames[m])
    {
      if m < k {
        FeatureNamesComplete(feature);
        assert Position(FeatureNames[m]) != Position(feature);
      }
    }
  }

  /** A track profile; `similarityScore` is a number of hundredths, or `null`. */
  datatype Track = Track(
    name: string,
    id: string,
    artists: seq<string>,
    album: string,
    features: Features,
    similarityScore: Option<int>)

  function NormalisedLoudness(decibels: real): real
  {
    (decibels + 60.0) / 60.0
  }

  /** `new Track(track, features)`: the similarity score defaults to null. */
  function NewTrack(track: RawTrack, features: Features): Track
  {
    Track(track.name, track.id, track.artists, track.album,
          features.(loudness := NormalisedLoudness(features.loudness)),
          None)
  }

  /**
   * A new profile keeps the record's identity, copies five features
   * unchanged, maps loudness in [-60, 0] dB into [0, 1] without losing
   * information, and has no score yet.
   */
  lemma NewTrackProfile(track: RawTrack, features: Features)
    ensures var t := NewTrack(track, features);
      && t.id == track.id && t.name == track.name && t.artists == track.artists && t.album == track.album
      && (forall f :: f != Loudness ==> Get(t.features, f) == Get(features, f))
      && t.features.loudness * 60.0 - 60.0 == features.loudness
      && (-60.0 <= features.loudness <= 0.0 ==> 0.0 <= t.features.loudness <= 1.0)
      && t.similarityScore == None
  {
  }

  function Digit(d: int): (c: char)
    requires 0 <= d < 10
    ensures '0' <= c <= '9'
  {
    (48 + d) as char
  }

  /** The decimal digits of `n`, without leading zeros. */
  function DecimalDigits(n: nat): string
  {
    if n < 10 then [Digit(n)] else DecimalDigits(n / 10) + [Digit(n % 10)]
  }

  /** `Number.prototype.toFixed(2)` of the number `hundredths / 100`. */
  function ToFixed2(hundredths: int): string
  {
    var m := if hundredths < 0 then -hundredths else hundredths;
    (if hundredths < 0 then "-" else "") + DecimalDigits(m / 100) + "." + [Digit(m % 100 / 10), Digit(m % 10)]
  }

  /** What the ranking sort compares: the score string, or `null` (never present after scoring). */
  function ScoreKey(t: Track): Key
  {
    match t.similarityScore
    case Some(h) => Str(ToFixed2(h))
    case None => Undefined
  }

  /** A score in [0, 1] is printed as four characters "d.dd". */
  lemma ToFixed2Unit(h: int)
    requires 0 <= h <= 100
    ensures ToFixed2(h) == [Digit(h / 100), '.', Digit(h % 100 / 10), Digit(h % 10)]
  {
  }

  lemma StrLessFour(a: seq<char>, b: seq<char>)
    requires |a| == 4 && |b| == 4
    requires forall i :: 0 <= i < 4 ==> a[i] as int < 0x1_0000 && b[i] as int < 0x1_0000
    ensures StrLess(a, b) ==
      if a[0] != b[0] then a[0] < b[0]
      else if a[1] != b[1] then a[1] < b[1]
      else if a[2] != b[2] then a[2] < b[2]
      else a[3] < b[3]
  {
    StrLessCons(a[0], a[1..], b[0], b[1..]);
    assert a == [a[0]] + a[1..] && b == [b[0]] + b[1..];
    StrLessCons(a[1], a[2..], b[1], b[2..]);
    assert a[1..] == [a[1]] + a[2..] && b[1..] == [b[1]] + b[2..];
    StrLessCons(a[2], a[3..], b[2], b[3..]);
    assert a[2..] == [a[2]] + a[3..] && b[2..] == [b[2]] + b[3..];
    StrLessCons(a[3], [], b[3], []);
    assert a[3..] == [a[3]] + [] && b[3..] == [b[3]] + [];
  }

  lemma DigitOrder(x: int, y: int)
    requires 0 <= x < 10 && 0 <= y < 10
    ensures Digit(x) < Digit(y) <==> x < y
    ensures Digit(x) == Digit(y) <==> x == y
  {
  }

  /** The three digits of a score in hundredths in [0, 100]. */
  lemma HundredthsDigits(h: int)
    requires 0 <= h <= 100
    ensures 0 <= h / 100 <= 1 && 0 <= h % 100 / 10 < 10 && 0 <= h % 10 < 10
    ensures h == 100 * (h / 100) + 10 * (h % 100 / 10) + h % 10
  {
  }

  /**
   * For scores in [0, 1] the string comparison the sort performs agrees
   * with the numeric order of the scores, and equal strings mean equal scores.
   */
  lemma ScoreKeyOrder(a: int, b: int)
    requires 0 <= a <= 100 && 0 <= b <= 100
    ensures KeyLess(Str(ToFixed2(a)), Str(ToFixed2(b))) <==> a < b
    ensures ToFixed2(a) == ToFixed2(b) <==> a == b
  {
    var sa, sb := ToFixed2(a), ToFixed2(b);
    ToFixed2Unit(a);
    ToFixed2Unit(b);
    HundredthsDigits(a);
    HundredthsDigits(b);
    var a0, a1, a2 := a / 100, a % 100 / 10, a % 10;
    var b0, b1, b2 := b / 100, b % 100 / 10, b % 10;
    DigitOrder(a0, b0);
    DigitOrder(a1, b1);
    DigitOrder(a2, b2);
    StrLessFour(sa, sb);
    assert StrLess(sa, sb) <==> a0 < b0 || (a0 == b0 && (a1 < b1 || (a1 == b1 && a2 < b2)));
    if sa == sb {
      assert sa[0] == sb[0] && sa[2] == sb[2] && sa[3] == sb[3];
    }
  }
}
