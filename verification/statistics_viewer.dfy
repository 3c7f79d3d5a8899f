/**
 * The decision logic of statistics_viewer.js: checking the options form,
 * building the rows of the top-items table, sorting the table when a
 * header is clicked, and the table title.
 *
 * The form's controls are parameters: the id of the checked type and time
 * range radio buttons (`None` when none is checked) and the text of the
 * quantity field. JavaScript's conversion of that text to a number is the
 * parameter `toNumber`, which gives `None` for NaN.
 */
module StatisticsViewer {
  import opened Options
  import opened Sorting

  /** What `validateOptions` does with the form. */
  datatype Validation =
    | MissingOptions
    | QuantityOutOfRange
    | Display(itemType: string, quantity: string, timeRange: string)

  /** The text written into the error element. */
  function ErrorMessage(v: Validation): string
  {
    match v
    case MissingOptions => "Please select all options before submitting!"
    case QuantityOutOfRange => "The Number of Results must be a number between 1-50"
    case Display(_, _, _) => ""
  }

  /** `preferredQuantity < 1 || preferredQuantity > 50 || isNaN(preferredQuantity)` */
  predicate QuantityRejected(quantity: string, toNumber: string -> Option<real>)
  {
    match toNumber(quantity)
    case None => true
    case Some(q) => q < 1.0 || q > 50.0
  }

  /**
   * `validateOptions`: a missing choice is reported first, whatever the
   * quantity; otherwise the quantity must be a number in [1, 50]; otherwise
   * the chosen table is displayed.
   */
  function ValidateOptions(
    preferredType: Option<string>, preferredTime: Option<string>, preferredQuantity: string,
    toNumber: string -> Option<real>): (v: Validation)
    ensures v == MissingOptions <==> preferredType == None || preferredTime == None || preferredQuantity == ""
    ensures v.Display? <==>
      && preferredType.Some? && preferredTime.Some? && preferredQuantity != ""
      && toNumber(preferredQuantity).Some?
      && 1.0 <= toNumber(preferredQuantity).value <= 50.0
    ensures v.Display? ==>
      v.itemType == preferredType.value && v.timeRange == preferredTime.value && v.quantity == preferredQuantity
    ensures ErrorMessage(v) == "" <==> v.Display?
  {
    if preferredType == None || preferredTime == None || preferredQuantity == "" then MissingOptions
    else if QuantityRejected(preferredQuantity, toNumber) then QuantityOutOfRange
    else Display(preferredType.value, preferredQuantity, preferredTime.value)
  }

  /** A track as the top-tracks endpoint returns it (the fields the table shows). */
  datatype TrackRecord = TrackRecord(name: string, popularity: int, artistNames: seq<string>, albumName: string)

  /** An artist as the top-artists endpoint returns it. */
  datatype ArtistRecord = ArtistRecord(name: string, popularity: int, genres: seq<string>, followers: int)

  /** A row of the table: `TopTrack` or `TopArtist`, both `TopItem`s. */
  datatype TopItem =
    | TopTrack(rank: int, name: string, popularity: int, artists: string, album: string)
    | TopArtist(rank: int, name: string, popularity: int, genres: string, followers: int)

  /**
   * The text `convertToList` builds from the first `n` entries: each entry,
   * followed by ", " unless it equals `last`.
   */
  function ListUpTo(attributeArray: seq<string>, n: nat, last: string): string
    requires n <= |attributeArray|
  {
    if n == 0 then ""
    else
      var item := attributeArray[n - 1];
      ListUpTo(attributeArray, n - 1, last) + (if item == last then item else item + ", ")
  }

  /** What `convertToList` returns: it compares each entry with the last entry by value. */
  function ListText(attributeArray: seq<string>): string
  {
    if attributeArray == [] then "" else ListUpTo(attributeArray, |attributeArray|, attributeArray[|attributeArray| - 1])
  }

  /** `convertToList`: appends the entries one by one to `list`. */
  method ConvertToList(attributeArray: seq<string>) returns (list: string)
    ensures list == ListText(attributeArray)
  {
    list := "";
    for i := 0 to |attributeArray|
      invariant list == if attributeArray == [] then "" else ListUpTo(attributeArray, i, attributeArray[|attributeArray| - 1])
    {
      var item := attributeArray[i];
      if item == attributeArray[|attributeArray| - 1] {
        list := list + item;
      } else {
        list := list + item + ", ";
      }
    }
  }

  /** The entries separated by ", ", with no separator at the end. */
  function Join(entries: seq<string>): string
  {
    if |entries| == 0 then ""
    else if |entries| == 1 then entries[0]
    else Join(entries[..|entries| - 1]) + ", " + entries[|entries| - 1]
  }

  lemma {:induction false} ListUpToJoins(attributeArray: seq<string>, n: nat, last: string)
    requires n <= |attributeArray|
    requires forall i :: 0 <= i < n ==> attributeArray[i] != last
    ensures ListUpTo(attributeArray, n, last) == if n == 0 then "" else Join(attributeArray[..n]) + ", "
  {
    if n > 0 {
      ListUpToJoins(attributeArray, n - 1, last);
      var item := attributeArray[n - 1];
      assert attributeArray[..n][..n - 1] == attributeArray[..n - 1];
      if n > 1 {
        assert Join(attributeArray[..n]) == Join(attributeArray[..n - 1]) + ", " + item;
        assert ListUpTo(attributeArray, n, last) == (Join(attributeArray[..n - 1]) + ", ") + (item + ", ");
      }
    }
  }

  /**
   * When no earlier entry equals the last one (in particular when the
   * entries are distinct) `convertToList` joins the entries with ", ",
   * leaving no separator at the end; no entries give the empty string.
   */
  lemma ConvertToListJoins(attributeArray: seq<string>)
    requires forall i :: 0 <= i < |attributeArray| - 1 ==> attributeArray[i] != attributeArray[|attributeArray| - 1]
    ensures ListText(attributeArray) == Join(attributeArray)
  {
    var n := |attributeArray|;
    if n > 0 {
      var last := attributeArray[n - 1];
      ListUpToJoins(attributeArray, n - 1, last);
      assert ListText(attributeArray) == ListUpTo(attributeArray, n - 1, last) + last;
      if n > 1 {
        assert Join(attributeArray) == Join(attributeArray[..n - 1]) + ", " + last;
      }
    }
  }

  /** The number of characters in all the entries together. */
  function TotalLength(entries: seq<string>): nat
  {
    if |entries| == 0 then 0 else TotalLength(entries[..|entries| - 1]) + |entries[|entries| - 1]|
  }

  /** Joining n > 0 entries adds n - 1 separators of two characters. */
  lemma {:induction false} JoinLength(entries: seq<string>)
    requires |entries| > 0
    ensures |Join(entries)| == TotalLength(entries) + 2 * (|entries| - 1)
  {
    if |entries| > 1 {
      JoinLength(entries[..|entries| - 1]);
    }
  }

  /** Each of the first n entries adds at most a separator to its own text. */
  lemma {:induction false} ListUpToLength(attributeArray: seq<string>, n: nat, last: string)
    requires n <= |attributeArray|
    ensures |ListUpTo(attributeArray, n, last)| <= TotalLength(attributeArray[..n]) + 2 * n
  {
    if n > 0 {
      ListUpToLength(attributeArray, n - 1, last);
      assert attributeArray[..n][..n - 1] == attributeArray[..n - 1];
    }
  }

  /** An entry among the first n that equals `last` adds no separator. */
  lemma {:induction false} ListUpToShorter(attributeArray: seq<string>, n: nat, last: string, j: nat)
    requires j < n <= |attributeArray| && attributeArray[j] == last
    ensures |ListUpTo(attributeArray, n, last)| + 2 <= TotalLength(attributeArray[..n]) + 2 * n
  {
    assert attributeArray[..n][..n - 1] == attributeArray[..n - 1];
    if j < n - 1 {
      ListUpToShorter(attributeArray, n - 1, last, j);
    } else {
      ListUpToLength(attributeArray, n - 1, last);
    }
  }

  /**
   * An earlier entry equal to the last entry loses its separator, wherever it
   * stands, so the text is then shorter than the ", "-join and differs from
   * it. With `ConvertToListJoins`, the text is the join exactly when no
   * earlier entry equals the last one.
   */
  lemma ConvertToListRepeatedLast(attributeArray: seq<string>, j: nat)
    requires j < |attributeArray| - 1 && attributeArray[j] == attributeArray[|attributeArray| - 1]
    ensures |ListText(attributeArray)| + 2 <= |Join(attributeArray)|
    ensures ListText(attributeArray) != Join(attributeArray)
  {
    var n := |attributeArray|;
    var last := attributeArray[n - 1];
    ListUpToShorter(attributeArray, n - 1, last, j);
    JoinLength(attributeArray);
    assert attributeArray[..n] == attributeArray;
    assert ListText(attributeArray) == ListUpTo(attributeArray, n - 1, last) + last;
  }

  /** For instance ["a", "b", "a"] gives "ab, a", not "a, b, a". */
  lemma ConvertToListExample()
    ensures ListText(["a", "b", "a"]) == "ab, a"
    ensures Join(["a", "b", "a"]) == "a, b, a"
  {
    var a := ["a", "b", "a"];
    assert ListUpTo(a, 1, "a") == "a";
    assert ListUpTo(a, 2, "a") == "a" + "b, ";
    assert Join(a[..2]) == "a, b" by {
      assert a[..2][..1] == ["a"];
    }
  }

  /** `new TopTrack(track, index)` */
  function NewTopTrack(track: TrackRecord, index: int): TopItem
  {
    TopTrack(index + 1, track.name, track.popularity, ListText(track.artistNames), track.albumName)
  }

  /** `new TopArtist(artist, index)` */
  function NewTopArtist(artist: ArtistRecord, index: int): TopItem
  {
    TopArtist(index + 1, artist.name, artist.popularity, ListText(artist.genres), artist.followers)
  }

  /** The rows `displayTopItems` builds from the top tracks: row i has rank i + 1. */
  function TopTrackRows(tracks: seq<TrackRecord>): (rows: seq<TopItem>)
    ensures |rows| == |tracks|
    ensures forall i :: 0 <= i < |rows| ==> rows[i].TopTrack? && rows[i].rank == i + 1
    ensures forall i :: 0 <= i < |rows| ==>
      rows[i].name == tracks[i].name && rows[i].popularity == tracks[i].popularity
  {
    seq(|tracks|, i requires 0 <= i < |tracks| => NewTopTrack(tracks[i], i))
  }

  /** The rows `displayTopItems` builds from the top artists: row i has rank i + 1. */
  function TopArtistRows(artists: seq<ArtistRecord>): (rows: seq<TopItem>)
    ensures |rows| == |artists|
    ensures forall i :: 0 <= i < |rows| ==> rows[i].TopArtist? && rows[i].rank == i + 1
    ensures forall i :: 0 <= i < |rows| ==>
      rows[i].name == artists[i].name && rows[i].popularity == artists[i].popularity
  {
    seq(|artists|, i requires 0 <= i < |artists| => NewTopArtist(artists[i], i))
  }

  /** `item[attribute]`, compared as the sort compares it; a missing property is `undefined`. */
  function Attribute(item: TopItem, attribute: string): Key
  {
    if attribute == "rank" then NumKey(item.rank as real)
    else if attribute == "name" then Str(item.name)
    else if attribute == "popularity" then NumKey(item.popularity as real)
    else if attribute == "artists" && item.TopTrack? then Str(item.artists)
    else if attribute == "album" && item.TopTrack? then Str(item.album)
    else if attribute == "genres" && item.TopArtist? then Str(item.genres)
    else if attribute == "followers" && item.TopArtist? then NumKey(item.followers as real)
    else Undefined
  }

  function ByAttribute(attribute: string): TopItem -> Key
  {
    item => Attribute(item, attribute)
  }

  /** The rows as `sortTableByAttribute` displays them. */
  function SortedRows(items: seq<TopItem>, attribute: string): seq<TopItem>
    requires |items| > 0
  {
    var sorted := MergeSort(items, ByAttribute(attribute));
    if attribute == "popularity" then Reverse(sorted) else sorted
  }

  /**
   * Sorting the table shows the same rows, ascending by the attribute,
   * except for popularity, which is shown descending. Rows with equal
   * popularity keep the table's order; rows equal in any other attribute
   * come out in reverse of the table's order.
   */
  lemma SortedRowsOrder(items: seq<TopItem>, attribute: string, k: Key)
    requires |items| > 0
    ensures |SortedRows(items, attribute)| == |items|
    ensures multiset(SortedRows(items, attribute)) == multiset(items)
    ensures attribute != "popularity" ==> SortedBy(SortedRows(items, attribute), ByAttribute(attribute))
    ensures attribute != "popularity" ==>
      WithKey(SortedRows(items, attribute), ByAttribute(attribute), k)
        == Reverse(WithKey(items, ByAttribute(attribute), k))
    ensures attribute == "popularity" ==>
      SortedDescendingBy(SortedRows(items, attribute), ByAttribute(attribute))
    ensures attribute == "popularity" ==>
      WithKey(SortedRows(items, attribute), ByAttribute(attribute), k) == WithKey(items, ByAttribute(attribute), k)
  {
    var key := ByAttribute(attribute);
    var sorted := MergeSort(items, key);
    MergeSortReversesTies(items, key, k);
    if attribute == "popularity" {
      ReverseMultiset(sorted);
      ReverseAt(sorted);
      ReverseSortedDescending(sorted, key);
      WithKeyReverse(sorted, key, k);
      ReverseReverse(WithKey(items, key, k));
    }
  }

  /** Sorted by popularity, the rows go from the most to the least popular. */
  lemma PopularityDescending(items: seq<TopItem>)
    requires |items| > 0
    ensures |SortedRows(items, "popularity")| == |items|
    ensures forall i, j :: 0 <= i < j < |items| ==>
      SortedRows(items, "popularity")[i].popularity >= SortedRows(items, "popularity")[j].popularity
  {
    var rows := SortedRows(items, "popularity");
    SortedRowsOrder(items, "popularity", Undefined);
    forall i, j | 0 <= i < j < |items|
      ensures rows[i].popularity >= rows[j].popularity
    {
      assert !KeyLess(ByAttribute("popularity")(rows[i]), ByAttribute("popularity")(rows[j]));
    }
  }

  /** A table of top tracks or top artists. */
  class TopItemsTable {
    var items: seq<TopItem>

    constructor(items: seq<TopItem>)
      ensures this.items == items
    {
      this.items := items;
    }

    /**
     * `sortTableByAttribute`: returns the rows to display; `this.items`
     * keeps its order. Sorting an empty table recurses until the engine
     * throws a RangeError, so the table has rows.
     */
    method SortTableByAttribute(attribute: string) returns (sortedItems: seq<TopItem>)
      requires |items| > 0
      ensures sortedItems == SortedRows(items, attribute)
    {
      sortedItems := MergeSort(items, ByAttribute(attribute));
      if attribute == "popularity" {
        var rows := new TopItem[|sortedItems|](i requires 0 <= i < |sortedItems| => sortedItems[i]);
        assert rows[..] == sortedItems;
        ReverseInPlace(rows);
        sortedItems := rows[..];
      }
    }
  }

  /** The period a time range stands for in the title, if it is one of the three. */
  function Period(timeRange: string): Option<string>
  {
    if timeRange == "short_term" then Some("Last 4 Weeks")
    else if timeRange == "medium_term" then Some("Last 6 Months")
    else if timeRange == "long_term" then Some("All Time")
    else None
  }

  /** `updateTableTitle`: the new title given the current one. */
  function UpdateTableTitle(title: string, itemType: string, limit: string, timeRange: string): (newTitle: string)
    ensures Period(timeRange) == None ==> newTitle == title
    ensures Period(timeRange).Some? ==>
      newTitle == "Your Top " + limit + " " + itemType + " (" + Period(timeRange).value + ")"
  {
    match Period(timeRange)
    case Some(period) => "Your Top " + limit + " " + itemType + " (" + period + ")"
    case None => title
  }

  /**
   * The three time ranges map to "Last 4 Weeks", "Last 6 Months" and "All
   * Time", and titles for different time ranges differ.
   */
  lemma TitlesByTimeRange(title: string, itemType: string, limit: string)
    ensures UpdateTableTitle(title, itemType, limit, "short_term") == "Your Top " + limit + " " + itemType + " (" + "Last 4 Weeks" + ")"
    ensures UpdateTableTitle(title, itemType, limit, "medium_term") == "Your Top " + limit + " " + itemType + " (" + "Last 6 Months" + ")"
    ensures UpdateTableTitle(title, itemType, limit, "long_term") == "Your Top " + limit + " " + itemType + " (" + "All Time" + ")"
    ensures forall r1, r2 :: Period(r1).Some? && Period(r2).Some? && r1 != r2 ==>
      UpdateTableTitle(title, itemType, limit, r1) != UpdateTableTitle(title, itemType, limit, r2)
  {
    TitlesDiffer(title, itemType, limit);
  }

  lemma TitlesDiffer(title: string, itemType: string, limit: string)
    ensures forall r1, r2 :: Period(r1).Some? && Period(r2).Some? && r1 != r2 ==>
      UpdateTableTitle(title, itemType, limit, r1) != UpdateTableTitle(title, itemType, limit, r2)
  {
    forall r1, r2 | Period(r1).Some? && Period(r2).Some? && r1 != r2
      ensures UpdateTableTitle(title, itemType, limit, r1) != UpdateTableTitle(title, itemType, limit, r2)
    {
      TitleLength(title, itemType, limit, r1);
      TitleLength(title, itemType, limit, r2);
      PeriodLengthsDiffer(r1, r2);
    }
  }

  lemma TitleLength(title: string, itemType: string, limit: string, timeRange: string)
    requires Period(timeRange).Some?
    ensures |UpdateTableTitle(title, itemType, limit, timeRange)|
      == |"Your Top " + limit + " " + itemType + " ("| + |Period(timeRange).value| + 1
  {
  }

  /** The three periods have different lengths. */
  lemma PeriodLengthsDiffer(r1: string, r2: string)
    requires Period(r1).Some? && Period(r2).Some? && r1 != r2
    ensures |Period(r1).value| != |Period(r2).value|
  {
  }
}
